/** The VWAP aggregator: one volume-weighted typical price for a run of
    candles. */
module Vwap {
  import opened Options
  import opened Alerts
  import opened Seqs

  /** A missing volume counts as zero. */
  function Volume(c: Candle): real
  {
    c.volume.GetOr(0.0)
  }

  /** (high + low + close) / 3, a missing price counting as zero. */
  function TypicalPrice(c: Candle): real
  {
    (c.highPrice.GetOr(0.0) + c.lowPrice.GetOr(0.0) + c.closePrice.GetOr(0.0)) / 3.0
  }

  /** Candles with a zero or missing volume are skipped by the aggregator. */
  predicate Contributes(c: Candle)
  {
    Volume(c) != 0.0
  }

  function VolumeOf(c: Candle): real
  {
    if Contributes(c) then Volume(c) else 0.0
  }

  function PriceVolumeOf(c: Candle): real
  {
    if Contributes(c) then TypicalPrice(c) * Volume(c) else 0.0
  }

  /** The sum of `f` over `cs`, accumulated oldest first. */
  function Total(cs: seq<Candle>, f: Candle -> real): real
  {
    if |cs| == 0 then 0.0 else Total(cs[..|cs| - 1], f) + f(Last(cs))
  }

  function CumulativeVolume(cs: seq<Candle>): real
  {
    Total(cs, VolumeOf)
  }

  function CumulativePriceVolume(cs: seq<Candle>): real
  {
    Total(cs, PriceVolumeOf)
  }

  /** The reference definition: cumulative price-volume over cumulative
      volume, and 0 when the cumulative volume is 0. */
  function Vwap(cs: seq<Candle>): real
  {
    var v := CumulativeVolume(cs);
    if v == 0.0 then 0.0 else CumulativePriceVolume(cs) / v
  }

  /** The aggregator loop as the checker runs it. */
  method CalculateVwap(klines: seq<Candle>) returns (r: real)
    ensures r == Vwap(klines)
    ensures CumulativeVolume(klines) == 0.0 ==> r == 0.0
    ensures CumulativeVolume(klines) != 0.0 ==> r * CumulativeVolume(klines) == CumulativePriceVolume(klines)
  {
    var cumulativePriceVolume := 0.0;
    var cumulativeVolume := 0.0;
    var i := 0;
    while i < |klines|
      invariant 0 <= i <= |klines|
      invariant cumulativeVolume == CumulativeVolume(klines[..i])
      invariant cumulativePriceVolume == CumulativePriceVolume(klines[..i])
    {
      var kline := klines[i];
      assert klines[..i + 1][..i] == klines[..i];
      var high := kline.highPrice.GetOr(0.0);
      var low := kline.lowPrice.GetOr(0.0);
      var close := kline.closePrice.GetOr(0.0);
      var volume := kline.volume.GetOr(0.0);
      i := i + 1;
      if volume == 0.0 {
        continue;
      }
      var typicalPrice := (high + low + close) / 3.0;
      cumulativePriceVolume := cumulativePriceVolume + typicalPrice * volume;
      cumulativeVolume := cumulativeVolume + volume;
    }
    assert klines[..i] == klines;
    if cumulativeVolume == 0.0 {
      return 0.0;
    }
    r := cumulativePriceVolume / cumulativeVolume;
  }

  lemma {:induction false} TotalConcat(a: seq<Candle>, b: seq<Candle>, f: Candle -> real)
    ensures Total(a + b, f) == Total(a, f) + Total(b, f)
  {
    if |b| == 0 {
      assert a + b == a;
    } else {
      assert (a + b)[..|a + b| - 1] == a + b[..|b| - 1];
      TotalConcat(a, b[..|b| - 1], f);
    }
  }

  /** Adding a candle at the back adds its term. */
  lemma TotalSnoc(cs: seq<Candle>, x: Candle, f: Candle -> real)
    ensures Total(cs + [x], f) == Total(cs, f) + f(x)
  {
    assert (cs + [x])[..|cs|] == cs;
  }

  /** Taking a candle out of the middle of a run takes its term out of
      the sum. */
  lemma TotalRemoveMiddle(pre: seq<Candle>, x: Candle, post: seq<Candle>, f: Candle -> real)
    ensures Total(pre + [x] + post, f) == Total(pre + post, f) + f(x)
  {
    TotalConcat(pre + [x], post, f);
    TotalSnoc(pre, x, f);
    TotalConcat(pre, post, f);
  }

  lemma SplitAt(b: seq<Candle>, j: nat)
    requires j < |b|
    ensures b == b[..j] + [b[j]] + b[j + 1..]
  {
  }

  /** Taking one candle out of a run takes its term out of the sum. */
  lemma TotalRemove(b: seq<Candle>, j: nat, f: Candle -> real)
    requires j < |b|
    ensures Total(b, f) == Total(b[..j] + b[j + 1..], f) + f(b[j])
  {
    SplitAt(b, j);
    TotalRemoveMiddle(b[..j], b[j], b[j + 1..], f);
  }

  /** Removing the same candle from two permutations leaves permutations. */
  lemma MultisetRemove(a: seq<Candle>, b: seq<Candle>, j: nat)
    requires |a| > 0 && j < |b| && b[j] == Last(a)
    requires multiset(a) == multiset(b)
    ensures multiset(a[..|a| - 1]) == multiset(b[..j] + b[j + 1..])
  {
    var x := Last(a);
    var a' := a[..|a| - 1];
    assert a == a' + [x];
    assert b == b[..j] + [x] + b[j + 1..];
    assert multiset(a) == multiset(a') + multiset{x};
    assert multiset(b) == multiset(b[..j]) + multiset{x} + multiset(b[j + 1..]);
    assert multiset(b[..j] + b[j + 1..]) == multiset(b[..j]) + multiset(b[j + 1..]);
    assert multiset(a') == multiset(a) - multiset{x};
    assert multiset(b[..j] + b[j + 1..]) == multiset(b) - multiset{x};
  }

  /** Summation does not depend on the order of the candles. */
  lemma {:induction false} TotalPermutation(a: seq<Candle>, b: seq<Candle>, f: Candle -> real)
    requires multiset(a) == multiset(b)
    ensures Total(a, f) == Total(b, f)
    decreases |a|
  {
    if |a| == 0 {
      assert |b| == |multiset(b)| == 0;
    } else {
      var x := Last(a);
      assert x in multiset(b);
      var j :| 0 <= j < |b| && b[j] == x;
      MultisetRemove(a, b, j);
      TotalPermutation(a[..|a| - 1], b[..j] + b[j + 1..], f);
      TotalRemove(b, j, f);
    }
  }

  /** The VWAP does not depend on the order of its input. */
  lemma VwapPermutation(a: seq<Candle>, b: seq<Candle>)
    requires multiset(a) == multiset(b)
    ensures Vwap(a) == Vwap(b)
  {
    TotalPermutation(a, b, VolumeOf);
    TotalPermutation(a, b, PriceVolumeOf);
  }

  lemma {:induction false} TotalNoContribution(cs: seq<Candle>)
    requires forall i :: 0 <= i < |cs| ==> !Contributes(cs[i])
    ensures CumulativeVolume(cs) == 0.0 && CumulativePriceVolume(cs) == 0.0
  {
    if |cs| > 0 {
      TotalNoContribution(cs[..|cs| - 1]);
    }
  }

  /** Without any candle carrying volume (the empty run included) the VWAP is 0. */
  lemma VwapNoVolume(cs: seq<Candle>)
    requires forall i :: 0 <= i < |cs| ==> !Contributes(cs[i])
    ensures Vwap(cs) == 0.0
  {
    TotalNoContribution(cs);
  }

  lemma {:induction false} TotalDropsNonContributing(cs: seq<Candle>, f: Candle -> real)
    requires forall c :: !Contributes(c) ==> f(c) == 0.0
    ensures Total(Filter(cs, Contributes), f) == Total(cs, f)
  {
    if |cs| > 0 {
      var init := cs[..|cs| - 1];
      var x := Last(cs);
      assert cs == init + [x];
      TotalDropsNonContributing(init, f);
      FilterConcat(init, [x], Contributes);
      TotalConcat(Filter(init, Contributes), Filter([x], Contributes), f);
      assert Total([x], f) == f(x) by {
        assert [x][..0] == [];
      }
      if Contributes(x) {
        assert Filter([x], Contributes) == [x];
      } else {
        assert Filter([x], Contributes) == [];
      }
    }
  }

  /** Dropping the candles with zero or missing volume leaves the VWAP unchanged. */
  lemma VwapDropsNonContributing(cs: seq<Candle>)
    ensures Vwap(Filter(cs, Contributes)) == Vwap(cs)
  {
    TotalDropsNonContributing(cs, VolumeOf);
    TotalDropsNonContributing(cs, PriceVolumeOf);
  }

  /** A single candle with volume yields its own typical price. */
  lemma VwapSingle(c: Candle)
    requires Contributes(c)
    ensures Vwap([c]) == TypicalPrice(c)
  {
    assert [c][..0] == [] && Last([c]) == c;
    assert Total([c], VolumeOf) == Total([], VolumeOf) + VolumeOf(c);
    assert Total([c], PriceVolumeOf) == Total([], PriceVolumeOf) + PriceVolumeOf(c);
  }

  lemma {:induction false} TotalBounds(cs: seq<Candle>, lo: real, hi: real)
    requires forall i :: 0 <= i < |cs| ==> Volume(cs[i]) >= 0.0
    requires forall i :: 0 <= i < |cs| && Contributes(cs[i]) ==> lo <= TypicalPrice(cs[i]) <= hi
    ensures CumulativeVolume(cs) >= 0.0
    ensures lo * CumulativeVolume(cs) <= CumulativePriceVolume(cs) <= hi * CumulativeVolume(cs)
  {
    if |cs| > 0 {
      var init := cs[..|cs| - 1];
      var x := Last(cs);
      assert forall i :: 0 <= i < |init| ==> init[i] == cs[i];
      TotalBounds(init, lo, hi);
      if Contributes(x) {
        var v := Volume(x);
        var t := TypicalPrice(x);
        assert (t - lo) * v >= 0.0;
        assert (hi - t) * v >= 0.0;
      }
    }
  }

  /** With non-negative volumes, a defined (non-zero) VWAP lies between any
      lower and upper bound of the contributing candles' typical prices, in
      particular between their minimum and maximum. */
  lemma VwapBetween(cs: seq<Candle>, lo: real, hi: real)
    requires forall i :: 0 <= i < |cs| ==> Volume(cs[i]) >= 0.0
    requires forall i :: 0 <= i < |cs| && Contributes(cs[i]) ==> lo <= TypicalPrice(cs[i]) <= hi
    requires Vwap(cs) != 0.0
    ensures lo <= Vwap(cs) <= hi
  {
    TotalBounds(cs, lo, hi);
    var v := CumulativeVolume(cs);
    var pv := CumulativePriceVolume(cs);
    assert v > 0.0;
    var w := pv / v;
    assert w * v == pv;
    assert (w - lo) * v >= 0.0;
    assert (hi - w) * v >= 0.0;
  }
}
