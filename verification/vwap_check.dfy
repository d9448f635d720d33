/** The VWAP Alert evaluator: the VWAP from the anchor to the last candle
    fires when the body of the last candle reaches it. */
module VwapCheck {
  import opened Options
  import opened Alerts
  import opened Seqs
  import opened Decimal
  import opened Vwap
  import opened LineCheck

  /** A ten-character decimal rendering is taken to be seconds. */
  function NormalizeAnchor(anchorTime: int): int
  {
    if |IntToDecimal(anchorTime)| == 10 then anchorTime * 1000 else anchorTime
  }

  /** A negative value renders with a `-`, so ten characters there means
      nine digits. */
  lemma NegativeTenChars(t: int)
    requires t < 0
    ensures |IntToDecimal(t)| == 10 <==> -1000000000 < t <= -100000000
  {
    DecimalLength(-t, 9);
    assert Pow10(8) == 100000000 && Pow10(9) == 1000000000;
    assert |IntToDecimal(t)| == 1 + |NatToDecimal(-t)|;
  }

  /** For natural numbers ten characters means 10^9 <= t < 10^10; for
      negative ones it means -10^9 < t <= -10^8. */
  lemma NormalizeAnchorCases(t: int)
    ensures NormalizeAnchor(t) ==
      if 1000000000 <= t < 10000000000 || -1000000000 < t <= -100000000 then t * 1000 else t
  {
    if t >= 0 {
      TenDigits(t);
    } else {
      NegativeTenChars(t);
    }
  }

  predicate InWindow(c: Candle, fromMs: int, toMs: int)
  {
    fromMs <= c.openTime && c.openTime <= toMs
  }

  function WindowTest(fromMs: int, toMs: int): Candle -> bool
  {
    c => InWindow(c, fromMs, toMs)
  }

  /** The candles from the anchor to the last candle's open time, in order. */
  function Window(klines: seq<Candle>, anchorMs: int): seq<Candle>
    requires |klines| > 0
  {
    Filter(klines, WindowTest(anchorMs, Last(klines).openTime))
  }

  /** The window is non-empty exactly when the anchor does not lie after the
      last candle, and then it ends with the last candle. */
  lemma WindowEndsAtLast(klines: seq<Candle>, anchorMs: int)
    requires |klines| > 0
    ensures |Window(klines, anchorMs)| > 0 <==> anchorMs <= Last(klines).openTime
    ensures |Window(klines, anchorMs)| > 0 ==> Last(Window(klines, anchorMs)) == Last(klines)
  {
    var last := Last(klines);
    var p := WindowTest(anchorMs, last.openTime);
    var init := klines[..|klines| - 1];
    assert klines == init + [last];
    FilterConcat(init, [last], p);
    if anchorMs <= last.openTime {
      assert Filter([last], p) == [last];
    } else {
      WindowNonEmptyBound(klines, anchorMs);
    }
  }

  lemma WindowNonEmptyBound(klines: seq<Candle>, anchorMs: int)
    requires |klines| > 0
    ensures |Window(klines, anchorMs)| > 0 ==> anchorMs <= Last(klines).openTime
  {
    var w := Window(klines, anchorMs);
    if |w| > 0 {
      assert WindowTest(anchorMs, Last(klines).openTime)(w[0]);
    }
  }

  /** A candle is in the window iff it is in the series and its open time
      lies in [anchorMs, last open time]; the window is an order-preserving
      subsequence of the series. */
  lemma WindowMembers(klines: seq<Candle>, anchorMs: int)
    requires |klines| > 0
    ensures forall c :: c in Window(klines, anchorMs) <==>
      c in klines && anchorMs <= c.openTime <= Last(klines).openTime
    ensures var idx := Kept(klines, WindowTest(anchorMs, Last(klines).openTime));
      && (forall k :: 0 <= k < |idx| ==> idx[k] < |klines| && Window(klines, anchorMs)[k] == klines[idx[k]])
      && (forall k, l :: 0 <= k < l < |idx| ==> idx[k] < idx[l])
      && (forall i :: 0 <= i < |klines| ==> (i in idx <==> anchorMs <= klines[i].openTime <= Last(klines).openTime))
  {
    var p := WindowTest(anchorMs, Last(klines).openTime);
    FilterIsSubsequence(klines, p);
    forall c | c in klines && anchorMs <= c.openTime <= Last(klines).openTime
      ensures c in Window(klines, anchorMs)
    {
      var i :| 0 <= i < |klines| && klines[i] == c;
      var idx := Kept(klines, p);
      assert i in idx;
      var k :| 0 <= k < |idx| && idx[k] == i;
      assert Window(klines, anchorMs)[k] == c;
    }
  }

  /** The alert's anchor, when it has a usable one (present and non-zero). */
  predicate HasAnchor(a: VwapAlert)
  {
    a.anchorTime.Some? && a.anchorTime.value != 0
  }

  /** The VWAP over the alert's window; 0 ("undefined") when the alert has
      no usable anchor or its symbol has no series. */
  function AnchoredVwap(index: KlinesMap, a: VwapAlert): real
  {
    if HasAnchor(a) && a.base.symbol in index && |index[a.base.symbol]| > 0 then
      Vwap.Vwap(Window(index[a.base.symbol], NormalizeAnchor(a.anchorTime.value)))
    else 0.0
  }

  /** When a VWAP Alert fires, stated on its own: a non-empty symbol that is
      an exact key with a non-empty series, a usable anchor that does not lie
      after the last candle, a defined (non-zero) VWAP over the window, and a
      last candle with open and close whose closed interval holds it. */
  predicate VwapTriggers(index: KlinesMap, a: VwapAlert)
  {
    var symbol := a.base.symbol;
    && symbol != ""
    && HasAnchor(a)
    && symbol in index
    && |index[symbol]| > 0
    && var last := Last(index[symbol]);
    && NormalizeAnchor(a.anchorTime.value) <= last.openTime
    && var vwap := AnchoredVwap(index, a);
    && vwap != 0.0
    && last.openPrice.Some?
    && last.closePrice.Some?
    && Min(last.openPrice.value, last.closePrice.value) <= vwap
    && vwap <= Max(last.openPrice.value, last.closePrice.value)
  }

  function VwapTrigger(index: KlinesMap): VwapAlert -> bool
  {
    a => VwapTriggers(index, a)
  }

  /** The triggered copy: fresh id and activation stamp, the storage id
      dropped, `price` and `anchorPrice` set to the VWAP, all else copied. */
  function TriggeredVwap(a: VwapAlert, vwap: real, s: Stamp, render: int -> string): (r: VwapAlert)
    ensures Unstamped(r.base) == Unstamped(a.base).(price := vwap)
    ensures r.(base := a.base, anchorPrice := a.anchorPrice) == a
    ensures r.base.price == vwap && r.anchorPrice == Some(vwap)
    ensures r.base.mongoId.None? && r.base.id == s.id
    ensures r.base.activationTime == Some(s.time) && r.base.activationTimeStr == Some(render(s.time))
  {
    a.(base := a.base.(mongoId := None, id := s.id, activationTime := Some(s.time),
                       activationTimeStr := Some(render(s.time)), price := vwap),
       anchorPrice := Some(vwap))
  }

  function FireVwap(index: KlinesMap, a: VwapAlert, s: Stamp, render: int -> string): VwapAlert
  {
    TriggeredVwap(a, AnchoredVwap(index, a), s, render)
  }

  /** One iteration of the checker's loop, branch for branch. */
  function EvalVwap(index: KlinesMap, a: VwapAlert, s: Stamp, render: int -> string): (r: Option<VwapAlert>)
    ensures r.Some? <==> VwapTriggers(index, a)
    ensures r.Some? ==> r.value == FireVwap(index, a, s, render)
  {
    var symbol := a.base.symbol;
    if symbol == "" || a.anchorTime.None? || a.anchorTime.value == 0 || symbol !in index then None
    else
      var anchorTimeMs := NormalizeAnchor(a.anchorTime.value);
      var klineData := index[symbol];
      if |klineData| == 0 then None
      else
        var lastKline := Last(klineData);
        var filteredKlines := Window(klineData, anchorTimeMs);
        WindowEndsAtLast(klineData, anchorTimeMs);
        if |filteredKlines| == 0 then None
        else
          var vwap := Vwap.Vwap(filteredKlines);
          if vwap == 0.0 then None
          else if lastKline.openPrice.None? || lastKline.closePrice.None? then None
          else
            var openPrice := lastKline.openPrice.value;
            var closePrice := lastKline.closePrice.value;
            InBodyIsClosedInterval(vwap, openPrice, closePrice);
            if InBody(vwap, openPrice, closePrice) then
              Some(TriggeredVwap(a, vwap, s, render))
            else None
  }

  /** The copies of firing alerts `f`, the j-th carrying stamp `k + j`. */
  function FireAllVwap(index: KlinesMap, f: seq<VwapAlert>, supply: Supply, k: nat): (r: seq<VwapAlert>)
    ensures |r| == |f|
    ensures forall j :: 0 <= j < |r| ==> r[j] == FireVwap(index, f[j], supply.stamp(k + j), supply.render)
  {
    if |f| == 0 then []
    else
      [FireVwap(index, f[0], supply.stamp(k), supply.render)] + FireAllVwap(index, f[1..], supply, k + 1)
  }

  /** The loop from the `k`-th stamp on. */
  function CheckVwapFrom(index: KlinesMap, alerts: seq<VwapAlert>, supply: Supply, k: nat): (r: seq<VwapAlert>)
    ensures r == FireAllVwap(index, Filter(alerts, VwapTrigger(index)), supply, k)
  {
    if |alerts| == 0 then []
    else
      var p := VwapTrigger(index);
      var hit := VwapTriggers(index, alerts[0]);
      var rest := CheckVwapFrom(index, alerts[1..], supply, k + (if hit then 1 else 0));
      var m := EvalVwap(index, alerts[0], supply.stamp(k), supply.render);
      assert Filter(alerts, p) == if hit then [alerts[0]] + Filter(alerts[1..], p) else Filter(alerts[1..], p);
      if m.Some? then [m.value] + rest else rest
  }

  /** The evaluator: one triggered copy per firing alert, in input order,
      the j-th copy carrying the j-th stamp and the alert's window VWAP. */
  function CheckVwapAlerts(index: KlinesMap, alerts: seq<VwapAlert>, supply: Supply): (r: seq<VwapAlert>)
    ensures |r| == |Filter(alerts, VwapTrigger(index))|
    ensures forall j :: 0 <= j < |r| ==>
      r[j] == FireVwap(index, Filter(alerts, VwapTrigger(index))[j], supply.stamp(j), supply.render)
  {
    CheckVwapFrom(index, alerts, supply, 0)
  }

  /** One triggered copy keeps its source's symbol, anchor and active flag. */
  lemma FireVwapKeeps(index: KlinesMap, a: VwapAlert, s: Stamp, render: int -> string)
    ensures var m := FireVwap(index, a, s, render);
      && m.base.price == AnchoredVwap(index, a) && m.base.symbol == a.base.symbol
      && m.anchorTime == a.anchorTime && m.base.isActive == a.base.isActive
  {
    var m := FireVwap(index, a, s, render);
    assert Unstamped(m.base).symbol == Unstamped(a.base).symbol;
    assert Unstamped(m.base).isActive == Unstamped(a.base).isActive;
  }

  /** `m` is the triggered copy of some firing alert of `alerts`: same
      symbol, anchor and active flag, priced at that alert's window VWAP. */
  predicate HasVwapSource(index: KlinesMap, alerts: seq<VwapAlert>, m: VwapAlert)
  {
    exists a :: (a in alerts && VwapTriggers(index, a)
      && m.base.price == AnchoredVwap(index, a) && m.base.symbol == a.base.symbol
      && m.anchorTime == a.anchorTime && m.base.isActive == a.base.isActive)
  }

  /** The `j`-th triggered copy comes from the `j`-th firing alert. */
  lemma VwapCopyHasSource(index: KlinesMap, alerts: seq<VwapAlert>, supply: Supply, j: int)
    requires 0 <= j < |CheckVwapAlerts(index, alerts, supply)|
    ensures HasVwapSource(index, alerts, CheckVwapAlerts(index, alerts, supply)[j])
  {
    var p := VwapTrigger(index);
    var f := Filter(alerts, p);
    var a := f[j];
    assert a in f;
    assert a in alerts && p(a);
    FireVwapKeeps(index, a, supply.stamp(j), supply.render);
  }

  /** Every triggered copy comes from a firing alert. */
  lemma VwapCopiesKeepSource(index: KlinesMap, alerts: seq<VwapAlert>, supply: Supply)
    ensures forall j :: 0 <= j < |CheckVwapAlerts(index, alerts, supply)| ==>
      HasVwapSource(index, alerts, CheckVwapAlerts(index, alerts, supply)[j])
  {
    forall j | 0 <= j < |CheckVwapAlerts(index, alerts, supply)|
      ensures HasVwapSource(index, alerts, CheckVwapAlerts(index, alerts, supply)[j])
    {
      VwapCopyHasSource(index, alerts, supply, j);
    }
  }
}
