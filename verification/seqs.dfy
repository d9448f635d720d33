/** Generic sequence helpers: `Array.prototype.filter` and the last element. */
module Seqs {

  function Last<T>(xs: seq<T>): T
    requires |xs| > 0
  {
    xs[|xs| - 1]
  }

  /** Keeps, in order, the elements of `xs` that satisfy `p`. */
  function Filter<T>(xs: seq<T>, p: T -> bool): (r: seq<T>)
    ensures |r| <= |xs|
    ensures forall x :: x in r ==> x in xs && p(x)
    ensures forall i :: 0 <= i < |r| ==> p(r[i])
  {
    if |xs| == 0 then []
    else if p(xs[0]) then [xs[0]] + Filter(xs[1..], p)
    else Filter(xs[1..], p)
  }

  function Shift(idx: seq<nat>): (r: seq<nat>)
    ensures |r| == |idx|
    ensures forall k :: 0 <= k < |idx| ==> r[k] == idx[k] + 1
  {
    if |idx| == 0 then [] else [idx[0] + 1] + Shift(idx[1..])
  }

  /** The positions in `xs` whose element satisfies `p`, in increasing order. */
  function Kept<T>(xs: seq<T>, p: T -> bool): (idx: seq<nat>)
    ensures |idx| == |Filter(xs, p)|
  {
    if |xs| == 0 then []
    else if p(xs[0]) then [0] + Shift(Kept(xs[1..], p))
    else Shift(Kept(xs[1..], p))
  }

  /** The kept sequence reads `xs` at the positions `Kept(xs, p)`. */
  lemma {:induction false} KeptReads<T>(xs: seq<T>, p: T -> bool)
    ensures forall k :: 0 <= k < |Kept(xs, p)| ==>
      Kept(xs, p)[k] < |xs| && Filter(xs, p)[k] == xs[Kept(xs, p)[k]]
  {
    if |xs| > 0 {
      var tail := xs[1..];
      KeptReads(tail, p);
      var rest := Kept(tail, p);
      var idx := Kept(xs, p);
      var f := Filter(xs, p);
      var ft := Filter(tail, p);
      forall k | 0 <= k < |idx|
        ensures idx[k] < |xs| && f[k] == xs[idx[k]]
      {
        if p(xs[0]) {
          if k > 0 {
            assert idx[k] == rest[k - 1] + 1;
            assert f[k] == ft[k - 1];
          }
        } else {
          assert idx[k] == rest[k] + 1;
          assert f[k] == ft[k];
        }
      }
    }
  }

  /** The kept positions are strictly increasing, so order is preserved. */
  lemma {:induction false} KeptIncreasing<T>(xs: seq<T>, p: T -> bool)
    ensures forall k, l :: 0 <= k < l < |Kept(xs, p)| ==> Kept(xs, p)[k] < Kept(xs, p)[l]
  {
    if |xs| > 0 {
      KeptIncreasing(xs[1..], p);
      var rest := Kept(xs[1..], p);
      var sh := Shift(rest);
      var idx := Kept(xs, p);
      assert forall k, l :: 0 <= k < l < |sh| ==> sh[k] < sh[l];
      if p(xs[0]) {
        assert idx == [0] + sh;
        assert forall l :: 0 < l < |idx| ==> idx[l] == sh[l - 1];
      } else {
        assert idx == sh;
      }
    }
  }

  /** Shifting moves every position up by one, and nothing lands on 0. */
  lemma ShiftMembers(idx: seq<nat>)
    ensures 0 !in Shift(idx)
    ensures forall i: nat :: i + 1 in Shift(idx) <==> i in idx
  {
    var sh := Shift(idx);
    forall i: nat
      ensures i + 1 in sh <==> i in idx
    {
      if i + 1 in sh {
        var k :| 0 <= k < |sh| && sh[k] == i + 1;
        assert idx[k] == i;
      }
      if i in idx {
        var k :| 0 <= k < |idx| && idx[k] == i;
        assert sh[k] == i + 1;
      }
    }
  }

  /** One position past the head: kept in `xs` exactly when the position
      before it is kept in the tail. */
  lemma KeptStep<T>(xs: seq<T>, p: T -> bool, i: nat)
    requires 0 < i < |xs|
    ensures i in Kept(xs, p) <==> i - 1 in Kept(xs[1..], p)
  {
    var rest := Kept(xs[1..], p);
    var sh := Shift(rest);
    ShiftMembers(rest);
    assert i - 1 + 1 == i;
    if p(xs[0]) {
      assert Kept(xs, p) == [0] + sh;
      assert i in [0] + sh <==> i in sh;
    } else {
      assert Kept(xs, p) == sh;
    }
  }

  /** A position is kept exactly when its element satisfies `p`. */
  lemma {:induction false} KeptExactly<T>(xs: seq<T>, p: T -> bool)
    ensures forall i :: 0 <= i < |xs| ==> (i in Kept(xs, p) <==> p(xs[i]))
  {
    if |xs| > 0 {
      var tail := xs[1..];
      KeptExactly(tail, p);
      ShiftMembers(Kept(tail, p));
      assert 0 in Kept(xs, p) <==> p(xs[0]);
      forall i | 0 < i < |xs|
        ensures i in Kept(xs, p) <==> p(xs[i])
      {
        KeptStep(xs, p, i);
        assert xs[i] == tail[i - 1];
      }
    }
  }

  /** `Filter(xs, p)` is an order-preserving subsequence of `xs` that keeps
      every match: it reads `xs` at the strictly increasing positions
      `Kept(xs, p)`, and those are exactly the positions whose element
      satisfies `p`. */
  lemma FilterIsSubsequence<T>(xs: seq<T>, p: T -> bool)
    ensures var idx := Kept(xs, p);
      && (forall k :: 0 <= k < |idx| ==> idx[k] < |xs| && Filter(xs, p)[k] == xs[idx[k]])
      && (forall k, l :: 0 <= k < l < |idx| ==> idx[k] < idx[l])
      && (forall i :: 0 <= i < |xs| ==> (i in idx <==> p(xs[i])))
  {
    KeptReads(xs, p);
    KeptIncreasing(xs, p);
    KeptExactly(xs, p);
  }

  lemma {:induction false} FilterConcat<T>(xs: seq<T>, ys: seq<T>, p: T -> bool)
    ensures Filter(xs + ys, p) == Filter(xs, p) + Filter(ys, p)
  {
    if |xs| == 0 {
      assert xs + ys == ys;
    } else {
      assert (xs + ys)[1..] == xs[1..] + ys;
      FilterConcat(xs[1..], ys, p);
    }
  }

  /** Each element occurs in the filtered sequence exactly as often as in
      the input when it satisfies `p`, and not at all otherwise. */
  lemma {:induction false} FilterCount<T>(xs: seq<T>, p: T -> bool, x: T)
    ensures multiset(Filter(xs, p))[x] == if p(x) then multiset(xs)[x] else 0
  {
    if |xs| > 0 {
      FilterCount(xs[1..], p, x);
      assert xs == [xs[0]] + xs[1..];
      assert multiset(xs) == multiset([xs[0]]) + multiset(xs[1..]);
    }
  }

  /** When every element satisfies `p`, filtering changes nothing. */
  lemma {:induction false} FilterAll<T>(xs: seq<T>, p: T -> bool)
    requires forall i :: 0 <= i < |xs| ==> p(xs[i])
    ensures Filter(xs, p) == xs
  {
    if |xs| > 0 {
      var rest := xs[1..];
      assert forall i :: 0 <= i < |rest| ==> p(rest[i]) by {
        forall i | 0 <= i < |rest|
          ensures p(rest[i])
        {
          assert rest[i] == xs[i + 1];
        }
      }
      FilterAll(rest, p);
      assert p(xs[0]);
    }
  }

  /** When no element satisfies `p`, nothing is kept. */
  lemma {:induction false} FilterNone<T>(xs: seq<T>, p: T -> bool)
    requires forall i :: 0 <= i < |xs| ==> !p(xs[i])
    ensures Filter(xs, p) == []
  {
    if |xs| > 0 {
      var rest := xs[1..];
      assert forall i :: 0 <= i < |rest| ==> !p(rest[i]) by {
        forall i | 0 <= i < |rest|
          ensures !p(rest[i])
        {
          assert rest[i] == xs[i + 1];
        }
      }
      FilterNone(rest, p);
      assert !p(xs[0]);
    }
  }

  /** Whether `pre` is an initial segment of `s`. */
  predicate IsPrefix<T(==)>(pre: seq<T>, s: seq<T>)
  {
    |pre| <= |s| && s[..|pre|] == pre
  }

  /** A prefix of a list whose every element has a property has it too. */
  lemma PrefixKeeps<T>(pre: seq<T>, s: seq<T>, p: T -> bool)
    requires IsPrefix(pre, s)
    requires forall j :: 0 <= j < |s| ==> p(s[j])
    ensures forall j :: 0 <= j < |pre| ==> p(pre[j])
  {
    forall j | 0 <= j < |pre|
      ensures p(pre[j])
    {
      assert pre[j] == s[..|pre|][j];
    }
  }
}
