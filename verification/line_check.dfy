/** The Line Alert evaluator: a fixed price level fires when the body of the
    symbol's last candle reaches it, in either direction. */
module LineCheck {
  import opened Options
  import opened Alerts
  import opened Seqs

  function Min(a: real, b: real): real { if a <= b then a else b }
  function Max(a: real, b: real): real { if a <= b then b else a }

  /** The checker's test: `p` between open and close, either way round. */
  predicate InBody(p: real, open: real, close: real)
  {
    (open <= p && p <= close) || (close <= p && p <= open)
  }

  /** Both bounds are inclusive and the direction of the candle is irrelevant. */
  lemma InBodyIsClosedInterval(p: real, open: real, close: real)
    ensures InBody(p, open, close) <==> Min(open, close) <= p <= Max(open, close)
    ensures InBody(p, open, close) == InBody(p, close, open)
    ensures InBody(open, open, close) && InBody(close, open, close)
  {
  }

  /** When a Line Alert fires, stated on its own: the symbol is a non-empty
      exact key of the index with a non-empty series, and the last candle has
      an open and a close whose closed interval holds the alert's price. */
  predicate LineTriggers(index: KlinesMap, a: LineAlert)
  {
    var symbol := a.base.symbol;
    && symbol != ""
    && symbol in index
    && |index[symbol]| > 0
    && var last := Last(index[symbol]);
    && last.openPrice.Some?
    && last.closePrice.Some?
    && Min(last.openPrice.value, last.closePrice.value) <= a.base.price
    && a.base.price <= Max(last.openPrice.value, last.closePrice.value)
  }

  function Triggers(index: KlinesMap): LineAlert -> bool
  {
    a => LineTriggers(index, a)
  }

  /** The triggered copy: fresh id and activation stamp, the storage id
      dropped, the candle's high and low recorded, all else copied. */
  function TriggeredLine(a: LineAlert, last: Candle, s: Stamp, render: int -> string): (r: LineAlert)
    ensures Unstamped(r.base) == Unstamped(a.base).(highPrice := last.highPrice, lowPrice := last.lowPrice)
    ensures r.imagesUrls == a.imagesUrls
    ensures r.base.mongoId.None? && r.base.id == s.id
    ensures r.base.activationTime == Some(s.time) && r.base.activationTimeStr == Some(render(s.time))
  {
    LineAlert(
      a.base.(mongoId := None, id := s.id, activationTime := Some(s.time),
              activationTimeStr := Some(render(s.time)),
              highPrice := last.highPrice, lowPrice := last.lowPrice),
      a.imagesUrls)
  }

  /** The copy a firing alert produces against its symbol's last candle. */
  function Fire(index: KlinesMap, a: LineAlert, s: Stamp, render: int -> string): LineAlert
    requires LineTriggers(index, a)
  {
    TriggeredLine(a, Last(index[a.base.symbol]), s, render)
  }

  /** One iteration of the checker's loop, branch for branch. */
  function EvalLine(index: KlinesMap, a: LineAlert, s: Stamp, render: int -> string): (r: Option<LineAlert>)
    ensures r.Some? <==> LineTriggers(index, a)
    ensures r.Some? ==> r.value == Fire(index, a, s, render)
  {
    var symbol := a.base.symbol;
    if symbol == "" || symbol !in index then None
    else
      var klineList := index[symbol];
      if |klineList| == 0 then None
      else
        var lastKline := Last(klineList);
        if lastKline.openPrice.None? || lastKline.closePrice.None? then None
        else
          var openPrice := lastKline.openPrice.value;
          var closePrice := lastKline.closePrice.value;
          InBodyIsClosedInterval(a.base.price, openPrice, closePrice);
          if InBody(a.base.price, openPrice, closePrice) then
            Some(TriggeredLine(a, lastKline, s, render))
          else None
  }

  /** The copies of firing alerts `f`, the j-th carrying stamp `k + j`. */
  function FireAll(index: KlinesMap, f: seq<LineAlert>, supply: Supply, k: nat): (r: seq<LineAlert>)
    requires forall i :: 0 <= i < |f| ==> LineTriggers(index, f[i])
    ensures |r| == |f|
    ensures forall j :: 0 <= j < |r| ==> r[j] == Fire(index, f[j], supply.stamp(k + j), supply.render)
  {
    if |f| == 0 then [] else [Fire(index, f[0], supply.stamp(k), supply.render)] + FireAll(index, f[1..], supply, k + 1)
  }

  lemma FilterTriggers(index: KlinesMap, alerts: seq<LineAlert>)
    ensures forall i :: 0 <= i < |Filter(alerts, Triggers(index))| ==> LineTriggers(index, Filter(alerts, Triggers(index))[i])
  {
    var f := Filter(alerts, Triggers(index));
    forall i | 0 <= i < |f|
      ensures LineTriggers(index, f[i])
    {
      assert f[i] in f;
    }
  }

  /** The loop from the `k`-th stamp on. */
  function CheckFrom(index: KlinesMap, alerts: seq<LineAlert>, supply: Supply, k: nat): (r: seq<LineAlert>)
    ensures r == FireAll(index, Filter(alerts, Triggers(index)), supply, k)
  {
    if |alerts| == 0 then []
    else
      var p := Triggers(index);
      var hit := LineTriggers(index, alerts[0]);
      var rest := CheckFrom(index, alerts[1..], supply, k + (if hit then 1 else 0));
      var m := EvalLine(index, alerts[0], supply.stamp(k), supply.render);
      assert Filter(alerts, p) == if hit then [alerts[0]] + Filter(alerts[1..], p) else Filter(alerts[1..], p);
      FilterTriggers(index, alerts[1..]);
      if m.Some? then [m.value] + rest else rest
  }

  /** The evaluator: one triggered copy per firing alert, in input order,
      the j-th copy carrying the j-th stamp. With `Kept` this says the output
      copies an order-preserving subsequence of the input holding every
      firing alert once. */
  function CheckLineAlerts(index: KlinesMap, alerts: seq<LineAlert>, supply: Supply): (r: seq<LineAlert>)
    ensures |r| == |Filter(alerts, Triggers(index))|
    ensures forall j :: 0 <= j < |r| ==>
      var f := Filter(alerts, Triggers(index));
      LineTriggers(index, f[j]) && r[j] == Fire(index, f[j], supply.stamp(j), supply.render)
  {
    FilterTriggers(index, alerts);
    CheckFrom(index, alerts, supply, 0)
  }

  /** Earlier candles never change the outcome: only the last one is read. */
  lemma LineOnlyLastCandle(index: KlinesMap, a: LineAlert, earlier: seq<Candle>, last: Candle, s: Stamp, render: int -> string)
    ensures EvalLine(index[a.base.symbol := earlier + [last]], a, s, render)
         == EvalLine(index[a.base.symbol := [last]], a, s, render)
  {
  }

  /** Every triggered copy keeps the source's price, symbol and active flag. */
  lemma LineCopiesKeepSource(index: KlinesMap, alerts: seq<LineAlert>, supply: Supply)
    ensures forall j :: 0 <= j < |CheckLineAlerts(index, alerts, supply)| ==>
      var m := CheckLineAlerts(index, alerts, supply)[j];
      exists a :: (a in alerts && LineTriggers(index, a)
        && m.base.price == a.base.price && m.base.symbol == a.base.symbol && m.base.isActive == a.base.isActive)
  {
    var r := CheckLineAlerts(index, alerts, supply);
    var f := Filter(alerts, Triggers(index));
    forall j | 0 <= j < |r|
      ensures exists a :: (a in alerts && LineTriggers(index, a)
        && r[j].base.price == a.base.price && r[j].base.symbol == a.base.symbol && r[j].base.isActive == a.base.isActive)
    {
      assert f[j] in f;
      var m := r[j];
      assert Unstamped(m.base).price == Unstamped(f[j].base).price;
      assert Unstamped(m.base).symbol == Unstamped(f[j].base).symbol;
      assert Unstamped(m.base).isActive == Unstamped(f[j].base).isActive;
    }
  }
}
