/** The hourly check: index the snapshot, run the Line stage and then the
    VWAP stage, each inside its own error barrier, and record what it asks
    of storage and of the report sender as an effect log. */
module Checker {
  import opened Options
  import opened Alerts
  import opened Seqs
  import opened LineCheck
  import opened VwapCheck

  /** The working partitions held by the storage collaborator. */
  datatype Storage = Storage(workingLine: seq<LineAlert>, workingVwap: seq<VwapAlert>)

  predicate LineIsActive(a: LineAlert) { a.base.isActive }
  predicate VwapIsActive(a: VwapAlert) { a.base.isActive }

  /** `getLineAlerts("working", true)`: the working alerts whose flag is set. */
  function GetLineAlerts(st: Storage): seq<LineAlert>
  {
    Filter(st.workingLine, LineIsActive)
  }

  /** `getVwapAlerts("working", true)`. */
  function GetVwapAlerts(st: Storage): seq<VwapAlert>
  {
    Filter(st.workingVwap, VwapIsActive)
  }

  /** What the checker asks of its collaborators, in order. */
  datatype Effect =
    | ReadLineAlerts(status: AlertsCollection, isActive: bool)
    | ReadVwapAlerts(status: AlertsCollection, isActive: bool)
    | AddLineAlert(status: AlertsCollection, line: LineAlert)
    | AddVwapAlert(status: AlertsCollection, vwap: VwapAlert)
    | SendLineReport(lines: seq<LineAlert>)
    | SendVwapReport(vwaps: seq<VwapAlert>)

  predicate IsLineEffect(e: Effect)
  {
    e.ReadLineAlerts? || e.AddLineAlert? || e.SendLineReport?
  }

  predicate IsVwapEffect(e: Effect)
  {
    !IsLineEffect(e)
  }

  predicate IsLineReport(e: Effect) { e.SendLineReport? }
  predicate IsVwapReport(e: Effect) { e.SendVwapReport? }

  /** How a stage's `try` block ends: it runs to completion, or something in
      it throws after the first `effects` requests have been issued. */
  datatype StageFault = Completes | ThrowsAfter(effects: nat)

  /** The non-deterministic inputs of one run. */
  datatype Env = Env(lineSupply: Supply, vwapSupply: Supply, lineFault: StageFault, vwapFault: StageFault)

  /** A snapshot entry the index keeps. */
  predicate Indexed(d: CoinMarketData)
  {
    d.symbol != "" && |d.candles| > 0
  }

  /** The symbol -> candles index, filled in snapshot order. */
  function BuildIndex(data: seq<CoinMarketData>): (index: KlinesMap)
    ensures forall s :: s in index ==> s != "" && |index[s]| > 0
  {
    if |data| == 0 then map[]
    else
      var index := BuildIndex(data[..|data| - 1]);
      var d := Last(data);
      if Indexed(d) then index[d.symbol := d.candles] else index
  }

  /** The keys are exactly the symbols of the kept entries. */
  lemma {:induction false} BuildIndexKeys(data: seq<CoinMarketData>)
    ensures forall s :: s in BuildIndex(data) <==>
      exists i :: 0 <= i < |data| && Indexed(data[i]) && data[i].symbol == s
  {
    if |data| > 0 {
      var init := data[..|data| - 1];
      BuildIndexKeys(init);
      assert forall i :: 0 <= i < |init| ==> init[i] == data[i];
      forall s | s in BuildIndex(data)
        ensures exists i :: 0 <= i < |data| && Indexed(data[i]) && data[i].symbol == s
      {
        if !(Indexed(Last(data)) && Last(data).symbol == s) {
          assert s in BuildIndex(init);
          var i :| 0 <= i < |init| && Indexed(init[i]) && init[i].symbol == s;
          assert data[i] == init[i];
        }
      }
    }
  }

  /** A later entry for the same symbol overwrites an earlier one. */
  lemma {:induction false} BuildIndexLastWins(data: seq<CoinMarketData>, i: nat)
    requires i < |data| && Indexed(data[i])
    requires forall j :: i < j < |data| && Indexed(data[j]) ==> data[j].symbol != data[i].symbol
    ensures data[i].symbol in BuildIndex(data) && BuildIndex(data)[data[i].symbol] == data[i].candles
  {
    if i < |data| - 1 {
      var init := data[..|data| - 1];
      assert forall j :: 0 <= j < |init| ==> init[j] == data[j];
      BuildIndexLastWins(init, i);
    }
  }

  /** The requests a stage issues before its barrier catches a throw. */
  function Truncate(planned: seq<Effect>, fault: StageFault): (r: seq<Effect>)
    ensures IsPrefix(r, planned)
    ensures fault.Completes? ==> r == planned
    ensures fault.ThrowsAfter? ==> |r| == if fault.effects < |planned| then fault.effects else |planned|
  {
    match fault
    case Completes => planned
    case ThrowsAfter(k) => if k < |planned| then planned[..k] else planned
  }

  function LineAppends(matched: seq<LineAlert>): seq<Effect>
  {
    if |matched| == 0 then [] else [AddLineAlert(Triggered, matched[0])] + LineAppends(matched[1..])
  }

  function VwapAppends(matched: seq<VwapAlert>): seq<Effect>
  {
    if |matched| == 0 then [] else [AddVwapAlert(Triggered, matched[0])] + VwapAppends(matched[1..])
  }

  /** The Line stage: read the active working alerts; if any fired, append
      each copy to "triggered" and then request the Line report. */
  function LineStage(index: KlinesMap, st: Storage, supply: Supply, fault: StageFault): seq<Effect>
  {
    var active := GetLineAlerts(st);
    var matched := CheckLineAlerts(index, active, supply);
    var planned := [ReadLineAlerts(Working, true)]
      + (if |active| > 0 && |matched| > 0 then LineAppends(matched) + [SendLineReport(matched)] else []);
    Truncate(planned, fault)
  }

  /** The VWAP stage, shaped like the Line stage. */
  function VwapStage(index: KlinesMap, st: Storage, supply: Supply, fault: StageFault): seq<Effect>
  {
    var active := GetVwapAlerts(st);
    var matched := CheckVwapAlerts(index, active, supply);
    var planned := [ReadVwapAlerts(Working, true)]
      + (if |active| > 0 && |matched| > 0 then VwapAppends(matched) + [SendVwapReport(matched)] else []);
    Truncate(planned, fault)
  }

  /** The Line matches a run acts on: the firing active working alerts. */
  function LineMatches(md: MarketData, st: Storage, env: Env): seq<LineAlert>
  {
    CheckLineAlerts(BuildIndex(md.data), GetLineAlerts(st), env.lineSupply)
  }

  /** The VWAP matches a run acts on. */
  function VwapMatches(md: MarketData, st: Storage, env: Env): seq<VwapAlert>
  {
    CheckVwapAlerts(BuildIndex(md.data), GetVwapAlerts(st), env.vwapSupply)
  }

  /** `runAlertChecks`: nothing at all without indexed data; otherwise the
      Line stage's requests followed by the VWAP stage's. No Line request
      follows a VWAP request; storage is only read from "working" (active
      alerts) and only appended to in "triggered"; each stage appends a
      prefix of its matches, all of them when it completes, and requests at
      most one report, exactly one when it completes with matches. */
  function RunAlertChecks(md: MarketData, st: Storage, env: Env): (log: seq<Effect>)
    ensures |BuildIndex(md.data)| == 0 ==> log == []
    ensures RunShape(log)
    ensures forall i :: 0 <= i < |log| && log[i].SendLineReport? ==>
      log[i].lines == LineMatches(md, st, env) && |LineMatches(md, st, env)| > 0
    ensures forall i :: 0 <= i < |log| && log[i].SendVwapReport? ==>
      log[i].vwaps == VwapMatches(md, st, env) && |VwapMatches(md, st, env)| > 0
    ensures IsPrefix(LineAppended(log), LineMatches(md, st, env))
    ensures IsPrefix(VwapAppended(log), VwapMatches(md, st, env))
    ensures |BuildIndex(md.data)| > 0 && env.lineFault.Completes? ==> LineAppended(log) == LineMatches(md, st, env)
    ensures |BuildIndex(md.data)| > 0 && env.vwapFault.Completes? ==> VwapAppended(log) == VwapMatches(md, st, env)
    ensures |Filter(log, IsLineReport)| <= 1 && |Filter(log, IsVwapReport)| <= 1
    ensures |BuildIndex(md.data)| > 0 && env.lineFault.Completes? ==>
      |Filter(log, IsLineReport)| == if |LineMatches(md, st, env)| > 0 then 1 else 0
    ensures |BuildIndex(md.data)| > 0 && env.vwapFault.Completes? ==>
      |Filter(log, IsVwapReport)| == if |VwapMatches(md, st, env)| > 0 then 1 else 0
    ensures |BuildIndex(md.data)| > 0 ==>
      Filter(log, IsVwapEffect) == VwapStage(BuildIndex(md.data), st, env.vwapSupply, env.vwapFault)
  {
    var index := BuildIndex(md.data);
    if |index| == 0 then []
    else
      var ls := LineStage(index, st, env.lineSupply, env.lineFault);
      var vs := VwapStage(index, st, env.vwapSupply, env.vwapFault);
      RunFacts(index, st, env, LineMatches(md, st, env), VwapMatches(md, st, env), ls, vs);
      ls + vs
  }

  // ---- Observing the log ----

  /** The Line alerts appended to storage, in order. */
  function LineAppended(log: seq<Effect>): seq<LineAlert>
  {
    if |log| == 0 then []
    else (if log[0].AddLineAlert? then [log[0].line] else []) + LineAppended(log[1..])
  }

  /** The VWAP alerts appended to storage, in order. */
  function VwapAppended(log: seq<Effect>): seq<VwapAlert>
  {
    if |log| == 0 then []
    else (if log[0].AddVwapAlert? then [log[0].vwap] else []) + VwapAppended(log[1..])
  }

  lemma {:induction false} LineAppendedConcat(a: seq<Effect>, b: seq<Effect>)
    ensures LineAppended(a + b) == LineAppended(a) + LineAppended(b)
  {
    if |a| == 0 {
      assert a + b == b;
    } else {
      assert (a + b)[0] == a[0];
      assert (a + b)[1..] == a[1..] + b;
      LineAppendedConcat(a[1..], b);
    }
  }

  lemma {:induction false} VwapAppendedConcat(a: seq<Effect>, b: seq<Effect>)
    ensures VwapAppended(a + b) == VwapAppended(a) + VwapAppended(b)
  {
    if |a| == 0 {
      assert a + b == b;
    } else {
      assert (a + b)[0] == a[0];
      assert (a + b)[1..] == a[1..] + b;
      VwapAppendedConcat(a[1..], b);
    }
  }

  lemma AppendedConcat(a: seq<Effect>, b: seq<Effect>)
    ensures LineAppended(a + b) == LineAppended(a) + LineAppended(b)
    ensures VwapAppended(a + b) == VwapAppended(a) + VwapAppended(b)
  {
    LineAppendedConcat(a, b);
    VwapAppendedConcat(a, b);
  }

  lemma AppendedPrefix(a: seq<Effect>, b: seq<Effect>)
    requires IsPrefix(a, b)
    ensures IsPrefix(LineAppended(a), LineAppended(b))
    ensures IsPrefix(VwapAppended(a), VwapAppended(b))
  {
    assert b == a + b[|a|..];
    AppendedConcat(a, b[|a|..]);
  }

  lemma {:induction false} LineAppendsAppended(matched: seq<LineAlert>)
    ensures LineAppended(LineAppends(matched)) == matched
    ensures VwapAppended(LineAppends(matched)) == []
    ensures forall i :: 0 <= i < |LineAppends(matched)| ==>
      LineAppends(matched)[i].AddLineAlert? && LineAppends(matched)[i].status == Triggered
  {
    if |matched| > 0 {
      var rest := LineAppends(matched[1..]);
      LineAppendsAppended(matched[1..]);
      assert LineAppends(matched) == [AddLineAlert(Triggered, matched[0])] + rest;
      AppendedConcat([AddLineAlert(Triggered, matched[0])], rest);
    }
  }

  lemma {:induction false} VwapAppendsAppended(matched: seq<VwapAlert>)
    ensures VwapAppended(VwapAppends(matched)) == matched
    ensures LineAppended(VwapAppends(matched)) == []
    ensures forall i :: 0 <= i < |VwapAppends(matched)| ==>
      VwapAppends(matched)[i].AddVwapAlert? && VwapAppends(matched)[i].status == Triggered
  {
    if |matched| > 0 {
      var rest := VwapAppends(matched[1..]);
      VwapAppendsAppended(matched[1..]);
      assert VwapAppends(matched) == [AddVwapAlert(Triggered, matched[0])] + rest;
      AppendedConcat([AddVwapAlert(Triggered, matched[0])], rest);
    }
  }

  // ---- Per-stage facts ----

  /** The shape every prefix of a Line stage's requests keeps: only Line
      requests, reads of the active working alerts, appends to "triggered",
      and a report that carries the whole non-empty match list. */
  predicate LineStageShape(log: seq<Effect>, matched: seq<LineAlert>)
  {
    forall i :: 0 <= i < |log| ==>
      && IsLineEffect(log[i])
      && (log[i].ReadLineAlerts? ==> log[i].status == Working && log[i].isActive)
      && (log[i].AddLineAlert? ==> log[i].status == Triggered)
      && (log[i].SendLineReport? ==> log[i].lines == matched && |matched| > 0)
  }

  predicate VwapStageShape(log: seq<Effect>, matched: seq<VwapAlert>)
  {
    forall i :: 0 <= i < |log| ==>
      && IsVwapEffect(log[i])
      && (log[i].ReadVwapAlerts? ==> log[i].status == Working && log[i].isActive)
      && (log[i].AddVwapAlert? ==> log[i].status == Triggered)
      && (log[i].SendVwapReport? ==> log[i].vwaps == matched && |matched| > 0)
  }

  /** The order of a Line stage's requests: the read of the alerts comes
      first and only once, and a report, if any, is the last request, so
      it follows every append. */
  predicate LineStageOrder(log: seq<Effect>)
  {
    && (|log| > 0 ==> log[0].ReadLineAlerts?)
    && (forall i :: 0 < i < |log| ==> !log[i].ReadLineAlerts?)
    && (forall i :: 0 <= i < |log| && log[i].SendLineReport? ==> i == |log| - 1)
  }

  predicate VwapStageOrder(log: seq<Effect>)
  {
    && (|log| > 0 ==> log[0].ReadVwapAlerts?)
    && (forall i :: 0 < i < |log| ==> !log[i].ReadVwapAlerts?)
    && (forall i :: 0 <= i < |log| && log[i].SendVwapReport? ==> i == |log| - 1)
  }

  /** The Line stage's requests when nothing throws. */
  function LinePlan(matched: seq<LineAlert>): seq<Effect>
  {
    [ReadLineAlerts(Working, true)] + (if |matched| > 0 then LineAppends(matched) + [SendLineReport(matched)] else [])
  }

  function VwapPlan(matched: seq<VwapAlert>): seq<Effect>
  {
    [ReadVwapAlerts(Working, true)] + (if |matched| > 0 then VwapAppends(matched) + [SendVwapReport(matched)] else [])
  }

  lemma LineStageIsPlan(index: KlinesMap, st: Storage, supply: Supply, fault: StageFault)
    ensures LineStage(index, st, supply, fault)
         == Truncate(LinePlan(CheckLineAlerts(index, GetLineAlerts(st), supply)), fault)
  {
  }

  lemma VwapStageIsPlan(index: KlinesMap, st: Storage, supply: Supply, fault: StageFault)
    ensures VwapStage(index, st, supply, fault)
         == Truncate(VwapPlan(CheckVwapAlerts(index, GetVwapAlerts(st), supply)), fault)
  {
  }

  lemma LinePlanShape(matched: seq<LineAlert>)
    ensures LineStageShape(LinePlan(matched), matched)
  {
    var plan := LinePlan(matched);
    LineAppendsAppended(matched);
    forall i | 0 <= i < |plan|
      ensures IsLineEffect(plan[i])
      ensures plan[i].ReadLineAlerts? ==> plan[i].status == Working && plan[i].isActive
      ensures plan[i].AddLineAlert? ==> plan[i].status == Triggered
      ensures plan[i].SendLineReport? ==> plan[i].lines == matched && |matched| > 0
    {
      if i > 0 {
        var apps := LineAppends(matched);
        assert |matched| > 0;
        if i - 1 < |apps| {
          assert plan[i] == apps[i - 1];
        } else {
          assert plan[i] == SendLineReport(matched);
        }
      }
    }
  }

  lemma VwapPlanShape(matched: seq<VwapAlert>)
    ensures VwapStageShape(VwapPlan(matched), matched)
  {
    var plan := VwapPlan(matched);
    VwapAppendsAppended(matched);
    forall i | 0 <= i < |plan|
      ensures IsVwapEffect(plan[i])
      ensures plan[i].ReadVwapAlerts? ==> plan[i].status == Working && plan[i].isActive
      ensures plan[i].AddVwapAlert? ==> plan[i].status == Triggered
      ensures plan[i].SendVwapReport? ==> plan[i].vwaps == matched && |matched| > 0
    {
      if i > 0 {
        var apps := VwapAppends(matched);
        assert |matched| > 0;
        if i - 1 < |apps| {
          assert plan[i] == apps[i - 1];
        } else {
          assert plan[i] == SendVwapReport(matched);
        }
      }
    }
  }

  lemma LinePlanAppended(matched: seq<LineAlert>)
    ensures LineAppended(LinePlan(matched)) == matched
    ensures VwapAppended(LinePlan(matched)) == []
  {
    LineAppendsAppended(matched);
    var body := if |matched| > 0 then LineAppends(matched) + [SendLineReport(matched)] else [];
    AppendedConcat([ReadLineAlerts(Working, true)], body);
    AppendedConcat(LineAppends(matched), [SendLineReport(matched)]);
  }

  lemma VwapPlanAppended(matched: seq<VwapAlert>)
    ensures VwapAppended(VwapPlan(matched)) == matched
    ensures LineAppended(VwapPlan(matched)) == []
  {
    VwapAppendsAppended(matched);
    var body := if |matched| > 0 then VwapAppends(matched) + [SendVwapReport(matched)] else [];
    AppendedConcat([ReadVwapAlerts(Working, true)], body);
    AppendedConcat(VwapAppends(matched), [SendVwapReport(matched)]);
  }

  lemma LinePlanReports(matched: seq<LineAlert>)
    ensures |Filter(LinePlan(matched), IsLineReport)| == if |matched| > 0 then 1 else 0
  {
    LineAppendsAppended(matched);
    var apps := LineAppends(matched);
    var read := [ReadLineAlerts(Working, true)];
    FilterNone(apps, IsLineReport);
    FilterNone(read, IsLineReport);
    if |matched| > 0 {
      FilterConcat(read, apps + [SendLineReport(matched)], IsLineReport);
      FilterConcat(apps, [SendLineReport(matched)], IsLineReport);
    } else {
      assert LinePlan(matched) == read;
    }
  }

  lemma VwapPlanReports(matched: seq<VwapAlert>)
    ensures |Filter(VwapPlan(matched), IsVwapReport)| == if |matched| > 0 then 1 else 0
  {
    VwapAppendsAppended(matched);
    var apps := VwapAppends(matched);
    var read := [ReadVwapAlerts(Working, true)];
    FilterNone(apps, IsVwapReport);
    FilterNone(read, IsVwapReport);
    if |matched| > 0 {
      FilterConcat(read, apps + [SendVwapReport(matched)], IsVwapReport);
      FilterConcat(apps, [SendVwapReport(matched)], IsVwapReport);
    } else {
      assert VwapPlan(matched) == read;
    }
  }

  /** Cutting the Line plan short keeps its order: a throw before the
      report drops the report altogether. */
  lemma LinePlanOrder(matched: seq<LineAlert>, fault: StageFault)
    ensures LineStageOrder(Truncate(LinePlan(matched), fault))
  {
    var plan := LinePlan(matched);
    var log := Truncate(plan, fault);
    var apps := LineAppends(matched);
    LineAppendsAppended(matched);
    forall i | 0 <= i < |log|
      ensures i > 0 ==> !log[i].ReadLineAlerts?
      ensures log[i].SendLineReport? ==> i == |log| - 1
    {
      assert log[i] == plan[i];
      if i > 0 {
        assert |matched| > 0;
        if i - 1 < |apps| {
          assert plan[i] == apps[i - 1];
        } else {
          assert plan[i] == SendLineReport(matched);
          assert i == |plan| - 1;
        }
      }
    }
  }

  lemma VwapPlanOrder(matched: seq<VwapAlert>, fault: StageFault)
    ensures VwapStageOrder(Truncate(VwapPlan(matched), fault))
  {
    var plan := VwapPlan(matched);
    var log := Truncate(plan, fault);
    var apps := VwapAppends(matched);
    VwapAppendsAppended(matched);
    forall i | 0 <= i < |log|
      ensures i > 0 ==> !log[i].ReadVwapAlerts?
      ensures log[i].SendVwapReport? ==> i == |log| - 1
    {
      assert log[i] == plan[i];
      if i > 0 {
        assert |matched| > 0;
        if i - 1 < |apps| {
          assert plan[i] == apps[i - 1];
        } else {
          assert plan[i] == SendVwapReport(matched);
          assert i == |plan| - 1;
        }
      }
    }
  }

  /** A Line report is requested only after every match has been
      appended: a log of the plan that holds the report is the whole plan. */
  lemma LinePlanReportAfterAppends(matched: seq<LineAlert>, fault: StageFault)
    ensures var log := Truncate(LinePlan(matched), fault);
      (exists i :: 0 <= i < |log| && log[i].SendLineReport?) ==> LineAppended(log) == matched
  {
    var plan := LinePlan(matched);
    var log := Truncate(plan, fault);
    if i :| 0 <= i < |log| && log[i].SendLineReport? {
      LinePlanOrder(matched, Completes);
      assert plan[i] == log[i];
      assert i == |plan| - 1;
      assert log == plan;
      LinePlanAppended(matched);
    }
  }

  /** A Vwap report is requested only after every match has been
      appended: a log of the plan that holds the report is the whole plan. */
  lemma VwapPlanReportAfterAppends(matched: seq<VwapAlert>, fault: StageFault)
    ensures var log := Truncate(VwapPlan(matched), fault);
      (exists i :: 0 <= i < |log| && log[i].SendVwapReport?) ==> VwapAppended(log) == matched
  {
    var plan := VwapPlan(matched);
    var log := Truncate(plan, fault);
    if i :| 0 <= i < |log| && log[i].SendVwapReport? {
      VwapPlanOrder(matched, Completes);
      assert plan[i] == log[i];
      assert i == |plan| - 1;
      assert log == plan;
      VwapPlanAppended(matched);
    }
  }

  /** A stage cut short by a throw issued a prefix of its planned requests. */
  lemma TruncatePrefixFacts(planned: seq<Effect>, fault: StageFault, p: Effect -> bool)
    ensures |Filter(Truncate(planned, fault), p)| <= |Filter(planned, p)|
    ensures IsPrefix(LineAppended(Truncate(planned, fault)), LineAppended(planned))
    ensures IsPrefix(VwapAppended(Truncate(planned, fault)), VwapAppended(planned))
  {
    var log := Truncate(planned, fault);
    assert planned == log + planned[|log|..];
    FilterConcat(log, planned[|log|..], p);
    AppendedPrefix(log, planned);
  }

  /** A Line stage's requests for a given match list, whether or not it
      throws: only Line requests, appends to "triggered" that are a prefix
      of the matches (all of them when it completes), and at most one
      report, issued exactly when it completes with matches. */
  lemma LinePlanFacts(matched: seq<LineAlert>, fault: StageFault)
    ensures var log := Truncate(LinePlan(matched), fault);
      && LineStageShape(log, matched)
      && IsPrefix(LineAppended(log), matched)
      && (fault.Completes? ==> LineAppended(log) == matched)
      && VwapAppended(log) == []
      && |Filter(log, IsLineReport)| <= 1
      && (fault.Completes? ==> |Filter(log, IsLineReport)| == if |matched| > 0 then 1 else 0)
  {
    var plan := LinePlan(matched);
    LinePlanShape(matched);
    LinePlanAppended(matched);
    LinePlanReports(matched);
    TruncatePrefixFacts(plan, fault, IsLineReport);
    var log := Truncate(plan, fault);
    assert forall i :: 0 <= i < |log| ==> log[i] == plan[i];
    assert VwapAppended(log) == [] by {
      assert IsPrefix(VwapAppended(log), VwapAppended(plan));
    }
  }

  lemma VwapPlanFacts(matched: seq<VwapAlert>, fault: StageFault)
    ensures var log := Truncate(VwapPlan(matched), fault);
      && VwapStageShape(log, matched)
      && IsPrefix(VwapAppended(log), matched)
      && (fault.Completes? ==> VwapAppended(log) == matched)
      && LineAppended(log) == []
      && |Filter(log, IsVwapReport)| <= 1
      && (fault.Completes? ==> |Filter(log, IsVwapReport)| == if |matched| > 0 then 1 else 0)
  {
    var plan := VwapPlan(matched);
    VwapPlanShape(matched);
    VwapPlanAppended(matched);
    VwapPlanReports(matched);
    TruncatePrefixFacts(plan, fault, IsVwapReport);
    var log := Truncate(plan, fault);
    assert forall i :: 0 <= i < |log| ==> log[i] == plan[i];
    assert LineAppended(log) == [] by {
      assert IsPrefix(LineAppended(log), LineAppended(plan));
    }
  }

  /** What one Line stage requests, for the matches it computes. */
  lemma LineStageFacts(index: KlinesMap, st: Storage, supply: Supply, fault: StageFault)
    ensures var matched := CheckLineAlerts(index, GetLineAlerts(st), supply);
      var log := LineStage(index, st, supply, fault);
      && LineStageShape(log, matched)
      && LineStageOrder(log)
      && ((exists i :: 0 <= i < |log| && log[i].SendLineReport?) ==> LineAppended(log) == matched)
      && IsPrefix(LineAppended(log), matched)
      && (fault.Completes? ==> LineAppended(log) == matched)
      && VwapAppended(log) == []
      && |Filter(log, IsLineReport)| <= 1
      && (fault.Completes? ==> |Filter(log, IsLineReport)| == if |matched| > 0 then 1 else 0)
  {
    LineStageIsPlan(index, st, supply, fault);
    LinePlanFacts(CheckLineAlerts(index, GetLineAlerts(st), supply), fault);
    LinePlanOrder(CheckLineAlerts(index, GetLineAlerts(st), supply), fault);
    LinePlanReportAfterAppends(CheckLineAlerts(index, GetLineAlerts(st), supply), fault);
  }

  /** What one VWAP stage requests, for the matches it computes. */
  lemma VwapStageFacts(index: KlinesMap, st: Storage, supply: Supply, fault: StageFault)
    ensures var matched := CheckVwapAlerts(index, GetVwapAlerts(st), supply);
      var log := VwapStage(index, st, supply, fault);
      && VwapStageShape(log, matched)
      && VwapStageOrder(log)
      && ((exists i :: 0 <= i < |log| && log[i].SendVwapReport?) ==> VwapAppended(log) == matched)
      && IsPrefix(VwapAppended(log), matched)
      && (fault.Completes? ==> VwapAppended(log) == matched)
      && LineAppended(log) == []
      && |Filter(log, IsVwapReport)| <= 1
      && (fault.Completes? ==> |Filter(log, IsVwapReport)| == if |matched| > 0 then 1 else 0)
  {
    VwapStageIsPlan(index, st, supply, fault);
    VwapPlanFacts(CheckVwapAlerts(index, GetVwapAlerts(st), supply), fault);
    VwapPlanOrder(CheckVwapAlerts(index, GetVwapAlerts(st), supply), fault);
    VwapPlanReportAfterAppends(CheckVwapAlerts(index, GetVwapAlerts(st), supply), fault);
  }

  // ---- The run ----

  /** An empty index (no entry with a symbol and candles) means no storage
      reads, no appends and no reports. */
  lemma RunWithoutData(md: MarketData, st: Storage, env: Env)
    requires forall i :: 0 <= i < |md.data| ==> !Indexed(md.data[i])
    ensures RunAlertChecks(md, st, env) == []
  {
    BuildIndexKeys(md.data);
    var index := BuildIndex(md.data);
    assert forall s :: s !in index;
    assert index == map[];
  }

  /** The shape a Line stage's requests followed by a VWAP stage's have:
      no Line request after a VWAP one, reads only of the active working
      alerts, appends only to "triggered". */
  predicate RunShape(log: seq<Effect>)
  {
    && (forall i, j :: 0 <= i < j < |log| && IsVwapEffect(log[i]) ==> IsVwapEffect(log[j]))
    && (forall i :: 0 <= i < |log| ==>
         && ((log[i].AddLineAlert? || log[i].AddVwapAlert?) ==> log[i].status == Triggered)
         && ((log[i].ReadLineAlerts? || log[i].ReadVwapAlerts?) ==> log[i].status == Working && log[i].isActive))
  }

  lemma StagesShape(ls: seq<Effect>, lm: seq<LineAlert>, vs: seq<Effect>, vm: seq<VwapAlert>)
    requires LineStageShape(ls, lm) && VwapStageShape(vs, vm)
    ensures RunShape(ls + vs)
    ensures forall i :: 0 <= i < |ls + vs| && (ls + vs)[i].SendLineReport? ==> (ls + vs)[i].lines == lm && |lm| > 0
    ensures forall i :: 0 <= i < |ls + vs| && (ls + vs)[i].SendVwapReport? ==> (ls + vs)[i].vwaps == vm && |vm| > 0
  {
    var log := ls + vs;
    forall i | 0 <= i < |log|
      ensures log[i] == if i < |ls| then ls[i] else vs[i - |ls|]
    {
    }
    forall i, j | 0 <= i < j < |log| && IsVwapEffect(log[i])
      ensures IsVwapEffect(log[j])
    {
      assert i >= |ls| by {
        if i < |ls| {
          assert false;
        }
      }
    }
  }

  lemma StagesFilters(ls: seq<Effect>, lm: seq<LineAlert>, vs: seq<Effect>, vm: seq<VwapAlert>)
    requires LineStageShape(ls, lm) && VwapStageShape(vs, vm)
    ensures Filter(ls + vs, IsLineReport) == Filter(ls, IsLineReport)
    ensures Filter(ls + vs, IsVwapReport) == Filter(vs, IsVwapReport)
    ensures Filter(ls + vs, IsVwapEffect) == vs
  {
    FilterConcat(ls, vs, IsLineReport);
    FilterConcat(ls, vs, IsVwapReport);
    FilterConcat(ls, vs, IsVwapEffect);
    FilterNone(vs, IsLineReport);
    FilterNone(ls, IsVwapReport);
    FilterNone(ls, IsVwapEffect);
    FilterAll(vs, IsVwapEffect);
    assert Filter(ls, IsLineReport) + [] == Filter(ls, IsLineReport);
    assert [] + Filter(vs, IsVwapReport) == Filter(vs, IsVwapReport);
    assert [] + vs == vs;
  }

  /** What a Line stage's requests followed by a VWAP stage's amount to,
      given what each stage issues on its own. */
  lemma StagesFacts(ls: seq<Effect>, lm: seq<LineAlert>, lf: StageFault,
                    vs: seq<Effect>, vm: seq<VwapAlert>, vf: StageFault)
    requires LineStageShape(ls, lm) && VwapStageShape(vs, vm)
    requires IsPrefix(LineAppended(ls), lm) && VwapAppended(ls) == []
    requires IsPrefix(VwapAppended(vs), vm) && LineAppended(vs) == []
    requires lf.Completes? ==> LineAppended(ls) == lm
    requires vf.Completes? ==> VwapAppended(vs) == vm
    requires |Filter(ls, IsLineReport)| <= 1 && |Filter(vs, IsVwapReport)| <= 1
    requires lf.Completes? ==> |Filter(ls, IsLineReport)| == if |lm| > 0 then 1 else 0
    requires vf.Completes? ==> |Filter(vs, IsVwapReport)| == if |vm| > 0 then 1 else 0
    ensures RunShape(ls + vs)
    ensures forall i :: 0 <= i < |ls + vs| && (ls + vs)[i].SendLineReport? ==> (ls + vs)[i].lines == lm && |lm| > 0
    ensures forall i :: 0 <= i < |ls + vs| && (ls + vs)[i].SendVwapReport? ==> (ls + vs)[i].vwaps == vm && |vm| > 0
    ensures IsPrefix(LineAppended(ls + vs), lm) && IsPrefix(VwapAppended(ls + vs), vm)
    ensures lf.Completes? ==> LineAppended(ls + vs) == lm
    ensures vf.Completes? ==> VwapAppended(ls + vs) == vm
    ensures |Filter(ls + vs, IsLineReport)| <= 1 && |Filter(ls + vs, IsVwapReport)| <= 1
    ensures lf.Completes? ==> |Filter(ls + vs, IsLineReport)| == if |lm| > 0 then 1 else 0
    ensures vf.Completes? ==> |Filter(ls + vs, IsVwapReport)| == if |vm| > 0 then 1 else 0
    ensures Filter(ls + vs, IsVwapEffect) == vs
  {
    StagesShape(ls, lm, vs, vm);
    StagesFilters(ls, lm, vs, vm);
    AppendedConcat(ls, vs);
    assert LineAppended(ls) + [] == LineAppended(ls);
    assert [] + VwapAppended(vs) == VwapAppended(vs);
  }

  /** What the two stages' requests, one after the other, amount to. */
  lemma RunFacts(index: KlinesMap, st: Storage, env: Env,
                  lm: seq<LineAlert>, vm: seq<VwapAlert>, ls: seq<Effect>, vs: seq<Effect>)
    requires lm == CheckLineAlerts(index, GetLineAlerts(st), env.lineSupply)
    requires vm == CheckVwapAlerts(index, GetVwapAlerts(st), env.vwapSupply)
    requires ls == LineStage(index, st, env.lineSupply, env.lineFault)
    requires vs == VwapStage(index, st, env.vwapSupply, env.vwapFault)
    ensures RunShape(ls + vs)
    ensures forall i :: 0 <= i < |ls + vs| && (ls + vs)[i].SendLineReport? ==> (ls + vs)[i].lines == lm && |lm| > 0
    ensures forall i :: 0 <= i < |ls + vs| && (ls + vs)[i].SendVwapReport? ==> (ls + vs)[i].vwaps == vm && |vm| > 0
    ensures IsPrefix(LineAppended(ls + vs), lm) && IsPrefix(VwapAppended(ls + vs), vm)
    ensures env.lineFault.Completes? ==> LineAppended(ls + vs) == lm
    ensures env.vwapFault.Completes? ==> VwapAppended(ls + vs) == vm
    ensures |Filter(ls + vs, IsLineReport)| <= 1 && |Filter(ls + vs, IsVwapReport)| <= 1
    ensures env.lineFault.Completes? ==> |Filter(ls + vs, IsLineReport)| == if |lm| > 0 then 1 else 0
    ensures env.vwapFault.Completes? ==> |Filter(ls + vs, IsVwapReport)| == if |vm| > 0 then 1 else 0
    ensures Filter(ls + vs, IsVwapEffect) == vs
  {
    LineStageIsPlan(index, st, env.lineSupply, env.lineFault);
    LinePlanFacts(lm, env.lineFault);
    VwapStageIsPlan(index, st, env.vwapSupply, env.vwapFault);
    VwapPlanFacts(vm, env.vwapFault);
    StagesFacts(ls, lm, env.lineFault, vs, vm, env.vwapFault);
  }

  /** The VWAP stage runs whatever happens in the Line stage: the VWAP
      requests of a run do not depend on whether the Line stage throws. */
  lemma RunVwapStageIsolated(md: MarketData, st: Storage, env: Env, otherLineFault: StageFault)
    ensures Filter(RunAlertChecks(md, st, env), IsVwapEffect)
         == Filter(RunAlertChecks(md, st, env.(lineFault := otherLineFault)), IsVwapEffect)
  {
    var env' := env.(lineFault := otherLineFault);
    if |BuildIndex(md.data)| == 0 {
      assert RunAlertChecks(md, st, env) == [] && RunAlertChecks(md, st, env') == [];
    }
  }

  /** `m` is the triggered copy of an active working alert that fires: it
      is active and keeps that alert's symbol and price. */
  predicate HasActiveLineSource(index: KlinesMap, st: Storage, m: LineAlert)
  {
    exists a :: (a in st.workingLine && a.base.isActive && LineTriggers(index, a)
      && m.base.isActive && m.base.symbol == a.base.symbol && m.base.price == a.base.price)
  }

  /** Every Line match comes from an active working alert that fires. */
  lemma LineMatchesFromActive(index: KlinesMap, st: Storage, supply: Supply)
    ensures var lm := CheckLineAlerts(index, GetLineAlerts(st), supply);
      forall j :: 0 <= j < |lm| ==> HasActiveLineSource(index, st, lm[j])
  {
    LineCopiesKeepSource(index, GetLineAlerts(st), supply);
  }

  /** Every VWAP match comes from an active working alert that fires. */
  lemma VwapMatchesFromActive(index: KlinesMap, st: Storage, supply: Supply)
    ensures forall a :: a in GetVwapAlerts(st) ==> a in st.workingVwap && a.base.isActive
    ensures var vm := CheckVwapAlerts(index, GetVwapAlerts(st), supply);
      forall j :: 0 <= j < |vm| ==> HasVwapSource(index, GetVwapAlerts(st), vm[j])
  {
    VwapCopiesKeepSource(index, GetVwapAlerts(st), supply);
  }

  function LineSourced(index: KlinesMap, st: Storage): LineAlert -> bool
  {
    m => HasActiveLineSource(index, st, m)
  }

  /** An inactive working alert never reaches "triggered": every appended
      Line copy derives from an active working alert that fired. */
  lemma RunAppendsOnlyActiveLine(md: MarketData, st: Storage, env: Env)
    ensures var appended := LineAppended(RunAlertChecks(md, st, env));
      forall j :: 0 <= j < |appended| ==> HasActiveLineSource(BuildIndex(md.data), st, appended[j])
  {
    var index := BuildIndex(md.data);
    var appended := LineAppended(RunAlertChecks(md, st, env));
    var lm := LineMatches(md, st, env);
    LineMatchesFromActive(index, st, env.lineSupply);
    PrefixKeeps(appended, lm, LineSourced(index, st));
  }

  function VwapSourced(index: KlinesMap, alerts: seq<VwapAlert>): VwapAlert -> bool
  {
    m => HasVwapSource(index, alerts, m)
  }

  /** The same for VWAP copies: each is the copy of a firing alert read
      from the active working alerts, priced at its window VWAP. */
  lemma RunAppendsOnlyActiveVwap(md: MarketData, st: Storage, env: Env)
    ensures forall a :: a in GetVwapAlerts(st) ==> a in st.workingVwap && a.base.isActive
    ensures var appended := VwapAppended(RunAlertChecks(md, st, env));
      forall j :: 0 <= j < |appended| ==> HasVwapSource(BuildIndex(md.data), GetVwapAlerts(st), appended[j])
  {
    var index := BuildIndex(md.data);
    var appended := VwapAppended(RunAlertChecks(md, st, env));
    VwapMatchesFromActive(index, st, env.vwapSupply);
    PrefixKeeps(appended, VwapMatches(md, st, env), VwapSourced(index, GetVwapAlerts(st)));
  }

  /** A Line stage's requests followed by a VWAP stage's: a report in the
      joined log is one of its own stage's, so it follows all that stage's
      appends. */
  lemma StagesReportAfterAppends(ls: seq<Effect>, lm: seq<LineAlert>, vs: seq<Effect>, vm: seq<VwapAlert>)
    requires LineStageShape(ls, lm) && VwapStageShape(vs, vm)
    requires VwapAppended(ls) == [] && LineAppended(vs) == []
    requires (exists i :: 0 <= i < |ls| && ls[i].SendLineReport?) ==> LineAppended(ls) == lm
    requires (exists i :: 0 <= i < |vs| && vs[i].SendVwapReport?) ==> VwapAppended(vs) == vm
    ensures (exists i :: 0 <= i < |ls + vs| && (ls + vs)[i].SendLineReport?) ==> LineAppended(ls + vs) == lm
    ensures (exists i :: 0 <= i < |ls + vs| && (ls + vs)[i].SendVwapReport?) ==> VwapAppended(ls + vs) == vm
  {
    var log := ls + vs;
    AppendedConcat(ls, vs);
    assert LineAppended(log) == LineAppended(ls) by {
      assert LineAppended(ls) + [] == LineAppended(ls);
    }
    assert VwapAppended(log) == VwapAppended(vs) by {
      assert [] + VwapAppended(vs) == VwapAppended(vs);
    }
    if i :| 0 <= i < |log| && log[i].SendLineReport? {
      if i < |ls| {
        assert ls[i] == log[i];
      } else {
        assert IsVwapEffect(vs[i - |ls|]);
        assert vs[i - |ls|] == log[i];
      }
    }
    if i :| 0 <= i < |log| && log[i].SendVwapReport? {
      if i < |ls| {
        assert IsLineEffect(ls[i]);
        assert ls[i] == log[i];
      } else {
        assert vs[i - |ls|] == log[i];
      }
    }
  }

  /** In a whole run, a report is requested only after its stage has
      appended every one of its matches. */
  lemma RunReportsAfterAppends(md: MarketData, st: Storage, env: Env)
    ensures var log := RunAlertChecks(md, st, env);
      (exists i :: 0 <= i < |log| && log[i].SendLineReport?) ==> LineAppended(log) == LineMatches(md, st, env)
    ensures var log := RunAlertChecks(md, st, env);
      (exists i :: 0 <= i < |log| && log[i].SendVwapReport?) ==> VwapAppended(log) == VwapMatches(md, st, env)
  {
    var index := BuildIndex(md.data);
    if |index| > 0 {
      var lm, vm := LineMatches(md, st, env), VwapMatches(md, st, env);
      LineStageIsPlan(index, st, env.lineSupply, env.lineFault);
      LinePlanFacts(lm, env.lineFault);
      LinePlanReportAfterAppends(lm, env.lineFault);
      VwapStageIsPlan(index, st, env.vwapSupply, env.vwapFault);
      VwapPlanFacts(vm, env.vwapFault);
      VwapPlanReportAfterAppends(vm, env.vwapFault);
      StagesReportAfterAppends(LineStage(index, st, env.lineSupply, env.lineFault), lm,
                               VwapStage(index, st, env.vwapSupply, env.vwapFault), vm);
    }
  }

  /** A log in which no Line request follows a VWAP request, with one
      report of each kind, has the Line report before the VWAP report. */
  lemma OneReportEach(log: seq<Effect>, lm: seq<LineAlert>, vm: seq<VwapAlert>)
    requires forall i, j :: 0 <= i < j < |log| && IsVwapEffect(log[i]) ==> IsVwapEffect(log[j])
    requires forall i :: 0 <= i < |log| && log[i].SendLineReport? ==> log[i].lines == lm
    requires forall i :: 0 <= i < |log| && log[i].SendVwapReport? ==> log[i].vwaps == vm
    requires |Filter(log, IsLineReport)| == 1 && |Filter(log, IsVwapReport)| == 1
    ensures exists i, j :: 0 <= i < j < |log| && log[i] == SendLineReport(lm) && log[j] == SendVwapReport(vm)
  {
    var lr := Filter(log, IsLineReport);
    var vr := Filter(log, IsVwapReport);
    assert lr[0] in log && vr[0] in log;
    var i :| 0 <= i < |log| && log[i] == lr[0];
    var j :| 0 <= j < |log| && log[j] == vr[0];
    assert log[i].SendLineReport? && log[j].SendVwapReport?;
    assert IsVwapEffect(log[j]) && !IsVwapEffect(log[i]);
    assert i < j;
  }

  /** When both stages complete with matches, the run sends two separate
      reports: one Line report carrying the Line matches and, after it, one
      VWAP report carrying the VWAP matches, and no other report. */
  lemma RunSendsTwoReports(md: MarketData, st: Storage, env: Env)
    ensures var log := RunAlertChecks(md, st, env);
      (&& |BuildIndex(md.data)| > 0 && env.lineFault.Completes? && env.vwapFault.Completes?
       && |LineMatches(md, st, env)| > 0 && |VwapMatches(md, st, env)| > 0) ==>
      && |Filter(log, IsLineReport)| == 1 && |Filter(log, IsVwapReport)| == 1
      && exists i, j :: 0 <= i < j < |log|
           && log[i] == SendLineReport(LineMatches(md, st, env))
           && log[j] == SendVwapReport(VwapMatches(md, st, env))
  {
    if && |BuildIndex(md.data)| > 0 && env.lineFault.Completes? && env.vwapFault.Completes?
       && |LineMatches(md, st, env)| > 0 && |VwapMatches(md, st, env)| > 0 {
      OneReportEach(RunAlertChecks(md, st, env), LineMatches(md, st, env), VwapMatches(md, st, env));
    }
  }
}
