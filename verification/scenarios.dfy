/** The repository's alert-trigger scenarios, each as a lemma about the
    model: hourly candles of volume 1000 on one symbol, alerts on it. */
module Scenarios {
  import opened Options
  import opened Seqs
  import opened Alerts
  import opened Vwap
  import opened LineCheck
  import opened VwapCheck
  import opened Checker
  import opened Telegram

  const Hour: int := 3600000

  /** The tests' candle: volume 1000, closing one millisecond before the
      next hour opens. */
  function MkCandle(open: real, high: real, low: real, close: real, openTime: int): Candle
  {
    Candle(openTime, Some(open), Some(high), Some(low), Some(close), Some(1000.0), None, openTime + Hour - 1)
  }

  function MkBase(symbol: string, name: string, price: real, active: bool): AlertBase
  {
    AlertBase(symbol, name, "BUY", price, None, None, ["BINANCE"], Some(1), None, "test-id",
              None, None, None, None, None, active, None, None)
  }

  function MkLine(price: real, active: bool): LineAlert
  {
    LineAlert(MkBase("BTCUSDT", "Test", price, active), None)
  }

  function MkVwap(anchorTime: int): VwapAlert
  {
    VwapAlert(MkBase("BTCUSDT", "VWAP Test", 0.0, true), Some(anchorTime), None, None, None)
  }

  /** The snapshot of one coin listed on BINANCE. */
  function OneCoin(candles: seq<Candle>): MarketData
  {
    MarketData("1h", 0, 0, 1, [CoinMarketData("BTCUSDT", ["BINANCE"], candles)])
  }

  lemma OneCoinIndex(candles: seq<Candle>)
    requires |candles| > 0
    ensures BuildIndex(OneCoin(candles).data) == map["BTCUSDT" := candles]
  {
    var data := OneCoin(candles).data;
    assert data[..0] == [];
  }

  /** The single-candle VWAP is the candle's typical price. */
  lemma SingleCandleVwap()
    ensures Vwap.Vwap([MkCandle(95.0, 105.0, 90.0, 100.0, 0)]) == 295.0 / 3.0
  {
    VwapSingle(MkCandle(95.0, 105.0, 90.0, 100.0, 0));
  }

  /** A candle opening at 90 and closing at 105 reaches a level at 100. */
  lemma LineCrossesUp(now: int, supply: Supply)
    ensures var index := map["BTCUSDT" := [MkCandle(90.0, 110.0, 85.0, 105.0, now)]];
      var r := CheckLineAlerts(index, [MkLine(100.0, true)], supply);
      |r| == 1 && r[0].base.symbol == "BTCUSDT" && r[0].base.price == 100.0
  {
    var index := map["BTCUSDT" := [MkCandle(90.0, 110.0, 85.0, 105.0, now)]];
    assert LineTriggers(index, MkLine(100.0, true));
    FilterAll([MkLine(100.0, true)], Triggers(index));
  }

  /** A candle opening at 110 and closing at 90 reaches it too. */
  lemma LineCrossesDown(now: int, supply: Supply)
    ensures var index := map["BTCUSDT" := [MkCandle(110.0, 115.0, 85.0, 90.0, now)]];
      var r := CheckLineAlerts(index, [MkLine(100.0, true)], supply);
      |r| == 1 && r[0].base.symbol == "BTCUSDT" && r[0].base.price == 100.0
  {
    var index := map["BTCUSDT" := [MkCandle(110.0, 115.0, 85.0, 90.0, now)]];
    assert LineTriggers(index, MkLine(100.0, true));
    FilterAll([MkLine(100.0, true)], Triggers(index));
  }

  /** A candle from 60 to 75 stays below it, although its wick is irrelevant
      either way. */
  lemma LineDoesNotCross(now: int, supply: Supply)
    ensures var index := map["BTCUSDT" := [MkCandle(60.0, 80.0, 55.0, 75.0, now)]];
      CheckLineAlerts(index, [MkLine(100.0, true)], supply) == []
  {
    var index := map["BTCUSDT" := [MkCandle(60.0, 80.0, 55.0, 75.0, now)]];
    assert !LineTriggers(index, MkLine(100.0, true));
    FilterNone([MkLine(100.0, true)], Triggers(index));
  }

  /** Of levels 50, 100 and 150 only 100 lies in a 90 -> 105 body. */
  lemma OnlyMatchingLevelsFire(now: int, supply: Supply)
    ensures var index := map["BTCUSDT" := [MkCandle(90.0, 110.0, 85.0, 105.0, now)]];
      var r := CheckLineAlerts(index, [MkLine(50.0, true), MkLine(100.0, true), MkLine(150.0, true)], supply);
      |r| == 1 && r[0].base.price == 100.0
  {
    var index := map["BTCUSDT" := [MkCandle(90.0, 110.0, 85.0, 105.0, now)]];
    var alerts := [MkLine(50.0, true), MkLine(100.0, true), MkLine(150.0, true)];
    var p := Triggers(index);
    assert !p(alerts[0]) && p(alerts[1]) && !p(alerts[2]);
    assert alerts == [alerts[0]] + [alerts[1]] + [alerts[2]];
    FilterConcat([alerts[0]] + [alerts[1]], [alerts[2]], p);
    FilterConcat([alerts[0]], [alerts[1]], p);
    FilterNone([alerts[0]], p);
    FilterNone([alerts[2]], p);
    FilterAll([alerts[1]], p);
  }

  /** A whole run over an inactive alert that the candle would reach: it is
      never read, so nothing is appended and no Line report is requested. */
  lemma InactiveAlertNeverFires(now: int, env: Env)
    ensures var md := OneCoin([MkCandle(90.0, 110.0, 85.0, 105.0, now)]);
      var log := RunAlertChecks(md, Storage([MkLine(100.0, false)], []), env);
      LineAppended(log) == [] && |Filter(log, IsLineReport)| == 0
  {
    var candles := [MkCandle(90.0, 110.0, 85.0, 105.0, now)];
    var md := OneCoin(candles);
    var st := Storage([MkLine(100.0, false)], []);
    OneCoinIndex(candles);
    var index := BuildIndex(md.data);
    FilterNone(st.workingLine, LineIsActive);
    assert GetLineAlerts(st) == [];
    assert CheckLineAlerts(index, [], env.lineSupply) == [];
  }

  /** A whole run over an active alert the candle reaches: exactly that
      alert is appended and one Line report is requested. */
  lemma ActiveAlertFiresInRun(now: int, env: Env)
    requires env.lineFault.Completes?
    ensures var md := OneCoin([MkCandle(90.0, 110.0, 85.0, 105.0, now)]);
      var log := RunAlertChecks(md, Storage([MkLine(100.0, true)], []), env);
      && |LineAppended(log)| == 1
      && LineAppended(log)[0].base.price == 100.0
      && |Filter(log, IsLineReport)| == 1
  {
    var candles := [MkCandle(90.0, 110.0, 85.0, 105.0, now)];
    var md := OneCoin(candles);
    var st := Storage([MkLine(100.0, true)], []);
    OneCoinIndex(candles);
    FilterAll(st.workingLine, LineIsActive);
    LineCrossesUp(now, env.lineSupply);
  }

  /** The VWAP scenarios' anchor: a millisecond time, so no rescaling. */
  const Anchor: int := 1700000000000

  lemma AnchorIsMilliseconds()
    ensures NormalizeAnchor(Anchor) == Anchor
  {
    Decimal.TenDigits(Anchor);
  }

  function Opening(): seq<Candle>
  {
    [MkCandle(95.0, 105.0, 90.0, 100.0, Anchor),
     MkCandle(98.0, 108.0, 93.0, 103.0, Anchor + Hour),
     MkCandle(97.0, 107.0, 92.0, 102.0, Anchor + 2 * Hour)]
  }

  /** The whole series lies in the window of any anchor at or before its
      first candle. */
  lemma WholeSeriesInWindow(last: Candle, t: int)
    requires last.openTime == Anchor + 3 * Hour && t <= Anchor
    ensures Window(Opening() + [last], t) == Opening() + [last]
  {
    var cs := Opening() + [last];
    FilterAll(cs, WindowTest(t, Last(cs).openTime));
  }

  lemma TotalOfFour(a: Candle, b: Candle, c: Candle, d: Candle, f: Candle -> real)
    ensures Total([a, b, c, d], f) == f(a) + f(b) + f(c) + f(d)
  {
    assert [a, b, c, d][..3] == [a, b, c];
    assert [a, b, c][..2] == [a, b];
    assert [a, b][..1] == [a];
    assert [a][..0] == [];
    assert Total([a], f) == f(a);
    assert Total([a, b], f) == f(a) + f(b);
    assert Total([a, b, c], f) == f(a) + f(b) + f(c);
  }

  /** With a millisecond anchor at or before the first candle, the alert's
      VWAP is the VWAP of the whole series. */
  lemma AnchoredOverWholeSeries(last: Candle, t: int)
    requires last.openTime == Anchor + 3 * Hour && 0 < t <= Anchor && NormalizeAnchor(t) == t
    ensures AnchoredVwap(map["BTCUSDT" := Opening() + [last]], MkVwap(t)) == Vwap.Vwap(Opening() + [last])
  {
    WholeSeriesInWindow(last, t);
  }

  /** The equal-volume totals of the opening candles and a last one. */
  lemma FourCandleTotals(last: Candle)
    requires last.volume == Some(1000.0) && last.highPrice.Some? && last.lowPrice.Some? && last.closePrice.Some?
    ensures CumulativeVolume(Opening() + [last]) == 4000.0
    ensures CumulativePriceVolume(Opening() + [last]) == 300000.0 + 1000.0 * TypicalPrice(last)
  {
    var o := Opening();
    assert Opening() + [last] == [o[0], o[1], o[2], last];
    TotalOfFour(o[0], o[1], o[2], last, VolumeOf);
    TotalOfFour(o[0], o[1], o[2], last, PriceVolumeOf);
  }

  /** Typical prices 295/3, 304/3, 301/3 and 100 at equal volume: VWAP 100,
      inside the last body 90 -> 105, so the alert fires. */
  lemma VwapCrossFires()
    ensures var index := map["BTCUSDT" := Opening() + [MkCandle(90.0, 110.0, 85.0, 105.0, Anchor + 3 * Hour)]];
      AnchoredVwap(index, MkVwap(Anchor)) == 100.0 && VwapTriggers(index, MkVwap(Anchor))
  {
    var last := MkCandle(90.0, 110.0, 85.0, 105.0, Anchor + 3 * Hour);
    var index := map["BTCUSDT" := Opening() + [last]];
    AnchorIsMilliseconds();
    AnchoredOverWholeSeries(last, Anchor);
    FourCandleTotals(last);
    assert TypicalPrice(last) == 100.0;
    assert AnchoredVwap(index, MkVwap(Anchor)) == 100.0;
    assert Last(index["BTCUSDT"]) == last;
  }

  /** The VWAP stage's matches on that series: the one active alert,
      priced at the VWAP 100. */
  lemma VwapRunMatches(supply: Supply)
    ensures var index := map["BTCUSDT" := Opening() + [MkCandle(90.0, 110.0, 85.0, 105.0, Anchor + 3 * Hour)]];
      var r := CheckVwapAlerts(index, GetVwapAlerts(Storage([], [MkVwap(Anchor)])), supply);
      |r| == 1 && r[0].base.price == 100.0
  {
    var index := map["BTCUSDT" := Opening() + [MkCandle(90.0, 110.0, 85.0, 105.0, Anchor + 3 * Hour)]];
    FilterAll([MkVwap(Anchor)], VwapIsActive);
    VwapCrossFires();
    FilterAll([MkVwap(Anchor)], VwapTrigger(index));
    FireVwapKeeps(index, MkVwap(Anchor), supply.stamp(0), supply.render);
  }

  /** A whole run over that series and an active VWAP alert anchored at
      its first candle: the alert's copy is appended priced at the VWAP
      100, and one VWAP report is requested. */
  lemma VwapFiresInRun(env: Env)
    requires env.vwapFault.Completes?
    ensures var md := OneCoin(Opening() + [MkCandle(90.0, 110.0, 85.0, 105.0, Anchor + 3 * Hour)]);
      var log := RunAlertChecks(md, Storage([], [MkVwap(Anchor)]), env);
      && |VwapAppended(log)| == 1
      && VwapAppended(log)[0].base.price == 100.0
      && |Filter(log, IsVwapReport)| == 1
  {
    var candles := Opening() + [MkCandle(90.0, 110.0, 85.0, 105.0, Anchor + 3 * Hour)];
    OneCoinIndex(candles);
    assert "BTCUSDT" in BuildIndex(OneCoin(candles).data);
    VwapRunMatches(env.vwapSupply);
  }

  /** With a last candle 60 -> 75 the VWAP is 92.5, outside its body. */
  lemma VwapNoCrossDoesNotFire()
    ensures var index := map["BTCUSDT" := Opening() + [MkCandle(60.0, 80.0, 55.0, 75.0, Anchor + 3 * Hour)]];
      AnchoredVwap(index, MkVwap(Anchor)) == 92.5 && !VwapTriggers(index, MkVwap(Anchor))
  {
    var last := MkCandle(60.0, 80.0, 55.0, 75.0, Anchor + 3 * Hour);
    var index := map["BTCUSDT" := Opening() + [last]];
    AnchorIsMilliseconds();
    AnchoredOverWholeSeries(last, Anchor);
    FourCandleTotals(last);
    assert TypicalPrice(last) == 70.0;
    assert AnchoredVwap(index, MkVwap(Anchor)) == 92.5;
    assert Last(index["BTCUSDT"]) == last;
  }

  /** Symbols are looked up by exact key: an alert for "SOL" does not
      reach a series keyed "SOLUSDT", whatever its candles. */
  lemma SymbolsMatchExactly(candles: seq<Candle>, s: Stamp, render: int -> string)
    ensures var index := map["SOLUSDT" := candles];
      var a := LineAlert(MkBase("SOL", "Test", 100.0, true), None);
      !LineTriggers(index, a) && EvalLine(index, a, s, render).None?
  {
  }

  /** There is no history check: an anchor an hour before the earliest
      candle gives the same window, and the alert still fires. */
  lemma AnchorBeforeHistoryStillFires()
    ensures var index := map["BTCUSDT" := Opening() + [MkCandle(90.0, 110.0, 85.0, 105.0, Anchor + 3 * Hour)]];
      && Anchor - Hour < Opening()[0].openTime
      && AnchoredVwap(index, MkVwap(Anchor - Hour)) == 100.0
      && VwapTriggers(index, MkVwap(Anchor - Hour))
  {
    var last := MkCandle(90.0, 110.0, 85.0, 105.0, Anchor + 3 * Hour);
    var index := map["BTCUSDT" := Opening() + [last]];
    Decimal.TenDigits(Anchor - Hour);
    AnchoredOverWholeSeries(last, Anchor - Hour);
    FourCandleTotals(last);
    assert TypicalPrice(last) == 100.0;
    assert AnchoredVwap(index, MkVwap(Anchor - Hour)) == 100.0;
    assert Last(index["BTCUSDT"]) == last;
  }

  /** A four-letter pattern first found at position 3 of a symbol whose
      first three letters do not start it. */
  lemma FirstAtThree(s: string, pat: string)
    requires |pat| == 4 && |s| >= 7 && s[3..7] == pat
    requires s[0] != pat[0] && s[1] != pat[0] && s[2] != pat[0]
    ensures IndexOf(s, pat) == Some(3)
  {
    assert !OccursAt(s, pat, 0) by { assert s[0..4][0] == s[0]; }
    assert !OccursAt(s, pat, 1) by { assert s[1..5][0] == s[1]; }
    assert !OccursAt(s, pat, 2) by { assert s[2..6][0] == s[2]; }
    assert FindFrom(s, pat, 3) == Some(3);
    assert FindFrom(s, pat, 2) == Some(3);
    assert FindFrom(s, pat, 1) == Some(3);
  }

  /** A pattern whose first letter is absent does not occur. */
  lemma NotFound(s: string, pat: string)
    requires |pat| > 0 && forall i :: 0 <= i < |s| ==> s[i] != pat[0]
    ensures IndexOf(s, pat) == None
  {
    forall j | 0 <= j <= |s|
      ensures !OccursAt(s, pat, j)
    {
      if j + |pat| <= |s| {
        assert s[j..j + |pat|][0] == s[j];
      }
    }
  }

  /** The report's short symbol drops the quote and contract suffixes. */
  lemma ShortSymbolQuote()
    ensures ShortSymbol("BTCUSDT") == "BTC"
  {
    FirstAtThree("BTCUSDT", "USDT");
    assert ReplaceFirst("BTCUSDT", "USDT", "") == "BTC";
    NotFound("BTC", "PERP");
  }

  lemma ShortSymbolContract()
    ensures ShortSymbol("ETHPERP") == "ETH"
  {
    NotFound("ETHPERP", "USDT");
    FirstAtThree("ETHPERP", "PERP");
    assert ReplaceFirst("ETHPERP", "PERP", "") == "ETH";
  }

  lemma ShortSymbolBoth()
    ensures ShortSymbol("SOLUSDTPERP") == "SOL"
  {
    FirstAtThree("SOLUSDTPERP", "USDT");
    assert ReplaceFirst("SOLUSDTPERP", "USDT", "") == "SOLPERP";
    FirstAtThree("SOLPERP", "PERP");
    assert ReplaceFirst("SOLPERP", "PERP", "") == "SOL";
  }

  /** The chart link for the tests' coins. */
  lemma BinanceLink()
    ensures TradingViewLink("BTCUSDT", ["BINANCE"])
         == "https://www.tradingview.com/chart/?symbol=BINANCE:BTCUSDT"
    ensures TradingViewLink("BTCUSDT", ["BINANCE", "BYBIT"])
         == "https://www.tradingview.com/chart/?symbol=BYBIT:BTCUSDT"
  {
    TradingViewLinkCases("BTCUSDT", ["BINANCE"]);
    TradingViewLinkCases("BTCUSDT", ["BINANCE", "BYBIT"]);
  }
}
