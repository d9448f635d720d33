# Alert checker model

A Dafny model of the alert-evaluation core of a crypto alert service. Every
hour a job hands the checker a market snapshot: per-symbol series of hourly
candles. The checker evaluates two kinds of stored alerts against it:

- A **Line Alert** is a fixed price level. It fires when the body of the
  symbol's last candle, from open to close in either direction, reaches the
  level.
- A **VWAP Alert** carries an anchor time. It fires when the body of the last
  candle reaches the volume-weighted average typical price computed from the
  anchor to the last candle.

Each alert that fires is copied with a fresh id and an activation stamp. The
copy is appended to the "triggered" partition of storage, and a Telegram
report listing the copies is requested.

The model has these parts:

- `Vwap`: the aggregator (`_calculate_vwap`). It has a reference definition
  (cumulative price-volume over cumulative volume) and a loop proved to
  compute it.
- `LineCheck` and `VwapCheck`: the two evaluators (`_check_line_alerts`,
  `_check_vwap_alerts`). Each is written branch for branch as in the source
  and tied by an if-and-only-if to an independent trigger predicate
  (`LineTriggers`, `VwapTriggers`). The VWAP evaluator also models the
  seconds-to-milliseconds anchor normalisation and the time window.
- `Checker`: `runAlertChecks` as a pure function from snapshot, storage
  contents and environment to the ordered log of storage and report requests
  it issues (`Effect`). The index build, the empty-index early return and the
  two stages with their `try`/`catch` barriers are modelled.
- `Telegram`: the pure part of the reporter. This covers the TradingView
  link, HTML escaping (in `Html`), the short symbol, the numbered items and
  the two report bodies including JavaScript's `trim`.
- `Scenarios`: the repository's alert-trigger tests, restated as lemmas about
  the model.
- `Seqs`, `Options`, `Decimal`: a generic order-preserving filter with its
  subsequence characterisation, `Option`, and the decimal rendering of
  integers.

The environment enters as parameters:

- `uuidv4()` and `Date.now()` become a `Supply`: the j-th copy made in a stage
  gets stamp j, and a `render` function stands for `_unix_to_time_str`.
- A throw inside a stage's `try` becomes a `StageFault`. `ThrowsAfter(k)`
  keeps the first k requests of that stage.
- Storage is what the two reads return. The Line and VWAP working partitions
  are filtered on `isActive`, as the Mongo query does.

Three facts about the code are worth naming:

- Symbols are matched by exact key (`Scenarios.SymbolsMatchExactly`).
- The VWAP window has no check that the history reaches back to the anchor
  (`Scenarios.AnchorBeforeHistoryStillFires`).
- Each stage sends its own report from inside its `try` block. When both
  stages complete with matches, the run sends one Line report and, after
  it, one VWAP report (`Checker.RunSendsTwoReports`).

## Model

| member | source | states |
|---|---|---|
| `Vwap.CalculateVwap` | alert-manager/alert-checker.ts:41-66 | The loop, which skips zero-volume candles, returns the reference VWAP: 0 when the cumulative volume is 0, otherwise a value whose product with the cumulative volume is the cumulative price-volume. |
| `Vwap.VwapPermutation` | alert-manager/alert-checker.ts:44-60 | Reordering the candles does not change the VWAP. |
| `Vwap.VwapDropsNonContributing` | alert-manager/alert-checker.ts:50-51 | Removing the candles with zero or missing volume does not change the VWAP. |
| `Vwap.VwapNoVolume` | alert-manager/alert-checker.ts:62-64 | With no candle carrying volume, including the empty run, the VWAP is 0. |
| `Vwap.VwapSingle` | alert-manager/alert-checker.ts:53-65 | One candle with volume yields its typical price (high + low + close) / 3. |
| `Vwap.VwapBetween` | alert-manager/alert-checker.ts:53-65 | With non-negative volumes, a defined VWAP lies between the least and the greatest typical price of the contributing candles. |
| `Vwap.TotalConcat` | alert-manager/alert-checker.ts:55-56 | The running sums over two consecutive runs add up. |
| `Vwap.TotalBounds` | alert-manager/alert-checker.ts:53-56 | Cumulative price-volume lies between lo and hi times the cumulative volume when every contributing typical price lies in [lo, hi]. |
| `LineCheck.InBodyIsClosedInterval` | alert-manager/alert-checker.ts:103-106 | The two-sided test is membership in the closed interval [min(open, close), max(open, close)]. It does not depend on the candle's direction and includes both ends. |
| `LineCheck.TriggeredLine` | alert-manager/alert-checker.ts:109-121 | The copy equals the source alert except for the storage id (dropped), id and activation stamp (fresh), and high and low (taken from the last candle). |
| `LineCheck.EvalLine` | alert-manager/alert-checker.ts:77-123 | One loop iteration yields a copy exactly when the alert fires: non-empty symbol that is a key, non-empty series, last candle with open and close, level within its body. |
| `LineCheck.CheckLineAlerts` | alert-manager/alert-checker.ts:72-126 | The result holds one copy per firing alert, in input order. The j-th copy comes from the j-th firing alert and carries the j-th stamp. |
| `LineCheck.LineOnlyLastCandle` | alert-manager/alert-checker.ts:91-106 | Candles before the last one never change the outcome. |
| `LineCheck.LineCopiesKeepSource` | alert-manager/alert-checker.ts:109-122 | Each copy comes from a firing input alert and keeps its price, symbol and active flag. |
| `VwapCheck.NormalizeAnchorCases` | alert-manager/alert-checker.ts:148-151 | A ten-character decimal rendering is rescaled by 1000. For integers this means 10^9 <= t < 10^10, or -10^9 < t <= -10^8 with the minus sign. |
| `Decimal.TenDigits` | alert-manager/alert-checker.ts:149 | A natural number's decimal rendering has ten characters exactly when it lies in [10^9, 10^10). |
| `Decimal.DecimalRoundTrip` | alert-manager/alert-checker.ts:149 | Parsing a natural number's decimal rendering, the model of `toString`, gives the number back. |
| `VwapCheck.WindowEndsAtLast` | alert-manager/alert-checker.ts:159-170 | The window is non-empty exactly when the anchor is not after the last candle's open time, and then it ends with the last candle. |
| `VwapCheck.WindowMembers` | alert-manager/alert-checker.ts:163-167 | A candle is in the window iff it is in the series with open time in [anchor, last open]. The window is an order-preserving subsequence of the series. |
| `VwapCheck.TriggeredVwap` | alert-manager/alert-checker.ts:190-206 | The copy equals the source alert except for the storage id, id, activation stamp, `price` and `anchorPrice`, the last two both being the VWAP. |
| `VwapCheck.EvalVwap` | alert-manager/alert-checker.ts:137-208 | One loop iteration yields a copy exactly when the alert fires: non-empty symbol that is a key, present non-zero anchor not after the last candle, non-zero VWAP over the window, last open and close present with the VWAP within the body. |
| `VwapCheck.CheckVwapAlerts` | alert-manager/alert-checker.ts:132-211 | The result holds one copy per firing alert, in input order. The j-th copy carries the j-th stamp and its alert's window VWAP. |
| `VwapCheck.FireVwapKeeps` | alert-manager/alert-checker.ts:191-206 | A copy keeps its alert's symbol, anchor and active flag, and is priced at the alert's window VWAP. |
| `VwapCheck.VwapCopiesKeepSource` | alert-manager/alert-checker.ts:186-208 | Each copy comes from a firing input alert: same symbol, anchor and active flag, priced at that alert's window VWAP. |
| `Checker.BuildIndex` | alert-manager/alert-checker.ts:230-236 | Every key of the index is a non-empty symbol with a non-empty series. |
| `Checker.BuildIndexKeys` | alert-manager/alert-checker.ts:231-235 | The keys are exactly the symbols of snapshot entries that have a symbol and candles. |
| `Checker.BuildIndexLastWins` | alert-manager/alert-checker.ts:234 | For a repeated symbol, the last entry's candles win. |
| `Checker.Truncate` | alert-manager/alert-checker.ts:247-275 | A stage cut short by a throw has issued a prefix of its planned requests, of the given length; a stage that completes has issued all of them. |
| `Checker.RunWithoutData` | alert-manager/alert-checker.ts:238-244 | With no indexable entry, the run issues no request at all. |
| `Checker.LineStageFacts` | alert-manager/alert-checker.ts:246-275 | The Line stage issues only Line requests. Its first request is the one read of the active working alerts, and no later request is a read. Its appends go to "triggered" and form a prefix of the matches (all of them on completion). It sends at most one report, which carries the non-empty matches and is the last request. A report is requested only once every match has been appended (lines 258-262), and exactly one is requested when the stage completes with matches. |
| `Checker.VwapStageFacts` | alert-manager/alert-checker.ts:277-306 | The same for the VWAP stage: one read first, appends of the VWAP matches, and at most one report, as its last request and only once every VWAP match has been appended (lines 289-293). |
| `Checker.RunAlertChecks` | alert-manager/alert-checker.ts:220-307 | Without indexed data the run issues nothing. Otherwise no Line request follows a VWAP request, reads target only active working alerts, and appends target only "triggered". Each stage appends a prefix of its matches, in match order, all of them when it completes. Each stage requests at most one report, carrying its non-empty matches, and exactly one when it completes with matches. The VWAP requests are exactly the VWAP stage's. |
| `Checker.RunVwapStageIsolated` | alert-manager/alert-checker.ts:270-282 | A run's VWAP requests are the same whether or not the Line stage throws. |
| `Checker.RunSendsTwoReports` | alert-manager/alert-checker.ts:246-306 | When both stages complete with matches, the run sends exactly one Line report carrying the Line matches (line 262) and, after it, exactly one VWAP report carrying the VWAP matches (line 293). |
| `Checker.RunReportsAfterAppends` | alert-manager/alert-checker.ts:258-293 | In a whole run, a Line report is requested only if every Line match has been appended to "triggered", and likewise for a VWAP report and the VWAP matches. |
| `Checker.RunAppendsOnlyActiveLine` | alert-manager/alert-checker.ts:249-259 | Every appended Line copy comes from an active working alert that fires. |
| `Checker.RunAppendsOnlyActiveVwap` | alert-manager/alert-checker.ts:280-290 | Every appended VWAP copy comes from an active working alert that fires, and is priced at its window VWAP. |
| `Html.EscapeHtmlIsSinglePass` | alert-manager/telegram-sender.ts:87-95 | The five chained replacements, `&` first, equal escaping each character once. |
| `Html.EscapeRoundTrip` | alert-manager/telegram-sender.ts:87-95 | Unescaping the escaped text gives the original text back. |
| `Html.EscapeInjective` | alert-manager/telegram-sender.ts:87-95 | Different texts escape differently. |
| `Html.EscapeNoMarkup` | alert-manager/telegram-sender.ts:89-95 | Escaped text contains no `<`, `>`, `"` or `'`. |
| `Html.EscapeAmpersands` | alert-manager/telegram-sender.ts:90 | Every `&` in escaped text starts one of the five entities. |
| `Html.EscapeIdentity` | alert-manager/telegram-sender.ts:88-95 | Text without special characters, including the empty text, is unchanged. |
| `Telegram.FirstListed` | alert-manager/telegram-sender.ts:29-38 | The priority loop picks the first priority entry that is listed, or the fallback when none is. |
| `Telegram.TradingViewLinkCases` | alert-manager/telegram-sender.ts:24-42 | No exchanges gives the bare symbol. Otherwise the link is `BYBIT:` plus the symbol when BYBIT is listed, else `BINANCE:` plus the symbol. |
| `Telegram.FindFrom` | alert-manager/telegram-sender.ts:202 | Finds the first occurrence at or after a position, or reports that none exists. |
| `Telegram.RemoveFirstInverse` | alert-manager/telegram-sender.ts:202 | Removing the first occurrence shortens the text by the pattern's length and is undone by reinserting the pattern there. No occurrence means no change. |
| `Telegram.TrimStart` | alert-manager/telegram-sender.ts:179 | Drops exactly the leading JavaScript white space and line terminators. |
| `Telegram.TrimEnd` | alert-manager/telegram-sender.ts:179 | Drops exactly the trailing white space and line terminators. |
| `Telegram.TrimWrapped` | alert-manager/telegram-sender.ts:175-179 | Trimming a body wrapped in newlines gives the body back when the body does not start or end with white space. |
| `Telegram.JoinSnoc` | alert-manager/telegram-sender.ts:172 | Joining a list extended at the back extends the joined text by the separator and the new item. |
| `Telegram.LineItems` | alert-manager/telegram-sender.ts:165-170 | One item per alert, numbered from 1 in input order. |
| `Telegram.LineItemNameIsText` | alert-manager/telegram-sender.ts:167-169 | The name shown in an item contains no `<` or `>`, and unescaping it gives the name (or "N/A") back. |
| `Telegram.LineReportMessage` | alert-manager/telegram-sender.ts:158-180 | An empty list gives the fixed "no triggered alerts" text. Otherwise the body is the header, the items one per line, then the time followed by the report mark, with the template's outer newlines trimmed. |
| `Telegram.VwapItems` | alert-manager/telegram-sender.ts:196-207 | One item per alert, numbered from 1 in input order. |
| `Telegram.VwapReportMessage` | alert-manager/telegram-sender.ts:189-217 | The same shape for the VWAP report, with its own header, texts and mark. |
| `Scenarios.SingleCandleVwap` | alert-manager/alert-checker.ts:53-65 | A candle with high 105, low 90 and close 100 gives a VWAP of 295/3. |
| `Scenarios.LineCrossesUp` | alert-trigger.test.ts:47-86 | A level at 100 fires on a 90 -> 105 candle. |
| `Scenarios.LineCrossesDown` | alert-trigger.test.ts:88-125 | A level at 100 fires on a 110 -> 90 candle. |
| `Scenarios.LineDoesNotCross` | alert-trigger.test.ts:127-166 | A level at 100 does not fire on a 60 -> 75 candle. |
| `Scenarios.InactiveAlertNeverFires` | alert-trigger.test.ts:168-204 | In a whole run, an inactive alert the candle reaches is neither appended nor reported. |
| `Scenarios.ActiveAlertFiresInRun` | alert-trigger.test.ts:47-86 | In a whole run that completes, the active alert is appended once at price 100 and one Line report is requested. |
| `Scenarios.VwapCrossFires` | alert-trigger.test.ts:208-263 | Four equal-volume candles give a VWAP of 100, which the last body 90 -> 105 reaches. |
| `Scenarios.VwapFiresInRun` | alert-trigger.test.ts:208-263 | In a whole run whose VWAP stage completes, the active VWAP alert's copy is appended at the VWAP 100, and one VWAP report is requested. |
| `Scenarios.VwapNoCrossDoesNotFire` | alert-trigger.test.ts:265-321 | With the last candle 60 -> 75 the VWAP is 92.5, outside the body, so nothing fires. |
| `Scenarios.OnlyMatchingLevelsFire` | alert-trigger.test.ts:325-387 | Of levels 50, 100 and 150 only 100 fires on a 90 -> 105 candle. |
| `Scenarios.SymbolsMatchExactly` | alert-manager/alert-checker.ts:82-84 | An alert for "SOL" does not reach a series keyed "SOLUSDT": the lookup uses the exact key. |
| `Scenarios.AnchorBeforeHistoryStillFires` | alert-manager/alert-checker.ts:159-172 | An anchor earlier than the first candle gives the same window, and the alert still fires. |
| `Scenarios.ShortSymbolQuote` | alert-manager/telegram-sender.ts:202 | "BTCUSDT" shortens to "BTC". |
| `Scenarios.ShortSymbolContract` | alert-manager/telegram-sender.ts:202 | "ETHPERP" shortens to "ETH". |
| `Scenarios.ShortSymbolBoth` | alert-manager/telegram-sender.ts:202 | "SOLUSDTPERP" shortens to "SOL". |
| `Scenarios.BinanceLink` | alert-manager/telegram-sender.ts:24-42 | The link for BTCUSDT is BINANCE-prefixed when only BINANCE is listed, and BYBIT-prefixed when both are listed. |

## Left out

- Storage (MongoDB), the HTTP routes, the coin and candle fetchers, the
  schedulers and logging are not part of this model. Storage is only the
  contents of the two reads and the requested appends.
- Failed inserts and failed reads are not modelled. `addLineAlert` and
  `addVwapAlert` log an insert failure and return `false`, so the log records
  the request, not its success. A read that fails returns `[]`, which the
  model treats like an empty working partition.
- A stage may throw after any number of its requests (`StageFault`). This is
  a superset of what the source can do, since most of its calls catch their
  own errors.
- Sending the report (`_sendTgMessage`, the bot token and chat id, the HTTP
  call) is reduced to a `SendLineReport` / `SendVwapReport` request carrying
  the matches. The message text is modelled separately by
  `Telegram.LineReportMessage` and `Telegram.VwapReportMessage`.
- Clock reading and Moscow-time formatting (`_unix_to_time_str`,
  `_formatReportTime`, `_formatVwapReportTime`) are not modelled. The stamp
  time and its rendering come from the `Supply`, and the report's time string
  is a parameter.
- `uuidv4()` is not modelled: ids come from the `Supply`, so nothing is
  claimed about uniqueness. Each stage draws its stamps from its own supply,
  numbered from 0.
- Prices and volumes are exact reals, not IEEE-754 doubles. Rounding, NaN and
  infinities are not modelled, nor are `null` prices other than through
  `Option`.
- The `try`/`catch` inside `_calculate_vwap` is not modelled, because with
  `??` defaults nothing in it can throw.
- `VwapCheck.NormalizeAnchor`: the length test uses the plain decimal
  rendering of an integer anchor. JavaScript switches to exponent form from
  10^21 up, where a ten-character text such as "1.2345e+21" would also be
  rescaled. Non-integer anchors are not modelled.
- The `exchanges || []` and `alerts || []` guards are not modelled, because
  the model's sequences are never missing.

