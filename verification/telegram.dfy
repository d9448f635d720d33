/** The pure part of the Telegram reporter: chart links, symbol shortening,
    the item lines and the two report bodies. The report time (a clock read
    formatted in the Moscow time zone) enters as a string parameter. */

module Telegram {
  import opened Options
  import opened Seqs
  import opened Decimal
  import opened Html
  import opened Alerts

  // ---- Chart links ----

  const ChartBase: string := "https://www.tradingview.com/chart/?symbol="

  /** The exchanges tried in order when an alert lists any. */
  const Priority: seq<string> := ["BYBIT", "BINANCE"]

  /** The first entry of `priority` that `exchanges` lists, or `fallback`
      when none is listed: the priority loop with its `break`. */
  function FirstListed(priority: seq<string>, exchanges: seq<string>, fallback: string): (r: string)
    ensures (exists k :: 0 <= k < |priority| && priority[k] in exchanges)
      ==> exists k :: (0 <= k < |priority| && r == priority[k] && r in exchanges
            && forall i :: 0 <= i < k ==> priority[i] !in exchanges)
    ensures (forall k :: 0 <= k < |priority| ==> priority[k] !in exchanges) ==> r == fallback
  {
    if |priority| == 0 then fallback
    else if priority[0] in exchanges then priority[0]
    else
      var r := FirstListed(priority[1..], exchanges, fallback);
      assert forall k :: 1 <= k < |priority| ==> priority[k] == priority[1..][k - 1];
      r
  }

  /** `_getTradingViewLink`: the bare symbol when no exchange is listed,
      otherwise prefixed by the preferred listed exchange (BINANCE when
      neither preferred one is listed). */
  function TradingViewLink(symbol: string, exchanges: seq<string>): string
  {
    if |exchanges| == 0 then ChartBase + symbol
    else ChartBase + FirstListed(Priority, exchanges, "BINANCE") + ":" + symbol
  }

  /** The three outcomes of the link, stated without the loop. */
  lemma TradingViewLinkCases(symbol: string, exchanges: seq<string>)
    ensures |exchanges| == 0 ==> TradingViewLink(symbol, exchanges) == ChartBase + symbol
    ensures |exchanges| > 0 && "BYBIT" in exchanges ==>
      TradingViewLink(symbol, exchanges) == ChartBase + "BYBIT:" + symbol
    ensures |exchanges| > 0 && "BYBIT" !in exchanges ==>
      TradingViewLink(symbol, exchanges) == ChartBase + "BINANCE:" + symbol
  {
    if |exchanges| > 0 {
      var best := FirstListed(Priority, exchanges, "BINANCE");
      assert Priority[0] == "BYBIT" && Priority[1..] == ["BINANCE"];
      if "BYBIT" in exchanges {
        assert best == "BYBIT";
        assert best + ":" == "BYBIT:";
      } else {
        assert best == FirstListed(["BINANCE"], exchanges, "BINANCE");
        assert best == "BINANCE";
        assert best + ":" == "BINANCE:";
      }
      assert ChartBase + best + ":" + symbol == ChartBase + (best + ":") + symbol;
    }
  }

  // ---- Symbol shortening ----

  /** `s` has `pat` at position `i`. */
  predicate OccursAt(s: string, pat: string, i: nat)
  {
    i + |pat| <= |s| && s[i..i + |pat|] == pat
  }

  /** The first position at or after `from` where `pat` occurs. */
  function FindFrom(s: string, pat: string, from: nat): (r: Option<nat>)
    requires from <= |s|
    ensures r.Some? ==>
      && from <= r.value && OccursAt(s, pat, r.value)
      && forall j :: from <= j < r.value ==> !OccursAt(s, pat, j)
    ensures r.None? ==> forall j :: from <= j <= |s| ==> !OccursAt(s, pat, j)
    decreases |s| - from
  {
    if OccursAt(s, pat, from) then Some(from)
    else if from == |s| then None
    else FindFrom(s, pat, from + 1)
  }

  /** `String.prototype.indexOf` with a string pattern. */
  function IndexOf(s: string, pat: string): Option<nat>
  {
    FindFrom(s, pat, 0)
  }

  /** `String.prototype.replace` with a string pattern: only the first
      occurrence is replaced. */
  function ReplaceFirst(s: string, pat: string, rep: string): string
  {
    match IndexOf(s, pat)
    case None => s
    case Some(k) => s[..k] + rep + s[k + |pat|..]
  }

  /** Removing the first occurrence of `pat` is undone by putting it back
      where it was; with no occurrence, nothing changes. */
  lemma RemoveFirstInverse(s: string, pat: string)
    ensures IndexOf(s, pat).None? ==> ReplaceFirst(s, pat, "") == s
    ensures IndexOf(s, pat).Some? ==>
      var k := IndexOf(s, pat).value;
      var r := ReplaceFirst(s, pat, "");
      && |r| == |s| - |pat|
      && r[..k] + pat + r[k..] == s
      && forall j :: 0 <= j < k ==> !OccursAt(s, pat, j)
  {
    if IndexOf(s, pat).Some? {
      var k := IndexOf(s, pat).value;
      var r := ReplaceFirst(s, pat, "");
      assert r == s[..k] + s[k + |pat|..];
      assert r[..k] == s[..k];
      assert r[k..] == s[k + |pat|..];
      assert s == s[..k] + s[k..k + |pat|] + s[k + |pat|..];
    }
  }

  /** The VWAP report's short symbol: the first "USDT" dropped, then the
      first "PERP". */
  function ShortSymbol(symbol: string): string
  {
    ReplaceFirst(ReplaceFirst(symbol, "USDT", ""), "PERP", "")
  }

  // ---- Message assembly ----

  /** `x || "N/A"` for a string. */
  function OrNA(s: string): (r: string)
    ensures s != "" ==> r == s
    ensures s == "" ==> r == "N/A"
    ensures r != ""
  {
    if s == "" then "N/A" else s
  }

  /** `x || "N/A"` for an optional string: absent or empty gives "N/A". */
  function OptOrNA(o: Option<string>): (r: string)
    ensures o.Some? && o.value != "" ==> r == o.value
    ensures o.None? || o.value == "" ==> r == "N/A"
  {
    OrNA(o.GetOr(""))
  }

  /** `Array.prototype.join`. */
  function Join(items: seq<string>, sep: string): string
  {
    if |items| == 0 then ""
    else if |items| == 1 then items[0]
    else items[0] + sep + Join(items[1..], sep)
  }

  /** Joining grows at the back the way the list does. */
  lemma {:induction false} JoinSnoc(items: seq<string>, x: string, sep: string)
    requires |items| > 0
    ensures Join(items + [x], sep) == Join(items, sep) + sep + x
  {
    if |items| == 1 {
      assert items + [x] == [items[0], x];
      assert [items[0], x][1..] == [x];
    } else {
      assert (items + [x])[1..] == items[1..] + [x];
      JoinSnoc(items[1..], x, sep);
    }
  }

  /** The characters JavaScript's `trim` removes: white space and line
      terminators. */
  predicate IsJsSpace(c: char)
  {
    || c == '\t' || c == '\n' || c == '\U{000B}' || c == '\U{000C}' || c == '\r' || c == ' '
    || c == '\U{00A0}' || c == '\U{1680}' || ('\U{2000}' <= c <= '\U{200A}')
    || c == '\U{2028}' || c == '\U{2029}' || c == '\U{202F}' || c == '\U{205F}'
    || c == '\U{3000}' || c == '\U{FEFF}'
  }

  function TrimStart(s: string): (r: string)
    ensures |r| <= |s| && r == s[|s| - |r|..]
    ensures forall i :: 0 <= i < |s| - |r| ==> IsJsSpace(s[i])
    ensures |r| == 0 || !IsJsSpace(r[0])
  {
    if |s| > 0 && IsJsSpace(s[0]) then TrimStart(s[1..]) else s
  }

  function TrimEnd(s: string): (r: string)
    ensures |r| <= |s| && r == s[..|r|]
    ensures forall i :: |r| <= i < |s| ==> IsJsSpace(s[i])
    ensures |r| == 0 || !IsJsSpace(r[|r| - 1])
  {
    if |s| > 0 && IsJsSpace(s[|s| - 1]) then TrimEnd(s[..|s| - 1]) else s
  }

  /** `String.prototype.trim`. */
  function Trim(s: string): string
  {
    TrimEnd(TrimStart(s))
  }

  /** Trimming a body wrapped in newlines gives the body back when the body
      neither starts nor ends with white space. */
  lemma TrimWrapped(x: string)
    requires |x| > 0 && !IsJsSpace(x[0]) && !IsJsSpace(x[|x| - 1])
    ensures Trim("\n" + x + "\n") == x
  {
    var s := "\n" + x + "\n";
    assert s[1..] == x + "\n";
    assert TrimStart(s) == TrimStart(x + "\n");
    assert TrimStart(x + "\n") == x + "\n";
    assert (x + "\n")[..|x|] == x;
    assert TrimEnd(x + "\n") == TrimEnd(x);
  }

  /** The items of a report, numbered in input order from `k + 1`. */
  function Numbered<T>(xs: seq<T>, item: (T, nat) -> string, k: nat): (r: seq<string>)
    ensures |r| == |xs|
    ensures forall i :: 0 <= i < |r| ==> r[i] == item(xs[i], k + i + 1)
  {
    if |xs| == 0 then []
    else [item(xs[0], k + 1)] + Numbered(xs[1..], item, k + 1)
  }

  /** The report template `\n<header>\n<items>\n<time>\n` after `trim`:
      the header starts with markup and the time ends with its mark, so
      only the two framing newlines go. */
  lemma ReportTrim(header: string, list: string, time: string)
    requires |header| > 0 && header[0] == '<'
    requires |time| > 0 && !IsJsSpace(time[|time| - 1])
    ensures Trim("\n" + header + "\n" + list + "\n" + time + "\n") == header + "\n" + list + "\n" + time
  {
    var body := header + "\n" + list + "\n" + time;
    assert body[0] == header[0];
    assert body[|body| - 1] == time[|time| - 1];
    TrimWrapped(body);
    assert "\n" + header + "\n" + list + "\n" + time + "\n" == "\n" + body + "\n";
  }

  /** The report template, trimmed. */
  function Framed(header: string, items: seq<string>, time: string): (r: string)
    requires |header| > 0 && header[0] == '<'
    requires |time| > 0 && !IsJsSpace(time[|time| - 1])
    ensures r == header + "\n" + Join(items, "\n") + "\n" + time
  {
    ReportTrim(header, Join(items, "\n"), time);
    Trim("\n" + header + "\n" + Join(items, "\n") + "\n" + time + "\n")
  }

  // ---- Line report ----

  const LineNoAlerts: string := "<b>\U{2734}\U{FE0F} LINE ALERTS (1h): NO TRIGGERED ALERTS</b>"
  const LineHeader: string := "<b>\U{2734}\U{FE0F} LINE ALERTS (1h)</b>"
  const LineTimeMark: string := " \U{1F238}\U{1F238}\U{1F238}"

  /** `_formatReportTime` after the clock has been read and formatted. */
  function LineReportTime(timeStr: string): string
  {
    timeStr + LineTimeMark
  }

  /** The `n`-th item: a link to the chart around the escaped name. */
  function LineItem(a: LineAlert, n: nat): string
  {
    var tvLink := TradingViewLink(a.base.symbol, a.base.exchanges);
    var safeName := EscapeHtml(OrNA(a.base.alertName));
    "<a href=\"" + tvLink + "\"><b>" + NatToDecimal(n) + ". <i>" + safeName + "</i></b></a>"
  }

  /** One item per alert, numbered from 1 in input order. */
  function LineItems(alerts: seq<LineAlert>): (r: seq<string>)
    ensures |r| == |alerts|
    ensures forall i :: 0 <= i < |r| ==> r[i] == LineItem(alerts[i], i + 1)
  {
    Numbered(alerts, LineItem, 0)
  }

  /** The Line report body: the fixed "no alerts" text for an empty list,
      otherwise header, one item per line and the report time, without the
      surrounding newlines the template carries. */
  function LineReportMessage(alerts: seq<LineAlert>, timeStr: string): (r: string)
    ensures |alerts| == 0 ==> r == LineNoAlerts
    ensures |alerts| > 0 ==>
      r == LineHeader + "\n" + Join(LineItems(alerts), "\n") + "\n" + timeStr + LineTimeMark
  {
    if |alerts| == 0 then LineNoAlerts
    else
      var time := LineReportTime(timeStr);
      var lead := LineHeader + "\n" + Join(LineItems(alerts), "\n") + "\n";
      assert LineHeader[0] == '<';
      assert time[|time| - 1] == LineTimeMark[|LineTimeMark| - 1];
      assert lead + time == lead + timeStr + LineTimeMark;
      Framed(LineHeader, LineItems(alerts), time)
  }

  /** The visible name in a Line item carries no markup of its own. */
  lemma LineItemNameIsText(a: LineAlert, n: nat)
    ensures var safeName := EscapeHtml(OrNA(a.base.alertName));
      && Unescape(safeName) == OrNA(a.base.alertName)
      && forall i :: 0 <= i < |safeName| ==> safeName[i] != '<' && safeName[i] != '>'
  {
    EscapeRoundTrip(OrNA(a.base.alertName));
    EscapeNoMarkup(OrNA(a.base.alertName));
  }

  // ---- VWAP report ----

  const VwapNoAlerts: string := "<b>\U{1F4B9} VWAP ALERTS (1h): NO TRIGGERED ALERTS</b>"
  const VwapHeader: string := "<b>\U{1F4B9} VWAP ALERTS (1h)</b>"
  const VwapTimeMark: string := " \U{1F22F}\U{FE0F}\U{1F22F}\U{FE0F}\U{1F22F}\U{FE0F}"

  /** `_formatVwapReportTime` after the clock has been read and formatted. */
  function VwapReportTime(timeStr: string): string
  {
    timeStr + VwapTimeMark
  }

  /** The `n`-th item: a link to the chart around the short symbol and the
      anchor time, neither of them escaped. */
  function VwapItem(a: VwapAlert, n: nat): string
  {
    var symbol := OrNA(a.base.symbol);
    var tvLink := TradingViewLink(symbol, a.base.exchanges);
    var anchorTimeStr := OptOrNA(a.anchorTimeStr);
    "<a href=\"" + tvLink + "\"><b>" + NatToDecimal(n) + ". " + ShortSymbol(symbol) + "/<i>" + anchorTimeStr + "</i></b></a>"
  }

  function VwapItems(alerts: seq<VwapAlert>): (r: seq<string>)
    ensures |r| == |alerts|
    ensures forall i :: 0 <= i < |r| ==> r[i] == VwapItem(alerts[i], i + 1)
  {
    Numbered(alerts, VwapItem, 0)
  }

  /** The VWAP report body, shaped like the Line one. */
  function VwapReportMessage(alerts: seq<VwapAlert>, timeStr: string): (r: string)
    ensures |alerts| == 0 ==> r == VwapNoAlerts
    ensures |alerts| > 0 ==>
      r == VwapHeader + "\n" + Join(VwapItems(alerts), "\n") + "\n" + timeStr + VwapTimeMark
  {
    if |alerts| == 0 then VwapNoAlerts
    else
      var time := VwapReportTime(timeStr);
      var lead := VwapHeader + "\n" + Join(VwapItems(alerts), "\n") + "\n";
      assert VwapHeader[0] == '<';
      assert time[|time| - 1] == VwapTimeMark[|VwapTimeMark| - 1];
      assert lead + time == lead + timeStr + VwapTimeMark;
      Framed(VwapHeader, VwapItems(alerts), time)
  }
}
