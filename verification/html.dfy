/** HTML escaping for the Telegram report: the five global `replace` passes
    the sender applies, their single-pass reading, and the decoder that
    shows escaping loses nothing. */
module Html {

  predicate StartsWith(s: string, p: string)
  {
    |p| <= |s| && s[..|p|] == p
  }

  /** `s.replace(/ch/g, rep)`: every occurrence of `ch` becomes `rep`. */
  function ReplaceAll(s: string, ch: char, rep: string): string
  {
    if |s| == 0 then ""
    else (if s[0] == ch then rep else [s[0]]) + ReplaceAll(s[1..], ch, rep)
  }

  /** The five passes in the sender's order, `&` first. */
  function Passes(s: string): string
  {
    var s1 := ReplaceAll(s, '&', "&amp;");
    var s2 := ReplaceAll(s1, '<', "&lt;");
    var s3 := ReplaceAll(s2, '>', "&gt;");
    var s4 := ReplaceAll(s3, '"', "&quot;");
    ReplaceAll(s4, '\'', "&#039;")
  }

  /** The sender's escaping helper; a falsy (empty) input gives "". */
  function EscapeHtml(unsafe: string): string
  {
    if unsafe == "" then "" else Passes(unsafe)
  }

  predicate IsSpecial(c: char)
  {
    c == '&' || c == '<' || c == '>' || c == '"' || c == '\''
  }

  /** The reference reading: each character escaped on its own. */
  function EscapeChar(c: char): (r: string)
    ensures IsSpecial(c) ==> |r| > 1 && r[0] == '&'
    ensures !IsSpecial(c) ==> r == [c]
  {
    match c
    case '&' => "&amp;"
    case '<' => "&lt;"
    case '>' => "&gt;"
    case '"' => "&quot;"
    case '\'' => "&#039;"
    case _ => [c]
  }

  function EscapeEach(s: string): string
  {
    if |s| == 0 then "" else EscapeChar(s[0]) + EscapeEach(s[1..])
  }

  /** Decodes the five entities the escaper produces. */
  function Unescape(s: string): string
  {
    if |s| == 0 then ""
    else if StartsWith(s, "&amp;") then "&" + Unescape(s[5..])
    else if StartsWith(s, "&lt;") then "<" + Unescape(s[4..])
    else if StartsWith(s, "&gt;") then ">" + Unescape(s[4..])
    else if StartsWith(s, "&quot;") then "\"" + Unescape(s[6..])
    else if StartsWith(s, "&#039;") then "'" + Unescape(s[6..])
    else [s[0]] + Unescape(s[1..])
  }

  /** Position `i` of `s` starts one of the five entities. */
  predicate EntityAt(s: string, i: nat)
    requires i <= |s|
  {
    var t := s[i..];
    StartsWith(t, "&amp;") || StartsWith(t, "&lt;") || StartsWith(t, "&gt;")
    || StartsWith(t, "&quot;") || StartsWith(t, "&#039;")
  }

  lemma {:induction false} ReplaceAllConcat(x: string, y: string, ch: char, rep: string)
    ensures ReplaceAll(x + y, ch, rep) == ReplaceAll(x, ch, rep) + ReplaceAll(y, ch, rep)
  {
    if |x| == 0 {
      assert x + y == y;
    } else {
      assert (x + y)[1..] == x[1..] + y;
      ReplaceAllConcat(x[1..], y, ch, rep);
    }
  }

  lemma {:induction false} ReplaceAllAbsent(s: string, ch: char, rep: string)
    requires ch !in s
    ensures ReplaceAll(s, ch, rep) == s
  {
    if |s| > 0 {
      assert s == [s[0]] + s[1..];
      ReplaceAllAbsent(s[1..], ch, rep);
    }
  }

  lemma ReplaceAllSingle(c: char, ch: char, rep: string)
    ensures ReplaceAll([c], ch, rep) == if c == ch then rep else [c]
  {
    assert [c][1..] == [];
  }

  lemma PassesConcat(x: string, y: string)
    ensures Passes(x + y) == Passes(x) + Passes(y)
  {
    var x1, y1 := ReplaceAll(x, '&', "&amp;"), ReplaceAll(y, '&', "&amp;");
    ReplaceAllConcat(x, y, '&', "&amp;");
    var x2, y2 := ReplaceAll(x1, '<', "&lt;"), ReplaceAll(y1, '<', "&lt;");
    ReplaceAllConcat(x1, y1, '<', "&lt;");
    var x3, y3 := ReplaceAll(x2, '>', "&gt;"), ReplaceAll(y2, '>', "&gt;");
    ReplaceAllConcat(x2, y2, '>', "&gt;");
    var x4, y4 := ReplaceAll(x3, '"', "&quot;"), ReplaceAll(y3, '"', "&quot;");
    ReplaceAllConcat(x3, y3, '"', "&quot;");
    ReplaceAllConcat(x4, y4, '\'', "&#039;");
  }

  /** Applies the passes after the first one to a string none of whose
      characters they replace. */
  lemma LaterPassesAbsent(e: string)
    requires '<' !in e && '>' !in e && '"' !in e && '\'' !in e
    ensures ReplaceAll(ReplaceAll(ReplaceAll(ReplaceAll(e, '<', "&lt;"), '>', "&gt;"), '"', "&quot;"), '\'', "&#039;") == e
  {
    ReplaceAllAbsent(e, '<', "&lt;");
    ReplaceAllAbsent(e, '>', "&gt;");
    ReplaceAllAbsent(e, '"', "&quot;");
    ReplaceAllAbsent(e, '\'', "&#039;");
  }

  /** The passes after the first on a one-character string. */
  function LaterPasses(s: string): string
  {
    ReplaceAll(ReplaceAll(ReplaceAll(ReplaceAll(s, '<', "&lt;"), '>', "&gt;"), '"', "&quot;"), '\'', "&#039;")
  }

  lemma LaterPassesChar(c: char)
    requires c != '&'
    ensures LaterPasses([c]) == EscapeChar(c)
  {
    ReplaceAllSingle(c, '<', "&lt;");
    var s2 := ReplaceAll([c], '<', "&lt;");
    if c == '<' {
      assert s2 == "&lt;";
      LaterPassesAbsentFrom2(s2);
    } else {
      assert s2 == [c];
      ReplaceAllSingle(c, '>', "&gt;");
      var s3 := ReplaceAll(s2, '>', "&gt;");
      if c == '>' {
        assert s3 == "&gt;";
        ReplaceAllAbsent(s3, '"', "&quot;");
        ReplaceAllAbsent(s3, '\'', "&#039;");
      } else {
        assert s3 == [c];
        ReplaceAllSingle(c, '"', "&quot;");
        var s4 := ReplaceAll(s3, '"', "&quot;");
        if c == '"' {
          assert s4 == "&quot;";
          ReplaceAllAbsent(s4, '\'', "&#039;");
        } else {
          assert s4 == [c];
          ReplaceAllSingle(c, '\'', "&#039;");
        }
      }
    }
  }

  lemma LaterPassesAbsentFrom2(e: string)
    requires '>' !in e && '"' !in e && '\'' !in e
    ensures ReplaceAll(ReplaceAll(ReplaceAll(e, '>', "&gt;"), '"', "&quot;"), '\'', "&#039;") == e
  {
    ReplaceAllAbsent(e, '>', "&gt;");
    ReplaceAllAbsent(e, '"', "&quot;");
    ReplaceAllAbsent(e, '\'', "&#039;");
  }

  /** The first pass's entity survives the later passes untouched. */
  lemma PassesAmp()
    ensures Passes("&") == "&amp;"
  {
    ReplaceAllSingle('&', '&', "&amp;");
    assert ReplaceAll("&", '&', "&amp;") == "&amp;";
    LaterPassesAbsent("&amp;");
  }

  /** On one character the five passes agree with `EscapeChar`: an entity
      produced by an earlier pass holds none of the later passes' characters. */
  lemma PassesChar(c: char)
    ensures Passes([c]) == EscapeChar(c)
  {
    if c == '&' {
      PassesAmp();
    } else {
      ReplaceAllSingle(c, '&', "&amp;");
      assert ReplaceAll([c], '&', "&amp;") == [c];
      assert Passes([c]) == LaterPasses([c]);
      LaterPassesChar(c);
    }
  }

  /** The chained global replacements equal escaping each character once:
      no entity is escaped a second time. */
  lemma {:induction false} EscapeHtmlIsSinglePass(s: string)
    ensures EscapeHtml(s) == EscapeEach(s)
  {
    if |s| > 0 {
      assert s == [s[0]] + s[1..];
      PassesConcat([s[0]], s[1..]);
      PassesChar(s[0]);
      EscapeHtmlIsSinglePass(s[1..]);
      if s[1..] == "" {
        assert Passes("") == "";
      }
    }
  }

  lemma UnescapeEntity(e: string, c: char, t: string)
    requires |e| > 1 && e[0] == '&'
    requires e in ["&amp;", "&lt;", "&gt;", "&quot;", "&#039;"]
    requires e == EscapeChar(c)
    ensures Unescape(e + t) == [c] + Unescape(t)
  {
    var s := e + t;
    assert s[..|e|] == e && s[|e|..] == t;
    assert s[1] == e[1];
  }

  lemma HeadMismatch(s: string, p: string)
    requires |s| > 0 && |p| > 0 && s[0] != p[0]
    ensures !StartsWith(s, p)
  {
  }

  lemma UnescapeChar(c: char, t: string)
    ensures Unescape(EscapeChar(c) + t) == [c] + Unescape(t)
  {
    var e := EscapeChar(c);
    if IsSpecial(c) {
      UnescapeEntity(e, c, t);
    } else {
      var s := e + t;
      assert e == [c];
      assert s[0] == c && s[1..] == t;
      HeadMismatch(s, "&amp;");
      HeadMismatch(s, "&lt;");
      HeadMismatch(s, "&gt;");
      HeadMismatch(s, "&quot;");
      HeadMismatch(s, "&#039;");
    }
  }

  lemma {:induction false} UnescapeEach(s: string)
    ensures Unescape(EscapeEach(s)) == s
  {
    if |s| > 0 {
      UnescapeChar(s[0], EscapeEach(s[1..]));
      UnescapeEach(s[1..]);
    }
  }

  /** Decoding the five entities recovers the input. */
  lemma EscapeRoundTrip(s: string)
    ensures Unescape(EscapeHtml(s)) == s
  {
    EscapeHtmlIsSinglePass(s);
    UnescapeEach(s);
  }

  /** Hence escaping is injective. */
  lemma EscapeInjective(s: string, t: string)
    requires EscapeHtml(s) == EscapeHtml(t)
    ensures s == t
  {
    EscapeRoundTrip(s);
    EscapeRoundTrip(t);
  }

  lemma {:induction false} EscapeEachNoMarkup(s: string)
    ensures forall i :: 0 <= i < |EscapeEach(s)| ==> EscapeEach(s)[i] !in "<>\"'"
  {
    if |s| > 0 {
      EscapeEachNoMarkup(s[1..]);
      var e := EscapeChar(s[0]);
      var r := EscapeEach(s);
      assert forall i :: 0 <= i < |e| ==> e[i] !in "<>\"'";
      forall i | 0 <= i < |r|
        ensures r[i] !in "<>\"'"
      {
        if i >= |e| {
          assert r[i] == EscapeEach(s[1..])[i - |e|];
        }
      }
    }
  }

  /** The output holds none of `<`, `>`, `"` or `'`. */
  lemma EscapeNoMarkup(s: string)
    ensures forall i :: 0 <= i < |EscapeHtml(s)| ==> EscapeHtml(s)[i] !in "<>\"'"
  {
    EscapeHtmlIsSinglePass(s);
    EscapeEachNoMarkup(s);
  }

  lemma {:induction false} EscapeEachAmpersands(s: string)
    ensures forall i :: 0 <= i < |EscapeEach(s)| && EscapeEach(s)[i] == '&' ==> EntityAt(EscapeEach(s), i)
  {
    if |s| > 0 {
      var tail := EscapeEach(s[1..]);
      EscapeEachAmpersands(s[1..]);
      var e := EscapeChar(s[0]);
      var r := EscapeEach(s);
      assert r == e + tail;
      forall i | 0 <= i < |r| && r[i] == '&'
        ensures EntityAt(r, i)
      {
        if i >= |e| {
          assert r[i..] == tail[i - |e|..];
          assert tail[i - |e|] == '&';
        } else {
          assert IsSpecial(s[0]);
          assert i == 0 by {
            if s[0] == '&' { assert e == "&amp;"; }
            else if s[0] == '<' { assert e == "&lt;"; }
            else if s[0] == '>' { assert e == "&gt;"; }
            else if s[0] == '"' { assert e == "&quot;"; }
            else { assert e == "&#039;"; }
          }
          assert r[..|e|] == e;
        }
      }
    }
  }

  /** Every `&` in the output begins one of the five entities. */
  lemma EscapeAmpersands(s: string)
    ensures forall i :: 0 <= i < |EscapeHtml(s)| && EscapeHtml(s)[i] == '&' ==> EntityAt(EscapeHtml(s), i)
  {
    EscapeHtmlIsSinglePass(s);
    EscapeEachAmpersands(s);
  }

  lemma {:induction false} EscapeEachIdentity(s: string)
    requires forall i :: 0 <= i < |s| ==> !IsSpecial(s[i])
    ensures EscapeEach(s) == s
  {
    if |s| > 0 {
      EscapeEachIdentity(s[1..]);
      assert s == [s[0]] + s[1..];
    }
  }

  /** A string without any of the five special characters is left as it is
      (the empty string included). */
  lemma EscapeIdentity(s: string)
    requires forall i :: 0 <= i < |s| ==> !IsSpecial(s[i])
    ensures EscapeHtml(s) == s
  {
    EscapeHtmlIsSinglePass(s);
    EscapeEachIdentity(s);
  }
}
