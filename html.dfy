/** `escapeHtml`, the same five-step `replaceAll` chain in video_catalog.js, video_card.js and app.js. */
module Html {

  import opened Text

  /** The source's chain: `&` first, then `<`, `>`, `"` and `'`. */
  function EscapeHtml(s: string): string
  {
    ReplaceAll(ReplaceAll(ReplaceAll(ReplaceAll(ReplaceAll(s, '&', "&amp;"), '<', "&lt;"), '>', "&gt;"), '"', "&quot;"), '\'', "&#039;")
  }

  /** The entity each character becomes. */
  function EscapeChar(c: char): string
  {
    if c == '&' then "&amp;"
    else if c == '<' then "&lt;"
    else if c == '>' then "&gt;"
    else if c == '"' then "&quot;"
    else if c == '\'' then "&#039;"
    else [c]
  }

  /** Character-by-character escaping: the reference the chain is compared with. */
  function EscapeEach(s: string): string
  {
    if s == [] then [] else EscapeChar(s[0]) + EscapeEach(s[1..])
  }

  /** Decodes exactly the five entities `EscapeChar` emits. */
  function Unescape(s: string): string
  {
    if s == [] then []
    else if "&amp;" <= s then "&" + Unescape(s[5..])
    else if "&lt;" <= s then "<" + Unescape(s[4..])
    else if "&gt;" <= s then ">" + Unescape(s[4..])
    else if "&quot;" <= s then "\"" + Unescape(s[6..])
    else if "&#039;" <= s then "'" + Unescape(s[6..])
    else [s[0]] + Unescape(s[1..])
  }

  predicate IsRawSpecial(c: char) { c == '<' || c == '>' || c == '"' || c == '\'' }

  /** One of the five emitted entities starts at position `i`. */
  predicate EntityAt(s: string, i: nat)
    requires i < |s|
  {
    var t := s[i..];
    "&amp;" <= t || "&lt;" <= t || "&gt;" <= t || "&quot;" <= t || "&#039;" <= t
  }

  /** Safe HTML text: no raw `<`, `>`, `"`, `'`, and every `&` opens an entity. */
  predicate Escaped(s: string)
  {
    forall i :: 0 <= i < |s| ==> !IsRawSpecial(s[i]) && (s[i] == '&' ==> EntityAt(s, i))
  }

  lemma EscapeHtmlAppend(a: string, b: string)
    ensures EscapeHtml(a + b) == EscapeHtml(a) + EscapeHtml(b)
  {
    ReplaceAllAppend(a, b, '&', "&amp;");
    var a1, b1 := ReplaceAll(a, '&', "&amp;"), ReplaceAll(b, '&', "&amp;");
    ReplaceAllAppend(a1, b1, '<', "&lt;");
    var a2, b2 := ReplaceAll(a1, '<', "&lt;"), ReplaceAll(b1, '<', "&lt;");
    ReplaceAllAppend(a2, b2, '>', "&gt;");
    var a3, b3 := ReplaceAll(a2, '>', "&gt;"), ReplaceAll(b2, '>', "&gt;");
    ReplaceAllAppend(a3, b3, '"', "&quot;");
    var a4, b4 := ReplaceAll(a3, '"', "&quot;"), ReplaceAll(b3, '"', "&quot;");
    ReplaceAllAppend(a4, b4, '\'', "&#039;");
  }

  /** The `replaceAll` chain escapes each character on its own: `&` first keeps entities from being escaped twice. */
  lemma {:induction false} EscapeHtmlIsPerCharacter(s: string)
    ensures EscapeHtml(s) == EscapeEach(s)
  {
    if s != [] {
      assert s == [s[0]] + s[1..];
      EscapeHtmlAppend([s[0]], s[1..]);
      EscapeHtmlIsPerCharacter(s[1..]);
      EscapeHtmlOneChar(s[0]);
    }
  }

  lemma ReplaceAllOne(c: char, d: char, r: string)
    ensures ReplaceAll([c], d, r) == if c == d then r else [c]
  {
    assert [c][1..] == [];
  }

  /** The last four steps of the chain leave `s` alone when it holds none of their characters. */
  lemma LaterStepsKeep(s: string, from: nat)
    requires 1 <= from <= 5
    requires from <= 1 ==> '<' !in s
    requires from <= 2 ==> '>' !in s
    requires from <= 3 ==> '"' !in s
    requires from <= 4 ==> '\'' !in s
    ensures from <= 1 ==> ReplaceAll(s, '<', "&lt;") == s
    ensures from <= 2 ==> ReplaceAll(s, '>', "&gt;") == s
    ensures from <= 3 ==> ReplaceAll(s, '"', "&quot;") == s
    ensures from <= 4 ==> ReplaceAll(s, '\'', "&#039;") == s
  {
    if from <= 1 { ReplaceAllAbsent(s, '<', "&lt;"); }
    if from <= 2 { ReplaceAllAbsent(s, '>', "&gt;"); }
    if from <= 3 { ReplaceAllAbsent(s, '"', "&quot;"); }
    if from <= 4 { ReplaceAllAbsent(s, '\'', "&#039;"); }
  }

  lemma EscapeHtmlOneChar(c: char)
    ensures EscapeHtml([c]) == EscapeChar(c)
  {
    ReplaceAllOne(c, '&', "&amp;");
    if c == '&' {
      LaterStepsKeep("&amp;", 1);
    } else {
      ReplaceAllOne(c, '<', "&lt;");
      if c == '<' {
        LaterStepsKeep("&lt;", 2);
      } else {
        ReplaceAllOne(c, '>', "&gt;");
        if c == '>' {
          LaterStepsKeep("&gt;", 3);
        } else {
          ReplaceAllOne(c, '"', "&quot;");
          if c == '"' {
            LaterStepsKeep("&quot;", 4);
          } else {
            ReplaceAllOne(c, '\'', "&#039;");
          }
        }
      }
    }
  }

  lemma {:induction false} EscapedAppend(a: string, b: string)
    requires Escaped(a) && Escaped(b)
    ensures Escaped(a + b)
  {
    var s := a + b;
    forall i | 0 <= i < |s|
      ensures !IsRawSpecial(s[i]) && (s[i] == '&' ==> EntityAt(s, i))
    {
      if i < |a| {
        assert s[i] == a[i];
        if s[i] == '&' {
          assert EntityAt(a, i);
          assert s[i..] == a[i..] + b;
        }
      } else {
        assert s[i] == b[i - |a|];
        if s[i] == '&' {
          assert EntityAt(b, i - |a|);
          assert s[i..] == b[i - |a|..];
        }
      }
    }
  }

  lemma {:induction false} EscapeEachEscaped(s: string)
    ensures Escaped(EscapeEach(s))
  {
    if s != [] {
      EscapeEachEscaped(s[1..]);
      var e := EscapeChar(s[0]);
      assert Escaped(e) by {
        if s[0] == '&' || IsRawSpecial(s[0]) {
          assert e[0] == '&' && EntityAt(e, 0);
        }
      }
      EscapedAppend(e, EscapeEach(s[1..]));
    }
  }

  /** The output of `escapeHtml` holds no raw `<`, `>`, `"` or `'`, and each `&` starts an emitted entity. */
  lemma EscapeHtmlIsSafe(s: string)
    ensures Escaped(EscapeHtml(s))
  {
    EscapeHtmlIsPerCharacter(s);
    EscapeEachEscaped(s);
  }

  /** Decoding the escaped text gives back the original: escaping loses nothing. */
  lemma {:induction false} UnescapeEscapeHtml(s: string)
    ensures Unescape(EscapeHtml(s)) == s
  {
    EscapeHtmlIsPerCharacter(s);
    UnescapeEscapeEach(s);
  }

  lemma NotPrefix(p: string, t: string, i: nat)
    requires i < |p| && i < |t| && p[i] != t[i]
    ensures !(p <= t)
  {
  }

  lemma {:induction false} UnescapeEscapeEach(s: string)
    ensures Unescape(EscapeEach(s)) == s
  {
    if s != [] {
      UnescapeEscapeEach(s[1..]);
      var e, rest := EscapeChar(s[0]), EscapeEach(s[1..]);
      var t := e + rest;
      assert t[|e|..] == rest;
      if s[0] == '&' {
        assert "&amp;" <= t && |e| == 5 && t[5..] == rest;
      } else if s[0] == '<' {
        NotPrefix("&amp;", t, 1);
        assert "&lt;" <= t && |e| == 4 && t[4..] == rest;
      } else if s[0] == '>' {
        NotPrefix("&amp;", t, 1);
        NotPrefix("&lt;", t, 1);
        assert "&gt;" <= t && |e| == 4 && t[4..] == rest;
      } else if s[0] == '"' {
        NotPrefix("&amp;", t, 1);
        NotPrefix("&lt;", t, 1);
        NotPrefix("&gt;", t, 1);
        assert "&quot;" <= t && |e| == 6 && t[6..] == rest;
      } else if s[0] == '\'' {
        NotPrefix("&amp;", t, 1);
        NotPrefix("&lt;", t, 1);
        NotPrefix("&gt;", t, 1);
        NotPrefix("&quot;", t, 1);
        assert "&#039;" <= t && |e| == 6 && t[6..] == rest;
      } else {
        assert t[0] == s[0] && t[0] != '&' && t[1..] == rest;
        assert !("&amp;" <= t) && !("&lt;" <= t) && !("&gt;" <= t) && !("&quot;" <= t) && !("&#039;" <= t);
      }
      assert s == [s[0]] + s[1..];
    }
  }
}
