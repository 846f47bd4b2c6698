/**
 * The string operations of JavaScript that the models use: white space as `\s` and
 * `trim()` see it, `split(/\s+/).filter(Boolean)`, `join`, `includes`, and case mapping.
 */
module Text {

  /** The characters that JavaScript's `\s` and `String.prototype.trim` treat as white space. */
  predicate IsSpace(c: char)
  {
    || c == ' ' || c == '\t' || c == '\n' || c == '\r' || c == '\U{B}' || c == '\U{C}'
    || c == '\U{A0}' || c == '\U{1680}' || ('\U{2000}' <= c <= '\U{200A}')
    || c == '\U{2028}' || c == '\U{2029}' || c == '\U{202F}' || c == '\U{205F}'
    || c == '\U{3000}' || c == '\U{FEFF}'
  }

  predicate NoSpace(s: string)
  {
    forall i :: 0 <= i < |s| ==> !IsSpace(s[i])
  }

  predicate AllSpace(s: string)
  {
    forall i :: 0 <= i < |s| ==> IsSpace(s[i])
  }

  /** Index of the first character of `s` that is not white space (`|s|` when there is none). */
  function SpanStart(s: string): (n: nat)
    ensures n <= |s| && (n < |s| ==> !IsSpace(s[n]))
    ensures forall k :: 0 <= k < n ==> IsSpace(s[k])
  {
    if s == [] || !IsSpace(s[0]) then 0 else 1 + SpanStart(s[1..])
  }

  /** End of `s[lo..hi]` once its trailing white space is dropped. */
  function SpanEnd(s: string, lo: nat, hi: nat): (n: nat)
    requires lo <= hi <= |s|
    ensures lo <= n <= hi && (lo < n ==> !IsSpace(s[n - 1]))
    ensures forall k :: n <= k < hi ==> IsSpace(s[k])
    decreases hi
  {
    if hi == lo || !IsSpace(s[hi - 1]) then hi else SpanEnd(s, lo, hi - 1)
  }

  /** `String.prototype.trim`: the slice of `s` between its leading and its trailing run of white space. */
  function Trim(s: string): (r: string)
    ensures r == [] || (!IsSpace(r[0]) && !IsSpace(r[|r| - 1]))
    ensures r == [] <==> AllSpace(s)
  {
    var lo := SpanStart(s);
    var hi := SpanEnd(s, lo, |s|);
    s[lo..hi]
  }

  /** The trimmed string is the slice of `s` that starts at its first non-white-space character. */
  lemma TrimSlice(s: string) returns (i: nat)
    ensures i + |Trim(s)| <= |s| && Trim(s) == s[i..i + |Trim(s)|]
    ensures i + |Trim(s)| == |s| || IsSpace(s[i + |Trim(s)|])
  {
    i := SpanStart(s);
  }

  /** Length of the longest prefix of `s` that holds no white space. */
  function RunLength(s: string): (n: nat)
    ensures n <= |s| && NoSpace(s[..n])
    ensures n < |s| ==> IsSpace(s[n])
  {
    if s == [] || IsSpace(s[0]) then 0
    else
      var n := 1 + RunLength(s[1..]);
      assert s[..n] == [s[0]] + s[1..][..n - 1];
      n
  }

  /** `s.split(/\s+/).filter(Boolean)`: the maximal runs of non-white-space characters, in order. */
  function Words(s: string): (ws: seq<string>)
    ensures forall i :: 0 <= i < |ws| ==> ws[i] != [] && NoSpace(ws[i])
    decreases |s|
  {
    if s == [] then []
    else if IsSpace(s[0]) then Words(s[1..])
    else
      var n := RunLength(s);
      [s[..n]] + Words(s[n..])
  }

  /** `ws.join(sep)`. */
  function Join(ws: seq<string>, sep: string): string
  {
    if ws == [] then []
    else if |ws| == 1 then ws[0]
    else ws[0] + sep + Join(ws[1..], sep)
  }

  /** A joined list starts with its first part. */
  lemma JoinStart(ws: seq<string>, sep: string)
    requires ws != []
    ensures ws[0] <= Join(ws, sep)
  {
  }

  /** A list of words that `Join(_, " ")` can be split back into. */
  predicate Spaceless(ws: seq<string>)
  {
    forall i :: 0 <= i < |ws| ==> ws[i] != [] && NoSpace(ws[i])
  }

  /** Every character of the joined string comes from a word or from the separator. */
  lemma {:induction false} JoinChars(ws: seq<string>, sep: string, c: char)
    requires c in Join(ws, sep)
    ensures c in sep || exists i :: 0 <= i < |ws| && c in ws[i]
  {
    if |ws| > 1 {
      var rest := Join(ws[1..], sep);
      assert Join(ws, sep) == ws[0] + sep + rest;
      if c !in ws[0] && c !in sep {
        assert c in rest;
        JoinChars(ws[1..], sep, c);
        var i :| 0 <= i < |ws[1..]| && c in ws[1..][i];
        assert c in ws[i + 1];
      }
    } else if |ws| == 1 {
      assert c in ws[0];
    }
  }

  /** The first word of a non-empty joined list is everything before the first space. */
  lemma JoinHead(ws: seq<string>)
    requires ws != []
    ensures Join(ws, " ") == ws[0] + (if |ws| == 1 then [] else " " + Join(ws[1..], " "))
  {
  }

  /** Splitting a space-joined list of words gives the words back. */
  lemma {:induction false} WordsOfJoin(ws: seq<string>)
    requires Spaceless(ws)
    ensures Words(Join(ws, " ")) == ws
  {
    if ws == [] {
    } else {
      var w := ws[0];
      var tail := if |ws| == 1 then [] else " " + Join(ws[1..], " ");
      var s := w + tail;
      assert Join(ws, " ") == s;
      WordsOfRunThen(w, tail);
      if |ws| > 1 {
        assert tail[1..] == Join(ws[1..], " ");
        WordsOfJoin(ws[1..]);
        assert Words(tail) == Words(tail[1..]);
        assert ws == [w] + ws[1..];
      }
    }
  }

  /** A word followed by nothing or by white space is split off whole. */
  lemma {:induction false} WordsOfRunThen(w: string, rest: string)
    requires w != [] && NoSpace(w)
    requires rest == [] || IsSpace(rest[0])
    ensures Words(w + rest) == [w] + Words(rest)
  {
    var s := w + rest;
    RunLengthOfRunThen(w, rest);
    assert s[..|w|] == w;
    assert s[|w|..] == rest;
  }

  lemma {:induction false} RunLengthOfRunThen(w: string, rest: string)
    requires NoSpace(w)
    requires rest == [] || IsSpace(rest[0])
    ensures RunLength(w + rest) == |w|
  {
    if w == [] {
      assert w + rest == rest;
    } else {
      assert (w + rest)[1..] == w[1..] + rest;
      RunLengthOfRunThen(w[1..], rest);
    }
  }

  /** Leading white space does not change the words. */
  lemma {:induction false} WordsSkipSpaces(s: string, k: nat)
    requires k <= |s| && AllSpace(s[..k])
    ensures Words(s) == Words(s[k..])
  {
    if k > 0 {
      assert IsSpace(s[..k][0]);
      assert s[1..][..k - 1] == s[1..k];
      WordsSkipSpaces(s[1..], k - 1);
      assert s[1..][k - 1..] == s[k..];
    }
  }

  /** Trailing white space does not change the words. */
  lemma {:induction false} WordsDropTrailing(t: string, post: string)
    requires AllSpace(post)
    ensures Words(t + post) == Words(t)
    decreases |t|
  {
    if t == [] {
      assert t + post == post;
      assert post[..|post|] == post;
      WordsSkipSpaces(post, |post|);
    } else if IsSpace(t[0]) {
      assert (t + post)[1..] == t[1..] + post;
      WordsDropTrailing(t[1..], post);
    } else {
      var n := RunLength(t);
      assert t == t[..n] + t[n..];
      assert t + post == t[..n] + (t[n..] + post);
      WordsOfRunThen(t[..n], t[n..] + post);
      WordsOfRunThen(t[..n], t[n..]);
      WordsDropTrailing(t[n..], post);
    }
  }

  /** Trimming does not change the words. */
  lemma WordsOfTrim(s: string)
    ensures Words(Trim(s)) == Words(s)
  {
    var lo := SpanStart(s);
    var hi := SpanEnd(s, lo, |s|);
    assert s[..lo] == s[..lo];
    WordsSkipSpaces(s, lo);
    assert s[lo..] == s[lo..hi] + s[hi..];
    WordsDropTrailing(s[lo..hi], s[hi..]);
  }

  /** Replacing one white-space character by a plain space does not change the words. */
  lemma {:induction false} WordsReplaceSpace(x: string, c: char)
    requires IsSpace(c)
    ensures Words(ReplaceAll(x, c, " ")) == Words(x)
    decreases |x|
  {
    if x == [] {
    } else if IsSpace(x[0]) {
      WordsReplaceSpace(x[1..], c);
    } else {
      var n := RunLength(x);
      assert x == x[..n] + x[n..];
      ReplaceAllAppend(x[..n], x[n..], c, " ");
      ReplaceAllAbsent(x[..n], c, " ");
      WordsReplaceSpace(x[n..], c);
      WordsOfRunThen(x[..n], ReplaceAll(x[n..], c, " "));
    }
  }

  /** Distinct lists of spaceless words join to distinct strings. */
  lemma {:induction false} JoinInjective(a: seq<string>, b: seq<string>)
    requires Spaceless(a) && Spaceless(b)
    ensures Join(a, " ") == Join(b, " ") <==> a == b
  {
    if Join(a, " ") == Join(b, " ") {
      WordsOfJoin(a);
      WordsOfJoin(b);
    }
  }

  /** Position of the first `c` in `s`. */
  function IndexOf(s: string, c: char): (n: nat)
    requires c in s
    ensures n < |s| && s[n] == c && c !in s[..n]
  {
    if s[0] == c then 0
    else
      var n := 1 + IndexOf(s[1..], c);
      assert s[..n] == [s[0]] + s[1..][..n - 1];
      n
  }

  /** `s.split(c)` for a one-character separator: never empty, and no part holds `c`. */
  function SplitOn(s: string, c: char): (parts: seq<string>)
    ensures |parts| >= 1
    ensures forall i :: 0 <= i < |parts| ==> c !in parts[i]
    decreases |s|
  {
    if c in s then
      var k := IndexOf(s, c);
      [s[..k]] + SplitOn(s[k + 1..], c)
    else [s]
  }

  /** Joining the parts with the separator gives the string back. */
  lemma {:induction false} JoinSplitOn(s: string, c: char)
    ensures Join(SplitOn(s, c), [c]) == s
    decreases |s|
  {
    if c in s {
      var k := IndexOf(s, c);
      var rest := SplitOn(s[k + 1..], c);
      JoinSplitOn(s[k + 1..], c);
      assert SplitOn(s, c)[1..] == rest;
      assert s == s[..k] + [c] + s[k + 1..];
    }
  }

  /** Splitting parts joined by a separator they do not hold gives the parts back. */
  lemma {:induction false} SplitOnJoin(parts: seq<string>, c: char)
    requires parts != [] && forall i :: 0 <= i < |parts| ==> c !in parts[i]
    ensures SplitOn(Join(parts, [c]), c) == parts
  {
    var p := parts[0];
    if |parts| == 1 {
    } else {
      var rest := Join(parts[1..], [c]);
      var s := p + [c] + rest;
      assert Join(parts, [c]) == s;
      assert s[|p|] == c && c in s;
      var k := IndexOf(s, c);
      assert s[..|p|] == p;
      assert k == |p|;
      assert s[k + 1..] == rest;
      SplitOnJoin(parts[1..], c);
      assert parts == [p] + parts[1..];
    }
  }

  /** A string that neither starts nor ends with white space is its own trim. */
  lemma TrimOfTrimmed(s: string)
    requires s == [] || (!IsSpace(s[0]) && !IsSpace(s[|s| - 1]))
    ensures Trim(s) == s
  {
    if s != [] {
      assert SpanStart(s) == 0;
      assert SpanEnd(s, 0, |s|) == |s|;
    }
  }

  /** `s.replace(c, d)` with a one-character string pattern: only the first `c` is replaced. */
  function ReplaceFirst(s: string, c: char, d: char): string
  {
    if s == [] then []
    else if s[0] == c then [d] + s[1..]
    else [s[0]] + ReplaceFirst(s[1..], c, d)
  }

  lemma {:induction false} ReplaceFirstSkip(a: string, b: string, c: char, d: char)
    requires c !in a
    ensures ReplaceFirst(a + b, c, d) == a + ReplaceFirst(b, c, d)
  {
    if a != [] {
      assert (a + b)[1..] == a[1..] + b;
      ReplaceFirstSkip(a[1..], b, c, d);
    } else {
      assert a + b == b;
    }
  }

  lemma {:induction false} ReplaceFirstAbsent(s: string, c: char, d: char)
    requires c !in s
    ensures ReplaceFirst(s, c, d) == s
  {
    if s != [] {
      ReplaceFirstAbsent(s[1..], c, d);
    }
  }

  /** `s.replaceAll(c, r)` (or `s.replace(/c/g, r)`) for a one-character pattern. */
  function ReplaceAll(s: string, c: char, r: string): string
  {
    if s == [] then [] else (if s[0] == c then r else [s[0]]) + ReplaceAll(s[1..], c, r)
  }

  lemma {:induction false} ReplaceAllAppend(a: string, b: string, c: char, r: string)
    ensures ReplaceAll(a + b, c, r) == ReplaceAll(a, c, r) + ReplaceAll(b, c, r)
  {
    if a != [] {
      assert (a + b)[1..] == a[1..] + b;
      ReplaceAllAppend(a[1..], b, c, r);
    } else {
      assert a + b == b;
    }
  }

  lemma {:induction false} ReplaceAllAbsent(s: string, d: char, r: string)
    requires d !in s
    ensures ReplaceAll(s, d, r) == s
  {
    if s != [] {
      ReplaceAllAbsent(s[1..], d, r);
    }
  }

  /** Lower-case mapping of one character: ASCII and Cyrillic letters. */
  function LowerChar(c: char): char
  {
    if 'A' <= c <= 'Z' || '\U{410}' <= c <= '\U{42F}' then (c as int + 32) as char
    else if '\U{400}' <= c <= '\U{40F}' then (c as int + 80) as char
    else c
  }

  /** Upper-case mapping of one character: ASCII and Cyrillic letters. */
  function UpperChar(c: char): char
  {
    if 'a' <= c <= 'z' || '\U{430}' <= c <= '\U{44F}' then (c as int - 32) as char
    else if '\U{450}' <= c <= '\U{45F}' then (c as int - 80) as char
    else c
  }

  /** `toLowerCase()`, restricted to the letters `LowerChar` maps. */
  function ToLower(s: string): (r: string)
    ensures |r| == |s| && forall i :: 0 <= i < |s| ==> r[i] == LowerChar(s[i])
  {
    seq(|s|, i requires 0 <= i < |s| => LowerChar(s[i]))
  }

  /** `toUpperCase()`, restricted to the letters `UpperChar` maps. */
  function ToUpper(s: string): (r: string)
    ensures |r| == |s| && forall i :: 0 <= i < |s| ==> r[i] == UpperChar(s[i])
  {
    seq(|s|, i requires 0 <= i < |s| => UpperChar(s[i]))
  }

  /** `s.includes(q)`: `q` occurs in `s` at some position. */
  predicate Contains(s: string, q: string)
  {
    q <= s || (s != [] && Contains(s[1..], q))
  }
}
