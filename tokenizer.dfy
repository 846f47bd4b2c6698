/**
 * The subtitle tokenizer of the sentence-building puzzle: `tokenizeText` in
 * video.js. A cue's text becomes the list of words the learner has to put back
 * in order. Tags are blanked out, the text is split on white space, and every
 * word loses the punctuation and symbols at its two ends; a word that is
 * nothing but punctuation is dropped.
 */
module Tokenizer {

  import opened Text

  /** The no-break space, which the tokenizer turns into an ordinary space. */
  const NBSP: char := '\U{A0}'

  /**
   * The characters of the Unicode categories P (punctuation) and S (symbols),
   * as far as this model knows them: the ASCII ones, the Latin-1 ones, general
   * punctuation, currency symbols, the numero sign, arrows and mathematical
   * operators. Other scripts' punctuation is not part of this model.
   */
  predicate IsPunct(c: char)
  {
    ('!' <= c <= '/') || (':' <= c <= '@') || ('[' <= c <= '`') || ('{' <= c <= '~')
    || ('\U{A1}' <= c <= '\U{A9}') || c == '\U{AB}' || c == '\U{AC}'
    || ('\U{AE}' <= c <= '\U{B1}') || c == '\U{B4}' || ('\U{B6}' <= c <= '\U{B8}')
    || c == '\U{BB}' || c == '\U{BF}' || c == '\U{D7}' || c == '\U{F7}'
    || ('\U{2010}' <= c <= '\U{2027}') || ('\U{2030}' <= c <= '\U{205E}')
    || ('\U{20A0}' <= c <= '\U{20C0}') || c == '\U{2116}'
    || ('\U{2190}' <= c <= '\U{22FF}')
  }

  predicate AllPunct(s: string)
  {
    forall i :: 0 <= i < |s| ==> IsPunct(s[i])
  }

  /** What the tokenizer promises about each word it hands out. */
  predicate IsToken(t: string)
  {
    t != [] && NoSpace(t) && !IsPunct(t[0]) && !IsPunct(t[|t| - 1])
  }

  predicate AllTokens(ts: seq<string>)
  {
    forall i :: 0 <= i < |ts| ==> IsToken(ts[i])
  }

  /**
   * `s.replace(/<[^>]*>/g, fill)`: each `<` that has a `>` somewhere after it
   * starts a tag running to the first such `>`, and the whole tag becomes
   * `fill`; a `<` with no `>` after it is kept as it is.
   */
  function ReplaceTags(s: string, fill: string): string
    decreases |s|
  {
    if s == [] then []
    else if s[0] == '<' && '>' in s[1..] then
      fill + ReplaceTags(s[1..][IndexOf(s[1..], '>') + 1..], fill)
    else [s[0]] + ReplaceTags(s[1..], fill)
  }

  /** `tok.replace(/^[\p{P}\p{S}]+/u, '')`. */
  function StripLeading(w: string): (r: string)
    ensures |r| <= |w| && r == w[|w| - |r|..]
    ensures AllPunct(w[..|w| - |r|])
    ensures r == [] || !IsPunct(r[0])
  {
    if w != [] && IsPunct(w[0]) then
      var r := StripLeading(w[1..]);
      AllPunctFront(w, r);
      r
    else w
  }

  /** `tok.replace(/[\p{P}\p{S}]+$/u, '')`. */
  function StripTrailing(w: string): (r: string)
    ensures |r| <= |w| && r == w[..|r|]
    ensures AllPunct(w[|r|..])
    ensures r == [] || !IsPunct(r[|r| - 1])
  {
    if w != [] && IsPunct(w[|w| - 1]) then
      var r := StripTrailing(w[..|w| - 1]);
      AllPunctBack(w, r);
      r
    else w
  }

  lemma AllPunctFront(w: string, r: string)
    requires w != [] && IsPunct(w[0]) && |r| <= |w[1..]| && AllPunct(w[1..][..|w[1..]| - |r|])
    ensures AllPunct(w[..|w| - |r|])
  {
    assert w[..|w| - |r|] == [w[0]] + w[1..][..|w[1..]| - |r|];
  }

  lemma AllPunctBack(w: string, r: string)
    requires w != [] && IsPunct(w[|w| - 1]) && |r| <= |w[..|w| - 1]| && AllPunct(w[..|w| - 1][|r|..])
    ensures AllPunct(w[|r|..])
  {
    assert w[|r|..] == w[..|w| - 1][|r|..] + [w[|w| - 1]];
  }

  function CleanWord(w: string): string
  {
    StripTrailing(StripLeading(w))
  }

  /** The loop over the raw words: strip each, skip the empty and the all-punctuation ones. */
  function KeepTokens(ws: seq<string>): seq<string>
  {
    if ws == [] then []
    else
      var t := CleanWord(ws[0]);
      (if t == [] || AllPunct(t) then [] else [t]) + KeepTokens(ws[1..])
  }

  /** `tokenizeText(text)`. */
  function Tokenize(text: string): seq<string>
  {
    KeepTokens(Words(ReplaceAll(ReplaceTags(text, " "), NBSP, " ")))
  }

  // ---------------------------------------------------------------------
  // Every token is a clean word

  lemma CleanWordOfWord(w: string)
    requires NoSpace(w)
    ensures CleanWord(w) == [] || IsToken(CleanWord(w))
  {
    var a := StripLeading(w);
    var t := StripTrailing(a);
    assert CleanWord(w) == t;
    CleanSlice(w, a, t);
  }

  /** A piece cut out of a word without white space, clean at both ends, is a token. */
  lemma CleanSlice(w: string, a: string, t: string)
    requires NoSpace(w) && |a| <= |w| && a == w[|w| - |a|..] && |t| <= |a| && t == a[..|t|]
    requires a == [] || !IsPunct(a[0])
    requires t == [] || !IsPunct(t[|t| - 1])
    ensures t == [] || IsToken(t)
  {
    if t != [] {
      assert t[0] == a[0];
      forall k | 0 <= k < |t|
        ensures !IsSpace(t[k])
      {
        assert t[k] == a[k] == w[|w| - |a| + k];
      }
    }
  }

  lemma {:induction false} KeepTokensClean(ws: seq<string>)
    requires forall i :: 0 <= i < |ws| ==> NoSpace(ws[i])
    ensures AllTokens(KeepTokens(ws))
  {
    if ws != [] {
      var t := CleanWord(ws[0]);
      CleanWordOfWord(ws[0]);
      KeepTokensClean(ws[1..]);
      if t == [] || AllPunct(t) {
        assert KeepTokens(ws) == KeepTokens(ws[1..]);
      } else {
        assert KeepTokens(ws) == [t] + KeepTokens(ws[1..]);
        AllTokensCons(t, KeepTokens(ws[1..]));
      }
    }
  }

  lemma AllTokensCons(t: string, ts: seq<string>)
    requires IsToken(t) && AllTokens(ts)
    ensures AllTokens([t] + ts)
  {
    forall i | 0 <= i < |[t] + ts|
      ensures IsToken(([t] + ts)[i])
    {
      if i > 0 {
        assert ([t] + ts)[i] == ts[i - 1];
      }
    }
  }

  /** Every token is non-empty, holds no white space and neither starts nor ends with punctuation. */
  lemma TokensAreClean(text: string)
    ensures AllTokens(Tokenize(text))
  {
    KeepTokensClean(Words(ReplaceAll(ReplaceTags(text, " "), NBSP, " ")));
  }

  // ---------------------------------------------------------------------
  // A text of nothing but punctuation and white space has no tokens

  lemma {:induction false} ReplaceTagsChars(s: string, fill: string, c: char)
    requires c in ReplaceTags(s, fill)
    ensures c in s || c in fill
    decreases |s|
  {
    if s[0] == '<' && '>' in s[1..] {
      var rest := s[1..][IndexOf(s[1..], '>') + 1..];
      if c !in fill {
        ReplaceTagsChars(rest, fill, c);
        assert rest == s[IndexOf(s[1..], '>') + 2..];
      }
    } else if c != s[0] {
      ReplaceTagsChars(s[1..], fill, c);
    }
  }

  lemma {:induction false} ReplaceAllChars(s: string, d: char, r: string, c: char)
    requires c in ReplaceAll(s, d, r)
    ensures c in s || c in r
  {
    if (if s[0] == d then r else [s[0]]) + ReplaceAll(s[1..], d, r) != [] && c !in (if s[0] == d then r else [s[0]]) {
      ReplaceAllChars(s[1..], d, r, c);
    }
  }

  lemma {:induction false} WordsChars(s: string, i: nat, c: char)
    requires i < |Words(s)| && c in Words(s)[i]
    ensures c in s
    decreases |s|
  {
    if IsSpace(s[0]) {
      WordsChars(s[1..], i, c);
    } else {
      var n := RunLength(s);
      if i > 0 {
        WordsChars(s[n..], i - 1, c);
      }
    }
  }

  lemma {:induction false} KeepTokensOfPunct(ws: seq<string>)
    requires forall i :: 0 <= i < |ws| ==> AllPunct(ws[i])
    ensures KeepTokens(ws) == []
  {
    if ws != [] {
      var a := StripLeading(ws[0]);
      assert a == [];
      KeepTokensOfPunct(ws[1..]);
    }
  }

  /** Cues made only of punctuation, symbols and white space (such as `...` or `--`) give no tokens. */
  lemma NoTokensInPunctuation(text: string)
    requires forall i :: 0 <= i < |text| ==> IsSpace(text[i]) || IsPunct(text[i])
    ensures Tokenize(text) == []
  {
    var s0 := ReplaceTags(text, " ");
    var s1 := ReplaceAll(s0, NBSP, " ");
    var ws := Words(s1);
    forall i | 0 <= i < |ws|
      ensures AllPunct(ws[i])
    {
      forall k | 0 <= k < |ws[i]|
        ensures IsPunct(ws[i][k])
      {
        var c := ws[i][k];
        WordsChars(s1, i, c);
        ReplaceAllChars(s0, NBSP, " ", c);
        if c in s0 {
          ReplaceTagsChars(text, " ", c);
        }
        assert !IsSpace(c);
      }
    }
    KeepTokensOfPunct(ws);
  }

  // ---------------------------------------------------------------------
  // A tag counts as white space

  lemma {:induction false} ReplaceTagsPlain(a: string, b: string, fill: string)
    requires '<' !in a
    ensures ReplaceTags(a + b, fill) == a + ReplaceTags(b, fill)
  {
    if a != [] {
      assert (a + b)[0] == a[0] && (a + b)[1..] == a[1..] + b;
      ReplaceTagsPlain(a[1..], b, fill);
    } else {
      assert a + b == b;
    }
  }

  lemma ReplaceTagsTag(x: string, b: string, fill: string)
    requires '>' !in x
    ensures ReplaceTags("<" + x + ">" + b, fill) == fill + ReplaceTags(b, fill)
  {
    var s := "<" + x + ">" + b;
    assert s[1..] == x + ">" + b;
    assert s[1..][|x|] == '>';
    var n := IndexOf(s[1..], '>');
    assert forall k :: 0 <= k < |x| ==> s[1..][k] == x[k];
    assert n == |x|;
    assert s[1..][n + 1..] == b;
  }

  /** A tag that closes splits words exactly like a space, whatever it holds. */
  lemma TagIsSpace(a: string, x: string, b: string)
    requires '<' !in a && '>' !in x
    ensures Tokenize(a + "<" + x + ">" + b) == Tokenize(a + " " + b)
  {
    var tagged := "<" + x + ">" + b;
    var spaced := " " + b;
    assert a + "<" + x + ">" + b == a + tagged;
    assert a + " " + b == a + spaced;
    ReplaceTagsPlain(a, tagged, " ");
    ReplaceTagsTag(x, b, " ");
    ReplaceTagsPlain(a, spaced, " ");
    assert spaced[0] == ' ' && spaced[1..] == b;
    assert ReplaceTags(spaced, " ") == " " + ReplaceTags(b, " ");
    assert ReplaceTags(a + tagged, " ") == ReplaceTags(a + spaced, " ");
  }

  // ---------------------------------------------------------------------
  // Tokenizing the joined tokens gives the same tokens back

  /**
   * `s` holds nothing `ReplaceTags` would blank out, read in a state where a
   * `<` has (`open`) or has not been seen yet: no `>` ever follows a `<`.
   */
  predicate TagFreeAfter(s: string, open: bool)
    decreases |s|
  {
    s == [] || ((open ==> s[0] != '>') && TagFreeAfter(s[1..], open || s[0] == '<'))
  }

  lemma {:induction false} TagFreeMono(s: string, o1: bool, o2: bool)
    requires TagFreeAfter(s, o1) && (o2 ==> o1)
    ensures TagFreeAfter(s, o2)
    decreases |s|
  {
    if s != [] {
      TagFreeMono(s[1..], o1 || s[0] == '<', o2 || s[0] == '<');
    }
  }

  lemma {:induction false} TagFreeAppend(a: string, b: string, o: bool)
    ensures TagFreeAfter(a + b, o) <==> TagFreeAfter(a, o) && TagFreeAfter(b, o || '<' in a)
    decreases |a|
  {
    if a == [] {
      assert a + b == b;
    } else {
      assert (a + b)[0] == a[0] && (a + b)[1..] == a[1..] + b;
      TagFreeAppend(a[1..], b, o || a[0] == '<');
      assert ('<' in a) == (a[0] == '<' || '<' in a[1..]) by {
        assert a == [a[0]] + a[1..];
      }
    }
  }

  lemma {:induction false} TagFreeSlice(w: string, i: nat, j: nat, o: bool)
    requires i <= j <= |w| && TagFreeAfter(w, o)
    ensures TagFreeAfter(w[i..j], o)
  {
    assert w == w[..i] + w[i..];
    TagFreeAppend(w[..i], w[i..], o);
    TagFreeMono(w[i..], o || '<' in w[..i], o);
    assert w[i..] == w[i..j] + w[j..];
    TagFreeAppend(w[i..j], w[j..], o);
  }

  /** Once the closed tags are replaced by a filler without brackets, no `<` is closed by a later `>`. */
  lemma {:induction false} ReplaceTagsTagFree(s: string, fill: string)
    requires '<' !in fill && '>' !in fill
    ensures TagFreeAfter(ReplaceTags(s, fill), false)
    decreases |s|
  {
    if s != [] {
      if s[0] == '<' && '>' in s[1..] {
        var rest := s[1..][IndexOf(s[1..], '>') + 1..];
        ReplaceTagsTagFree(rest, fill);
        TagFreeClosed(fill);
        TagFreeMono(fill, true, false);
        TagFreeAppend(fill, ReplaceTags(rest, fill), false);
      } else {
        ReplaceTagsTagFree(s[1..], fill);
        if s[0] == '<' {
          // no '>' is left after this '<', so nothing closes it
          ReplaceTagsNoClose(s[1..], fill);
          TagFreeClosed(ReplaceTags(s[1..], fill));
        }
        TagFreeAppend([s[0]], ReplaceTags(s[1..], fill), false);
      }
    }
  }

  lemma {:induction false} ReplaceTagsNoClose(s: string, fill: string)
    requires '>' !in s && '>' !in fill
    ensures '>' !in ReplaceTags(s, fill)
  {
    if '>' in ReplaceTags(s, fill) {
      ReplaceTagsChars(s, fill, '>');
    }
  }

  lemma {:induction false} TagFreeClosed(s: string)
    requires '>' !in s
    ensures TagFreeAfter(s, true)
  {
    if s != [] {
      TagFreeClosed(s[1..]);
    }
  }

  lemma {:induction false} ReplaceTagsIdentity(s: string, o: bool)
    requires TagFreeAfter(s, o) && !o
    ensures ReplaceTags(s, " ") == s
    decreases |s|
  {
    if s != [] {
      if s[0] == '<' {
        assert TagFreeAfter(s[1..], true);
        assert '>' !in s[1..] by {
          if '>' in s[1..] {
            var k := IndexOf(s[1..], '>');
            TagFreeSlice(s[1..], k, |s[1..]|, true);
          }
        }
        ReplaceTagsKeepsOpen(s[1..]);
      } else {
        ReplaceTagsIdentity(s[1..], false);
      }
    }
  }

  lemma {:induction false} ReplaceTagsKeepsOpen(s: string)
    requires '>' !in s
    ensures ReplaceTags(s, " ") == s
  {
    if s != [] {
      ReplaceTagsKeepsOpen(s[1..]);
    }
  }

  lemma {:induction false} ReplaceAllTagFree(s: string, o: bool)
    requires TagFreeAfter(s, o)
    ensures TagFreeAfter(ReplaceAll(s, NBSP, " "), o)
  {
    if s != [] {
      ReplaceAllTagFree(s[1..], o || s[0] == '<');
      TagFreeAppend(if s[0] == NBSP then " " else [s[0]], ReplaceAll(s[1..], NBSP, " "), o);
      if s[0] == NBSP {
        TagFreeMono(ReplaceAll(s[1..], NBSP, " "), o || s[0] == '<', o);
      }
    }
  }

  /** The list of words, read left to right, never closes a `<` with a `>`. */
  predicate ListTagFree(ws: seq<string>, o: bool)
  {
    ws == [] || (TagFreeAfter(ws[0], o) && ListTagFree(ws[1..], o || '<' in ws[0]))
  }

  lemma {:induction false} ListTagFreeMono(ws: seq<string>, o1: bool, o2: bool)
    requires ListTagFree(ws, o1) && (o2 ==> o1)
    ensures ListTagFree(ws, o2)
  {
    if ws != [] {
      TagFreeMono(ws[0], o1, o2);
      ListTagFreeMono(ws[1..], o1 || '<' in ws[0], o2 || '<' in ws[0]);
    }
  }

  lemma {:induction false} WordsTagFree(s: string, o: bool)
    requires TagFreeAfter(s, o)
    ensures ListTagFree(Words(s), o)
    decreases |s|
  {
    if s != [] {
      if IsSpace(s[0]) {
        WordsTagFree(s[1..], o);
      } else {
        var n := RunLength(s);
        assert s == s[..n] + s[n..];
        TagFreeAppend(s[..n], s[n..], o);
        WordsTagFree(s[n..], o || '<' in s[..n]);
      }
    }
  }

  lemma {:induction false} CleanWordTagFree(w: string, o: bool)
    requires TagFreeAfter(w, o)
    ensures TagFreeAfter(CleanWord(w), o)
    ensures '<' in CleanWord(w) ==> '<' in w
  {
    var a := StripLeading(w);
    var t := StripTrailing(a);
    assert CleanWord(w) == t;
    SliceOfSlice(w, a, t);
    TagFreeSlice(w, |w| - |a|, |w| - |a| + |t|, o);
  }

  /** A prefix of a suffix of `w` is a slice of `w`. */
  lemma SliceOfSlice(w: string, a: string, t: string)
    requires |a| <= |w| && a == w[|w| - |a|..] && |t| <= |a| && t == a[..|t|]
    ensures t == w[|w| - |a|..|w| - |a| + |t|]
  {
  }

  lemma {:induction false} KeepTokensTagFree(ws: seq<string>, o: bool)
    requires ListTagFree(ws, o)
    ensures ListTagFree(KeepTokens(ws), o)
  {
    if ws != [] {
      var t := CleanWord(ws[0]);
      var o' := o || '<' in ws[0];
      KeepTokensTagFree(ws[1..], o');
      if t == [] || AllPunct(t) {
        assert KeepTokens(ws) == KeepTokens(ws[1..]);
        ListTagFreeMono(KeepTokens(ws[1..]), o', o);
      } else {
        CleanWordTagFree(ws[0], o);
        ListTagFreeMono(KeepTokens(ws[1..]), o', o || '<' in t);
        assert KeepTokens(ws) == [t] + KeepTokens(ws[1..]);
        assert ([t] + KeepTokens(ws[1..]))[1..] == KeepTokens(ws[1..]);
      }
    }
  }

  lemma {:induction false} JoinTagFree(ts: seq<string>, o: bool)
    requires ListTagFree(ts, o)
    ensures TagFreeAfter(Join(ts, " "), o)
  {
    if |ts| > 1 {
      var o' := o || '<' in ts[0];
      JoinTagFree(ts[1..], o');
      TagFreeAppend(" ", Join(ts[1..], " "), o');
      TagFreeAppend(ts[0], " " + Join(ts[1..], " "), o);
      assert ts[0] + " " + Join(ts[1..], " ") == ts[0] + (" " + Join(ts[1..], " "));
    }
  }

  lemma {:induction false} NoNbspInJoin(ts: seq<string>)
    requires AllTokens(ts)
    ensures NBSP !in Join(ts, " ")
  {
    if ts != [] {
      assert IsToken(ts[0]) && IsSpace(NBSP);
      assert NBSP !in ts[0];
      NoNbspInJoin(ts[1..]);
    }
  }

  lemma {:induction false} KeepTokensOfTokens(ts: seq<string>)
    requires AllTokens(ts)
    ensures KeepTokens(ts) == ts
  {
    if ts != [] {
      assert IsToken(ts[0]);
      assert !AllPunct(ts[0]);
      KeepTokensOfTokens(ts[1..]);
    }
  }

  /**
   * Joining the tokens with single spaces (as the puzzle does with the
   * learner's answer) and tokenizing again gives the very same tokens.
   */
  lemma TokenizeIdempotent(text: string)
    ensures Tokenize(Join(Tokenize(text), " ")) == Tokenize(text)
  {
    var s0 := ReplaceTags(text, " ");
    var s1 := ReplaceAll(s0, NBSP, " ");
    var ts := Tokenize(text);
    ReplaceTagsTagFree(text, " ");
    ReplaceAllTagFree(s0, false);
    WordsTagFree(s1, false);
    KeepTokensTagFree(Words(s1), false);
    TokensAreClean(text);
    var j := Join(ts, " ");
    JoinTagFree(ts, false);
    ReplaceTagsIdentity(j, false);
    NoNbspInJoin(ts);
    ReplaceAllAbsent(j, NBSP, " ");
    WordsOfJoin(ts);
    KeepTokensOfTokens(ts);
  }
}
