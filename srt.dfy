/**
 * SubRip (SRT) caption parsing: `timeToSeconds`, `parseSRT` and
 * `parseSRTPlain` in video.js. Times are kept in whole milliseconds, which is
 * all the precision the timing format carries.
 */
module Srt {

  import opened Text
  import opened Numbers
  import opened Optional
  import opened Lists
  import opened Tokenizer

  /** One puzzle line: its time window, the text shown, the words to rebuild, and whether it is solved. */
  datatype Segment = Segment(start: int, end: int, text: string, tokens: seq<string>, solved: bool)

  /** A caption of the translation track, which keeps only the times and the cleaned text. */
  datatype Cue = Cue(start: int, end: int, text: string)

  const BOM: char := '\U{FEFF}'

  // ---------------------------------------------------------------------
  // Timestamps `HH:MM:SS,mmm` (or with `.` before the milliseconds)

  /** `ts` is exactly `\d{2}:\d{2}:\d{2}[,.]\d{3}` (ASCII digits). */
  predicate IsTimestamp(ts: string)
  {
    && |ts| == 12
    && AllDigits(ts[0..2]) && ts[2] == ':'
    && AllDigits(ts[3..5]) && ts[5] == ':'
    && AllDigits(ts[6..8]) && (ts[8] == ',' || ts[8] == '.')
    && AllDigits(ts[9..12])
  }

  /** The timestamp pattern matches at position `i` of `line`. */
  predicate IsTimestampAt(line: string, i: nat)
  {
    i + 12 <= |line| && IsTimestamp(line[i..i + 12])
  }

  /**
   * `timeStr.replace('.', ',')`: the first `.` of a timestamp can only be its separator, so
   * the result is the timestamp with `,` before the milliseconds and every field unchanged.
   */
  function CommaForm(ts: string): (r: string)
    requires IsTimestamp(ts)
    ensures r == ts[8 := ','] && IsTimestamp(r)
    ensures r[0..2] == ts[0..2] && r[3..5] == ts[3..5] && r[6..8] == ts[6..8] && r[9..12] == ts[9..12]
  {
    ReplaceFirstOfTimestamp(ts);
    ReplaceFirst(ts, '.', ',')
  }

  lemma ReplaceFirstOfTimestamp(ts: string)
    requires IsTimestamp(ts)
    ensures ReplaceFirst(ts, '.', ',') == ts[8 := ',']
  {
    assert '.' !in ts[..8] by {
      forall k | 0 <= k < 8 ensures ts[k] != '.' {
        if k < 2 { assert ts[k] == ts[0..2][k]; }
        else if 3 <= k < 5 { assert ts[k] == ts[3..5][k - 3]; }
        else if 6 <= k { assert ts[k] == ts[6..8][k - 6]; }
      }
    }
    assert '.' !in ts[9..] by {
      forall k | 9 <= k < 12 ensures ts[k] != '.' {
        assert ts[k] == ts[9..12][k - 9];
      }
    }
    assert ts == ts[..8] + ([ts[8]] + ts[9..]);
    ReplaceFirstSkip(ts[..8], [ts[8]] + ts[9..], '.', ',');
    if ts[8] == ',' {
      ReplaceFirstAbsent(ts[9..], '.', ',');
    }
    assert ts[8 := ','] == ts[..8] + ([','] + ts[9..]);
  }

  /**
   * `timeToSeconds(ts)` scaled to milliseconds: after `CommaForm`, the hours, minutes, seconds
   * and milliseconds are read as decimal fields and weighted 3600000, 60000, 1000 and 1.
   */
  function TimeToMs(ts: string): nat
    requires IsTimestamp(ts)
  {
    var c := CommaForm(ts);
    DigitsValue(c[0..2]) * 3600000 + DigitsValue(c[3..5]) * 60000
      + DigitsValue(c[6..8]) * 1000 + DigitsValue(c[9..12])
  }

  /** Both separators give the same time, because the `.` is turned into `,` before the fields are read. */
  lemma SeparatorIrrelevant(ts: string)
    requires IsTimestamp(ts)
    ensures IsTimestamp(ts[8 := ',']) && IsTimestamp(ts[8 := '.'])
    ensures TimeToMs(ts[8 := ',']) == TimeToMs(ts[8 := '.']) == TimeToMs(ts)
  {
    assert ts[8 := ','][0..2] == ts[8 := '.'][0..2] == ts[0..2];
    assert ts[8 := ','][3..5] == ts[8 := '.'][3..5] == ts[3..5];
    assert ts[8 := ','][6..8] == ts[8 := '.'][6..8] == ts[6..8];
    assert ts[8 := ','][9..12] == ts[8 := '.'][9..12] == ts[9..12];
  }

  /** A field of exactly `width` decimal digits, with leading zeros. */
  function Digits(n: nat, width: nat): (s: string)
    requires n < Pow10(width)
    ensures |s| == width && AllDigits(s) && DigitsValue(s) == n
  {
    if width == 0 then []
    else
      var s := Digits(n / 10, width - 1) + [DigitChar(n % 10)];
      assert s[..|s| - 1] == Digits(n / 10, width - 1);
      s
  }

  function Assemble(h: string, m: string, s: string, sep: char, f: string): string
  {
    h + ([':'] + (m + ([':'] + (s + ([sep] + f)))))
  }

  /** The fields of an assembled timestamp are read back where they were put. */
  lemma AssembleSlices(h: string, m: string, s: string, sep: char, f: string)
    requires |h| == 2 && |m| == 2 && |s| == 2 && |f| == 3
    ensures |Assemble(h, m, s, sep, f)| == 12
    ensures Assemble(h, m, s, sep, f)[0..2] == h && Assemble(h, m, s, sep, f)[3..5] == m
    ensures Assemble(h, m, s, sep, f)[6..8] == s && Assemble(h, m, s, sep, f)[9..12] == f
    ensures Assemble(h, m, s, sep, f)[2] == ':' && Assemble(h, m, s, sep, f)[5] == ':'
    ensures Assemble(h, m, s, sep, f)[8] == sep
  {
    var ts := Assemble(h, m, s, sep, f);
    var t1 := [':'] + (m + ([':'] + (s + ([sep] + f))));
    var t2 := [':'] + (s + ([sep] + f));
    var t3 := [sep] + f;
    assert ts[0..2] == h && ts[2..] == t1;
    assert t1[1..3] == m && t1[3..] == t2;
    assert t2[1..3] == s && t2[3..] == t3;
    assert t3[1..] == f;
    assert ts[3..5] == t1[1..3];
    assert ts[6..8] == t2[1..3];
    assert ts[9..12] == t3[1..];
  }

  lemma AssembleFields(h: string, m: string, s: string, sep: char, f: string)
    requires |h| == 2 && |m| == 2 && |s| == 2 && |f| == 3
    requires AllDigits(h) && AllDigits(m) && AllDigits(s) && AllDigits(f)
    requires sep == ',' || sep == '.'
    ensures IsTimestamp(Assemble(h, m, s, sep, f))
    ensures TimeToMs(Assemble(h, m, s, sep, f))
      == DigitsValue(h) * 3600000 + DigitsValue(m) * 60000 + DigitsValue(s) * 1000 + DigitsValue(f)
  {
    AssembleSlices(h, m, s, sep, f);
  }

  /** The timestamp an SRT writer emits for `ms`, with `sep` before the milliseconds. */
  function FormatTimestamp(ms: nat, sep: char): (ts: string)
    requires ms < 100 * 3600000 && (sep == ',' || sep == '.')
  {
    var h := ms / 3600000;
    var m := ms % 3600000 / 60000;
    var s := ms % 60000 / 1000;
    Assemble(Digits(h, 2), Digits(m, 2), Digits(s, 2), sep, Digits(ms % 1000, 3))
  }

  /** Hours, minutes, seconds and milliseconds put back together give the time. */
  lemma SplitTime(ms: nat)
    requires ms < 100 * 3600000
    ensures ms / 3600000 < 100 && ms % 3600000 / 60000 < 60 && ms % 60000 / 1000 < 60
    ensures ms == ms / 3600000 * 3600000 + ms % 3600000 / 60000 * 60000 + ms % 60000 / 1000 * 1000 + ms % 1000
  {
    var r := ms % 3600000;
    assert ms == ms / 3600000 * 3600000 + r;
    assert r == r / 60000 * 60000 + r % 60000;
    assert r % 60000 == ms % 60000;
  }

  /** A written timestamp is well formed, and reading it gives back the time. */
  lemma TimestampRoundTrip(ms: nat, sep: char)
    requires ms < 100 * 3600000 && (sep == ',' || sep == '.')
    ensures IsTimestamp(FormatTimestamp(ms, sep))
    ensures TimeToMs(FormatTimestamp(ms, sep)) == ms
  {
    SplitTime(ms);
    AssembleFields(Digits(ms / 3600000, 2), Digits(ms % 3600000 / 60000, 2), Digits(ms % 60000 / 1000, 2), sep,
                   Digits(ms % 1000, 3));
  }

  // ---------------------------------------------------------------------
  // The timing line `start --> end`

  /** Number of white-space characters from position `i` on (what a greedy `\s*` takes). */
  function SpaceRun(line: string, i: nat): (n: nat)
    requires i <= |line|
    ensures i + n <= |line|
    ensures forall k :: i <= k < i + n ==> IsSpace(line[k])
    ensures i + n == |line| || !IsSpace(line[i + n])
    decreases |line| - i
  {
    if i < |line| && IsSpace(line[i]) then 1 + SpaceRun(line, i + 1) else 0
  }

  /**
   * The timing pattern matched at position `i`. Each `\s*` is followed by a
   * character that is not white space (`-` or a digit), so the greedy run is
   * the only way the match can go on.
   */
  function MatchTimingAt(line: string, i: nat): Option<(nat, nat)>
  {
    if !IsTimestampAt(line, i) then None
    else
      var j := i + 12 + SpaceRun(line, i + 12);
      if !(j + 3 <= |line| && line[j..j + 3] == "-->") then None
      else
        var k := j + 3 + SpaceRun(line, j + 3);
        if !IsTimestampAt(line, k) then None
        else Some((TimeToMs(line[i..i + 12]), TimeToMs(line[k..k + 12])))
  }

  /** `line.match(pattern)`: the leftmost position from `i` on where the pattern matches. */
  function FindTiming(line: string, i: nat): (r: Option<(nat, nat)>)
    ensures r.Some? ==>
      exists j :: i <= j < |line| && MatchTimingAt(line, j) == r && forall k :: i <= k < j ==> MatchTimingAt(line, k).None?
    ensures r.None? ==> forall j :: i <= j < |line| ==> MatchTimingAt(line, j).None?
    decreases |line| - i
  {
    if i >= |line| then None
    else if MatchTimingAt(line, i).Some? then MatchTimingAt(line, i)
    else FindTiming(line, i + 1)
  }

  /** The timing line an SRT writer emits. */
  function TimingLine(start: nat, end: nat, sep: char): string
    requires start < 100 * 3600000 && end < 100 * 3600000 && (sep == ',' || sep == '.')
  {
    FormatTimestamp(start, sep) + " --> " + FormatTimestamp(end, sep)
  }

  lemma MatchOfTimingLine(a: string, b: string)
    requires IsTimestamp(a) && IsTimestamp(b)
    ensures MatchTimingAt(a + " --> " + b, 0) == Some((TimeToMs(a), TimeToMs(b)))
  {
    var line := a + " --> " + b;
    assert line[0..12] == a;
    assert IsTimestampAt(line, 0);
    assert SpaceRun(line, 13) == 0;
    assert SpaceRun(line, 12) == 1;
    assert line[13..16] == "-->";
    assert SpaceRun(line, 17) == 0;
    assert SpaceRun(line, 16) == 1;
    assert line[17..29] == b;
    assert IsTimestampAt(line, 17);
  }

  lemma FindTimingOfLine(a: string, b: string)
    requires IsTimestamp(a) && IsTimestamp(b)
    ensures FindTiming(a + " --> " + b, 0) == Some((TimeToMs(a), TimeToMs(b)))
    ensures Contains(a + " --> " + b, "-->")
  {
    MatchOfTimingLine(a, b);
    var line := a + " --> " + b;
    assert line[13..16] == "-->";
    ContainsAt(line, 13, "-->");
  }

  /** A written timing line is read back as the same two times, in either order and with either separator. */
  lemma TimingLineRoundTrip(start: nat, end: nat, sep: char)
    requires start < 100 * 3600000 && end < 100 * 3600000 && (sep == ',' || sep == '.')
    ensures FindTiming(TimingLine(start, end, sep), 0) == Some((start, end))
    ensures Contains(TimingLine(start, end, sep), "-->")
  {
    TimestampRoundTrip(start, sep);
    TimestampRoundTrip(end, sep);
    FindTimingOfLine(FormatTimestamp(start, sep), FormatTimestamp(end, sep));
  }

  // ---------------------------------------------------------------------
  // Blocks and lines

  /** `s.replace(/\r\n/g, '\n')`. */
  function CrLfToLf(s: string): string
  {
    if |s| >= 2 && s[0] == '\r' && s[1] == '\n' then "\n" + CrLfToLf(s[2..])
    else if s == [] then []
    else [s[0]] + CrLfToLf(s[1..])
  }

  /** The cleaning the parsers start with: drop a leading BOM, unify line ends, trim. */
  function Normalize(data: string): (r: string)
  {
    var noBom := if data != [] && data[0] == BOM then data[1..] else data;
    Trim(ReplaceAll(CrLfToLf(noBom), '\r', "\n"))
  }

  /** Length of the leading run of `\n`. */
  function NewlineRun(s: string): (n: nat)
    ensures n <= |s| && forall k :: 0 <= k < n ==> s[k] == '\n'
    ensures n == |s| || s[n] != '\n'
  {
    if s != [] && s[0] == '\n' then 1 + NewlineRun(s[1..]) else 0
  }

  predicate NoBlankBreak(s: string)
  {
    forall k :: 0 <= k < |s| - 1 ==> !(s[k] == '\n' && s[k + 1] == '\n')
  }

  /** Length of the prefix before the first `\n\n`. */
  function BlockLen(s: string): (n: nat)
    ensures n <= |s| && NoBlankBreak(s[..n])
    ensures n < |s| ==> n + 1 < |s| && s[n] == '\n' && s[n + 1] == '\n'
    ensures forall k, j :: 0 <= k < n && j == k + 1 && j < |s| ==> !(s[k] == '\n' && s[j] == '\n')
  {
    if |s| < 2 then |s|
    else if s[0] == '\n' && s[1] == '\n' then 0
    else
      var n := 1 + BlockLen(s[1..]);
      assert s[..n] == [s[0]] + s[1..][..n - 1];
      n
  }

  /** `s.split(/\n{2,}/)`: the pieces between runs of two or more newlines. */
  function SplitBlocks(s: string): (blocks: seq<string>)
    ensures |blocks| >= 1
    ensures forall i :: 0 <= i < |blocks| ==> NoBlankBreak(blocks[i])
    decreases |s|
  {
    var n := BlockLen(s);
    if n == |s| then [s]
    else [s[..n]] + SplitBlocks(s[n + NewlineRun(s[n..])..])
  }

  /** A block an SRT writer emits: not empty, no newline at either end, no blank line inside. */
  predicate PlainBlock(b: string)
  {
    b != [] && b[0] != '\n' && b[|b| - 1] != '\n' && NoBlankBreak(b)
  }

  /** Blocks written with one blank line between them are split back into the same blocks. */
  lemma {:induction false} SplitBlocksOfJoin(bs: seq<string>)
    requires bs != [] && forall i :: 0 <= i < |bs| ==> PlainBlock(bs[i])
    ensures SplitBlocks(Join(bs, "\n\n")) == bs
  {
    var b := bs[0];
    if |bs| == 1 {
      SplitOneBlock(b);
    } else {
      var rest := Join(bs[1..], "\n\n");
      assert Join(bs, "\n\n") == b + "\n\n" + rest;
      assert PlainBlock(bs[1]);
      JoinStart(bs[1..], "\n\n");
      SplitFirstBlock(b, rest);
      SplitBlocksOfJoin(bs[1..]);
      assert bs == [b] + bs[1..];
    }
  }

  lemma SplitOneBlock(b: string)
    requires PlainBlock(b)
    ensures SplitBlocks(b) == [b]
  {
    assert BlockLen(b) == |b|;
  }

  /** The first block of `b`, a blank line and a text that does not start with a newline. */
  lemma SplitFirstBlock(b: string, rest: string)
    requires PlainBlock(b) && rest != [] && rest[0] != '\n'
    ensures SplitBlocks(b + "\n\n" + rest) == [b] + SplitBlocks(rest)
  {
    var s := b + "\n\n" + rest;
    assert s[..|b|] == b;
    assert s[|b|] == '\n' && s[|b| + 1] == '\n';
    var n := BlockLen(s);
    assert n == |b|;
    assert s[n..] == "\n\n" + rest;
    assert NewlineRun(s[n..]) == 2 by {
      assert s[n..][1..] == "\n" + rest;
      assert s[n..][2..] == rest;
    }
    assert s[n + 2..] == rest;
  }

  /** `block.split('\n').map(l => l.trim()).filter(Boolean)`. */
  function Lines(block: string): (lines: seq<string>)
    ensures forall l :: l in lines ==> l != [] && !IsSpace(l[0]) && !IsSpace(l[|l| - 1])
    ensures forall l :: l in lines ==> exists p :: p in SplitOn(block, '\n') && l == Trim(p)
    ensures forall p :: p in SplitOn(block, '\n') && Trim(p) != [] ==> Trim(p) in lines
  {
    NonBlank(SplitOn(block, '\n'))
  }

  /** `.map(l => l.trim()).filter(Boolean)`. */
  function NonBlank(parts: seq<string>): (lines: seq<string>)
    ensures forall l :: l in lines ==> l != [] && !IsSpace(l[0]) && !IsSpace(l[|l| - 1])
    ensures forall l :: l in lines ==> exists p :: p in parts && l == Trim(p)
    ensures forall p :: p in parts && Trim(p) != [] ==> Trim(p) in lines
  {
    if parts == [] then []
    else
      var line := Trim(parts[0]);
      var rest := NonBlank(parts[1..]);
      if line == [] then rest else [line] + rest
  }

  /** A line that survives trimming and filtering unchanged. */
  predicate CleanLine(l: string)
  {
    l != [] && '\n' !in l && !IsSpace(l[0]) && !IsSpace(l[|l| - 1])
  }

  lemma {:induction false} NonBlankOfClean(ls: seq<string>)
    requires forall i :: 0 <= i < |ls| ==> CleanLine(ls[i])
    ensures NonBlank(ls) == ls
  {
    if ls != [] {
      TrimOfTrimmed(ls[0]);
      NonBlankKeeps(ls);
      NonBlankOfClean(ls[1..]);
      assert ls == [ls[0]] + ls[1..];
    }
  }

  lemma NonBlankKeeps(parts: seq<string>)
    requires parts != [] && Trim(parts[0]) == parts[0] != []
    ensures NonBlank(parts) == [parts[0]] + NonBlank(parts[1..])
  {
  }

  /** Clean lines written one per line are read back as they were. */
  lemma LinesOfJoin(ls: seq<string>)
    requires ls != [] && forall i :: 0 <= i < |ls| ==> CleanLine(ls[i])
    ensures Lines(Join(ls, "\n")) == ls
  {
    SplitOnJoin(ls, '\n');
    NonBlankOfClean(ls);
  }

  /** `lines.findIndex(l => l.includes('-->'))` from position `i` on. */
  function FindArrowLine(lines: seq<string>, i: nat): (r: Option<nat>)
    ensures r.Some? ==> i <= r.value < |lines| && Contains(lines[r.value], "-->")
    ensures r.Some? ==> forall j :: i <= j < r.value ==> !Contains(lines[j], "-->")
    ensures r.None? ==> forall j :: i <= j < |lines| ==> !Contains(lines[j], "-->")
    decreases |lines| - i
  {
    if i >= |lines| then None
    else if Contains(lines[i], "-->") then Some(i)
    else FindArrowLine(lines, i + 1)
  }

  /** `text.replace(/\s+/g, ' ')`. */
  function CollapseSpaces(s: string): (r: string)
    ensures s != [] && !IsSpace(s[0]) ==> r != [] && r[0] == s[0]
    ensures SingleSpaced(r)
    decreases |s|
  {
    if s == [] then []
    else if IsSpace(s[0]) then
      var rest := s[1 + SpaceRun(s, 1)..];
      " " + CollapseSpaces(rest)
    else [s[0]] + CollapseSpaces(s[1..])
  }

  /** Every white-space character is a plain space and is followed by something else. */
  ghost predicate SingleSpaced(s: string)
  {
    && (forall k :: 0 <= k < |s| && IsSpace(s[k]) ==> s[k] == ' ')
    && (forall k, j :: 0 <= k < j < |s| && j == k + 1 ==> !(IsSpace(s[k]) && IsSpace(s[j])))
  }

  lemma {:induction false} SingleSpacedSlice(s: string, i: nat, j: nat)
    requires SingleSpaced(s) && i <= j <= |s|
    ensures SingleSpaced(s[i..j])
  {
    forall k | 0 <= k < j - i && IsSpace(s[i..j][k])
      ensures s[i..j][k] == ' ' && (k + 1 == j - i || !IsSpace(s[i..j][k + 1]))
    {
      assert s[i..j][k] == s[i + k];
    }
  }

  lemma TrimSingleSpaced(c: string)
    requires SingleSpaced(c)
    ensures SingleSpaced(Trim(c))
  {
    var r := Trim(c);
    var i := TrimSlice(c);
    SingleSpacedSlice(c, i, i + |r|);
  }

  /** A leading word passes through the collapsing unchanged. */
  lemma {:induction false} CollapseWord(w: string, x: string)
    requires NoSpace(w)
    ensures CollapseSpaces(w + x) == w + CollapseSpaces(x)
  {
    if w == [] {
      assert w + x == x;
    } else {
      assert !IsSpace((w + x)[0]);
      assert (w + x)[1..] == w[1..] + x;
      CollapseWord(w[1..], x);
      assert w == [w[0]] + w[1..];
    }
  }

  /** Collapsing white space keeps every word, in order. */
  lemma {:induction false} CollapseSpacesWords(s: string)
    ensures Words(CollapseSpaces(s)) == Words(s)
    decreases |s|
  {
    if s == [] {
    } else if IsSpace(s[0]) {
      var k := CollapseSpaceCase(s);
      CollapseSpacesWords(s[k..]);
    } else {
      var n := CollapseWordCase(s);
      CollapseSpacesWords(s[n..]);
    }
  }

  /** A leading run of white space becomes one space, which the words do not see. */
  lemma CollapseSpaceCase(s: string) returns (k: nat)
    requires s != [] && IsSpace(s[0])
    ensures 0 < k <= |s|
    ensures Words(CollapseSpaces(s)) == Words(CollapseSpaces(s[k..])) && Words(s) == Words(s[k..])
  {
    k := 1 + SpaceRun(s, 1);
    var c := CollapseSpaces(s[k..]);
    assert CollapseSpaces(s) == " " + c;
    assert (" " + c)[1..] == c;
    assert AllSpace(s[..k]);
    WordsSkipSpaces(s, k);
  }

  /** A leading word is kept whole, both by the collapsing and by the words. */
  lemma CollapseWordCase(s: string) returns (n: nat)
    requires s != [] && !IsSpace(s[0])
    ensures 0 < n <= |s|
    ensures Words(CollapseSpaces(s)) == [s[..n]] + Words(CollapseSpaces(s[n..]))
    ensures Words(s) == [s[..n]] + Words(s[n..])
  {
    n := RunLength(s);
    assert s == s[..n] + s[n..];
    CollapseWord(s[..n], s[n..]);
    var c := CollapseSpaces(s[n..]);
    assert c == [] || IsSpace(c[0]);
    WordsOfRunThen(s[..n], c);
  }

  /** A trimmed, single-spaced string is its own words joined by single spaces. */
  lemma {:induction false} SingleSpacedIsJoin(t: string)
    requires SingleSpaced(t) && (t == [] || (!IsSpace(t[0]) && !IsSpace(t[|t| - 1])))
    ensures t == Join(Words(t), " ")
    decreases |t|
  {
    if t != [] {
      var n := RunLength(t);
      if n == |t| {
        assert t[..n] == t && t[n..] == [];
        WordsOfRunThen(t, []);
        assert t + [] == t;
      } else {
        var u := SplitAtSpace(t, n);
        SingleSpacedIsJoin(u);
        WordsAfterSpace(t, n, u);
        JoinHead(Words(t));
      }
    }
  }

  /** The first white space of a trimmed, single-spaced string is one plain space followed by the rest, itself trimmed and single-spaced. */
  lemma SplitAtSpace(t: string, n: nat) returns (u: string)
    requires SingleSpaced(t) && t != [] && !IsSpace(t[0]) && !IsSpace(t[|t| - 1])
    requires n == RunLength(t) < |t|
    ensures n + 1 < |t| && t[n] == ' ' && u == t[n + 1..] && t == t[..n] + " " + u
    ensures SingleSpaced(u) && u != [] && !IsSpace(u[0]) && !IsSpace(u[|u| - 1])
  {
    assert t[n] == ' ';
    assert n + 1 < |t|;
    assert !(IsSpace(t[n]) && IsSpace(t[n + 1]));
    u := t[n + 1..];
    SingleSpacedSlice(t, n + 1, |t|);
    assert u[0] == t[n + 1] && u[|u| - 1] == t[|t| - 1];
    assert t == t[..n] + " " + u;
  }

  /** The words of `w u`, where `w` is the leading run and `u` what follows one space. */
  lemma WordsAfterSpace(t: string, n: nat, u: string)
    requires n == RunLength(t) && n + 1 < |t| && t[n] == ' ' && u == t[n + 1..] && t != [] && !IsSpace(t[0])
    requires !IsSpace(u[0])
    ensures Words(t) == [t[..n]] + Words(u) && Words(u) != [] && Words(t)[1..] == Words(u)
    ensures Words(t)[0] == t[..n] && |Words(t)| > 1
  {
    assert t[n..] == " " + u;
    assert Words(t[n..]) == Words(u);
    assert u == [u[0]] + u[1..];
    assert Words(u) != [];
  }

  /** Collapsing and trimming leaves the words of `x` joined by single spaces. */
  lemma CleanedText(x: string)
    ensures Trim(CollapseSpaces(x)) == Join(Words(x), " ")
  {
    var c := CollapseSpaces(x);
    TrimSingleSpaced(c);
    SingleSpacedIsJoin(Trim(c));
    WordsOfTrim(c);
    CollapseSpacesWords(x);
  }

  /**
   * The text shown for a caption: tags removed, white space collapsed, trimmed. That is the
   * words left once the tags are gone, joined by single spaces.
   */
  function DisplayText(raw: string): (r: string)
    ensures r == [] || (!IsSpace(r[0]) && !IsSpace(r[|r| - 1]))
    ensures SingleSpaced(r)
    ensures r == Join(Words(ReplaceTags(raw, "")), " ")
    ensures TagFreeAfter(r, false)
  {
    var c := CollapseSpaces(ReplaceAll(ReplaceTags(raw, ""), NBSP, " "));
    TrimSingleSpaced(c);
    CleanedText(ReplaceAll(ReplaceTags(raw, ""), NBSP, " "));
    WordsReplaceSpace(ReplaceTags(raw, ""), NBSP);
    NoTagLeft(raw);
    Trim(c)
  }

  /**
   * The cleaned text of `parseSRTPlain`, which leaves the no-break space to `\s+`: again the
   * words left once the tags are gone, joined by single spaces.
   */
  function PlainText(raw: string): (r: string)
    ensures r == [] || (!IsSpace(r[0]) && !IsSpace(r[|r| - 1]))
    ensures SingleSpaced(r)
    ensures r == Join(Words(ReplaceTags(raw, "")), " ")
    ensures TagFreeAfter(r, false)
  {
    var c := CollapseSpaces(ReplaceTags(raw, ""));
    TrimSingleSpaced(c);
    CleanedText(ReplaceTags(raw, ""));
    NoTagLeft(raw);
    Trim(c)
  }

  /** Joining the words that are left once the tags are gone leaves no `<` closed by a later `>`. */
  lemma NoTagLeft(raw: string)
    ensures TagFreeAfter(Join(Words(ReplaceTags(raw, "")), " "), false)
  {
    ReplaceTagsTagFree(raw, "");
    WordsTagFree(ReplaceTags(raw, ""), false);
    JoinTagFree(Words(ReplaceTags(raw, "")), false);
  }

  /** The times a block carries, if it has at least two lines and a well-formed timing line. */
  function BlockTiming(lines: seq<string>): (r: Option<(nat, nat, nat)>)
    ensures r.Some? ==> r.value.2 < |lines|
  {
    if |lines| < 2 then None
    else match FindArrowLine(lines, 0)
      case None => None
      case Some(ti) =>
        match FindTiming(lines[ti], 0)
        case None => None
        case Some(t) => Some((t.0, t.1, ti))
  }

  /** The caption lines of a block, those after its timing line at `ti`, joined by spaces. */
  function Caption(lines: seq<string>, ti: nat): string
    requires ti < |lines|
  {
    Join(lines[ti + 1..], " ")
  }

  /** The segment of a block whose timing line, at `t.2`, gives the times `t.0` and `t.1`. */
  function SegmentOf(lines: seq<string>, t: (nat, nat, nat)): (r: Option<Segment>)
    requires t.2 < |lines|
    ensures r.Some? ==> FreshSegment(r.value) && r.value.start == t.0 && r.value.end == t.1
  {
    var raw := Caption(lines, t.2);
    var tokens := Tokenize(raw);
    TokensAreClean(raw);
    if tokens == [] then None
    else Some(Segment(t.0, t.1, DisplayText(raw), tokens, false))
  }

  /**
   * One iteration of the loop of `parseSRT`: a block is kept exactly when it has a timing line
   * and its caption has at least one word, and the kept segment shows that caption.
   */
  function ParseBlock(block: string): (r: Option<Segment>)
    ensures BlockTiming(Lines(block)).None? ==> r.None?
    ensures BlockTiming(Lines(block)).Some? ==>
      var raw := Caption(Lines(block), BlockTiming(Lines(block)).value.2);
      && (r.Some? <==> Tokenize(raw) != [])
      && (r.Some? ==> r.value.tokens == Tokenize(raw) && r.value.text == DisplayText(raw))
    ensures r.Some? ==> FreshSegment(r.value)
    ensures r.Some? ==> BlockTiming(Lines(block)).Some?
    ensures r.Some? ==> r.value.start == BlockTiming(Lines(block)).value.0
    ensures r.Some? ==> r.value.end == BlockTiming(Lines(block)).value.1
  {
    var lines := Lines(block);
    match BlockTiming(lines)
    case None => None
    case Some(t) => SegmentOf(lines, t)
  }

  /** The cue of a block whose timing line, at `t.2`, gives the times `t.0` and `t.1`. */
  function CueOf(lines: seq<string>, t: (nat, nat, nat)): (r: Option<Cue>)
    requires t.2 < |lines|
    ensures r.Some? ==> UsableCue(r.value) && r.value.start == t.0 && r.value.end == t.1
  {
    var text := PlainText(Caption(lines, t.2));
    if text == [] then None else Some(Cue(t.0, t.1, text))
  }

  /**
   * One iteration of the loop of `parseSRTPlain`: a block is kept exactly when it has a timing
   * line and its cleaned caption is not empty, and the kept cue holds that cleaned caption.
   */
  function ParsePlainBlock(block: string): (r: Option<Cue>)
    ensures BlockTiming(Lines(block)).None? ==> r.None?
    ensures BlockTiming(Lines(block)).Some? ==>
      var text := PlainText(Caption(Lines(block), BlockTiming(Lines(block)).value.2));
      && (r.Some? <==> text != [])
      && (r.Some? ==> r.value.text == text)
    ensures r.Some? ==> UsableCue(r.value)
    ensures r.Some? ==> BlockTiming(Lines(block)).Some?
    ensures r.Some? ==> r.value.start == BlockTiming(Lines(block)).value.0
    ensures r.Some? ==> r.value.end == BlockTiming(Lines(block)).value.1
  {
    var lines := Lines(block);
    match BlockTiming(lines)
    case None => None
    case Some(t) => CueOf(lines, t)
  }

  /** What every pushed segment satisfies: it has clean tokens and is not solved yet. */
  predicate FreshSegment(g: Segment)
  {
    g.tokens != [] && AllTokens(g.tokens) && !g.solved
  }

  /** The segments the loop pushes, in block order. */
  function CollectSegments(blocks: seq<string>): (r: seq<Segment>)
    ensures forall g :: g in r ==> FreshSegment(g)
  {
    if blocks == [] then []
    else
      var rest := CollectSegments(blocks[1..]);
      var p := ParseBlock(blocks[0]);
      if p.Some? then
        [p.value] + rest
      else rest
  }

  /** What every pushed cue satisfies: its text is non-empty and single-spaced. */
  ghost predicate UsableCue(c: Cue)
  {
    c.text != [] && SingleSpaced(c.text)
  }

  function CollectCues(blocks: seq<string>): (r: seq<Cue>)
    ensures forall c :: c in r ==> UsableCue(c)
  {
    if blocks == [] then []
    else
      var rest := CollectCues(blocks[1..]);
      var p := ParsePlainBlock(blocks[0]);
      if p.Some? then [p.value] + rest else rest
  }

  /** The comparator `(a, b) => a.start - b.start`, as "may come first". */
  function SegmentStartLe(a: Segment, b: Segment): bool { a.start <= b.start }

  function CueStartLe(a: Cue, b: Cue): bool { a.start <= b.start }

  /** `parseSRT(data)`: the segments of all usable blocks, stably sorted by start time. */
  function ParseSrt(data: string): (r: seq<Segment>)
    ensures multiset(r) == multiset(CollectSegments(SplitBlocks(Normalize(data))))
  {
    SortBy(CollectSegments(SplitBlocks(Normalize(data))), SegmentStartLe)
  }

  /** `parseSRTPlain(data)`: the cues of all usable blocks, stably sorted by start time. */
  function ParseSrtPlain(data: string): (r: seq<Cue>)
    ensures multiset(r) == multiset(CollectCues(SplitBlocks(Normalize(data))))
  {
    SortBy(CollectCues(SplitBlocks(Normalize(data))), CueStartLe)
  }

  /** Every parsed segment has clean tokens and starts unsolved. */
  lemma ParseSrtSegments(data: string, i: nat)
    requires i < |ParseSrt(data)|
    ensures FreshSegment(ParseSrt(data)[i])
  {
    var c := CollectSegments(SplitBlocks(Normalize(data)));
    var x := ParseSrt(data)[i];
    assert x in multiset(ParseSrt(data));
    assert x in c;
  }

  /** Every parsed cue has text. */
  lemma ParseSrtPlainCues(data: string, i: nat)
    requires i < |ParseSrtPlain(data)|
    ensures UsableCue(ParseSrtPlain(data)[i])
  {
    var c := CollectCues(SplitBlocks(Normalize(data)));
    var x := ParseSrtPlain(data)[i];
    assert x in multiset(ParseSrtPlain(data));
    assert x in c;
  }

  /** The segments come out in ascending start order. */
  lemma ParseSrtSorted(data: string)
    ensures SortedBy(ParseSrt(data), SegmentStartLe)
  {
    assert TotalPreorder(SegmentStartLe);
    SortBySorted(CollectSegments(SplitBlocks(Normalize(data))), SegmentStartLe);
  }

  /** Segments with the same start keep the order of their blocks. */
  lemma ParseSrtStable(data: string, k: Segment)
    ensures Ties(ParseSrt(data), k, SegmentStartLe) == Ties(CollectSegments(SplitBlocks(Normalize(data))), k, SegmentStartLe)
  {
    assert TotalPreorder(SegmentStartLe);
    SortByStable(CollectSegments(SplitBlocks(Normalize(data))), k, SegmentStartLe);
  }

  lemma ParseSrtPlainSorted(data: string)
    ensures SortedBy(ParseSrtPlain(data), CueStartLe)
  {
    assert TotalPreorder(CueStartLe);
    SortBySorted(CollectCues(SplitBlocks(Normalize(data))), CueStartLe);
  }

  lemma NormalizeBlank(data: string)
    requires AllSpace(data)
    ensures Normalize(data) == []
  {
    var noBom := if data != [] && data[0] == BOM then data[1..] else data;
    assert AllSpace(noBom);
    CrLfToLfSpace(noBom);
    ReplaceAllSpace(CrLfToLf(noBom));
  }

  lemma NoLinesInEmptyBlock()
    ensures Lines([]) == []
  {
    assert SplitOn([], '\n') == [[]];
    assert NonBlank([[]]) == [];
  }

  /** Empty input (or input that is only white space) gives no segments. */
  lemma ParseSrtBlank(data: string)
    requires AllSpace(data)
    ensures ParseSrt(data) == [] && ParseSrtPlain(data) == []
  {
    NormalizeBlank(data);
    var blocks := SplitBlocks(Normalize(data));
    assert blocks == [[]];
    NoLinesInEmptyBlock();
    NoCaptionInBlankBlock(blocks[0]);
    assert CollectSegments(blocks) == [] && CollectCues(blocks) == [] by {
      assert blocks[1..] == [];
    }
    EmptyOfMultiset(ParseSrt(data));
    EmptyOfMultiset(ParseSrtPlain(data));
  }

  lemma NoCaptionInBlankBlock(block: string)
    requires Lines(block) == []
    ensures ParseBlock(block).None? && ParsePlainBlock(block).None?
  {
    assert BlockTiming(Lines(block)).None?;
  }

  lemma EmptyOfMultiset<T>(s: seq<T>)
    requires multiset(s) == multiset{}
    ensures s == []
  {
    assert |multiset(s)| == |s|;
  }

  lemma {:induction false} CrLfToLfSpace(s: string)
    requires AllSpace(s)
    ensures AllSpace(CrLfToLf(s))
  {
    if |s| >= 2 && s[0] == '\r' && s[1] == '\n' {
      CrLfToLfSpace(s[2..]);
    } else if s != [] {
      CrLfToLfSpace(s[1..]);
    }
  }

  lemma {:induction false} ReplaceAllSpace(s: string)
    requires AllSpace(s)
    ensures AllSpace(ReplaceAll(s, '\r', "\n"))
  {
    if s != [] {
      ReplaceAllSpace(s[1..]);
    }
  }

  /**
   * A block made of a numbering line, a timing line and caption lines gives the
   * segment of those times and that text. The times are not compared, so a
   * block whose end comes before its start is kept too.
   */
  lemma WellFormedBlock(block: string, index: string, start: nat, end: nat, sep: char, text: seq<string>)
    requires start < 100 * 3600000 && end < 100 * 3600000 && (sep == ',' || sep == '.')
    requires Lines(block) == [index, TimingLine(start, end, sep)] + text
    requires !Contains(index, "-->")
    requires Tokenize(Join(text, " ")) != []
    ensures ParseBlock(block) == Some(Segment(start, end, DisplayText(Join(text, " ")), Tokenize(Join(text, " ")), false))
  {
    var lines := Lines(block);
    TimingOfWellFormedLines(lines, index, start, end, sep);
    assert ParseBlock(block) == SegmentOf(lines, (start, end, 1));
    assert lines[2..] == text;
  }

  lemma TimingOfWellFormedLines(lines: seq<string>, index: string, start: nat, end: nat, sep: char)
    requires start < 100 * 3600000 && end < 100 * 3600000 && (sep == ',' || sep == '.')
    requires |lines| >= 2 && lines[0] == index && lines[1] == TimingLine(start, end, sep)
    requires !Contains(index, "-->")
    ensures BlockTiming(lines) == Some((start, end, 1))
  {
    TimingLineRoundTrip(start, end, sep);
    assert FindArrowLine(lines, 1) == Some(1);
    assert FindArrowLine(lines, 0) == Some(1);
  }

  /** A string contains every substring found at some position. */
  lemma {:induction false} ContainsAt(s: string, i: nat, q: string)
    requires i + |q| <= |s| && s[i..i + |q|] == q
    ensures Contains(s, q)
    decreases i
  {
    if i == 0 {
      assert s[..|q|] == q;
    } else {
      assert s[1..][i - 1..i - 1 + |q|] == q;
      ContainsAt(s[1..], i - 1, q);
    }
  }
}
