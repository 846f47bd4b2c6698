/**
 * What the puzzle page promises, proved about the transitions of `Engine`:
 * every handler keeps the state well formed, the sentence is accepted exactly
 * when it spells the caption, the cursor never falls behind a solved or skipped
 * line, each line is logged once, the rating is asked once, and the replay
 * windows open and close where the captions say.
 */
module PuzzleProperties {

  import opened Text
  import opened Numbers
  import opened Optional
  import opened Tokenizer
  import opened Lists
  import opened Srt
  import opened Engine
  import opened VideoId

  // ---------------------------------------------------------------------
  // Helpers about the pool and the sentence

  lemma SpacelessPermutation(a: seq<string>, b: seq<string>)
    requires multiset(a) == multiset(b) && Spaceless(b)
    ensures Spaceless(a)
  {
    forall i | 0 <= i < |a|
      ensures a[i] != [] && NoSpace(a[i])
    {
      assert a[i] in multiset(a);
      assert a[i] in b;
    }
  }

  lemma UsedTilesAppend(sentence: seq<Pick>, p: Pick)
    ensures UsedTiles(sentence + [p]) == UsedTiles(sentence) + {p.tile}
  {
    var s := sentence + [p];
    assert s[|sentence|] == p;
    forall k | k in UsedTiles(sentence)
      ensures k in UsedTiles(s)
    {
      var i :| 0 <= i < |sentence| && sentence[i].tile == k;
      assert s[i] == sentence[i];
    }
  }

  lemma UsedTilesRemove(sentence: seq<Pick>, i: nat)
    requires i < |sentence|
    requires forall a, b :: 0 <= a < b < |sentence| ==> sentence[a].tile != sentence[b].tile
    ensures UsedTiles(sentence[..i] + sentence[i + 1..]) == UsedTiles(sentence) - {sentence[i].tile}
  {
    var s := sentence[..i] + sentence[i + 1..];
    assert forall j :: 0 <= j < i ==> s[j] == sentence[j];
    assert forall j :: i <= j < |s| ==> s[j] == sentence[j + 1];
    forall k | k in UsedTiles(sentence) - {sentence[i].tile}
      ensures k in UsedTiles(s)
    {
      var j :| 0 <= j < |sentence| && sentence[j].tile == k;
      if j < i {
        assert s[j].tile == k;
      } else {
        assert s[j - 1].tile == k;
      }
    }
  }

  lemma LoggedIndicesAppend(log: seq<LogLine>, l: LogLine)
    ensures LoggedIndices(log + [l]) == LoggedIndices(log) + {l.idx}
  {
    var s := log + [l];
    assert s[|log|] == l;
    forall k | k in LoggedIndices(log)
      ensures k in LoggedIndices(s)
    {
      var i :| 0 <= i < |log| && log[i].idx == k;
      assert s[i] == log[i];
    }
  }

  lemma PoolWordsSameWord(pool: seq<Tile>, k: nat, used: bool)
    requires k < |pool|
    ensures PoolWords(pool[k := Tile(pool[k].word, used)]) == PoolWords(pool)
  {
    assert PoolWords(pool[k := Tile(pool[k].word, used)]) == PoolWords(pool);
  }

  lemma SentenceWordsAppend(sentence: seq<Pick>, p: Pick)
    ensures SentenceWords(sentence + [p]) == SentenceWords(sentence) + [p.word]
  {
    assert SentenceWords(sentence + [p]) == SentenceWords(sentence) + [p.word];
  }

  lemma SentenceWordsRemove(sentence: seq<Pick>, i: nat)
    requires i < |sentence|
    ensures SentenceWords(sentence[..i] + sentence[i + 1..])
         == SentenceWords(sentence)[..i] + SentenceWords(sentence)[i + 1..]
  {
    var s := sentence[..i] + sentence[i + 1..];
    var ws := SentenceWords(sentence);
    assert forall j :: 0 <= j < i ==> s[j] == sentence[j];
    assert forall j :: i <= j < |s| ==> s[j] == sentence[j + 1];
    assert SentenceWords(s) == ws[..i] + ws[i + 1..];
  }

  /** A freshly dealt pool for line `idx` makes a well-formed board. */
  lemma BoardOfFreshPool(subs: seq<Segment>, idx: nat, swaps: seq<(nat, nat)>)
    requires TokensOk(subs) && idx < |subs|
    ensures BoardOk(subs, Some(idx), Tiles(Shuffle(subs[idx].tokens, swaps)), [])
  {
    var pool := Tiles(Shuffle(subs[idx].tokens, swaps));
    SpacelessPermutation(PoolWords(pool), subs[idx].tokens);
  }

  lemma BoardSelect(subs: seq<Segment>, active: Option<nat>, pool: seq<Tile>, sentence: seq<Pick>, k: nat)
    requires BoardOk(subs, active, pool, sentence)
    requires k < |pool| && !pool[k].used
    ensures BoardOk(subs, active, pool[k := Tile(pool[k].word, true)], sentence + [Pick(pool[k].word, k)])
  {
    var pool' := pool[k := Tile(pool[k].word, true)];
    var p := Pick(pool[k].word, k);
    var s := sentence + [p];
    PoolWordsSameWord(pool, k, true);
    UsedTilesAppend(sentence, p);
    assert k !in UsedTiles(sentence);
    assert forall i :: 0 <= i < |sentence| ==> s[i] == sentence[i];
    assert PicksMatchPool(pool', s);
  }

  lemma BoardRemove(subs: seq<Segment>, active: Option<nat>, pool: seq<Tile>, sentence: seq<Pick>, i: nat)
    requires BoardOk(subs, active, pool, sentence)
    requires i < |sentence|
    ensures
      var k := sentence[i].tile;
      BoardOk(subs, active, pool[k := Tile(pool[k].word, false)], sentence[..i] + sentence[i + 1..])
  {
    var k := sentence[i].tile;
    var pool' := pool[k := Tile(pool[k].word, false)];
    var s := sentence[..i] + sentence[i + 1..];
    PoolWordsSameWord(pool, k, false);
    UsedTilesRemove(sentence, i);
    assert forall j :: 0 <= j < i ==> s[j] == sentence[j];
    assert forall j :: i <= j < |s| ==> s[j] == sentence[j + 1];
    assert PicksMatchPool(pool', s);
  }

  // ---------------------------------------------------------------------
  // Opening a puzzle

  /**
   * `initPuzzleByIndex`: an index outside the list changes nothing; otherwise
   * the line becomes the open puzzle, the player is sent to its start (never
   * before 0) and paused, the sentence is emptied and the pool holds exactly
   * the line's tokens, all available.
   */
  lemma InitPuzzleByIndexOpens(st: State, idx: nat, swaps: seq<(nat, nat)>)
    ensures idx >= |st.subtitles| ==> InitPuzzleByIndex(st, idx, swaps) == st
    ensures idx < |st.subtitles| ==>
      var r := InitPuzzleByIndex(st, idx, swaps);
      && r.activePuzzleIdx == Some(idx)
      && r.userSentence == []
      && multiset(PoolWords(r.pool)) == multiset(st.subtitles[idx].tokens)
      && (forall k :: 0 <= k < |r.pool| ==> !r.pool[k].used)
      && r.player == (if st.playerReady then st.player + [Seek(Max(0, st.subtitles[idx].start)), Pause] else st.player)
      && r.subtitles == st.subtitles && r.nextIdx == st.nextIdx && r.pending == st.pending
  {
  }

  lemma InitPuzzleByIndexValid(st: State, idx: nat, swaps: seq<(nat, nat)>)
    requires Valid(st)
    ensures Valid(InitPuzzleByIndex(st, idx, swaps))
  {
    if idx < |st.subtitles| {
      BoardOfFreshPool(st.subtitles, idx, swaps);
    }
  }

  /** `showRatingModal`: once asked, asking again changes nothing. */
  lemma RatingAskedOnce(st: State)
    ensures st.ratingWasAsked ==> ShowRatingModal(st) == st
    ensures !st.ratingWasAsked ==>
      var r := ShowRatingModal(st);
      r.ratingWasAsked && r.ratingModalOpen && r == Record(st, [Pause]).(ratingWasAsked := true, ratingModalOpen := true)
  {
  }

  /** `openNextPuzzle` when every line from the cursor on is solved. */
  lemma OpenFoundNone(st: State, autoplay: bool, swaps: seq<(nat, nat)>)
    ensures
      var r := OpenFound(st, None, autoplay, swaps);
      && r.activePuzzleIdx.None? && !r.finishActions && r.ratingWasAsked
      && r.subtitles == st.subtitles && r.nextIdx == st.nextIdx && r.pending == st.pending
      && r.loggedSolved == st.loggedSolved && r.log == st.log
      && (st.ratingWasAsked ==> r.ratingModalOpen == st.ratingModalOpen && r.player == st.player)
      && (!st.ratingWasAsked ==> r.ratingModalOpen)
    ensures Valid(st) ==> Valid(OpenFound(st, None, autoplay, swaps))
  {
  }

  /** `openNextPuzzle` when line `i` is the next unsolved one. */
  lemma OpenFoundSome(st: State, i: nat, autoplay: bool, swaps: seq<(nat, nat)>)
    requires i < |st.subtitles|
    ensures
      var r := OpenFound(st, Some(i), autoplay, swaps);
      && r.nextIdx == i && r.activePuzzleIdx == Some(i) && r.userSentence == []
      && multiset(PoolWords(r.pool)) == multiset(st.subtitles[i].tokens)
      && r.pending == st.pending + (if autoplay then [Autoplay(i)] else [])
      && r.subtitles == st.subtitles && r.loggedSolved == st.loggedSolved && r.log == st.log
    ensures Valid(st) ==> Valid(OpenFound(st, Some(i), autoplay, swaps))
  {
    InitPuzzleByIndexOpens(st.(nextIdx := i), i, swaps);
    if Valid(st) {
      InitPuzzleByIndexValid(st.(nextIdx := i), i, swaps);
    }
  }

  /**
   * `openNextPuzzle`: with no captions nothing happens; otherwise the first
   * unsolved line from the cursor on is opened (and queued for playback when
   * `autoplay` is set), and when every line from the cursor on is solved no
   * puzzle stays open and the rating dialog is shown if it was not shown yet.
   */
  lemma OpenNextPuzzleOpensFirstUnsolved(st: State, autoplay: bool, swaps: seq<(nat, nat)>)
    ensures st.subtitles == [] ==> OpenNextPuzzle(st, autoplay, swaps) == st
    ensures st.subtitles != [] && FirstUnsolved(st.subtitles, st.nextIdx).None? ==>
      var r := OpenNextPuzzle(st, autoplay, swaps);
      && r.activePuzzleIdx.None? && !r.finishActions && r.ratingWasAsked
      && r.nextIdx == st.nextIdx && r.pending == st.pending
      && (st.ratingWasAsked ==> r.ratingModalOpen == st.ratingModalOpen && r.player == st.player)
      && (!st.ratingWasAsked ==> r.ratingModalOpen)
    ensures st.subtitles != [] && FirstUnsolved(st.subtitles, st.nextIdx).Some? ==>
      var r := OpenNextPuzzle(st, autoplay, swaps);
      var i := FirstUnsolved(st.subtitles, st.nextIdx).value;
      && st.nextIdx <= i < |st.subtitles| && !st.subtitles[i].solved
      && (forall j :: st.nextIdx <= j < i ==> st.subtitles[j].solved)
      && r.nextIdx == i && r.activePuzzleIdx == Some(i) && r.userSentence == []
      && multiset(PoolWords(r.pool)) == multiset(st.subtitles[i].tokens)
      && r.pending == st.pending + (if autoplay then [Autoplay(i)] else [])
  {
    if st.subtitles != [] {
      match FirstUnsolved(st.subtitles, st.nextIdx)
      case None => OpenFoundNone(st, autoplay, swaps);
      case Some(i) => OpenFoundSome(st, i, autoplay, swaps);
    }
  }

  /** `openNextPuzzle` never touches the captions or the log, and never moves the cursor back. */
  lemma OpenNextPuzzleKeeps(st: State, autoplay: bool, swaps: seq<(nat, nat)>)
    ensures
      var r := OpenNextPuzzle(st, autoplay, swaps);
      && r.subtitles == st.subtitles && r.loggedSolved == st.loggedSolved && r.log == st.log
      && r.nextIdx >= st.nextIdx
  {
    if st.subtitles != [] {
      match FirstUnsolved(st.subtitles, st.nextIdx)
      case None => OpenFoundNone(st, autoplay, swaps);
      case Some(i) => OpenFoundSome(st, i, autoplay, swaps);
    }
  }

  lemma OpenNextPuzzleValid(st: State, autoplay: bool, swaps: seq<(nat, nat)>)
    requires Valid(st)
    ensures Valid(OpenNextPuzzle(st, autoplay, swaps))
  {
    if st.subtitles != [] {
      match FirstUnsolved(st.subtitles, st.nextIdx)
      case None => OpenFoundNone(st, autoplay, swaps);
      case Some(i) => OpenFoundSome(st, i, autoplay, swaps);
    }
  }

  // ---------------------------------------------------------------------
  // Building the sentence

  /**
   * A click on pool button `k` that is already used changes nothing; on an
   * available one the button becomes used and its word is appended to the
   * sentence.
   */
  lemma SelectWordAppends(st: State, k: nat)
    requires k < |st.pool|
    ensures st.pool[k].used ==> SelectWord(st, k) == st
    ensures !st.pool[k].used ==>
      var r := SelectWord(st, k);
      && SentenceWords(r.userSentence) == SentenceWords(st.userSentence) + [st.pool[k].word]
      && r.pool == st.pool[k := Tile(st.pool[k].word, true)]
  {
    if !st.pool[k].used {
      SentenceWordsAppend(st.userSentence, Pick(st.pool[k].word, k));
    }
  }

  lemma SelectWordValid(st: State, k: nat)
    requires Valid(st)
    ensures Valid(SelectWord(st, k))
  {
    if k < |st.pool| && !st.pool[k].used {
      BoardSelect(st.subtitles, st.activePuzzleIdx, st.pool, st.userSentence, k);
    }
  }

  /**
   * A click on sentence word `i` removes exactly that entry and makes its pool
   * button available again; the other buttons keep their state.
   */
  lemma RemoveWordDeletes(st: State, i: nat)
    requires Valid(st) && i < |st.userSentence|
    ensures
      var r := RemoveWord(st, i);
      var ws := SentenceWords(st.userSentence);
      var k := st.userSentence[i].tile;
      && SentenceWords(r.userSentence) == ws[..i] + ws[i + 1..]
      && |r.pool| == |st.pool| && !r.pool[k].used
      && (forall j :: 0 <= j < |st.pool| && j != k ==> r.pool[j] == st.pool[j])
  {
    SentenceWordsRemove(st.userSentence, i);
  }

  lemma RemoveWordValid(st: State, i: nat)
    requires Valid(st)
    ensures Valid(RemoveWord(st, i))
  {
    if i < |st.userSentence| {
      BoardRemove(st.subtitles, st.activePuzzleIdx, st.pool, st.userSentence, i);
    }
  }

  /** Choosing an available word and removing it again restores the pool and the sentence. */
  lemma SelectThenRemove(st: State, k: nat)
    requires Valid(st) && k < |st.pool| && !st.pool[k].used
    ensures
      var r := RemoveWord(SelectWord(st, k), |st.userSentence|);
      r.pool == st.pool && r.userSentence == st.userSentence
  {
    var s := SelectWord(st, k);
    assert s.userSentence[|st.userSentence|].tile == k;
    assert s.userSentence[..|st.userSentence|] == st.userSentence;
    assert s.pool[k := s.pool[k].(used := false)] == st.pool;
  }

  /** Whether the sentence is accepted depends only on its words: it must be the caption's token list. */
  lemma SentenceMatchesIffTokens(st: State)
    requires Valid(st)
    ensures SentenceMatches(st) <==> SentenceWords(st.userSentence) == Target(st)
  {
    var ws := SentenceWords(st.userSentence);
    forall i | 0 <= i < |ws|
      ensures ws[i] != [] && NoSpace(ws[i])
    {
      var k := st.userSentence[i].tile;
      assert PoolWords(st.pool)[k] == ws[i];
    }
    JoinInjective(ws, Target(st));
  }

  /**
   * `renderUserSentence` schedules the solve check exactly when the sentence
   * is the open caption's token list (with no puzzle open, exactly when the
   * sentence is empty), and otherwise schedules nothing.
   */
  lemma SettleScheduledIffSolved(st: State)
    requires Valid(st)
    ensures RenderUserSentence(st).pending == st.pending + [Settle]
        <==> SentenceWords(st.userSentence) == Target(st)
    ensures SentenceWords(st.userSentence) != Target(st) ==> RenderUserSentence(st) == st
  {
    SentenceMatchesIffTokens(st);
    assert st.pending + [Settle] != st.pending;
  }

  // ---------------------------------------------------------------------
  // Solving and skipping

  /** `addSolvedLineToLog`: a line already logged, or outside the list, is not logged again. */
  lemma AddSolvedLineToLogOnce(st: State, idx: nat, first: Status, again: Status)
    ensures
      var once := AddSolvedLineToLog(st, idx, first);
      AddSolvedLineToLog(once, idx, again) == once
    ensures idx < |st.subtitles| && idx !in st.loggedSolved ==>
      AddSolvedLineToLog(st, idx, first).log == st.log + [LogLine(idx, first)]
  {
  }

  lemma TokensMark(subs: seq<Segment>, idx: nat, solved: bool)
    requires TokensOk(subs) && idx < |subs|
    ensures TokensOk(subs[idx := subs[idx].(solved := solved)])
  {
    var subs' := subs[idx := subs[idx].(solved := solved)];
    assert forall i :: 0 <= i < |subs| ==> subs'[i].tokens == subs[i].tokens;
  }

  lemma LogMark(subs: seq<Segment>, logged: set<nat>, log: seq<LogLine>, idx: nat)
    requires LogOk(subs, logged, log) && idx < |subs|
    ensures LogOk(subs[idx := subs[idx].(solved := true)], logged, log)
  {
  }

  lemma LogAdd(subs: seq<Segment>, logged: set<nat>, log: seq<LogLine>, idx: nat, status: Status)
    requires LogOk(subs, logged, log) && idx < |subs| && subs[idx].solved && idx !in logged
    ensures LogOk(subs, logged + {idx}, log + [LogLine(idx, status)])
  {
    var log' := log + [LogLine(idx, status)];
    LoggedIndicesAppend(log, LogLine(idx, status));
    forall i | 0 <= i < |log|
      ensures log'[i].idx != idx
    {
      assert log[i].idx in LoggedIndices(log);
    }
  }

  /** An empty log is well formed over any caption list. */
  lemma LogEmpty(subs: seq<Segment>)
    ensures LogOk(subs, {}, [])
  {
    assert LoggedIndices([]) == {};
  }

  /** The state `Complete` hands to `openNextPuzzle`: line marked, cursor moved, line logged, puzzle closed. */
  function BeforeOpenNext(st: State, idx: nat, status: Status): State
    requires idx < |st.subtitles|
  {
    var marked := st.(
      subtitles := st.subtitles[idx := st.subtitles[idx].(solved := true)],
      nextIdx := Max(st.nextIdx, idx + 1));
    AddSolvedLineToLog(marked, idx, status).(activePuzzleIdx := None)
  }

  lemma BeforeOpenNextMarks(st: State, idx: nat, status: Status)
    requires idx < |st.subtitles|
    ensures BeforeOpenNext(st, idx, status).subtitles == st.subtitles[idx := st.subtitles[idx].(solved := true)]
    ensures BeforeOpenNext(st, idx, status).nextIdx == Max(st.nextIdx, idx + 1)
  {
  }

  lemma BeforeOpenNextLogs(st: State, idx: nat, status: Status)
    requires idx < |st.subtitles|
    ensures idx in BeforeOpenNext(st, idx, status).loggedSolved
    ensures |st.log| <= |BeforeOpenNext(st, idx, status).log| <= |st.log| + 1
  {
  }

  lemma BeforeOpenNextValid(st: State, idx: nat, status: Status)
    requires Valid(st) && idx < |st.subtitles|
    ensures Valid(BeforeOpenNext(st, idx, status))
  {
    var subs := st.subtitles[idx := st.subtitles[idx].(solved := true)];
    TokensMark(st.subtitles, idx, true);
    LogMark(st.subtitles, st.loggedSolved, st.log, idx);
    LogAddIfNew(subs, st.loggedSolved, st.log, idx, status);
    assert BoardOk(subs, None, st.pool, st.userSentence);
  }

  lemma LogAddIfNew(subs: seq<Segment>, logged: set<nat>, log: seq<LogLine>, idx: nat, status: Status)
    requires LogOk(subs, logged, log) && idx < |subs| && subs[idx].solved
    ensures
      var isNew := idx !in logged;
      LogOk(subs, logged + (if isNew then {idx} else {}), log + (if isNew then [LogLine(idx, status)] else []))
  {
    if idx !in logged {
      LogAdd(subs, logged, log, idx, status);
    } else {
      assert log + [] == log;
      assert logged + {} == logged;
    }
  }

  lemma CompleteIsOpenNext(st: State, idx: nat, status: Status, swaps: seq<(nat, nat)>)
    requires idx < |st.subtitles|
    ensures Complete(st, idx, status, swaps) == OpenNextPuzzle(BeforeOpenNext(st, idx, status), true, swaps)
  {
  }

  lemma CompleteValid(st: State, idx: nat, status: Status, swaps: seq<(nat, nat)>)
    requires Valid(st) && idx < |st.subtitles|
    ensures Valid(Complete(st, idx, status, swaps))
  {
    BeforeOpenNextValid(st, idx, status);
    CompleteIsOpenNext(st, idx, status, swaps);
    OpenNextPuzzleValid(BeforeOpenNext(st, idx, status), true, swaps);
  }

  /**
   * Solving or skipping line `idx` marks it solved and nothing else, logs it,
   * and leaves the cursor at or after both its old place and `idx + 1`.
   */
  lemma CompleteMarksAndAdvances(st: State, idx: nat, status: Status, swaps: seq<(nat, nat)>)
    requires idx < |st.subtitles|
    ensures
      var r := Complete(st, idx, status, swaps);
      && r.subtitles == st.subtitles[idx := st.subtitles[idx].(solved := true)]
      && r.nextIdx >= st.nextIdx && r.nextIdx >= idx + 1
      && idx in r.loggedSolved
      && |st.log| <= |r.log| <= |st.log| + 1
  {
    BeforeOpenNextMarks(st, idx, status);
    BeforeOpenNextLogs(st, idx, status);
    CompleteIsOpenNext(st, idx, status, swaps);
    OpenNextPuzzleKeeps(BeforeOpenNext(st, idx, status), true, swaps);
  }

  /** The 450 ms check solves the puzzle open when it runs; with none open it does nothing. */
  lemma SettleSolvedMarksOpenPuzzle(st: State, swaps: seq<(nat, nat)>)
    requires Valid(st)
    ensures st.activePuzzleIdx.None? ==> SettleSolved(st, swaps) == st
    ensures st.activePuzzleIdx.Some? ==>
      var idx := st.activePuzzleIdx.value;
      var r := SettleSolved(st, swaps);
      && r.subtitles == st.subtitles[idx := st.subtitles[idx].(solved := true)]
      && r.nextIdx >= Max(st.nextIdx, idx + 1)
      && idx in r.loggedSolved
    ensures Valid(SettleSolved(st, swaps))
  {
    if st.activePuzzleIdx.Some? {
      CompleteMarksAndAdvances(st, st.activePuzzleIdx.value, Done, swaps);
      CompleteValid(st, st.activePuzzleIdx.value, Done, swaps);
    }
  }

  /** The skip button: an index outside the list changes nothing; otherwise the line counts as done. */
  lemma SkipPuzzleMarksAndAdvances(st: State, swaps: seq<(nat, nat)>)
    requires Valid(st)
    ensures
      var idx := st.activePuzzleIdx.GetOr(st.nextIdx);
      idx >= |st.subtitles| ==> SkipPuzzle(st, swaps) == st
    ensures
      var idx := st.activePuzzleIdx.GetOr(st.nextIdx);
      var r := SkipPuzzle(st, swaps);
      idx < |st.subtitles| ==>
        && r.subtitles == st.subtitles[idx := st.subtitles[idx].(solved := true)]
        && r.nextIdx >= Max(st.nextIdx, idx + 1)
        && idx in r.loggedSolved
    ensures Valid(SkipPuzzle(st, swaps))
  {
    var idx := st.activePuzzleIdx.GetOr(st.nextIdx);
    if idx < |st.subtitles| {
      CompleteMarksAndAdvances(st, idx, Skipped, swaps);
      CompleteValid(st, idx, Skipped, swaps);
    }
  }

  // ---------------------------------------------------------------------
  // Restart

  /**
   * The restart button: with no captions only the finish overlay is hidden;
   * otherwise every line is unsolved again, the log is emptied and the first
   * line is opened and queued for playback.
   */
  lemma ResetAllRestarts(st: State, swaps: seq<(nat, nat)>)
    ensures st.subtitles == [] ==> ResetAllPuzzlesAndStart(st, swaps) == st.(finishOverlay := false)
    ensures st.subtitles != [] ==>
      var r := ResetAllPuzzlesAndStart(st, swaps);
      && |r.subtitles| == |st.subtitles|
      && (forall i :: 0 <= i < |st.subtitles| ==> r.subtitles[i] == st.subtitles[i].(solved := false))
      && r.nextIdx == 0 && r.activePuzzleIdx == Some(0)
      && r.log == [] && r.loggedSolved == {}
      && !r.snippetMode && !r.segmentMode && !r.finishOverlay
      && r.pending == st.pending + [Autoplay(0)]
  {
    if st.subtitles != [] {
      var st1 := st.(finishOverlay := false);
      var st2 := Record(st1.(snippetMode := false, segmentMode := false), [Pause]);
      var pre := st2.(subtitles := Unsolved(st2.subtitles), loggedSolved := {}, log := [],
                      nextIdx := 0, activePuzzleIdx := None, finishActions := false);
      assert FirstUnsolved(pre.subtitles, 0) == Some(0);
      OpenNextPuzzleOpensFirstUnsolved(pre, true, swaps);
    }
  }

  lemma ResetAllValid(st: State, swaps: seq<(nat, nat)>)
    requires Valid(st)
    ensures Valid(ResetAllPuzzlesAndStart(st, swaps))
  {
    if st.subtitles != [] {
      var st1 := st.(finishOverlay := false);
      var st2 := Record(st1.(snippetMode := false, segmentMode := false), [Pause]);
      var pre := st2.(subtitles := Unsolved(st2.subtitles), loggedSolved := {}, log := [],
                      nextIdx := 0, activePuzzleIdx := None, finishActions := false);
      assert forall i :: 0 <= i < |pre.subtitles| ==> pre.subtitles[i].tokens == st.subtitles[i].tokens;
      assert Valid(pre);
      OpenNextPuzzleValid(pre, true, swaps);
    }
  }

  // ---------------------------------------------------------------------
  // Replay windows and polling

  /**
   * `playSnippet`: without a player or with an index outside the list nothing
   * happens; otherwise the player is sent to the caption's start moved by
   * `offset` (never before 0) and plays until the caption's end. The
   * full-track window is left as it was.
   */
  lemma PlaySnippetOpensWindow(st: State, idx: nat, offset: int)
    ensures !st.playerReady || idx >= |st.subtitles| ==> PlaySnippet(st, idx, offset) == st
    ensures st.playerReady && idx < |st.subtitles| ==>
      var r := PlaySnippet(st, idx, offset);
      && r.snippetMode && r.snippetEnd == st.subtitles[idx].end
      && r.player == st.player + [Seek(Max(0, st.subtitles[idx].start + offset)), Play]
      && r.segmentMode == st.segmentMode
      && r.snippetResumePuzzle == (st.activePuzzleIdx == Some(idx))
      && r.activePuzzleIdx == st.activePuzzleIdx && r.nextIdx == st.nextIdx
  {
  }

  lemma PlaySnippetValid(st: State, idx: nat, offset: int)
    requires Valid(st)
    ensures Valid(PlaySnippet(st, idx, offset))
  {
  }

  /** The listen buttons replay the open puzzle's caption, or the caption at the cursor when none is open. */
  lemma ListenReplaysCurrentLine(st: State, offset: int)
    requires st.playerReady
    ensures
      var idx := if st.activePuzzleIdx.Some? then st.activePuzzleIdx.value else st.nextIdx;
      var r := Listen(st, offset);
      && (idx < |st.subtitles| ==>
            (r.snippetMode && r.snippetEnd == st.subtitles[idx].end
             && r.player == st.player + [Seek(Max(0, st.subtitles[idx].start + offset)), Play]))
      && (idx >= |st.subtitles| ==> r == st)
  {
    PlaySnippetOpensWindow(st, st.activePuzzleIdx.GetOr(st.nextIdx), offset);
  }

  /**
   * `playSubtitlesSegment`: the window runs from the first caption's start
   * (never before 0) to the last caption's end (never before the start).
   */
  lemma PlaySubtitlesSegmentWindow(st: State)
    ensures !st.playerReady || st.subtitles == [] ==>
      PlaySubtitlesSegment(st) == st.(finishOverlay := false)
    ensures st.playerReady && st.subtitles != [] ==>
      var r := PlaySubtitlesSegment(st);
      && 0 <= r.segmentStart <= r.segmentEnd
      && r.segmentStart == Max(0, st.subtitles[0].start)
      && r.segmentEnd >= st.subtitles[|st.subtitles| - 1].end
      && r.segmentMode && !r.snippetMode && r.activePuzzleIdx.None?
      && r.player == st.player + [Seek(r.segmentStart), Play]
  {
  }

  lemma PlaySubtitlesSegmentValid(st: State)
    requires Valid(st)
    ensures Valid(PlaySubtitlesSegment(st))
  {
    var r := PlaySubtitlesSegment(st);
    if st.playerReady && st.subtitles != [] {
      PlaySubtitlesSegmentWindow(st);
      assert r.subtitles == st.subtitles && r.nextIdx == st.nextIdx;
      assert r.pool == st.pool && r.userSentence == st.userSentence;
      assert r.loggedSolved == st.loggedSolved && r.log == st.log;
      assert BoardOk(st.subtitles, None, st.pool, st.userSentence);
    }
  }

  lemma CloseSnippetFacts(st: State, t: int)
    ensures CloseSnippet(st, t).snippetMode <==> st.snippetMode && t < st.snippetEnd - TOLERANCE
    ensures CloseSnippet(st, t).segmentMode == st.segmentMode
    ensures CloseSnippet(st, t).segmentEnd == st.segmentEnd
    ensures !st.snippetMode || t < st.snippetEnd - TOLERANCE ==> CloseSnippet(st, t) == st
  {
  }

  lemma CloseSegmentFacts(st: State, t: int)
    ensures CloseSegment(st, t).segmentMode <==> st.segmentMode && t < st.segmentEnd - TOLERANCE
    ensures CloseSegment(st, t).snippetMode ==> st.snippetMode
    ensures !st.segmentMode || t < st.segmentEnd - TOLERANCE ==> CloseSegment(st, t).snippetMode == st.snippetMode
    ensures st.segmentMode && t >= st.segmentEnd - TOLERANCE ==> CloseSegment(st, t).finishOverlay
    ensures !st.segmentMode || t < st.segmentEnd - TOLERANCE ==> CloseSegment(st, t) == st
  {
  }

  /**
   * `tick`: a replay window stays open exactly while the player time is more
   * than the tolerance before its end; reaching the end of the full track
   * shows the finish overlay. A tick never opens a window.
   */
  lemma TickClosesWindows(st: State, t: int)
    ensures !st.playerReady || st.subtitles == [] ==> Tick(st, t) == st
    ensures st.playerReady && st.subtitles != [] ==>
      var r := Tick(st, t);
      && (r.snippetMode ==> st.snippetMode && t < st.snippetEnd - TOLERANCE)
      && ((st.snippetMode && t < st.snippetEnd - TOLERANCE && (!st.segmentMode || t < st.segmentEnd - TOLERANCE))
          ==> r.snippetMode)
      && (st.snippetMode && t >= st.snippetEnd - TOLERANCE ==> !r.snippetMode)
      && (r.segmentMode <==> st.segmentMode && t < st.segmentEnd - TOLERANCE)
      && (st.segmentMode && t >= st.segmentEnd - TOLERANCE ==> r.finishOverlay)
    ensures ((!st.snippetMode || t < st.snippetEnd - TOLERANCE) && (!st.segmentMode || t < st.segmentEnd - TOLERANCE))
      ==> Tick(st, t) == st
  {
    CloseSnippetFacts(st, t);
    CloseSegmentFacts(CloseSnippet(st, t), t);
  }

  lemma TickValid(st: State, t: int)
    requires Valid(st)
    ensures Valid(Tick(st, t))
  {
    assert Valid(CloseSnippet(st, t));
    assert Valid(CloseSegment(CloseSnippet(st, t), t));
  }

  /**
   * A caption replay started with `playSnippet` keeps playing exactly until
   * the caption's end, unless a full-track window that is still open reaches
   * its own end first (the finish overlay then closes both).
   */
  lemma SnippetStopsAtItsEnd(st: State, idx: nat, offset: int, t: int)
    requires st.playerReady && idx < |st.subtitles|
    requires !st.segmentMode || t < st.segmentEnd - TOLERANCE
    ensures Tick(PlaySnippet(st, idx, offset), t).snippetMode <==> t < st.subtitles[idx].end - TOLERANCE
  {
    PlaySnippetOpensWindow(st, idx, offset);
    TickClosesWindows(PlaySnippet(st, idx, offset), t);
  }

  /** The full-track replay keeps playing exactly until the end of its window, then shows the overlay. */
  lemma SegmentStopsAtLastEnd(st: State, t: int)
    requires st.playerReady && st.subtitles != []
    ensures
      var r := PlaySubtitlesSegment(st);
      && (Tick(r, t).segmentMode <==> t < r.segmentEnd - TOLERANCE)
      && (t >= r.segmentEnd - TOLERANCE ==> Tick(r, t).finishOverlay)
  {
    PlaySubtitlesSegmentWindow(st);
    TickClosesWindows(PlaySubtitlesSegment(st), t);
  }

  // ---------------------------------------------------------------------
  // Cursor and polling

  /** A later player time never gives a smaller cursor. */
  lemma {:induction false} EndedPrefixMonotone(subs: seq<Segment>, t1: int, t2: int)
    requires t1 <= t2
    ensures EndedPrefix(subs, t1) <= EndedPrefix(subs, t2)
  {
    if subs != [] && subs[0].end <= t1 + TOLERANCE {
      EndedPrefixMonotone(subs[1..], t1, t2);
    }
  }

  /** The cursor is recomputed from the start of the list, so a resync can move it back. */
  lemma SyncMayMoveCursorBack()
    ensures exists st: State, t: int :: Valid(st) && SyncNextIdxToTime(st, t).nextIdx < st.nextIdx
  {
    var g := Segment(0, 1000, "a", ["a"], false);
    var st := Initial().(subtitles := [g], nextIdx := 1);
    assert Spaceless(g.tokens);
    assert Valid(st);
    assert SyncNextIdxToTime(st, 0).nextIdx == 0;
  }

  /**
   * `onStateChange`: playing resynchronises the cursor and leaves the poll
   * running, anything else leaves it stopped; repeating a notification
   * changes nothing more.
   */
  lemma OnStateChangeIdempotent(st: State, playing: bool, t: int)
    ensures
      var r := OnStateChange(st, playing, t);
      && OnStateChange(r, playing, t) == r
      && r.tickTimer == playing
      && (playing ==> r == st.(nextIdx := EndedPrefix(st.subtitles, t), tickTimer := true))
      && (!playing ==> r == st.(tickTimer := false))
  {
  }

  /**
   * The poll runs `tick` while the interval is set and changes nothing otherwise; once the
   * player reports anything but playing, later polls change nothing, and the invariant is kept.
   */
  lemma PollOnlyWhilePlaying(st: State, t0: int, t: int)
    ensures st.tickTimer ==> Poll(st, t) == Tick(st, t)
    ensures !st.tickTimer ==> Poll(st, t) == st
    ensures Poll(OnStateChange(st, false, t0), t) == OnStateChange(st, false, t0)
    ensures Valid(st) ==> Valid(Poll(st, t))
  {
    if Valid(st) {
      TickValid(st, t);
    }
  }

  lemma OnStateChangeValid(st: State, playing: bool, t: int)
    requires Valid(st)
    ensures Valid(OnStateChange(st, playing, t))
  {
  }

  // ---------------------------------------------------------------------
  // Loading, rating and timers

  /**
   * The load button: without a player, or without an id, only the finish
   * overlay is hidden; otherwise the video is cued, the progress of the
   * session is reset (but not the solved flags of the captions) and the first
   * puzzle is scheduled.
   */
  lemma LoadVideoResets(st: State, input: string)
    ensures !st.playerReady || ExtractId(input).None? || ExtractId(input).value == [] ==>
      LoadVideo(st, input) == st.(finishOverlay := false)
    ensures st.playerReady && ExtractId(input).Some? && ExtractId(input).value != [] ==>
      var id := ExtractId(input).value;
      var r := LoadVideo(st, input);
      && r.currentVideoId == Some(id) && r.videoLoaded
      && r.nextIdx == 0 && r.activePuzzleIdx.None? && r.log == [] && r.loggedSolved == {}
      && !r.ratingWasAsked && !r.ratingModalOpen && !r.snippetMode && !r.segmentMode
      && r.subtitles == st.subtitles
      && r.player == st.player + [CueVideo(id)] && r.pending == st.pending + [StartFirst]
  {
  }

  lemma LoadVideoValid(st: State, input: string)
    requires Valid(st)
    ensures Valid(LoadVideo(st, input))
  {
    LogEmpty(st.subtitles);
  }

  /** Loading a YouTube link cues exactly the video it names, whatever follows the id. */
  lemma LoadVideoOfYouTubeUrl(st: State, prefix: string, host: string, id: string, rest: string)
    requires st.playerReady
    requires IsSchemeForm(prefix) && IsHostForm(host) && IsId(id)
    ensures LoadVideo(st, prefix + host + id + rest).currentVideoId == Some(id)
    ensures LoadVideo(st, prefix + host + id + rest).player == st.player + [CueVideo(id)]
  {
    ExtractIdOfYouTubeUrl(prefix, host, id, rest);
    LoadVideoResets(st, prefix + host + id + rest);
  }

  /**
   * A subtitle file is loaded: its captions, sorted and unsolved, replace the
   * old ones, the cursor follows the player time, and the log and the rating
   * prompt are reset.
   */
  lemma LoadSubtitlesResets(st: State, text: string, t: int)
    ensures
      var r := LoadSubtitles(st, text, t);
      && r.subtitles == ParseSrt(text)
      && SortedBy(r.subtitles, SegmentStartLe)
      && (forall i :: 0 <= i < |r.subtitles| ==> !r.subtitles[i].solved)
      && r.nextIdx == EndedPrefix(ParseSrt(text), t)
      && r.activePuzzleIdx.None? && r.log == [] && r.loggedSolved == {}
      && !r.ratingWasAsked && !r.snippetMode && !r.segmentMode
      && r.pending == st.pending + [StartFirst]
  {
    ParseSrtSorted(text);
    forall i | 0 <= i < |ParseSrt(text)|
      ensures !ParseSrt(text)[i].solved
    {
      ParseSrtSegments(text, i);
    }
  }

  /** Every caption of a parsed subtitle file has spaceless tokens. */
  lemma ParsedTokensOk(text: string)
    ensures TokensOk(ParseSrt(text))
  {
    var subs := ParseSrt(text);
    forall i | 0 <= i < |subs|
      ensures Spaceless(subs[i].tokens)
    {
      ParseSrtSegments(text, i);
    }
  }

  lemma LoadSubtitlesValid(st: State, text: string, t: int)
    requires Valid(st)
    ensures Valid(LoadSubtitles(st, text, t))
  {
    var subs := ParseSrt(text);
    ParsedTokensOk(text);
    var r := LoadSubtitles(st, text, t);
    assert r.subtitles == subs && r.nextIdx == EndedPrefix(subs, t);
    assert r.pool == st.pool && r.userSentence == st.userSentence && r.activePuzzleIdx.None?;
    assert BoardOk(subs, None, st.pool, st.userSentence);
    assert r.loggedSolved == {} && r.log == [];
    LogEmpty(subs);
  }

  /** A translation file replaces the translations by its cues, sorted by start. */
  lemma LoadTranslationsSorted(st: State, text: string)
    ensures LoadTranslations(st, text).translations == ParseSrtPlain(text)
    ensures SortedBy(LoadTranslations(st, text).translations, CueStartLe)
    ensures Valid(st) ==> Valid(LoadTranslations(st, text))
  {
    ParseSrtPlainSorted(text);
  }

  /**
   * A star of the rating dialog: a zero value is ignored; otherwise the rating
   * and the caption count are filed under the video and the finish screen and
   * overlay are shown with every window closed.
   */
  lemma RateVideoStores(st: State, value: int)
    ensures value == 0 ==> RateVideo(st, value) == st
    ensures value != 0 ==>
      var r := RateVideo(st, value);
      && r.ratings == st.ratings[RatingKey(st.currentVideoId) := Rating(value, |st.subtitles|)]
      && r.finishOverlay && r.finishActions && !r.ratingModalOpen
      && r.activePuzzleIdx.None? && !r.snippetMode && !r.segmentMode
  {
  }

  lemma RateVideoValid(st: State, value: int)
    requires Valid(st)
    ensures Valid(RateVideo(st, value))
  {
    if value != 0 {
      var m := st.(
        ratings := st.ratings[RatingKey(st.currentVideoId) := Rating(value, |st.subtitles|)],
        ratingModalOpen := false, snippetMode := false, segmentMode := false,
        activePuzzleIdx := None, finishActions := true);
      assert BoardOk(m.subtitles, m.activePuzzleIdx, m.pool, m.userSentence);
      assert Valid(m);
      FinishKeepsValid(m);
    }
  }

  /** The finish screen touches nothing `Valid` speaks of. */
  lemma FinishKeepsValid(st: State)
    requires Valid(st)
    ensures Valid(ShowFinishOverlay(st))
  {
    var r := ShowFinishOverlay(st);
    assert r.subtitles == st.subtitles && r.activePuzzleIdx == st.activePuzzleIdx;
    assert r.pool == st.pool && r.userSentence == st.userSentence;
    assert r.loggedSolved == st.loggedSolved && r.log == st.log;
  }

  /**
   * The start-first callback: it does nothing until a player, a video and
   * captions are all there; then it opens the first unsolved line of the whole
   * list and queues it for playback.
   */
  lemma MaybeStartFirstPuzzleOpens(st: State, swaps: seq<(nat, nat)>)
    ensures !st.playerReady || !st.videoLoaded || st.subtitles == [] ==> MaybeStartFirstPuzzle(st, swaps) == st
    ensures st.playerReady && st.videoLoaded && st.subtitles != [] ==>
      var r := MaybeStartFirstPuzzle(st, swaps);
      match FirstUnsolved(st.subtitles, 0)
      case Some(i) => r.activePuzzleIdx == Some(i) && r.nextIdx == i && r.pending == st.pending + [Autoplay(i)]
      case None => r.activePuzzleIdx.None? && r.ratingWasAsked && r.nextIdx == 0
  {
    if st.playerReady && st.videoLoaded && st.subtitles != [] {
      OpenNextPuzzleOpensFirstUnsolved(st.(nextIdx := 0), true, swaps);
    }
  }

  lemma MaybeStartFirstPuzzleValid(st: State, swaps: seq<(nat, nat)>)
    requires Valid(st)
    ensures Valid(MaybeStartFirstPuzzle(st, swaps))
  {
    if st.playerReady && st.videoLoaded && st.subtitles != [] {
      OpenNextPuzzleValid(st.(nextIdx := 0), true, swaps);
    }
  }

  /** Running any queued timer keeps the state well formed; a timer that is not queued does nothing. */
  lemma FireValid(st: State, k: nat, swaps: seq<(nat, nat)>)
    requires Valid(st)
    ensures k >= |st.pending| ==> Fire(st, k, swaps) == st
    ensures Valid(Fire(st, k, swaps))
  {
    if k < |st.pending| {
      var st1 := st.(pending := st.pending[..k] + st.pending[k + 1..]);
      match st.pending[k]
      case Settle => SettleSolvedMarksOpenPuzzle(st1, swaps);
      case Autoplay(idx) => PlaySnippetValid(st1, idx, 0);
      case StartFirst => MaybeStartFirstPuzzleValid(st1, swaps);
    }
  }
}
