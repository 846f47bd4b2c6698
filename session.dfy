/**
 * The module variables of video.js and the handlers that update them in
 * place. Each handler performs the transition `Engine` defines for it, where
 * the properties of the puzzle are proved, and keeps the invariant
 * `Engine.Valid` of the variables.
 *
 * A handler is a sequence of steps. Each step is a method whose `modifies`
 * clause lists exactly the fields it assigns and whose contract states the
 * whole new state. Where a step assigns many fields, the assignments are
 * made, and stated field by field, in a method of their own (`SetBoard`,
 * `ClearProgress`, `SegmentFields`, `VideoFields`, `SubtitleFields`,
 * `RatingFields`), which keeps the proof of the whole new state small.
 */
module Session {

  import opened Optional
  import opened Numbers
  import opened Srt
  import opened Engine
  import VideoId
  import PuzzleProperties

  // The steps a handler is made of, as transitions of the page state.

  function WithCursor(st: State, n: nat): State { st.(nextIdx := n) }
  function WithOverlay(st: State, shown: bool): State { st.(finishOverlay := shown) }
  function WithSnippetMode(st: State, on: bool): State { st.(snippetMode := on) }
  function WithSegmentMode(st: State, on: bool): State { st.(segmentMode := on) }
  function WithActive(st: State, active: Option<nat>): State { st.(activePuzzleIdx := active) }
  function WithFinishActions(st: State, shown: bool): State { st.(finishActions := shown) }
  function WithTicking(st: State, on: bool): State { st.(tickTimer := on) }
  function Enqueue(st: State, timer: Timer): State { st.(pending := st.pending + [timer]) }

  function Dequeue(st: State, k: nat): State
    requires k < |st.pending|
  {
    st.(pending := st.pending[..k] + st.pending[k + 1..])
  }

  function Cued(st: State, id: string): State { st.(player := st.player + [CueVideo(id)]) }

  function Board(st: State, idx: nat, words: seq<string>): State
  {
    st.(activePuzzleIdx := Some(idx), pool := Tiles(words), userSentence := [])
  }

  function Asked(st: State): State { st.(ratingWasAsked := true, ratingModalOpen := true) }

  function Taken(st: State, k: nat): State
    requires k < |st.pool|
  {
    st.(pool := st.pool[k := st.pool[k].(used := true)], userSentence := st.userSentence + [Pick(st.pool[k].word, k)])
  }

  function Returned(st: State, i: nat): State
    requires i < |st.userSentence| && st.userSentence[i].tile < |st.pool|
  {
    var k := st.userSentence[i].tile;
    st.(pool := st.pool[k := st.pool[k].(used := false)], userSentence := st.userSentence[..i] + st.userSentence[i + 1..])
  }

  function Logged(st: State, idx: nat, status: Status): State
  {
    st.(loggedSolved := st.loggedSolved + {idx}, log := st.log + [LogLine(idx, status)])
  }

  function Marked(st: State, idx: nat): State
    requires idx < |st.subtitles|
  {
    st.(subtitles := st.subtitles[idx := st.subtitles[idx].(solved := true)], nextIdx := Max(st.nextIdx, idx + 1))
  }

  function Cleared(st: State): State
  {
    st.(subtitles := Unsolved(st.subtitles), loggedSolved := {}, log := [], nextIdx := 0,
        activePuzzleIdx := None, finishActions := false)
  }

  function SegmentOpen(st: State, start: int, end: int): State
  {
    st.(segmentStart := start, segmentEnd := end, snippetMode := false, activePuzzleIdx := None, segmentMode := true)
  }

  function SnippetOpen(st: State, resume: bool, end: int): State
  {
    st.(snippetResumePuzzle := resume, snippetMode := true, snippetEnd := end)
  }

  function ForVideo(st: State, id: string): State
  {
    st.(currentVideoId := Some(id), ratingWasAsked := false, ratingModalOpen := false, finishActions := false,
        segmentMode := false, nextIdx := 0, activePuzzleIdx := None, snippetMode := false,
        loggedSolved := {}, log := [], videoLoaded := true)
  }

  function ForSubtitles(st: State, subs: seq<Segment>): State
  {
    st.(subtitles := subs, ratingWasAsked := false, ratingModalOpen := false, finishActions := false,
        segmentMode := false, loggedSolved := {}, log := [])
  }

  function Rated(st: State, value: int): State
  {
    st.(ratings := st.ratings[RatingKey(st.currentVideoId) := Rating(value, |st.subtitles|)],
        ratingModalOpen := false, snippetMode := false, segmentMode := false,
        activePuzzleIdx := None, finishActions := true)
  }

  // The transitions as sequences of those steps, one case at a time, so that
  // each handler proof follows its calls instead of comparing states field by
  // field.

  lemma InitStep(st: State, idx: nat, swaps: seq<(nat, nat)>)
    requires idx < |st.subtitles|
    ensures Engine.InitPuzzleByIndex(st, idx, swaps)
         == Board(Record(st, [Seek(Max(0, st.subtitles[idx].start)), Pause]), idx,
                  Shuffle(st.subtitles[idx].tokens, swaps))
  {
  }

  lemma OpenNextStep(st: State, autoplay: bool, swaps: seq<(nat, nat)>)
    requires st.subtitles != []
    ensures Engine.OpenNextPuzzle(st, autoplay, swaps)
         == OpenFound(st, FirstUnsolved(st.subtitles, st.nextIdx), autoplay, swaps)
  {
  }

  lemma OpenNoneStep(st: State, autoplay: bool, swaps: seq<(nat, nat)>)
    ensures OpenFound(st, None, autoplay, swaps) == ShowRatingModal(WithFinishActions(WithActive(st, None), false))
  {
    assert st.(activePuzzleIdx := None, finishActions := false) == WithFinishActions(WithActive(st, None), false);
  }

  lemma OpenSomeStep(st: State, idx: nat, autoplay: bool, swaps: seq<(nat, nat)>)
    ensures OpenFound(st, Some(idx), autoplay, swaps)
         == var started := Engine.InitPuzzleByIndex(WithCursor(st, idx), idx, swaps);
            if autoplay then Enqueue(started, Autoplay(idx)) else started
  {
  }

  lemma AskStep(st: State)
    requires !st.ratingWasAsked
    ensures Engine.ShowRatingModal(st) == Asked(Record(st, [Pause]))
  {
  }

  lemma SelectStep(st: State, k: nat)
    requires k < |st.pool| && !st.pool[k].used
    ensures Engine.SelectWord(st, k) == Engine.RenderUserSentence(Taken(st, k))
  {
  }

  lemma RemoveStep(st: State, i: nat)
    requires i < |st.userSentence| && st.userSentence[i].tile < |st.pool|
    ensures Engine.RemoveWord(st, i) == Engine.RenderUserSentence(Returned(st, i))
  {
  }

  lemma LogStep(st: State, idx: nat, status: Status)
    requires idx < |st.subtitles| && idx !in st.loggedSolved
    ensures Engine.AddSolvedLineToLog(st, idx, status) == Logged(st, idx, status)
  {
  }

  lemma CompleteStep(st: State, idx: nat, status: Status, swaps: seq<(nat, nat)>)
    requires idx < |st.subtitles|
    ensures Engine.Complete(st, idx, status, swaps)
         == Engine.OpenNextPuzzle(WithActive(Engine.AddSolvedLineToLog(Marked(st, idx), idx, status), None), true, swaps)
  {
  }

  lemma ResetStep(st: State, swaps: seq<(nat, nat)>)
    ensures st.subtitles == [] ==> Engine.ResetAllPuzzlesAndStart(st, swaps) == WithOverlay(st, false)
    ensures st.subtitles != [] ==>
         Engine.ResetAllPuzzlesAndStart(st, swaps)
         == Engine.OpenNextPuzzle(
              Cleared(Record(WithSegmentMode(WithSnippetMode(WithOverlay(st, false), false), false), [Pause])),
              true, swaps)
  {
    var st2 := Record(WithSegmentMode(WithSnippetMode(WithOverlay(st, false), false), false), [Pause]);
    assert st2 == Record(st.(finishOverlay := false).(snippetMode := false, segmentMode := false), [Pause]);
  }

  lemma SegmentStep(st: State)
    ensures !st.playerReady || st.subtitles == [] ==> Engine.PlaySubtitlesSegment(st) == WithOverlay(st, false)
    ensures st.playerReady && st.subtitles != [] ==>
      var start := Max(0, st.subtitles[0].start);
      var end := Max(start, st.subtitles[|st.subtitles| - 1].end);
      Engine.PlaySubtitlesSegment(st) == Record(SegmentOpen(WithOverlay(st, false), start, end), [Seek(start), Play])
  {
  }

  lemma SnippetStep(st: State, idx: nat, offset: int)
    ensures !st.playerReady || idx >= |st.subtitles| ==> Engine.PlaySnippet(st, idx, offset) == st
    ensures st.playerReady && idx < |st.subtitles| ==>
         Engine.PlaySnippet(st, idx, offset)
         == Record(SnippetOpen(st, st.activePuzzleIdx == Some(idx), st.subtitles[idx].end),
                   [Seek(Max(0, st.subtitles[idx].start + offset)), Play])
  {
  }

  lemma FinishStep(st: State)
    ensures Engine.ShowFinishOverlay(st)
         == WithOverlay(WithSegmentMode(WithSnippetMode(Record(st, [Pause]), false), false), true)
  {
  }

  lemma TickStep(st: State, t: int)
    requires st.playerReady && st.subtitles != []
    ensures Engine.Tick(st, t) == CloseSegment(CloseSnippet(st, t), t)
  {
  }

  lemma LoadVideoStep(st: State, input: string)
    ensures
      var id := VideoId.ExtractId(input);
      !st.playerReady || id.None? || id.value == [] ==> Engine.LoadVideo(st, input) == WithOverlay(st, false)
    ensures
      var id := VideoId.ExtractId(input).GetOr([]);
      st.playerReady && id != [] ==>
      Engine.LoadVideo(st, input) == Enqueue(Cued(ForVideo(WithOverlay(st, false), id), id), StartFirst)
  {
  }

  lemma LoadSubtitlesStep(st: State, text: string, t: int)
    ensures Engine.LoadSubtitles(st, text, t)
         == WithSnippetMode(WithActive(Engine.SyncNextIdxToTime(
              Enqueue(ForSubtitles(WithOverlay(st, false), ParseSrt(text)), StartFirst), t), None), false)
  {
  }

  lemma RateStep(st: State, value: int)
    requires value != 0
    ensures Engine.RateVideo(st, value) == ShowFinishOverlay(Rated(st, value))
  {
  }

  class PuzzleSession {
    var playerReady: bool
    var videoLoaded: bool
    var currentVideoId: Option<string>
    var subtitles: seq<Segment>
    var translations: seq<Cue>
    var nextIdx: nat
    var activePuzzleIdx: Option<nat>
    var pool: seq<Tile>
    var userSentence: seq<Pick>
    var snippetMode: bool
    var snippetEnd: int
    var snippetResumePuzzle: bool
    var segmentMode: bool
    var segmentStart: int
    var segmentEnd: int
    var tickTimer: bool
    var loggedSolved: set<nat>
    var log: seq<LogLine>
    var ratingWasAsked: bool
    var ratingModalOpen: bool
    var finishActions: bool
    var finishOverlay: bool
    var ratings: map<string, Rating>
    var player: seq<PlayerCall>
    var pending: seq<Timer>

    /** The page state the variables hold. */
    function St(): State
      reads this
    {
      State(playerReady, videoLoaded, currentVideoId, subtitles, translations, nextIdx,
            activePuzzleIdx, pool, userSentence, snippetMode, snippetEnd, snippetResumePuzzle,
            segmentMode, segmentStart, segmentEnd, tickTimer, loggedSolved, log,
            ratingWasAsked, ratingModalOpen, finishActions, finishOverlay, ratings, player, pending)
    }

    ghost predicate Valid()
      reads this
    {
      Engine.Valid(St())
    }

    constructor ()
      ensures St() == Initial()
      ensures Valid()
    {
      playerReady, videoLoaded, currentVideoId := false, false, None;
      subtitles, translations, nextIdx := [], [], 0;
      activePuzzleIdx, pool, userSentence := None, [], [];
      snippetMode, snippetEnd, snippetResumePuzzle := false, 0, false;
      segmentMode, segmentStart, segmentEnd, tickTimer := false, 0, 0, false;
      loggedSolved, log := {}, [];
      ratingWasAsked, ratingModalOpen, finishActions, finishOverlay := false, false, false, false;
      ratings, player, pending := map[], [], [];
    }

    // -------------------------------------------------------------------
    // Single-field steps

    /** Player calls go out only once the player exists. */
    method Call(calls: seq<PlayerCall>)
      modifies this`player
      ensures St() == Record(old(St()), calls)
    {
      if playerReady {
        player := player + calls;
      }
    }

    /** `setTimeout`: the callback waits in the queue. */
    method Schedule(timer: Timer)
      modifies this`pending
      ensures St() == Enqueue(old(St()), timer)
    {
      pending := pending + [timer];
    }

    method SetCursor(n: nat)
      modifies this`nextIdx
      ensures St() == WithCursor(old(St()), n)
    {
      nextIdx := n;
    }

    method SetOverlay(shown: bool)
      modifies this`finishOverlay
      ensures St() == WithOverlay(old(St()), shown)
    {
      finishOverlay := shown;
    }

    method SetSnippetMode(on: bool)
      modifies this`snippetMode
      ensures St() == WithSnippetMode(old(St()), on)
    {
      snippetMode := on;
    }

    method SetSegmentMode(on: bool)
      modifies this`segmentMode
      ensures St() == WithSegmentMode(old(St()), on)
    {
      segmentMode := on;
    }

    method SetActive(active: Option<nat>)
      modifies this`activePuzzleIdx
      ensures St() == WithActive(old(St()), active)
    {
      activePuzzleIdx := active;
    }

    method SetFinishActions(shown: bool)
      modifies this`finishActions
      ensures St() == WithFinishActions(old(St()), shown)
    {
      finishActions := shown;
    }

    // -------------------------------------------------------------------
    // Cursor

    /** `syncNextIdxToTime(t)`: counts the captions that have ended, from the first one on. */
    method SyncNextIdxToTime(t: int)
      modifies this`nextIdx
      ensures St() == Engine.SyncNextIdxToTime(old(St()), t)
    {
      var n := 0;
      while n < |subtitles| && subtitles[n].end <= t + TOLERANCE
        invariant n <= |subtitles|
        invariant forall i :: 0 <= i < n ==> subtitles[i].end <= t + TOLERANCE
      {
        n := n + 1;
      }
      SetCursor(n);
    }

    /** `getNextUnsolvedIdx(from)`. */
    method GetNextUnsolvedIdx(from: nat) returns (r: Option<nat>)
      ensures r == FirstUnsolved(subtitles, from)
    {
      var i := from;
      while i < |subtitles| && subtitles[i].solved
        invariant from <= i
        invariant forall j :: from <= j < i ==> j < |subtitles| && subtitles[j].solved
        decreases |subtitles| - i
      {
        i := i + 1;
      }
      r := if i < |subtitles| then Some(i) else None;
    }

    // -------------------------------------------------------------------
    // Opening a puzzle

    method SetBoard(idx: nat, words: seq<string>)
      modifies this`activePuzzleIdx, this`pool, this`userSentence
      ensures activePuzzleIdx == Some(idx) && pool == Tiles(words) && userSentence == []
    {
      activePuzzleIdx := Some(idx);
      pool := Tiles(words);
      userSentence := [];
    }

    /** The board of `initPuzzleByIndex`: one button per word, an empty sentence. */
    method ShowBoard(idx: nat, words: seq<string>)
      modifies this`activePuzzleIdx, this`pool, this`userSentence
      ensures St() == Board(old(St()), idx, words)
    {
      SetBoard(idx, words);
    }

    /** `initPuzzleByIndex(idx)`: the caption's words, in the order `swaps` gives, become the pool. */
    method InitPuzzleByIndex(idx: nat, swaps: seq<(nat, nat)>)
      modifies this`player, this`activePuzzleIdx, this`pool, this`userSentence
      ensures St() == Engine.InitPuzzleByIndex(old(St()), idx, swaps)
    {
      if idx >= |subtitles| {
        return;
      }
      ghost var st0 := St();
      var s := subtitles[idx];
      Call([Seek(Max(0, s.start)), Pause]);
      ShowBoard(idx, Shuffle(s.tokens, swaps));
      InitStep(st0, idx, swaps);
    }

    method Ask()
      modifies this`ratingWasAsked, this`ratingModalOpen
      ensures ratingWasAsked && ratingModalOpen
      ensures St() == Asked(old(St()))
    {
      ratingWasAsked := true;
      ratingModalOpen := true;
    }

    /** `showRatingModal()`. */
    method ShowRatingModal()
      modifies this`player, this`ratingWasAsked, this`ratingModalOpen
      ensures St() == Engine.ShowRatingModal(old(St()))
    {
      if ratingWasAsked {
        return;
      }
      AskStep(St());
      Call([Pause]);
      Ask();
    }

    /** `openNextPuzzle({autoplay})`. */
    method OpenNextPuzzle(autoplay: bool, swaps: seq<(nat, nat)>)
      modifies this
      ensures St() == Engine.OpenNextPuzzle(old(St()), autoplay, swaps)
    {
      if subtitles == [] {
        return;
      }
      ghost var st0 := St();
      OpenNextStep(st0, autoplay, swaps);
      var found := GetNextUnsolvedIdx(nextIdx);
      match found
      case None =>
        OpenNoneStep(st0, autoplay, swaps);
        SetActive(None);
        SetFinishActions(false);
        ShowRatingModal();
      case Some(idx) =>
        OpenSomeStep(st0, idx, autoplay, swaps);
        SetCursor(idx);
        InitPuzzleByIndex(idx, swaps);
        if autoplay {
          Schedule(Autoplay(idx));
        }
    }

    /** `maybeStartFirstPuzzle({autoplayFirst: true})`. */
    method MaybeStartFirstPuzzle(swaps: seq<(nat, nat)>)
      modifies this
      ensures St() == Engine.MaybeStartFirstPuzzle(old(St()), swaps)
      ensures old(Valid()) ==> Valid()
    {
      ghost var st0 := St();
      if Engine.Valid(st0) {
        PuzzleProperties.MaybeStartFirstPuzzleValid(st0, swaps);
      }
      if !playerReady || !videoLoaded || subtitles == [] {
        return;
      }
      SetCursor(0);
      OpenNextPuzzle(true, swaps);
    }

    // -------------------------------------------------------------------
    // Building the sentence

    /** `renderUserSentence()`: a sentence that reads as the caption schedules the solve check. */
    method RenderUserSentence()
      modifies this`pending
      ensures St() == Engine.RenderUserSentence(old(St()))
    {
      if SentenceMatches(St()) {
        Schedule(Settle);
      }
    }

    /** Pool button `k` is marked used and its word appended to the sentence. */
    method TakeTile(k: nat)
      requires k < |pool|
      modifies this`pool, this`userSentence
      ensures pool == old(pool)[k := old(pool)[k].(used := true)]
      ensures userSentence == old(userSentence) + [Pick(old(pool)[k].word, k)]
      ensures St() == Taken(old(St()), k)
    {
      var w := pool[k].word;
      pool := pool[k := pool[k].(used := true)];
      userSentence := userSentence + [Pick(w, k)];
    }

    /** The click handler of pool button `k`. */
    method SelectWord(k: nat)
      modifies this`pool, this`userSentence, this`pending
      ensures St() == Engine.SelectWord(old(St()), k)
      ensures old(Valid()) ==> Valid()
    {
      ghost var st0 := St();
      if Engine.Valid(st0) {
        PuzzleProperties.SelectWordValid(st0, k);
      }
      if k >= |pool| || pool[k].used {
        return;
      }
      TakeTile(k);
      RenderUserSentence();
      SelectStep(st0, k);
    }

    /** Word `i` leaves the sentence and its pool button is enabled again. */
    method ReturnTile(i: nat)
      requires i < |userSentence| && userSentence[i].tile < |pool|
      modifies this`pool, this`userSentence
      ensures pool == old(pool)[old(userSentence)[i].tile := old(pool)[old(userSentence)[i].tile].(used := false)]
      ensures userSentence == old(userSentence)[..i] + old(userSentence)[i + 1..]
      ensures St() == Returned(old(St()), i)
    {
      var k := userSentence[i].tile;
      pool := pool[k := pool[k].(used := false)];
      userSentence := userSentence[..i] + userSentence[i + 1..];
    }

    /** The click handler of sentence word `i`. */
    method RemoveWord(i: nat)
      modifies this`pool, this`userSentence, this`pending
      ensures St() == Engine.RemoveWord(old(St()), i)
      ensures old(Valid()) ==> Valid()
    {
      ghost var st0 := St();
      if Engine.Valid(st0) {
        PuzzleProperties.RemoveWordValid(st0, i);
      }
      if i >= |userSentence| || userSentence[i].tile >= |pool| {
        return;
      }
      ReturnTile(i);
      RenderUserSentence();
      RemoveStep(st0, i);
    }

    // -------------------------------------------------------------------
    // Solving and skipping

    method Append(idx: nat, status: Status)
      modifies this`loggedSolved, this`log
      ensures loggedSolved == old(loggedSolved) + {idx} && log == old(log) + [LogLine(idx, status)]
      ensures St() == Logged(old(St()), idx, status)
    {
      loggedSolved := loggedSolved + {idx};
      log := log + [LogLine(idx, status)];
    }

    /** `addSolvedLineToLog(idx, status)`. */
    method AddSolvedLineToLog(idx: nat, status: Status)
      modifies this`loggedSolved, this`log
      ensures St() == Engine.AddSolvedLineToLog(old(St()), idx, status)
    {
      if idx >= |subtitles| || idx in loggedSolved {
        return;
      }
      LogStep(St(), idx, status);
      Append(idx, status);
    }

    /** Line `idx` is marked solved and the cursor moves past it. */
    method MarkSolved(idx: nat)
      requires idx < |subtitles|
      modifies this`subtitles, this`nextIdx
      ensures subtitles == old(subtitles)[idx := old(subtitles)[idx].(solved := true)]
      ensures nextIdx == Max(old(nextIdx), idx + 1)
      ensures St() == Marked(old(St()), idx)
    {
      subtitles := subtitles[idx := subtitles[idx].(solved := true)];
      nextIdx := Max(nextIdx, idx + 1);
    }

    /** What the solve check and the skip button share: mark, advance, log, open the next puzzle. */
    method Complete(idx: nat, status: Status, swaps: seq<(nat, nat)>)
      requires idx < |subtitles|
      modifies this
      ensures St() == Engine.Complete(old(St()), idx, status, swaps)
    {
      CompleteStep(St(), idx, status, swaps);
      MarkSolved(idx);
      AddSolvedLineToLog(idx, status);
      SetActive(None);
      OpenNextPuzzle(true, swaps);
    }

    /** The 450 ms solve check. */
    method SettleSolved(swaps: seq<(nat, nat)>)
      modifies this
      ensures St() == Engine.SettleSolved(old(St()), swaps)
      ensures old(Valid()) ==> Valid()
    {
      ghost var st0 := St();
      if Engine.Valid(st0) {
        PuzzleProperties.SettleSolvedMarksOpenPuzzle(st0, swaps);
      }
      match activePuzzleIdx
      case None =>
      case Some(idx) =>
        if idx < |subtitles| {
          Complete(idx, Done, swaps);
        }
    }

    /** The skip button. */
    method SkipPuzzle(swaps: seq<(nat, nat)>)
      modifies this
      ensures St() == Engine.SkipPuzzle(old(St()), swaps)
      ensures old(Valid()) ==> Valid()
    {
      ghost var st0 := St();
      if Engine.Valid(st0) {
        PuzzleProperties.SkipPuzzleMarksAndAdvances(st0, swaps);
      }
      var idx := if activePuzzleIdx.Some? then activePuzzleIdx.value else nextIdx;
      if idx < |subtitles| {
        Complete(idx, Skipped, swaps);
      }
    }

    /** The progress part of `resetAllPuzzlesAndStart`: every caption unsolved again, one by one, and the log emptied. */
    method ClearProgress()
      modifies this`subtitles, this`loggedSolved, this`log, this`nextIdx, this`activePuzzleIdx, this`finishActions
      ensures subtitles == Unsolved(old(subtitles))
      ensures loggedSolved == {} && log == [] && nextIdx == 0 && activePuzzleIdx.None? && !finishActions
    {
      var i := 0;
      while i < |subtitles|
        invariant i <= |subtitles| == |old(subtitles)|
        invariant forall j :: 0 <= j < i ==> subtitles[j] == old(subtitles)[j].(solved := false)
        invariant forall j :: i <= j < |subtitles| ==> subtitles[j] == old(subtitles)[j]
      {
        subtitles := subtitles[i := subtitles[i].(solved := false)];
        i := i + 1;
      }
      loggedSolved, log := {}, [];
      nextIdx := 0;
      activePuzzleIdx := None;
      finishActions := false;
    }

    method ResetProgress()
      modifies this`subtitles, this`loggedSolved, this`log, this`nextIdx, this`activePuzzleIdx, this`finishActions
      ensures St() == Cleared(old(St()))
    {
      ClearProgress();
    }

    /** `resetAllPuzzlesAndStart()`, the restart button. */
    method ResetAllPuzzlesAndStart(swaps: seq<(nat, nat)>)
      modifies this
      ensures St() == Engine.ResetAllPuzzlesAndStart(old(St()), swaps)
      ensures old(Valid()) ==> Valid()
    {
      ghost var st0 := St();
      if Engine.Valid(st0) {
        PuzzleProperties.ResetAllValid(st0, swaps);
      }
      ResetStep(st0, swaps);
      if subtitles == [] {
        SetOverlay(false);
        return;
      }
      SetOverlay(false);
      SetSnippetMode(false);
      SetSegmentMode(false);
      Call([Pause]);
      ResetProgress();
      OpenNextPuzzle(true, swaps);
    }

    // -------------------------------------------------------------------
    // Replay windows and polling

    /** The window of `playSubtitlesSegment`: the whole track, with no puzzle open. */
    method SegmentFields(start: int, end: int)
      modifies this`segmentStart, this`segmentEnd, this`snippetMode, this`activePuzzleIdx, this`segmentMode
      ensures segmentStart == start && segmentEnd == end && !snippetMode && activePuzzleIdx.None? && segmentMode
    {
      segmentStart, segmentEnd := start, end;
      snippetMode := false;
      activePuzzleIdx := None;
      segmentMode := true;
    }

    method OpenSegment(start: int, end: int)
      modifies this`segmentStart, this`segmentEnd, this`snippetMode, this`activePuzzleIdx, this`segmentMode
      ensures St() == SegmentOpen(old(St()), start, end)
    {
      SegmentFields(start, end);
    }

    /** `playSubtitlesSegment()`, the "watch the whole track" button. */
    method PlaySubtitlesSegment()
      modifies this
      ensures St() == Engine.PlaySubtitlesSegment(old(St()))
      ensures old(Valid()) ==> Valid()
    {
      ghost var st0 := St();
      if Engine.Valid(st0) {
        PuzzleProperties.PlaySubtitlesSegmentValid(st0);
      }
      SegmentStep(st0);
      if !playerReady || subtitles == [] {
        SetOverlay(false);
        return;
      }
      var start := Max(0, subtitles[0].start);
      var end := Max(start, subtitles[|subtitles| - 1].end);
      SetOverlay(false);
      OpenSegment(start, end);
      Call([Seek(start), Play]);
    }

    /** The window of `playSnippet`: it ends with caption `idx`. */
    method OpenSnippet(resume: bool, end: int)
      modifies this`snippetResumePuzzle, this`snippetMode, this`snippetEnd
      ensures snippetResumePuzzle == resume && snippetMode && snippetEnd == end
      ensures St() == SnippetOpen(old(St()), resume, end)
    {
      snippetResumePuzzle := resume;
      snippetMode := true;
      snippetEnd := end;
    }

    /** `playSnippet(idx, offset)`. */
    method PlaySnippet(idx: nat, offset: int)
      modifies this`snippetResumePuzzle, this`snippetMode, this`snippetEnd, this`player
      ensures St() == Engine.PlaySnippet(old(St()), idx, offset)
      ensures old(Valid()) ==> Valid()
    {
      ghost var st0 := St();
      if Engine.Valid(st0) {
        PuzzleProperties.PlaySnippetValid(st0, idx, offset);
      }
      SnippetStep(st0, idx, offset);
      if !playerReady || idx >= |subtitles| {
        return;
      }
      var s := subtitles[idx];
      OpenSnippet(activePuzzleIdx == Some(idx), s.end);
      Call([Seek(Max(0, s.start + offset)), Play]);
    }

    /** The listen buttons, with `offset` 0 or `REWIND`. */
    method Listen(offset: int)
      modifies this`snippetResumePuzzle, this`snippetMode, this`snippetEnd, this`player
      ensures St() == Engine.Listen(old(St()), offset)
      ensures old(Valid()) ==> Valid()
    {
      var idx := if activePuzzleIdx.Some? then activePuzzleIdx.value else nextIdx;
      PlaySnippet(idx, offset);
    }

    /** `showFinishOverlay()`. */
    method ShowFinishOverlay()
      modifies this`player, this`snippetMode, this`segmentMode, this`finishOverlay
      ensures St() == Engine.ShowFinishOverlay(old(St()))
    {
      FinishStep(St());
      Call([Pause]);
      SetSnippetMode(false);
      SetSegmentMode(false);
      SetOverlay(true);
    }

    /** The snippet half of `tick()`. */
    method CloseSnippet(t: int)
      modifies this`snippetMode, this`player
      ensures St() == Engine.CloseSnippet(old(St()), t)
    {
      if snippetMode && t >= snippetEnd - TOLERANCE {
        SetSnippetMode(false);
        Call([Pause]);
      }
    }

    /** The full-track half of `tick()`. */
    method CloseSegment(t: int)
      modifies this`segmentMode, this`player, this`snippetMode, this`finishOverlay
      ensures St() == Engine.CloseSegment(old(St()), t)
    {
      if segmentMode && t >= segmentEnd - TOLERANCE {
        SetSegmentMode(false);
        Call([Pause]);
        ShowFinishOverlay();
      }
    }

    /** `tick()`, the 120 ms poll, at player time `t`. */
    method Tick(t: int)
      modifies this`segmentMode, this`player, this`snippetMode, this`finishOverlay
      ensures St() == Engine.Tick(old(St()), t)
      ensures old(Valid()) ==> Valid()
    {
      ghost var st0 := St();
      if Engine.Valid(st0) {
        PuzzleProperties.TickValid(st0, t);
      }
      if !playerReady || subtitles == [] {
        return;
      }
      CloseSnippet(t);
      CloseSegment(t);
      TickStep(st0, t);
    }

    /** The 120 ms interval at player time `t`: `tick` runs only while the interval is set. */
    method Poll(t: int)
      modifies this`segmentMode, this`player, this`snippetMode, this`finishOverlay
      ensures St() == Engine.Poll(old(St()), t)
      ensures old(Valid()) ==> Valid()
    {
      if tickTimer {
        Tick(t);
      }
    }

    method SetTicking(on: bool)
      modifies this`tickTimer
      ensures St() == WithTicking(old(St()), on)
    {
      tickTimer := on;
    }

    /** `onStateChange`: `playing` tells whether the player reports the playing state. */
    method OnStateChange(playing: bool, t: int)
      modifies this`nextIdx, this`tickTimer
      ensures St() == Engine.OnStateChange(old(St()), playing, t)
      ensures old(Valid()) ==> Valid()
    {
      ghost var st0 := St();
      if Engine.Valid(st0) {
        PuzzleProperties.OnStateChangeValid(st0, playing, t);
      }
      if playing {
        SyncNextIdxToTime(t);
        if !tickTimer {
          SetTicking(true);
        }
      } else if tickTimer {
        SetTicking(false);
      }
    }

    // -------------------------------------------------------------------
    // Loading, rating and timers

    /** The player's `onReady` event. */
    method PlayerIsReady()
      modifies this`playerReady
      ensures St() == Engine.PlayerIsReady(old(St()))
      ensures old(Valid()) ==> Valid()
    {
      playerReady := true;
    }

    /** The part of the load button after the checks: the session starts over for video `id`. */
    method VideoFields(id: string)
      modifies this`currentVideoId, this`ratingWasAsked, this`ratingModalOpen, this`finishActions, this`segmentMode,
        this`nextIdx, this`activePuzzleIdx, this`snippetMode, this`loggedSolved, this`log, this`videoLoaded
      ensures currentVideoId == Some(id) && !ratingWasAsked && !ratingModalOpen && !finishActions && !segmentMode
      ensures nextIdx == 0 && activePuzzleIdx == None && !snippetMode && loggedSolved == {} && log == [] && videoLoaded
    {
      currentVideoId := Some(id);
      ratingWasAsked := false;
      ratingModalOpen := false;
      finishActions := false;
      segmentMode := false;
      nextIdx := 0;
      activePuzzleIdx := None;
      snippetMode := false;
      loggedSolved, log := {}, [];
      videoLoaded := true;
    }

    method StartVideo(id: string)
      modifies this`currentVideoId, this`ratingWasAsked, this`ratingModalOpen, this`finishActions, this`segmentMode,
        this`nextIdx, this`activePuzzleIdx, this`snippetMode, this`loggedSolved, this`log, this`videoLoaded
      ensures St() == ForVideo(old(St()), id)
    {
      VideoFields(id);
    }

    /** The player's `cueVideoById`, which goes out whatever `Record` would filter. */
    method Cue(id: string)
      modifies this`player
      ensures St() == Cued(old(St()), id)
    {
      player := player + [CueVideo(id)];
    }

    /** The load button, with the text of the id field. */
    method LoadVideo(input: string)
      modifies this
      ensures St() == Engine.LoadVideo(old(St()), input)
      ensures old(Valid()) ==> Valid()
    {
      ghost var st0 := St();
      if Engine.Valid(st0) {
        PuzzleProperties.LoadVideoValid(st0, input);
      }
      LoadVideoStep(st0, input);
      var id := VideoId.ExtractId(input);
      if !playerReady || id.None? || id.value == [] {
        SetOverlay(false);
        return;
      }
      SetOverlay(false);
      StartVideo(id.value);
      Cue(id.value);
      Schedule(StartFirst);
    }

    /** The subtitle part of the file reader's callback: new captions, nothing asked or logged yet. */
    method SubtitleFields(subs: seq<Segment>)
      modifies this`subtitles, this`ratingWasAsked, this`ratingModalOpen, this`finishActions, this`segmentMode,
        this`loggedSolved, this`log
      ensures subtitles == subs && !ratingWasAsked && !ratingModalOpen && !finishActions && !segmentMode
      ensures loggedSolved == {} && log == []
    {
      subtitles := subs;
      ratingWasAsked := false;
      ratingModalOpen := false;
      finishActions := false;
      segmentMode := false;
      loggedSolved, log := {}, [];
    }

    method StartSubtitles(subs: seq<Segment>)
      modifies this`subtitles, this`ratingWasAsked, this`ratingModalOpen, this`finishActions, this`segmentMode,
        this`loggedSolved, this`log
      ensures St() == ForSubtitles(old(St()), subs)
    {
      SubtitleFields(subs);
    }

    /** The subtitle file input, once the file has been read; `t` is the player time. */
    method LoadSubtitles(text: string, t: int)
      modifies this
      ensures St() == Engine.LoadSubtitles(old(St()), text, t)
      ensures old(Valid()) ==> Valid()
    {
      ghost var st0 := St();
      if Engine.Valid(st0) {
        PuzzleProperties.LoadSubtitlesValid(st0, text, t);
      }
      var subs := ParseSrt(text);
      LoadSubtitlesStep(st0, text, t);
      SetOverlay(false);
      StartSubtitles(subs);
      Schedule(StartFirst);
      SyncNextIdxToTime(t);
      SetActive(None);
      SetSnippetMode(false);
    }

    /** The translation file input, once the file has been read. */
    method LoadTranslations(text: string)
      modifies this`translations
      ensures St() == Engine.LoadTranslations(old(St()), text)
      ensures old(Valid()) ==> Valid()
    {
      PuzzleProperties.LoadTranslationsSorted(St(), text);
      translations := ParseSrtPlain(text);
    }

    /** The rating is filed and the dialog, the windows and the puzzle are closed. */
    method RatingFields(value: int)
      modifies this`ratings, this`ratingModalOpen, this`snippetMode, this`segmentMode, this`activePuzzleIdx,
        this`finishActions
      ensures ratings == old(ratings)[RatingKey(currentVideoId) := Rating(value, |subtitles|)]
      ensures !ratingModalOpen && !snippetMode && !segmentMode && activePuzzleIdx.None? && finishActions
    {
      ratings := ratings[RatingKey(currentVideoId) := Rating(value, |subtitles|)];
      ratingModalOpen := false;
      snippetMode, segmentMode := false, false;
      activePuzzleIdx := None;
      finishActions := true;
    }

    method StoreRating(value: int)
      modifies this`ratings, this`ratingModalOpen, this`snippetMode, this`segmentMode, this`activePuzzleIdx,
        this`finishActions
      ensures St() == Rated(old(St()), value)
    {
      RatingFields(value);
    }

    /** A star of the rating dialog. */
    method RateVideo(value: int)
      modifies this
      ensures St() == Engine.RateVideo(old(St()), value)
      ensures old(Valid()) ==> Valid()
    {
      ghost var st0 := St();
      if Engine.Valid(st0) {
        PuzzleProperties.RateVideoValid(st0, value);
      }
      if value == 0 {
        return;
      }
      StoreRating(value);
      ShowFinishOverlay();
      RateStep(st0, value);
    }

    /** Timer `k` of the queue leaves it. */
    method Unschedule(k: nat)
      requires k < |pending|
      modifies this`pending
      ensures St() == Dequeue(old(St()), k)
    {
      pending := pending[..k] + pending[k + 1..];
    }

    /** Timer `k` of the queue runs. */
    method Fire(k: nat, swaps: seq<(nat, nat)>)
      modifies this
      ensures St() == Engine.Fire(old(St()), k, swaps)
      ensures old(Valid()) ==> Valid()
    {
      ghost var st0 := St();
      if Engine.Valid(st0) {
        PuzzleProperties.FireValid(st0, k, swaps);
      }
      if k >= |pending| {
        return;
      }
      var timer := pending[k];
      Unschedule(k);
      match timer
      case Settle => SettleSolved(swaps);
      case Autoplay(idx) => PlaySnippet(idx, 0);
      case StartFirst => MaybeStartFirstPuzzle(swaps);
    }
  }
}
