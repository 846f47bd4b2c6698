/**
 * The sentence-building puzzle of the video page (video.js), as a state and
 * one transition per event handler. The page keeps this state in module
 * variables; `Session.PuzzleSession` holds the same fields and each of its
 * methods is proved to perform the transition defined here.
 *
 * Times are whole milliseconds. Calls made on the YouTube player are recorded
 * in `player`; timers that the page starts with `setTimeout` are queued in
 * `pending` and run when the caller fires them, in any order it likes. The
 * random order of the word buttons is an input: a list of swaps applied to the
 * tokens.
 */
module Engine {

  import opened Text
  import opened Numbers
  import opened Optional
  import opened Tokenizer
  import opened Srt
  import opened VideoId

  /** The 0.05 s slack the page allows when comparing player time with caption times. */
  const TOLERANCE: int := 50

  /** The "listen from one second earlier" button starts this far before the caption. */
  const REWIND: int := -1000

  /** A word button of the pool; `used` is its `used` class. */
  datatype Tile = Tile(word: string, used: bool)

  /** An entry of `userSentence`: the word and the pool button it came from. */
  datatype Pick = Pick(word: string, tile: nat)

  datatype PlayerCall = Seek(at: int) | Play | Pause | CueVideo(id: string)

  /** The callbacks the page schedules: the 450 ms solve check, the 50 ms autoplay and the start of the first puzzle. */
  datatype Timer = Settle | Autoplay(idx: nat) | StartFirst

  datatype Status = Done | Skipped

  /** A line of the solved-lines log. */
  datatype LogLine = LogLine(idx: nat, status: Status)

  /** What is stored for a rated video. */
  datatype Rating = Rating(value: int, subtitleCount: nat)

  datatype State = State(
    playerReady: bool,
    videoLoaded: bool,
    currentVideoId: Option<string>,
    subtitles: seq<Segment>,
    translations: seq<Cue>,
    nextIdx: nat,
    activePuzzleIdx: Option<nat>,
    pool: seq<Tile>,
    userSentence: seq<Pick>,
    snippetMode: bool,
    snippetEnd: int,
    snippetResumePuzzle: bool,
    segmentMode: bool,
    segmentStart: int,
    segmentEnd: int,
    tickTimer: bool,
    loggedSolved: set<nat>,
    log: seq<LogLine>,
    ratingWasAsked: bool,
    ratingModalOpen: bool,
    finishActions: bool,
    finishOverlay: bool,
    ratings: map<string, Rating>,
    player: seq<PlayerCall>,
    pending: seq<Timer>)

  /** The state when the page has just loaded. */
  function Initial(): (st: State)
    ensures Valid(st)
  {
    State(false, false, None, [], [], 0, None, [], [], false, 0, false, false, 0, 0, false,
          {}, [], false, false, false, false, map[], [], [])
  }

  // ---------------------------------------------------------------------
  // Invariants

  function PoolWords(pool: seq<Tile>): (ws: seq<string>)
    ensures |ws| == |pool| && forall i :: 0 <= i < |pool| ==> ws[i] == pool[i].word
  {
    seq(|pool|, i requires 0 <= i < |pool| => pool[i].word)
  }

  function SentenceWords(sentence: seq<Pick>): (ws: seq<string>)
    ensures |ws| == |sentence| && forall i :: 0 <= i < |sentence| ==> ws[i] == sentence[i].word
  {
    seq(|sentence|, i requires 0 <= i < |sentence| => sentence[i].word)
  }

  /** The pool buttons referred to by the sentence. */
  function UsedTiles(sentence: seq<Pick>): set<nat>
  {
    set i | 0 <= i < |sentence| :: sentence[i].tile
  }

  /**
   * The sentence is made of pool buttons, each at most once, carrying their
   * words; a button is marked used exactly when the sentence holds it.
   */
  predicate PicksMatchPool(pool: seq<Tile>, sentence: seq<Pick>)
  {
    && (forall i :: 0 <= i < |sentence| ==>
          sentence[i].tile < |pool| && pool[sentence[i].tile].word == sentence[i].word)
    && (forall i, j :: 0 <= i < j < |sentence| ==> sentence[i].tile != sentence[j].tile)
    && (forall k :: 0 <= k < |pool| ==> (pool[k].used <==> k in UsedTiles(sentence)))
  }

  function LoggedIndices(log: seq<LogLine>): set<nat>
  {
    set i | 0 <= i < |log| :: log[i].idx
  }

  /** Every caption's tokens can be joined with spaces and split back. */
  predicate TokensOk(subs: seq<Segment>)
  {
    forall i :: 0 <= i < |subs| ==> Spaceless(subs[i].tokens)
  }

  /** The board: the pool holds spaceless words, the sentence is drawn from it, and an open puzzle's pool is its tokens. */
  predicate BoardOk(subs: seq<Segment>, active: Option<nat>, pool: seq<Tile>, sentence: seq<Pick>)
  {
    && (active.Some? ==> active.value < |subs|)
    && Spaceless(PoolWords(pool))
    && PicksMatchPool(pool, sentence)
    && (active.Some? && active.value < |subs| ==>
          multiset(PoolWords(pool)) == multiset(subs[active.value].tokens))
  }

  /** The log names each line at most once, `loggedSolved` is the set it names, and those lines are solved. */
  predicate LogOk(subs: seq<Segment>, logged: set<nat>, log: seq<LogLine>)
  {
    && (forall i, j :: 0 <= i < j < |log| ==> log[i].idx != log[j].idx)
    && logged == LoggedIndices(log)
    && (forall i :: i in logged ==> i < |subs| && subs[i].solved)
  }

  predicate Valid(st: State)
  {
    && st.nextIdx <= |st.subtitles|
    && TokensOk(st.subtitles)
    && BoardOk(st.subtitles, st.activePuzzleIdx, st.pool, st.userSentence)
    && LogOk(st.subtitles, st.loggedSolved, st.log)
    && 0 <= st.segmentStart <= st.segmentEnd
  }

  // ---------------------------------------------------------------------
  // Cursor

  /** How many leading segments end by time `t` (with the tolerance). */
  function EndedPrefix(subs: seq<Segment>, t: int): (n: nat)
    ensures n <= |subs|
    ensures forall i :: 0 <= i < n ==> subs[i].end <= t + TOLERANCE
    ensures n < |subs| ==> subs[n].end > t + TOLERANCE
  {
    if subs == [] || subs[0].end > t + TOLERANCE then 0 else 1 + EndedPrefix(subs[1..], t)
  }

  /** `syncNextIdxToTime(t)`: the cursor is recomputed from scratch, so it may move back. */
  function SyncNextIdxToTime(st: State, t: int): State
  {
    st.(nextIdx := EndedPrefix(st.subtitles, t))
  }

  /** `getNextUnsolvedIdx(from)`: the first unsolved segment from `from` on. */
  function FirstUnsolved(subs: seq<Segment>, from: nat): (r: Option<nat>)
    ensures r.Some? ==> from <= r.value < |subs| && !subs[r.value].solved
    ensures r.Some? ==> forall j :: from <= j < r.value ==> subs[j].solved
    ensures r.None? ==> forall j :: from <= j < |subs| ==> subs[j].solved
    decreases |subs| - from
  {
    if from >= |subs| then None
    else if !subs[from].solved then Some(from)
    else FirstUnsolved(subs, from + 1)
  }

  // ---------------------------------------------------------------------
  // Opening a puzzle

  function Swap(ws: seq<string>, i: nat, j: nat): (r: seq<string>)
    requires i < |ws| && j < |ws|
    ensures multiset(r) == multiset(ws)
  {
    ws[i := ws[j]][j := ws[i]]
  }

  /** The words in the order the buttons are shown: the tokens after the given swaps. */
  function Shuffle(ws: seq<string>, swaps: seq<(nat, nat)>): (r: seq<string>)
    ensures multiset(r) == multiset(ws)
    decreases swaps
  {
    if swaps == [] || ws == [] then ws
    else Shuffle(Swap(ws, swaps[0].0 % |ws|, swaps[0].1 % |ws|), swaps[1..])
  }

  function Tiles(ws: seq<string>): (pool: seq<Tile>)
    ensures PoolWords(pool) == ws
    ensures forall k :: 0 <= k < |pool| ==> !pool[k].used
  {
    var pool := seq(|ws|, i requires 0 <= i < |ws| => Tile(ws[i], false));
    assert PoolWords(pool) == ws;
    pool
  }

  /** The player calls are made only once the player exists. */
  function Record(st: State, calls: seq<PlayerCall>): State
  {
    st.(player := st.player + (if st.playerReady then calls else []))
  }

  /** `initPuzzleByIndex(idx)`. */
  function InitPuzzleByIndex(st: State, idx: nat, swaps: seq<(nat, nat)>): State
  {
    if idx >= |st.subtitles| then st
    else
      var s := st.subtitles[idx];
      Record(st, [Seek(Max(0, s.start)), Pause]).(
        activePuzzleIdx := Some(idx),
        pool := Tiles(Shuffle(s.tokens, swaps)),
        userSentence := [])
  }

  /** `showRatingModal()`: asks once until `ratingWasAsked` is cleared again. */
  function ShowRatingModal(st: State): State
  {
    if st.ratingWasAsked then st
    else Record(st, [Pause]).(ratingWasAsked := true, ratingModalOpen := true)
  }

  /** `openNextPuzzle({autoplay})`. */
  function OpenNextPuzzle(st: State, autoplay: bool, swaps: seq<(nat, nat)>): State
  {
    if st.subtitles == [] then st
    else OpenFound(st, FirstUnsolved(st.subtitles, st.nextIdx), autoplay, swaps)
  }

  /** The rest of `openNextPuzzle` once the next unsolved line has been looked up. */
  function OpenFound(st: State, found: Option<nat>, autoplay: bool, swaps: seq<(nat, nat)>): State
  {
    match found
    case None => ShowRatingModal(st.(activePuzzleIdx := None, finishActions := false))
    case Some(idx) =>
      var started := InitPuzzleByIndex(st.(nextIdx := idx), idx, swaps);
      started.(pending := started.pending + (if autoplay then [Autoplay(idx)] else []))
  }

  /** `maybeStartFirstPuzzle({autoplayFirst: true})`, the callback the loaders schedule. */
  function MaybeStartFirstPuzzle(st: State, swaps: seq<(nat, nat)>): State
  {
    if !st.playerReady || !st.videoLoaded || st.subtitles == [] then st
    else OpenNextPuzzle(st.(nextIdx := 0), true, swaps)
  }

  // ---------------------------------------------------------------------
  // Building the sentence

  /** The tokens of the open puzzle; with none open the source compares against the empty text. */
  function Target(st: State): seq<string>
  {
    if st.activePuzzleIdx.Some? && st.activePuzzleIdx.value < |st.subtitles|
    then st.subtitles[st.activePuzzleIdx.value].tokens else []
  }

  /** The sentence reads as the open caption: the joined words equal the joined tokens. */
  predicate SentenceMatches(st: State)
  {
    Join(SentenceWords(st.userSentence), " ") == Join(Target(st), " ")
  }

  /** `renderUserSentence()`: when the sentence matches, the solve check is scheduled. */
  function RenderUserSentence(st: State): State
  {
    st.(pending := st.pending + (if SentenceMatches(st) then [Settle] else []))
  }

  /** A click on pool button `k`: ignored when used, otherwise the word is appended. */
  function SelectWord(st: State, k: nat): State
  {
    if k >= |st.pool| || st.pool[k].used then st
    else RenderUserSentence(st.(
      pool := st.pool[k := st.pool[k].(used := true)],
      userSentence := st.userSentence + [Pick(st.pool[k].word, k)]))
  }

  /** A click on sentence word `i`: it leaves the sentence and its pool button is enabled again. */
  function RemoveWord(st: State, i: nat): State
  {
    if i >= |st.userSentence| || st.userSentence[i].tile >= |st.pool| then st
    else
      var k := st.userSentence[i].tile;
      RenderUserSentence(st.(
        pool := st.pool[k := st.pool[k].(used := false)],
        userSentence := st.userSentence[..i] + st.userSentence[i + 1..]))
  }

  // ---------------------------------------------------------------------
  // Solving and skipping

  /** `addSolvedLineToLog(idx, status)`: each index is logged once until the log is reset. */
  function AddSolvedLineToLog(st: State, idx: nat, status: Status): State
  {
    var isNew := idx < |st.subtitles| && idx !in st.loggedSolved;
    st.(loggedSolved := st.loggedSolved + (if isNew then {idx} else {}),
        log := st.log + (if isNew then [LogLine(idx, status)] else []))
  }

  /** Marks `idx` solved, moves the cursor past it, logs it and opens the next puzzle. */
  function Complete(st: State, idx: nat, status: Status, swaps: seq<(nat, nat)>): State
    requires idx < |st.subtitles|
  {
    var marked := st.(
      subtitles := st.subtitles[idx := st.subtitles[idx].(solved := true)],
      nextIdx := Max(st.nextIdx, idx + 1));
    OpenNextPuzzle(AddSolvedLineToLog(marked, idx, status).(activePuzzleIdx := None), true, swaps)
  }

  /** The 450 ms callback after a correct sentence: it solves whatever puzzle is open when it runs. */
  function SettleSolved(st: State, swaps: seq<(nat, nat)>): State
  {
    match st.activePuzzleIdx
    case None => st
    case Some(idx) => if idx < |st.subtitles| then Complete(st, idx, Done, swaps) else st
  }

  /** The skip button: skips the open puzzle, or the one at the cursor. */
  function SkipPuzzle(st: State, swaps: seq<(nat, nat)>): State
  {
    var idx := st.activePuzzleIdx.GetOr(st.nextIdx);
    if idx >= |st.subtitles| then st else Complete(st, idx, Skipped, swaps)
  }

  function Unsolved(subs: seq<Segment>): (r: seq<Segment>)
    ensures |r| == |subs|
    ensures forall i :: 0 <= i < |subs| ==> r[i] == subs[i].(solved := false)
  {
    seq(|subs|, i requires 0 <= i < |subs| => subs[i].(solved := false))
  }

  /** `resetAllPuzzlesAndStart()`, the restart button. */
  function ResetAllPuzzlesAndStart(st: State, swaps: seq<(nat, nat)>): State
  {
    var st1 := st.(finishOverlay := false);
    if st1.subtitles == [] then st1
    else
      var st2 := Record(st1.(snippetMode := false, segmentMode := false), [Pause]);
      OpenNextPuzzle(st2.(
        subtitles := Unsolved(st2.subtitles),
        loggedSolved := {}, log := [],
        nextIdx := 0, activePuzzleIdx := None, finishActions := false), true, swaps)
  }

  // ---------------------------------------------------------------------
  // Replay windows and polling

  /** `playSubtitlesSegment()`: plays from the first caption to the end of the last. */
  function PlaySubtitlesSegment(st: State): State
  {
    var st1 := st.(finishOverlay := false);
    if !st1.playerReady || st1.subtitles == [] then st1
    else
      var start := Max(0, st1.subtitles[0].start);
      var end := Max(start, st1.subtitles[|st1.subtitles| - 1].end);
      Record(st1.(segmentStart := start, segmentEnd := end, snippetMode := false,
                  activePuzzleIdx := None, segmentMode := true), [Seek(start), Play])
  }

  /** `playSnippet(idx, offset)`: plays one caption; the full-track window is left as it is. */
  function PlaySnippet(st: State, idx: nat, offset: int): State
  {
    if !st.playerReady || idx >= |st.subtitles| then st
    else
      var s := st.subtitles[idx];
      Record(st.(snippetResumePuzzle := st.activePuzzleIdx == Some(idx),
                 snippetMode := true, snippetEnd := s.end), [Seek(Max(0, s.start + offset)), Play])
  }

  /** The two listen buttons: the open puzzle, or the one at the cursor. */
  function Listen(st: State, offset: int): State
  {
    PlaySnippet(st, st.activePuzzleIdx.GetOr(st.nextIdx), offset)
  }

  /** `showFinishOverlay()`. */
  function ShowFinishOverlay(st: State): State
  {
    Record(st, [Pause]).(snippetMode := false, segmentMode := false, finishOverlay := true)
  }

  /** `tick()` at player time `t`: a window ends once `t` is within the tolerance of its end. */
  function Tick(st: State, t: int): State
  {
    if !st.playerReady || st.subtitles == [] then st
    else CloseSegment(CloseSnippet(st, t), t)
  }

  /** The snippet half of `tick`: pause at the end of the caption. */
  function CloseSnippet(st: State, t: int): State
  {
    if st.snippetMode && t >= st.snippetEnd - TOLERANCE
    then Record(st.(snippetMode := false), [Pause]) else st
  }

  /** The full-track half of `tick`: pause at the end of the last caption and show the finish overlay. */
  function CloseSegment(st: State, t: int): State
  {
    if st.segmentMode && t >= st.segmentEnd - TOLERANCE
    then ShowFinishOverlay(Record(st.(segmentMode := false), [Pause]))
    else st
  }

  /**
   * The 120 ms interval firing at player time `t`: `setInterval(tick, 120)` exists exactly
   * while `tickTimer` is set, so `tick` runs only then.
   */
  function Poll(st: State, t: int): State
  {
    if st.tickTimer then Tick(st, t) else st
  }

  /** `onStateChange`: playing resynchronises the cursor and starts the poll once; anything else stops it. */
  function OnStateChange(st: State, playing: bool, t: int): State
  {
    if playing then
      var st1 := SyncNextIdxToTime(st, t);
      if st1.tickTimer then st1 else st1.(tickTimer := true)
    else if st.tickTimer then st.(tickTimer := false)
    else st
  }

  // ---------------------------------------------------------------------
  // Loading, rating and timers

  function PlayerIsReady(st: State): State
  {
    st.(playerReady := true)
  }

  /** The load button with the text of the id field. */
  function LoadVideo(st: State, input: string): State
  {
    var id := ExtractId(input);
    var st1 := st.(finishOverlay := false);
    if !st1.playerReady || id.None? || id.value == [] then st1
    else
      st1.(currentVideoId := id, ratingWasAsked := false, ratingModalOpen := false,
           finishActions := false, segmentMode := false, nextIdx := 0,
           activePuzzleIdx := None, snippetMode := false, loggedSolved := {}, log := [],
           player := st1.player + [CueVideo(id.value)], videoLoaded := true,
           pending := st1.pending + [StartFirst])
  }

  /** A subtitle file has been read: `text` is its content and `t` the player time (0 without a player). */
  function LoadSubtitles(st: State, text: string, t: int): State
  {
    var subs := ParseSrt(text);
    st.(finishOverlay := false, subtitles := subs, ratingWasAsked := false,
        ratingModalOpen := false, finishActions := false, segmentMode := false,
        loggedSolved := {}, log := [], pending := st.pending + [StartFirst],
        nextIdx := EndedPrefix(subs, t), activePuzzleIdx := None, snippetMode := false)
  }

  function LoadTranslations(st: State, text: string): State
  {
    st.(translations := ParseSrtPlain(text))
  }

  /** Ratings are filed under the current video id, or under "unknown" when there is none. */
  function RatingKey(id: Option<string>): (key: string)
    ensures key != []
    ensures id.Some? && id.value != [] ==> key == id.value
    ensures id.None? || id.value == [] ==> key == "unknown"
  {
    match id
    case Some(v) => if v == [] then "unknown" else v
    case None => "unknown"
  }

  /** A star of the rating dialog: stores the rating and shows the finish screen. */
  function RateVideo(st: State, value: int): State
  {
    if value == 0 then st
    else
      ShowFinishOverlay(st.(
        ratings := st.ratings[RatingKey(st.currentVideoId) := Rating(value, |st.subtitles|)],
        ratingModalOpen := false, snippetMode := false, segmentMode := false,
        activePuzzleIdx := None, finishActions := true))
  }

  /** Timer `k` of the queue runs. */
  function Fire(st: State, k: nat, swaps: seq<(nat, nat)>): State
  {
    if k >= |st.pending| then st
    else
      var st1 := st.(pending := st.pending[..k] + st.pending[k + 1..]);
      match st.pending[k]
      case Settle => SettleSolved(st1, swaps)
      case Autoplay(idx) => PlaySnippet(st1, idx, 0)
      case StartFirst => MaybeStartFirstPuzzle(st1, swaps)
  }
}
