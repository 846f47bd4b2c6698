/**
 * The catalogue entries and the reader's progress rows that video_catalog.js and app.js
 * share: `getUserRow`, `setUserRow`, the bookmark toggle, `enrich` and `newestFirst`.
 */
module Videos {

  import opened Optional
  import opened Numbers
  import opened Lists

  /**
   * One entry of the JSON catalogue. A field that is missing, or that `Number()` turns into
   * NaN, is `None`; `dateAdded` is what `Date.parse` gives for the date string, in ms.
   */
  datatype Video = Video(
    id: Option<int>,
    title: Option<string>,
    dateAdded: Option<int>,
    difficulty: Option<int>,
    phraseCount: Option<int>,
    youtubeUrl: string)

  /**
   * A row of `progress.videos` as it is stored: `state` as `Number(row.state)` reads it
   * (`None` for NaN or a missing field) and `bookmarked` as its truthiness.
   */
  datatype StoredRow = StoredRow(state: Option<int>, bookmarked: bool)

  /** A row as `getUserRow` returns it. */
  datatype UserRow = UserRow(state: int, bookmarked: int)

  /** The fields a `setUserRow` patch carries; `None` is a field the patch does not name. */
  datatype Patch = Patch(state: Option<int>, bookmarked: Option<int>)

  /** A video after `enrich`: every field of the entry plus `userState` and `userBookmarked`. */
  datatype Card = Card(video: Video, userState: int, userBookmarked: int)

  type Progress = map<string, StoredRow>

  /** `String(videoId)`: the numeral of the id, or "undefined" when the entry has none. */
  function Key(id: Option<int>): (key: string)
    ensures key != []
  {
    match id
    case Some(n) => IntToString(n)
    case None => "undefined"
  }

  /** A numeral starts with a digit or a minus sign, never with the `u` of "undefined". */
  lemma NumeralKeyStart(n: int)
    ensures Key(Some(n))[0] != 'u'
  {
    IntToStringSign(n);
    if n >= 0 {
      assert IsDigit(NatToString(n)[0]);
    }
  }

  /** Distinct ids are filed under distinct keys. */
  lemma KeyInjective(a: Option<int>, b: Option<int>)
    ensures Key(a) == Key(b) <==> a == b
  {
    if a.Some? {
      NumeralKeyStart(a.value);
    }
    if b.Some? {
      NumeralKeyStart(b.value);
    }
    if a.Some? && b.Some? && Key(a) == Key(b) {
      IntToStringInjective(a.value, b.value);
    }
  }

  /** `getUserRow`: the stored row normalised, `{state: 0, bookmarked: 0}` when there is none. */
  function RowOf(progress: Progress, id: Option<int>): (r: UserRow)
    ensures 0 <= r.state <= 2 && (r.bookmarked == 0 || r.bookmarked == 1)
    ensures Key(id) !in progress ==> r == UserRow(0, 0)
    ensures Key(id) in progress ==>
      && (r.bookmarked == 1 <==> progress[Key(id)].bookmarked)
      && (progress[Key(id)].state.Some? && 0 <= progress[Key(id)].state.value <= 2 ==>
            r.state == progress[Key(id)].state.value)
      && (progress[Key(id)].state.None? ==> r.state == 0)
  {
    if Key(id) in progress then
      var row := progress[Key(id)];
      UserRow(Clamp(row.state.GetOr(0), 0, 2), if row.bookmarked then 1 else 0)
    else UserRow(0, 0)
  }

  /** `{...prev, ...patch}`: the normalised previous row with the patched fields written over it. */
  function Merge(prev: UserRow, patch: Patch): StoredRow
  {
    StoredRow(Some(patch.state.GetOr(prev.state)), patch.bookmarked.GetOr(prev.bookmarked) != 0)
  }

  /** `setUserRow`: only the entry filed under the id's key is replaced. */
  function SetRow(progress: Progress, id: Option<int>, patch: Patch): (p: Progress)
    ensures p.Keys == progress.Keys + {Key(id)}
    ensures forall k :: k in progress && k != Key(id) ==> p[k] == progress[k]
  {
    progress[Key(id) := Merge(RowOf(progress, id), patch)]
  }

  /**
   * Reading a row back after `setUserRow`: the patched fields are what the patch says (a
   * state as `getUserRow` clamps it), the other fields keep their previous values, and every
   * other id reads as before.
   */
  lemma SetRowReadBack(progress: Progress, id: Option<int>, patch: Patch, other: Option<int>)
    ensures var before, after := RowOf(progress, id), RowOf(SetRow(progress, id, patch), id);
      && (patch.state.Some? ==> after.state == Clamp(patch.state.value, 0, 2))
      && (patch.state.None? ==> after.state == before.state)
      && (patch.bookmarked.Some? ==> (after.bookmarked == 1 <==> patch.bookmarked.value != 0))
      && (patch.bookmarked.None? ==> after.bookmarked == before.bookmarked)
    ensures other != id ==> RowOf(SetRow(progress, id, patch), other) == RowOf(progress, other)
  {
    KeyInjective(id, other);
  }

  /** The bookmark action of `handleGridClick`/`handleTrackClick` on a valid id. */
  function BookmarkToggled(progress: Progress, id: int): Progress
  {
    var row := RowOf(progress, Some(id));
    SetRow(progress, Some(id), Patch(None, Some(if row.bookmarked != 0 then 0 else 1)))
  }

  /** The toggle flips the bookmark of that id and leaves its state and every other id alone. */
  lemma BookmarkToggledFlips(progress: Progress, id: int, other: Option<int>)
    ensures RowOf(BookmarkToggled(progress, id), Some(id)).bookmarked == 1 - RowOf(progress, Some(id)).bookmarked
    ensures RowOf(BookmarkToggled(progress, id), Some(id)).state == RowOf(progress, Some(id)).state
    ensures other != Some(id) ==> RowOf(BookmarkToggled(progress, id), other) == RowOf(progress, other)
  {
    var row := RowOf(progress, Some(id));
    SetRowReadBack(progress, Some(id), Patch(None, Some(if row.bookmarked != 0 then 0 else 1)), other);
  }

  /** Toggling twice gives every id back the row it had. */
  lemma BookmarkToggledTwice(progress: Progress, id: int, other: Option<int>)
    ensures RowOf(BookmarkToggled(BookmarkToggled(progress, id), id), other) == RowOf(progress, other)
  {
    var once := BookmarkToggled(progress, id);
    BookmarkToggledFlips(progress, id, other);
    BookmarkToggledFlips(once, id, other);
  }

  /** `enrich`: the entry unchanged, with its reader's row attached. */
  function Enrich(progress: Progress, v: Video): (c: Card)
    ensures c.video == v
    ensures UserRow(c.userState, c.userBookmarked) == RowOf(progress, v.id)
  {
    var row := RowOf(progress, v.id);
    Card(v, row.state, row.bookmarked)
  }

  /** `list.map(v => enrich(progress, v))`. */
  function EnrichAll(progress: Progress, list: seq<Video>): (r: seq<Card>)
    ensures |r| == |list|
    ensures forall i :: 0 <= i < |r| ==> r[i] == Enrich(progress, list[i])
  {
    if list == [] then [] else [Enrich(progress, list[0])] + EnrichAll(progress, list[1..])
  }

  /** `clamp(Number(x) || 1, 1, 3)`: a difficulty level; NaN, a missing value and 0 count as 1. */
  function Level(x: Option<int>): (d: int)
    ensures 1 <= d <= 3
    ensures x.Some? && 1 <= x.value <= 3 ==> d == x.value
    ensures x.None? || x.value == 0 ==> d == 1
  {
    match x
    case None => 1
    case Some(n) => Clamp(if n == 0 then 1 else n, 1, 3)
  }

  /** The difficulty level a catalogue entry is filtered and drawn with. */
  function DifficultyOf(v: Video): int
  {
    Level(v.difficulty)
  }

  /** `parseDate(v.dateAdded)`: the parsed time, or 0 when the date does not parse. */
  function DateOf(v: Video): int
  {
    v.dateAdded.GetOr(0)
  }

  /** `v.id || 0`. */
  function IdOrZero(v: Video): int
  {
    v.id.GetOr(0)
  }

  /**
   * `a` may come before `b` in newest-first order: the comparator
   * `(parseDate(b.dateAdded) - parseDate(a.dateAdded)) || ((b.id || 0) - (a.id || 0))` is at most 0.
   */
  predicate NewerOrSame(a: Video, b: Video)
  {
    DateOf(a) > DateOf(b) || (DateOf(a) == DateOf(b) && IdOrZero(a) >= IdOrZero(b))
  }

  lemma NewerOrSameIsPreorder()
    ensures TotalPreorder(NewerOrSame)
  {
  }

  /** `newestFirst`: a sorted copy of the list; the argument, a value here, is never changed. */
  function NewestFirst(list: seq<Video>): seq<Video>
  {
    SortBy(list, NewerOrSame)
  }

  /** The sorted copy holds the same entries, newest first. */
  lemma NewestFirstSorted(list: seq<Video>)
    ensures multiset(NewestFirst(list)) == multiset(list) && |NewestFirst(list)| == |list|
    ensures SortedBy(NewestFirst(list), NewerOrSame)
  {
    NewerOrSameIsPreorder();
    SortBySorted(list, NewerOrSame);
    assert |multiset(NewestFirst(list))| == |multiset(list)|;
  }

  /**
   * Newest first: the result is a permutation of the list, ordered by date and then by id,
   * both descending, with entries the comparator ties kept in their catalogue order.
   */
  lemma NewestFirstOrdered(list: seq<Video>, v: Video)
    ensures multiset(NewestFirst(list)) == multiset(list)
    ensures SortedBy(NewestFirst(list), NewerOrSame)
    ensures Ties(NewestFirst(list), v, NewerOrSame) == Ties(list, v, NewerOrSame)
  {
    NewestFirstSorted(list);
    NewerOrSameIsPreorder();
    SortByStable(list, v, NewerOrSame);
  }

  /** The progress object of a page, which `setUserRow` changes in place. */
  class ProgressStore {

    var videos: Progress

    constructor (stored: Progress)
      ensures videos == stored
    {
      videos := stored;
    }

    /** `setUserRow(videoId, patch)`. */
    method SetUserRow(id: Option<int>, patch: Patch)
      modifies this
      ensures videos == SetRow(old(videos), id, patch)
    {
      videos := videos[Key(id) := Merge(RowOf(videos, id), patch)];
    }

    /** The bookmark branch of a card click: the row's `bookmarked` flag is flipped. */
    method ToggleBookmark(id: int)
      modifies this
      ensures videos == BookmarkToggled(old(videos), id)
    {
      var row := RowOf(videos, Some(id));
      SetUserRow(Some(id), Patch(None, Some(if row.bookmarked != 0 then 0 else 1)));
    }
  }
}
