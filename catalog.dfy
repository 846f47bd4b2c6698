/**
 * The catalogue page of video_catalog.js: the difficulty, search and tab filters, the
 * newest-first order, the tab counters, and the page that `render` fills twelve cards at a time.
 */
module Catalog {

  import opened Optional
  import opened Numbers
  import opened Text
  import opened Lists
  import opened Videos

  // ---------------------------------------------------------------------
  // Filters

  /** The test `applyDifficulty` keeps an entry by. */
  function LevelTest(levels: set<int>): Card -> bool
  {
    (c: Card) => DifficultyOf(c.video) in levels
  }

  /** `applyDifficulty`. */
  function ApplyDifficulty(list: seq<Card>, levels: set<int>): seq<Card>
  {
    if levels == {} then list else Filter(list, LevelTest(levels))
  }

  /**
   * With no level selected nothing is filtered out; otherwise exactly the entries whose
   * level is selected are kept, as often as they occur.
   */
  lemma ApplyDifficultyKeeps(list: seq<Card>, levels: set<int>)
    ensures levels == {} ==> ApplyDifficulty(list, levels) == list
    ensures levels != {} ==> forall c :: c in ApplyDifficulty(list, levels) <==> c in list && DifficultyOf(c.video) in levels
    ensures multiset(ApplyDifficulty(list, levels)) <= multiset(list)
  {
    FilterMembers(list, LevelTest(levels));
  }

  /** Every level selected keeps the whole list: each entry's level is one of 1, 2 and 3. */
  lemma ApplyDifficultyAllLevels(list: seq<Card>)
    ensures ApplyDifficulty(list, {1, 2, 3}) == list
  {
    FilterKeepsAll(list, LevelTest({1, 2, 3}));
  }

  /** The difficulty filter keeps the order of the entries it keeps. */
  lemma ApplyDifficultyAppend(a: seq<Card>, b: seq<Card>, levels: set<int>)
    ensures ApplyDifficulty(a + b, levels) == ApplyDifficulty(a, levels) + ApplyDifficulty(b, levels)
  {
    if levels != {} {
      FilterAppend(a, b, LevelTest(levels));
    }
  }

  /** `String(v.title || "")`. */
  function TitleOf(v: Video): string
  {
    v.title.GetOr([])
  }

  /** The test `applySearch` keeps an entry by, for a lower-cased, trimmed query. */
  function SearchTest(qq: string): Card -> bool
  {
    (c: Card) => Contains(ToLower(TitleOf(c.video)), qq)
  }

  /** `applySearch`. */
  function ApplySearch(list: seq<Card>, q: string): seq<Card>
  {
    var qq := ToLower(Trim(q));
    if qq == [] then list else Filter(list, SearchTest(qq))
  }

  /**
   * A query that is blank once trimmed keeps the list; otherwise exactly the entries whose
   * lower-cased title contains the lower-cased, trimmed query are kept.
   */
  lemma ApplySearchKeeps(list: seq<Card>, q: string)
    ensures AllSpace(q) ==> ApplySearch(list, q) == list
    ensures !AllSpace(q) ==>
      forall c :: c in ApplySearch(list, q) <==> c in list && Contains(ToLower(TitleOf(c.video)), ToLower(Trim(q)))
    ensures multiset(ApplySearch(list, q)) <= multiset(list)
  {
    FilterMembers(list, SearchTest(ToLower(Trim(q))));
  }

  /** Searching again for the same query changes nothing. */
  lemma ApplySearchIdempotent(list: seq<Card>, q: string)
    ensures ApplySearch(ApplySearch(list, q), q) == ApplySearch(list, q)
  {
    var qq := ToLower(Trim(q));
    if qq != [] {
      FilterIdempotent(list, SearchTest(qq));
    }
  }

  /**
   * The order of `getFilterList` as written: the comparator
   * `(parseDate(b.dateAdded) - parseDate(a.dateAdded)) || (b.id - a.id)` is at most 0. A
   * missing id makes `b.id - a.id` NaN, which `Array.prototype.sort` reads as 0: a tie.
   */
  predicate CatalogOrderAsWritten(a: Card, b: Card)
  {
    var da, db := DateOf(a.video), DateOf(b.video);
    da > db || (da == db && (a.video.id.None? || b.video.id.None? || a.video.id.value >= b.video.id.value))
  }

  /**
   * With a missing id that order is not transitive, so it is no consistent comparator and
   * the order `sort` produces is left to the JavaScript engine: three entries of one date
   * with ids 1, none and 2.
   */
  lemma CatalogOrderAsWrittenInconsistent()
    ensures var a, x, b := Card(Video(Some(1), None, Some(0), None, None, []), 0, 0),
                           Card(Video(None, None, Some(0), None, None, []), 0, 0),
                           Card(Video(Some(2), None, Some(0), None, None, []), 0, 0);
      CatalogOrderAsWritten(a, x) && CatalogOrderAsWritten(x, b) && !CatalogOrderAsWritten(a, b)
  {
  }

  /** Newest first on enriched entries, a missing id counting as 0 as on the home page. */
  predicate CardNewer(a: Card, b: Card)
  {
    NewerOrSame(a.video, b.video)
  }

  /** Where every entry has an id, the order as written and the corrected one agree. */
  lemma CatalogOrderAgrees(cards: seq<Card>)
    requires forall c :: c in cards ==> c.video.id.Some?
    ensures SortBy(cards, CatalogOrderAsWritten) == SortBy(cards, CardNewer)
  {
    SortByAgreeing(cards, CatalogOrderAsWritten, CardNewer);
  }

  predicate IsStarted(c: Card) { c.userState == 1 }

  predicate IsBookmarked(c: Card) { c.userBookmarked == 1 }

  /** `getFilterList`: the enriched catalogue newest first, narrowed by the tab. */
  function GetFilterList(list: seq<Video>, filter: string, progress: Progress): seq<Card>
  {
    var sorted := SortBy(EnrichAll(progress, list), CardNewer);
    if filter == "starter" then Filter(sorted, IsStarted)
    else if filter == "fav" then Filter(sorted, IsBookmarked)
    else sorted
  }

  /**
   * Every tab lists newest first. "starter" holds exactly the started entries, "fav"
   * exactly the bookmarked ones, and "new" or any other tab the whole catalogue.
   */
  lemma GetFilterListTabs(list: seq<Video>, filter: string, progress: Progress)
    ensures SortedBy(GetFilterList(list, filter, progress), CardNewer)
    ensures var all, r := EnrichAll(progress, list), GetFilterList(list, filter, progress);
      && (filter == "starter" ==> forall c :: c in r <==> c in all && c.userState == 1)
      && (filter == "fav" ==> forall c :: c in r <==> c in all && c.userBookmarked == 1)
      && (filter != "starter" && filter != "fav" ==> multiset(r) == multiset(all))
  {
    var all := EnrichAll(progress, list);
    NewerOrSameIsPreorder();
    assert TotalPreorder(CardNewer);
    SortBySorted(all, CardNewer);
    var sorted := SortBy(all, CardNewer);
    FilterSorted(sorted, IsStarted, CardNewer);
    FilterSorted(sorted, IsBookmarked, CardNewer);
    FilterMembers(sorted, IsStarted);
    FilterMembers(sorted, IsBookmarked);
    forall c ensures c in sorted <==> c in all {
      assert c in multiset(sorted) <==> c in multiset(all);
    }
  }

  /** `setCounters`: the number of entries each tab lists under the difficulty filter. */
  function Counts(list: seq<Video>, progress: Progress, levels: set<int>): (counts: (nat, nat, nat))
  {
    (|ApplyDifficulty(GetFilterList(list, "new", progress), levels)|,
     |ApplyDifficulty(GetFilterList(list, "starter", progress), levels)|,
     |ApplyDifficulty(GetFilterList(list, "fav", progress), levels)|)
  }

  /** The "starter" and "fav" counters never exceed the "new" counter. */
  lemma CountsBounded(list: seq<Video>, progress: Progress, levels: set<int>)
    ensures Counts(list, progress, levels).1 <= Counts(list, progress, levels).0
    ensures Counts(list, progress, levels).2 <= Counts(list, progress, levels).0
  {
    var sorted := SortBy(EnrichAll(progress, list), CardNewer);
    if levels != {} {
      var q := LevelTest(levels);
      FilterNarrowed(sorted, IsStarted, q);
      FilterNarrowed(sorted, IsBookmarked, q);
    }
  }

  // ---------------------------------------------------------------------
  // Difficulty check boxes

  /** A difficulty check box: whether it is ticked, and its value as `Number()` reads it. */
  datatype Check = Check(checked: bool, value: Option<int>)

  /** The levels of the ticked boxes. */
  function Ticked(checks: seq<Check>): (levels: set<int>)
    ensures levels <= {1, 2, 3}
  {
    set i | 0 <= i < |checks| && checks[i].checked :: Level(checks[i].value)
  }

  /**
   * `syncDifficultyFromUI(changed)`: the boxes afterwards, and the selected levels. With no
   * boxes every level is selected; when the change unticked the last box, that box is
   * ticked again and its level alone is selected.
   */
  function SyncDifficulty(checks: seq<Check>, changed: Option<nat>): (r: (seq<Check>, set<int>))
    requires changed.Some? ==> changed.value < |checks|
    ensures r.1 <= {1, 2, 3}
    ensures |r.0| == |checks|
    ensures checks == [] ==> r.1 == {1, 2, 3}
    ensures checks != [] && changed.Some? ==> r.1 != {}
  {
    if checks == [] then (checks, {1, 2, 3})
    else
      var selected := Ticked(checks);
      if selected == {} && changed.Some? then
        var k := changed.value;
        var boxes := checks[k := checks[k].(checked := true)];
        (boxes, {Level(checks[k].value)})
      else (checks, selected)
  }

  /**
   * After the sync the selected levels are those of the ticked boxes, and only the changed
   * box can have been ticked.
   */
  lemma SyncDifficultyMatchesBoxes(checks: seq<Check>, changed: Option<nat>)
    requires changed.Some? ==> changed.value < |checks|
    ensures checks != [] ==> SyncDifficulty(checks, changed).1 == Ticked(SyncDifficulty(checks, changed).0)
    ensures forall i :: 0 <= i < |checks| && (changed.None? || i != changed.value) ==>
      SyncDifficulty(checks, changed).0[i] == checks[i]
  {
    if checks != [] && Ticked(checks) == {} && changed.Some? {
      var k := changed.value;
      var boxes := SyncDifficulty(checks, changed).0;
      forall i | 0 <= i < |boxes| ensures boxes[i].checked <==> i == k {
        var box := checks[i];
        assert box.checked ==> Level(box.value) in Ticked(checks);
      }
      assert Level(boxes[k].value) in Ticked(boxes);
      forall x | x in Ticked(boxes) ensures x == Level(checks[k].value) {
        var i :| 0 <= i < |boxes| && boxes[i].checked && x == Level(boxes[i].value);
      }
    }
  }

  // ---------------------------------------------------------------------
  // Paging

  const PageSize := 12

  /** The list `render` pages through: `applySearch(applyDifficulty(getFilterList(catalog, filter)), query)`. */
  function Listing(list: seq<Video>, filter: string, levels: set<int>, query: string, progress: Progress): seq<Card>
  {
    ApplySearch(ApplyDifficulty(GetFilterList(list, filter, progress), levels), query)
  }

  /** The cursor after `render` shows the next slice: `cursor + filtered.slice(cursor, cursor + 12).length`. */
  function NextCursor(n: nat, cursor: nat): nat
  {
    cursor + (Min(cursor + PageSize, n) - Min(cursor, n))
  }

  /**
   * One page advances the cursor by at most twelve, by at least one while entries remain,
   * and never past the end of a list it had not passed already.
   */
  lemma NextCursorBounds(n: nat, cursor: nat)
    ensures cursor <= NextCursor(n, cursor) <= cursor + PageSize
    ensures cursor < n ==> cursor < NextCursor(n, cursor)
    ensures cursor <= n ==> NextCursor(n, cursor) == Min(cursor + PageSize, n)
    ensures cursor >= n ==> NextCursor(n, cursor) == cursor
  {
  }

  /** The grid: the paging cursor, the cards drawn in order, and whether "load more" is displayed. */
  datatype Grid = Grid(cursor: nat, shown: seq<Card>, loadMore: bool)

  /**
   * `render(reset)` on the list `f`: a reset empties the grid and the cursor, then the next
   * page is appended; an empty list leaves the empty-state message and hides "load more".
   */
  function Rendered(f: seq<Card>, g: Grid, reset: bool): Grid
  {
    var c0 := if reset then 0 else g.cursor;
    var s0 := if reset then [] else g.shown;
    var c := NextCursor(|f|, c0);
    if f == [] then Grid(c, [], false) else Grid(c, s0 + f[Min(c0, |f|)..Min(c0 + PageSize, |f|)], c < |f|)
  }

  /** The grid holds the first `cursor` entries of `f`, and "load more" is shown exactly when more remain. */
  predicate GridShows(f: seq<Card>, g: Grid)
  {
    && g.cursor <= |f|
    && g.shown == f[..g.cursor]
    && g.loadMore == (g.cursor < |f|)
  }

  /** A reset render shows the first page of the list, whatever the grid held. */
  lemma RenderResetShowsFirstPage(f: seq<Card>, g: Grid)
    ensures GridShows(f, Rendered(f, g, true))
    ensures Rendered(f, g, true).cursor == Min(PageSize, |f|)
  {
  }

  /** "Load more" appends the next page, at most twelve cards, and keeps the grid in step with the list. */
  lemma RenderMoreAppendsNextPage(f: seq<Card>, g: Grid)
    requires GridShows(f, g)
    ensures GridShows(f, Rendered(f, g, false))
    ensures g.cursor <= Rendered(f, g, false).cursor <= g.cursor + PageSize
    ensures Rendered(f, g, false).shown == g.shown + f[g.cursor..Rendered(f, g, false).cursor]
    ensures Rendered(f, g, false).cursor == Min(g.cursor + PageSize, |f|)
    ensures g.cursor < |f| ==> g.cursor < Rendered(f, g, false).cursor
  {
    var c := NextCursor(|f|, g.cursor);
    NextCursorBounds(|f|, g.cursor);
    assert f[..c] == f[..g.cursor] + f[g.cursor..c];
  }

  /** The page: the module state of video_catalog.js and the grid it draws. */
  class CatalogPage {

    var catalog: seq<Video>
    var progress: ProgressStore
    var activeFilter: string
    var query: string
    var checks: seq<Check>
    var activeDifficulties: set<int>
    var cursor: nat
    /** The cards in the grid, in order (none while the empty-state message is shown). */
    var shown: seq<Card>
    /** Whether the "load more" button is displayed. */
    var loadMoreShown: bool

    /** The list `render` pages through in the current state. */
    function Filtered(): seq<Card>
      reads this`catalog, this`activeFilter, this`activeDifficulties, this`query, this`progress, progress`videos
    {
      Listing(catalog, activeFilter, activeDifficulties, query, progress.videos)
    }

    function Drawn(): Grid
      reads this`cursor, this`shown, this`loadMoreShown
    {
      Grid(cursor, shown, loadMoreShown)
    }

    ghost predicate Valid()
      reads this, progress`videos
    {
      GridShows(Filtered(), Drawn())
    }

    /** `init` once the catalogue is loaded: the boxes are read, the "new" tab is drawn from the top. */
    constructor (list: seq<Video>, store: ProgressStore, boxes: seq<Check>)
      ensures catalog == list && progress == store && checks == SyncDifficulty(boxes, None).0
      ensures activeDifficulties == SyncDifficulty(boxes, None).1
      ensures activeFilter == "new" && query == []
      ensures Valid() && cursor == Min(PageSize, |Filtered()|)
    {
      var synced := SyncDifficulty(boxes, None);
      var first := Rendered(Listing(list, "new", synced.1, [], store.videos), Grid(0, [], false), true);
      RenderResetShowsFirstPage(Listing(list, "new", synced.1, [], store.videos), Grid(0, [], false));
      catalog, progress, activeFilter, query := list, store, "new", [];
      checks, activeDifficulties := synced.0, synced.1;
      cursor, shown, loadMoreShown := first.cursor, first.shown, first.loadMore;
    }

    /** `syncDifficultyFromUI`. */
    method SyncDifficultyFromUI(changed: Option<nat>)
      requires changed.Some? ==> changed.value < |checks|
      modifies this`checks, this`activeDifficulties
      ensures (checks, activeDifficulties) == SyncDifficulty(old(checks), changed)
    {
      if checks == [] {
        activeDifficulties := {1, 2, 3};
        return;
      }
      var selected := Ticked(checks);
      if selected == {} && changed.Some? {
        var k := changed.value;
        checks := checks[k := checks[k].(checked := true)];
        selected := {Level(checks[k].value)};
      }
      activeDifficulties := selected;
    }

    /** `render(reset)`: the grid takes the next page of the current list, or restarts from the top. */
    method Render(reset: bool)
      modifies this`cursor, this`shown, this`loadMoreShown
      ensures Drawn() == Rendered(old(Filtered()), old(Drawn()), reset)
    {
      var g := Rendered(Filtered(), Drawn(), reset);
      cursor, shown, loadMoreShown := g.cursor, g.shown, g.loadMore;
    }

    /** A reset render: the first page of the list, whatever the grid held. */
    method Redraw()
      modifies this`cursor, this`shown, this`loadMoreShown
      ensures Valid() && cursor == Min(PageSize, |Filtered()|)
    {
      ghost var g := Drawn();
      Render(true);
      RenderResetShowsFirstPage(Filtered(), g);
    }

    /** A change of a difficulty box: the levels are re-read and the list drawn again. */
    method OnDifficultyChange(k: nat)
      requires k < |checks|
      modifies this`checks, this`activeDifficulties, this`cursor, this`shown, this`loadMoreShown
      ensures (checks, activeDifficulties) == SyncDifficulty(old(checks), Some(k))
      ensures activeDifficulties != {}
      ensures Valid() && cursor == Min(PageSize, |Filtered()|)
    {
      SyncDifficultyFromUI(Some(k));
      Redraw();
    }

    /** A tab click: `setActiveTab(filter)` and a reset render. */
    method SelectTab(filter: string)
      modifies this`activeFilter, this`cursor, this`shown, this`loadMoreShown
      ensures activeFilter == filter && Valid() && cursor == Min(PageSize, |Filtered()|)
    {
      activeFilter := filter;
      Redraw();
    }

    /** Typing in the search box. */
    method OnSearchInput(value: string)
      modifies this`query, this`cursor, this`shown, this`loadMoreShown
      ensures query == value && Valid() && cursor == Min(PageSize, |Filtered()|)
    {
      query := value;
      Redraw();
    }

    /** `resetSearchAndFilters`: empty query, "new" tab, drawn from the top. */
    method ResetSearchAndFilters()
      modifies this`query, this`activeFilter, this`cursor, this`shown, this`loadMoreShown
      ensures query == [] && activeFilter == "new" && Valid() && cursor == Min(PageSize, |Filtered()|)
    {
      query := [];
      activeFilter := "new";
      Redraw();
    }

    /**
     * `handleGridClick` on a button: an id that is NaN or 0 is ignored; the bookmark action
     * flips that entry's bookmark and draws the list again from the top.
     */
    method OnGridClick(action: string, id: Option<int>)
      requires Valid()
      modifies progress, this`cursor, this`shown, this`loadMoreShown
      ensures progress.videos ==
        if id.Some? && id.value != 0 && action == "bookmark" then BookmarkToggled(old(progress.videos), id.value)
        else old(progress.videos)
      ensures Valid()
      ensures id.Some? && id.value != 0 && action == "bookmark" ==> cursor == Min(PageSize, |Filtered()|)
      ensures !(id.Some? && id.value != 0 && action == "bookmark") ==> Drawn() == old(Drawn())
    {
      if id.None? || id.value == 0 {
        return;
      }
      if action == "bookmark" {
        progress.ToggleBookmark(id.value);
        Redraw();
      }
    }

    /** "Load more": the next page is appended to the grid. */
    method LoadMore()
      requires Valid()
      modifies this`cursor, this`shown, this`loadMoreShown
      ensures Valid()
      ensures cursor == Min(old(cursor) + PageSize, |Filtered()|)
      ensures shown == old(shown) + Filtered()[old(cursor)..cursor]
    {
      ghost var g := Drawn();
      Render(false);
      RenderMoreAppendsNextPage(Filtered(), g);
    }

    /** The sentinel scrolled into view: a page is loaded only while "load more" is shown. */
    method OnSentinelVisible()
      requires Valid()
      modifies this`cursor, this`shown, this`loadMoreShown
      ensures Valid()
      ensures !old(loadMoreShown) ==> Drawn() == old(Drawn())
      ensures old(loadMoreShown) ==>
        && cursor == Min(old(cursor) + PageSize, |Filtered()|)
        && shown == old(shown) + Filtered()[old(cursor)..cursor]
    {
      if loadMoreShown {
        LoadMore();
      }
    }
  }
}
