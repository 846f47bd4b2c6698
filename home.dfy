/**
 * app.js: the home page's "latest" strip, the eight newest catalogue entries drawn as cards,
 * and the bookmark button on those cards.
 */
module Home {

  import opened Optional
  import opened Numbers
  import opened Lists
  import opened Videos

  /** How many entries the strip shows. */
  const LatestCount := 8

  /** `newestFirst(catalog).slice(0, 8)`. */
  function Latest(catalog: seq<Video>): seq<Video>
  {
    var sorted := NewestFirst(catalog);
    NewestFirstSorted(catalog);
    sorted[..Min(LatestCount, |catalog|)]
  }

  /**
   * The strip holds `min(8, n)` entries of the catalogue, newest first, and no entry left out of
   * it is newer than one shown.
   */
  lemma LatestAreNewest(catalog: seq<Video>)
    ensures |Latest(catalog)| == Min(LatestCount, |catalog|)
    ensures multiset(Latest(catalog)) <= multiset(catalog)
    ensures SortedBy(Latest(catalog), NewerOrSame)
    ensures forall v, w :: v in Latest(catalog) && w in multiset(catalog) - multiset(Latest(catalog)) ==>
      NewerOrSame(v, w)
  {
    var sorted := NewestFirst(catalog);
    NewestFirstSorted(catalog);
    var k := Min(LatestCount, |catalog|);
    SortedPrefixFirst(sorted, k, NewerOrSame);
    assert sorted == sorted[..k] + sorted[k..];
  }

  /**
   * Drawing the strip again after a bookmark toggle: the same entries in the same order, each
   * with its reader's row re-read; only the cards of the toggled id change, and only their
   * bookmark.
   */
  lemma {:induction false} ReEnrichAfterToggle(progress: Progress, list: seq<Video>, id: int)
    ensures var before, after := EnrichAll(progress, list), EnrichAll(BookmarkToggled(progress, id), list);
      && |after| == |before| == |list|
      && forall i :: 0 <= i < |list| ==>
        && after[i].video == before[i].video == list[i]
        && after[i].userState == before[i].userState
        && (list[i].id == Some(id) ==> after[i].userBookmarked == 1 - before[i].userBookmarked)
        && (list[i].id != Some(id) ==> after[i] == before[i])
  {
    var before, after := EnrichAll(progress, list), EnrichAll(BookmarkToggled(progress, id), list);
    forall i | 0 <= i < |list|
      ensures after[i].userState == before[i].userState
      ensures list[i].id == Some(id) ==> after[i].userBookmarked == 1 - before[i].userBookmarked
      ensures list[i].id != Some(id) ==> after[i] == before[i]
    {
      BookmarkToggledFlips(progress, id, list[i].id);
    }
  }

  /** The home page: the progress object, the strip's entries and the cards drawn from them. */
  class HomePage {

    var progress: ProgressStore
    /** `latestRaw`: the entries the strip was built from, kept for redrawing. */
    var latestRaw: seq<Video>
    /** The cards in the track, in order. */
    var shown: seq<Card>
    /** Whether the empty-state message is displayed instead of cards. */
    var emptyShown: bool

    /** The track shows the entries' cards with the current rows, or the empty message when there are none. */
    ghost predicate Valid()
      reads this, progress
    {
      shown == EnrichAll(progress.videos, latestRaw) && emptyShown == (latestRaw == [])
    }

    /** `init` once the catalogue is loaded: the eight newest entries, enriched and drawn. */
    constructor (catalog: seq<Video>, store: ProgressStore)
      ensures progress == store && latestRaw == Latest(catalog)
      ensures Valid()
    {
      progress := store;
      var latest := Latest(catalog);
      latestRaw := latest;
      var cards := EnrichAll(store.videos, latest);
      shown := cards;
      emptyShown := cards == [];
    }

    /**
     * `handleTrackClick`: an id that is NaN or 0 is ignored; the bookmark action flips that
     * entry's bookmark and redraws the same entries with their rows re-read.
     */
    method OnTrackClick(action: string, id: Option<int>)
      requires Valid()
      modifies progress, this`shown, this`emptyShown
      ensures progress.videos ==
        if id.Some? && id.value != 0 && action == "bookmark" then BookmarkToggled(old(progress.videos), id.value)
        else old(progress.videos)
      ensures Valid()
    {
      if id.None? || id.value == 0 {
        return;
      }
      if action == "bookmark" {
        progress.ToggleBookmark(id.value);
        var updated := EnrichAll(progress.videos, latestRaw);
        shown := updated;
        emptyShown := updated == [];
      }
    }
  }
}
