/** The media card: which catalog fields it shows and the watchlist button
    that adds the item, or removes the entry already tracking it. */
module Card {
  import opened Wrappers
  import opened Seqs
  import opened Types
  import opened Store

  /** The card's `type` matches the kind of catalog item it is given, as at
      every place that renders a card. */
  predicate TypeMatches(item: CatalogItem, t: MediaType) {
    item.MovieItem? <==> t == Movie
  }

  /** The movie's `title`, or the show's `name`. */
  function CardTitle(item: CatalogItem, t: MediaType): (title: string)
    requires TypeMatches(item, t)
    ensures title == if item.MovieItem? then item.title else item.name
  {
    if t == Movie then item.title else item.name
  }

  /** The movie's `release_date`, or the show's `first_air_date`. */
  function CardReleaseDate(item: CatalogItem, t: MediaType): (date: string)
    requires TypeMatches(item, t)
    ensures date == if item.MovieItem? then item.releaseDate else item.firstAirDate
  {
    if t == Movie then item.releaseDate else item.firstAirDate
  }

  /** What the card passes to `addToWatchlist`. */
  function CardEntry(item: CatalogItem, t: MediaType): (e: NewEntry)
    requires TypeMatches(item, t)
    ensures e.tmdbId == item.id && e.mediaType == t && e.status == WantToWatch
    ensures e.title == CardTitle(item, t) && e.releaseDate == CardReleaseDate(item, t)
    ensures e.posterPath == item.posterPath && e.backdropPath == item.backdropPath
    ensures e.overview == item.overview && e.voteAverage == item.voteAverage
    ensures e.rating.None? && e.notes.None? && e.watchedAt.None?
  {
    NewEntry(item.id, t, CardTitle(item, t), item.posterPath, item.backdropPath,
             CardReleaseDate(item, t), item.voteAverage, item.overview, WantToWatch,
             None, None, None)
  }

  /** The collection after one press of the watchlist button. */
  /** The collection after one press of the watchlist button: a tracked
      item loses at least one entry, an untracked one gains exactly one and
      becomes tracked. */
  function Toggled(items: seq<WatchlistItem>, item: CatalogItem, t: MediaType, now: Timestamp): (r: seq<WatchlistItem>)
    requires TypeMatches(item, t)
    ensures IsInWatchlist(items, item.id, t) ==> |r| < |items|
    ensures !IsInWatchlist(items, item.id, t) ==> |r| == |items| + 1 && IsInWatchlist(r, item.id, t)
  {
    var inWatchlist := IsInWatchlist(items, item.id, t);
    var watchlistItem := GetWatchlistItem(items, item.id, t);
    if inWatchlist && watchlistItem.Some? then
      var id := watchlistItem.value.id;
      RemoveCount(items, id);
      assert watchlistItem.value in Filter(items, HasId(id));
      Without(items, id)
    else
      var added := NewItem(CardEntry(item, t), now);
      assert added in items + [added];
      items + [added]
  }

  /** Pressing the button on an item not yet tracked appends one
      'want to watch' entry for it, which the card then finds. */
  lemma ToggleAdds(items: seq<WatchlistItem>, item: CatalogItem, t: MediaType, now: Timestamp)
    requires TypeMatches(item, t) && !IsInWatchlist(items, item.id, t)
    ensures Toggled(items, item, t, now) == items + [NewItem(CardEntry(item, t), now)]
    ensures |Toggled(items, item, t, now)| == |items| + 1
    ensures IsInWatchlist(Toggled(items, item, t, now), item.id, t)
    ensures GetWatchlistItem(Toggled(items, item, t, now), item.id, t) == Some(NewItem(CardEntry(item, t), now))
  {
    GetWatchlistItemAppend(items, [NewItem(CardEntry(item, t), now)], item.id, t);
  }

  function OtherKey(tmdbId: int, t: MediaType): WatchlistItem -> bool {
    (x: WatchlistItem) => !HasKey(x, tmdbId, t)
  }

  /** Pressing the button on a tracked item removes the entry the card found,
      together with any entry sharing its id, and nothing else. */
  lemma ToggleRemoves(items: seq<WatchlistItem>, item: CatalogItem, t: MediaType, now: Timestamp)
    requires TypeMatches(item, t) && IsInWatchlist(items, item.id, t)
    ensures Toggled(items, item, t, now) == Without(items, GetWatchlistItem(items, item.id, t).value.id)
    ensures |Toggled(items, item, t, now)| < |items|
  {
    var y := GetWatchlistItem(items, item.id, t).value;
    RemoveCount(items, y.id);
    assert y in Filter(items, HasId(y.id));
  }

  /** If the entry removed was the only one for the item, the item is no
      longer tracked. */
  lemma ToggleRemovesOnlyEntry(items: seq<WatchlistItem>, item: CatalogItem, t: MediaType, now: Timestamp)
    requires TypeMatches(item, t) && IsInWatchlist(items, item.id, t)
    requires |Filter(items, KeyIs(item.id, t))| == 1
    ensures !IsInWatchlist(Toggled(items, item, t, now), item.id, t)
  {
    var y := GetWatchlistItem(items, item.id, t).value;
    var r := Without(items, y.id);
    assert Toggled(items, item, t, now) == r;
  }

  /** When every id names its own key, pressing the button leaves the
      entries of every other item in place and in order. */
  lemma ToggleKeepsOtherItems(items: seq<WatchlistItem>, item: CatalogItem, t: MediaType, now: Timestamp)
    requires TypeMatches(item, t) && KeyedIds(items)
    ensures Filter(Toggled(items, item, t, now), OtherKey(item.id, t)) == Filter(items, OtherKey(item.id, t))
  {
    if IsInWatchlist(items, item.id, t) {
      var y := GetWatchlistItem(items, item.id, t).value;
      assert Toggled(items, item, t, now) == Without(items, y.id);
      forall i | 0 <= i < |items| && OtherKey(item.id, t)(items[i])
        ensures IdIsNot(y.id)(items[i])
      {
        assert items[i] in items;
      }
      FilterAbsorb(items, IdIsNot(y.id), OtherKey(item.id, t));
    } else {
      var n := NewItem(CardEntry(item, t), now);
      assert Toggled(items, item, t, now) == items + [n];
      FilterSnoc(items, n, OtherKey(item.id, t));
    }
  }

  /** Pressing the button twice on an item not yet tracked gives back the
      collection exactly, provided every id names its own key. */
  lemma ToggleTwiceRestores(items: seq<WatchlistItem>, item: CatalogItem, t: MediaType, now: Timestamp, later: Timestamp)
    requires TypeMatches(item, t) && KeyedIds(items) && !IsInWatchlist(items, item.id, t)
    ensures Toggled(Toggled(items, item, t, now), item, t, later) == items
  {
    var n := NewItem(CardEntry(item, t), now);
    ToggleAdds(items, item, t, now);
    forall i | 0 <= i < |items|
      ensures items[i].id != n.id
    {
      assert items[i] in items;
    }
    RemoveAbsentIsNoop(items, n.id);
    FilterConcat(items, [n], IdIsNot(n.id));
    FilterDropsAll([n], IdIsNot(n.id));
  }

  /** The button keeps every id naming its own key. */
  lemma ToggleKeepsKeyedIds(items: seq<WatchlistItem>, item: CatalogItem, t: MediaType, now: Timestamp)
    requires TypeMatches(item, t) && KeyedIds(items)
    ensures KeyedIds(Toggled(items, item, t, now))
  {
  }

  /** `handleWatchlistToggle`, with the membership and the found entry read
      from the store as the card last saw it. */
  method HandleWatchlistToggle(store: WatchlistStore, item: CatalogItem, t: MediaType, now: Timestamp)
    requires TypeMatches(item, t)
    modifies store
    ensures store.items == Toggled(old(store.items), item, t, now)
  {
    var inWatchlist := IsInWatchlist(store.items, item.id, t);
    var watchlistItem := GetWatchlistItem(store.items, item.id, t);
    if inWatchlist && watchlistItem.Some? {
      store.RemoveFromWatchlist(watchlistItem.value.id);
    } else {
      store.AddToWatchlist(CardEntry(item, t), now);
    }
  }
}
