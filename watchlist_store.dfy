/** The watchlist store: the ordered collection of watchlist entries, its
    mutators (add, remove, partial update, mark as watched, clear) and its
    queries (lookup by catalog key, membership, filtering by status). */
module Store {
  import opened Wrappers
  import opened Seqs
  import opened Text
  import opened Types

  // ---------------------------------------------------------------------------
  // Entry ids: `${type}_${tmdbId}_${Date.now()}`

  function TypeName(t: MediaType): (name: string)
    ensures '_' !in name
  {
    match t
    case Movie => "movie"
    case Tv => "tv"
  }

  function MediaTypeNamed(name: string): (t: Option<MediaType>)
    ensures t.Some? ==> TypeName(t.value) == name
  {
    if name == "movie" then Some(Movie) else if name == "tv" then Some(Tv) else None
  }


  datatype IdParts = IdParts(mediaType: MediaType, tmdbId: int, stamp: Timestamp)

  /** Splits an id at its first two underscores and reads the three parts back. */
  function ParseId(id: string): Option<IdParts> {
    if '_' !in id then None
    else
      var i := IndexOf(id, '_');
      var rest := id[i + 1..];
      if '_' !in rest then None
      else
        var j := IndexOf(rest, '_');
        var key, stamp := rest[..j], rest[j + 1..];
        match MediaTypeNamed(id[..i])
        case None => None
        case Some(t) =>
          if IsSignedDecimal(key) && IsDecimal(stamp)
          then Some(IdParts(t, ParseSignedDecimal(key), ParseDecimal(stamp)))
          else None
  }

  /** The id `addToWatchlist` gives a new entry. It records the media type,
      the catalog id and the millisecond it was made in, which `ParseId`
      reads back. */
  function MakeId(t: MediaType, tmdbId: int, stamp: Timestamp): (id: string)
    ensures ParseId(id) == Some(IdParts(t, tmdbId, stamp))
  {
    var name, key, digits := TypeName(t), IntToDecimal(tmdbId), NatToDecimal(stamp);
    var rest := key + "_" + digits;
    var id := name + "_" + rest;
    SignedDecimalExcludes(key, '_');
    IndexOfAfter(name, '_', rest);
    assert id[..|name|] == name;
    assert id[|name| + 1..] == rest;
    IndexOfAfter(key, '_', digits);
    assert rest[..|key|] == key;
    assert rest[|key| + 1..] == digits;
    ParseIntToDecimal(tmdbId);
    ParseNatToDecimal(stamp);
    assert MediaTypeNamed(name) == Some(t);
    id
  }

  /** Two ids collide exactly when type, catalog id and millisecond all coincide. */
  lemma MakeIdInjective(t1: MediaType, k1: int, s1: Timestamp, t2: MediaType, k2: int, s2: Timestamp)
    requires MakeId(t1, k1, s1) == MakeId(t2, k2, s2)
    ensures t1 == t2 && k1 == k2 && s1 == s2
  {
  }

  /** The id of `x` names the catalog key of `x`, as every id made by `MakeId` does. */
  predicate IdMatchesKey(x: WatchlistItem) {
    var p := ParseId(x.id);
    p.Some? && p.value.mediaType == x.mediaType && p.value.tmdbId == x.tmdbId
  }

  /** Every entry's id names its own catalog key. The store does not enforce
      this (a partial update may rewrite an id), but every entry it creates
      satisfies it and the page's own updates keep it. */
  predicate KeyedIds(items: seq<WatchlistItem>) {
    forall x :: x in items ==> IdMatchesKey(x)
  }

  // ---------------------------------------------------------------------------
  // addToWatchlist

  /** `Omit<WatchlistItem, 'id' | 'addedAt'>`: the caller's part of an entry. */
  function EntryOf(x: WatchlistItem): NewEntry {
    NewEntry(x.tmdbId, x.mediaType, x.title, x.posterPath, x.backdropPath, x.releaseDate,
             x.voteAverage, x.overview, x.status, x.rating, x.notes, x.watchedAt)
  }

  /** The entry `addToWatchlist` builds: every caller field, plus a synthesised
      id and `addedAt`. */
  function NewItem(e: NewEntry, now: Timestamp): (x: WatchlistItem)
    ensures EntryOf(x) == e
    ensures x.id == MakeId(e.mediaType, e.tmdbId, now) && x.addedAt == now
    ensures IdMatchesKey(x)
  {
    WatchlistItem(MakeId(e.mediaType, e.tmdbId, now), e.tmdbId, e.mediaType, e.title,
                  e.posterPath, e.backdropPath, e.releaseDate, e.voteAverage, e.overview,
                  e.status, e.rating, e.notes, now, e.watchedAt)
  }

  // ---------------------------------------------------------------------------
  // getWatchlistItem / isInWatchlist

  predicate HasKey(x: WatchlistItem, tmdbId: int, t: MediaType) {
    x.tmdbId == tmdbId && x.mediaType == t
  }

  function KeyIs(tmdbId: int, t: MediaType): WatchlistItem -> bool {
    (x: WatchlistItem) => HasKey(x, tmdbId, t)
  }

  /** `items.find(...)` on the natural key. */
  function GetWatchlistItem(items: seq<WatchlistItem>, tmdbId: int, t: MediaType): (r: Option<WatchlistItem>)
    ensures r.Some? ==> r.value in items && HasKey(r.value, tmdbId, t)
    ensures r.None? ==> forall x :: x in items ==> !HasKey(x, tmdbId, t)
  {
    if items == [] then None
    else if HasKey(items[0], tmdbId, t) then Some(items[0])
    else
      assert items == [items[0]] + items[1..];
      GetWatchlistItem(items[1..], tmdbId, t)
  }

  /** The entry found is the first one in collection order with the key. */
  lemma {:induction false} GetWatchlistItemIsFirst(items: seq<WatchlistItem>, tmdbId: int, t: MediaType, i: nat)
    requires i < |items| && HasKey(items[i], tmdbId, t)
    requires forall j :: 0 <= j < i ==> !HasKey(items[j], tmdbId, t)
    ensures GetWatchlistItem(items, tmdbId, t) == Some(items[i])
  {
    if i > 0 {
      GetWatchlistItemIsFirst(items[1..], tmdbId, t, i - 1);
    }
  }

  /** Looking up in a concatenation looks in the first part first. */
  lemma {:induction false} GetWatchlistItemAppend(a: seq<WatchlistItem>, b: seq<WatchlistItem>, tmdbId: int, t: MediaType)
    ensures GetWatchlistItem(a + b, tmdbId, t) ==
            if GetWatchlistItem(a, tmdbId, t).Some? then GetWatchlistItem(a, tmdbId, t) else GetWatchlistItem(b, tmdbId, t)
  {
    if a == [] {
      assert a + b == b;
    } else {
      assert (a + b)[0] == a[0];
      assert (a + b)[1..] == a[1..] + b;
      GetWatchlistItemAppend(a[1..], b, tmdbId, t);
    }
  }

  /** `items.some(...)` on the natural key; it agrees with `GetWatchlistItem`. */
  function IsInWatchlist(items: seq<WatchlistItem>, tmdbId: int, t: MediaType): (b: bool)
    ensures b <==> GetWatchlistItem(items, tmdbId, t).Some?
  {
    exists x :: x in items && HasKey(x, tmdbId, t)
  }

  // ---------------------------------------------------------------------------
  // removeFromWatchlist

  function IdIsNot(id: string): WatchlistItem -> bool {
    (x: WatchlistItem) => x.id != id
  }

  /** `items.filter(item => item.id !== id)`. */
  function Without(items: seq<WatchlistItem>, id: string): (r: seq<WatchlistItem>)
    ensures forall x :: x in r <==> x in items && x.id != id
    ensures KeyedIds(items) ==> KeyedIds(r)
  {
    Filter(items, IdIsNot(id))
  }

  /** Removal keeps the remaining entries in their original order. */
  lemma RemoveKeepsOrder(items: seq<WatchlistItem>, id: string)
    ensures IsSubsequence(Without(items, id), items)
  {
    FilterIsSubsequence(items, IdIsNot(id));
  }

  /** Removing an id that no entry has is a no-op. */
  lemma RemoveAbsentIsNoop(items: seq<WatchlistItem>, id: string)
    requires forall i :: 0 <= i < |items| ==> items[i].id != id
    ensures Without(items, id) == items
  {
    FilterKeepsAll(items, IdIsNot(id));
  }

  /** The number of entries removed is the number of entries carrying the id. */
  lemma RemoveCount(items: seq<WatchlistItem>, id: string)
    ensures |Without(items, id)| + |Filter(items, HasId(id))| == |items|
  {
    PartitionCount(items, IdIsNot(id), HasId(id));
  }

  function HasId(id: string): WatchlistItem -> bool {
    (x: WatchlistItem) => x.id == id
  }

  /** Two complementary filters split a sequence. */
  lemma {:induction false} PartitionCount(s: seq<WatchlistItem>, p: WatchlistItem -> bool, q: WatchlistItem -> bool)
    requires forall x :: p(x) == !q(x)
    ensures |Filter(s, p)| + |Filter(s, q)| == |s|
  {
    if s != [] {
      PartitionCount(s[1..], p, q);
    }
  }

  // ---------------------------------------------------------------------------
  // updateWatchlistItem

  /** `{ ...item, ...updates }`: every key present in the update wins, every
      other field is the entry's own. An empty update changes nothing, and
      one without id, tmdbId or mediaType keeps the entry's identity (and so
      whether its id names its key). */
  function Merge(x: WatchlistItem, u: Patch): (r: WatchlistItem)
    ensures u == NoChange ==> r == x
    ensures KeepsIdentity(u) ==> r.id == x.id && r.tmdbId == x.tmdbId && r.mediaType == x.mediaType
    ensures KeepsIdentity(u) ==> (IdMatchesKey(r) <==> IdMatchesKey(x))
  {
    WatchlistItem(
      u.id.Apply(x.id), u.tmdbId.Apply(x.tmdbId), u.mediaType.Apply(x.mediaType),
      u.title.Apply(x.title), u.posterPath.Apply(x.posterPath),
      u.backdropPath.Apply(x.backdropPath), u.releaseDate.Apply(x.releaseDate),
      u.voteAverage.Apply(x.voteAverage), u.overview.Apply(x.overview),
      u.status.Apply(x.status), u.rating.Apply(x.rating), u.notes.Apply(x.notes),
      u.addedAt.Apply(x.addedAt), u.watchedAt.Apply(x.watchedAt))
  }

  /** `{ ...p, ...q }`: the partial update with the keys of both, `q` winning. */
  function ThenPatch(p: Patch, q: Patch): Patch {
    Patch(
      p.id.Then(q.id), p.tmdbId.Then(q.tmdbId), p.mediaType.Then(q.mediaType),
      p.title.Then(q.title), p.posterPath.Then(q.posterPath),
      p.backdropPath.Then(q.backdropPath), p.releaseDate.Then(q.releaseDate),
      p.voteAverage.Then(q.voteAverage), p.overview.Then(q.overview),
      p.status.Then(q.status), p.rating.Then(q.rating), p.notes.Then(q.notes),
      p.addedAt.Then(q.addedAt), p.watchedAt.Then(q.watchedAt))
  }

  /** Merging twice is merging once with the combined update; the empty
      update changes nothing; merging the same update again changes nothing. */
  lemma MergeLaws(x: WatchlistItem, p: Patch, q: Patch)
    ensures Merge(Merge(x, p), q) == Merge(x, ThenPatch(p, q))
    ensures Merge(x, NoChange) == x
    ensures Merge(Merge(x, p), p) == Merge(x, p)
  {
  }

  /** A partial update that leaves the id and the catalog key alone. */
  predicate KeepsIdentity(u: Patch) {
    u.id.Keep? && u.tmdbId.Keep? && u.mediaType.Keep?
  }

  /** `items.map(item => item.id === id ? { ...item, ...updates } : item)`. */
  function Updated(items: seq<WatchlistItem>, id: string, u: Patch): (r: seq<WatchlistItem>)
    ensures |r| == |items|
    ensures forall i :: 0 <= i < |items| && items[i].id != id ==> r[i] == items[i]
    ensures forall i :: 0 <= i < |items| && items[i].id == id ==> r[i] == Merge(items[i], u)
  {
    if items == [] then []
    else [if items[0].id == id then Merge(items[0], u) else items[0]] + Updated(items[1..], id, u)
  }

  /** Updating an id that no entry has is a no-op. */
  lemma UpdateAbsentIsNoop(items: seq<WatchlistItem>, id: string, u: Patch)
    requires forall i :: 0 <= i < |items| ==> items[i].id != id
    ensures Updated(items, id, u) == items
  {
  }

  /** Two updates of the same id are one update with the combined fields,
      provided the first does not rewrite the id. */
  lemma UpdateThen(items: seq<WatchlistItem>, id: string, p: Patch, q: Patch)
    requires p.id.Keep?
    ensures Updated(Updated(items, id, p), id, q) == Updated(items, id, ThenPatch(p, q))
  {
    var once := Updated(items, id, p);
    forall i | 0 <= i < |items|
      ensures Updated(once, id, q)[i] == Updated(items, id, ThenPatch(p, q))[i]
    {
      MergeLaws(items[i], p, q);
    }
  }

  /** An update that keeps ids leaves every entry with another id where it
      was: the entries outside the update are exactly those before. */
  lemma {:induction false} UpdateKeepsOthers(items: seq<WatchlistItem>, id: string, u: Patch)
    requires u.id.Keep?
    ensures Without(Updated(items, id, u), id) == Without(items, id)
  {
    if items != [] {
      var r := Updated(items, id, u);
      UpdateKeepsOthers(items[1..], id, u);
      assert r == [r[0]] + Updated(items[1..], id, u);
      FilterConcat([r[0]], Updated(items[1..], id, u), IdIsNot(id));
      FilterConcat([items[0]], items[1..], IdIsNot(id));
      assert items == [items[0]] + items[1..];
      assert Filter([r[0]], IdIsNot(id)) == Filter([items[0]], IdIsNot(id));
    }
  }

  /** An update that leaves ids and catalog keys alone keeps every id naming its key. */
  lemma UpdateKeepsKeyedIds(items: seq<WatchlistItem>, id: string, u: Patch)
    requires KeepsIdentity(u) && KeyedIds(items)
    ensures KeyedIds(Updated(items, id, u))
  {
    var r := Updated(items, id, u);
    forall x | x in r
      ensures IdMatchesKey(x)
    {
      var i :| 0 <= i < |r| && r[i] == x;
      assert items[i] in items;
    }
  }

  // ---------------------------------------------------------------------------
  // markAsWatched

  /** A rating is spread (`...(rating && { rating })`) only when it is truthy:
      `undefined` and `0` are falsy, every other number is truthy. */
  function Truthy(rating: Option<int>): (b: bool)
    ensures b ==> rating.Some?
    ensures rating.Some? ==> (b <==> rating.value != 0)
  {
    match rating
    case None => false
    case Some(v) => v != 0
  }

  /** The keys `markAsWatched` spreads over an entry. */
  function WatchedPatch(rating: Option<int>, now: Timestamp): (u: Patch)
    ensures KeepsIdentity(u)
  {
    NoChange.(status := Put(Watched), watchedAt := Put(Some(now)),
              rating := if Truthy(rating) then Put(rating) else Keep)
  }

  /** What marking one entry as watched does: status and watch time set, the
      rating replaced only by a truthy one, every other field kept. */
  lemma MarkAsWatchedEffect(x: WatchlistItem, rating: Option<int>, now: Timestamp)
    ensures Merge(x, WatchedPatch(rating, now)).status == Watched
    ensures Merge(x, WatchedPatch(rating, now)).watchedAt == Some(now)
    ensures Merge(x, WatchedPatch(rating, now)).rating ==
            if rating.Some? && rating.value != 0 then rating else x.rating
    ensures Merge(x, WatchedPatch(rating, now)).(status := x.status, watchedAt := x.watchedAt, rating := x.rating) == x
  {
  }

  /** Marking the same entry twice in the same millisecond with the same rating
      is the same as marking it once. */
  lemma MarkAsWatchedIdempotent(items: seq<WatchlistItem>, id: string, rating: Option<int>, now: Timestamp)
    ensures Updated(Updated(items, id, WatchedPatch(rating, now)), id, WatchedPatch(rating, now))
            == Updated(items, id, WatchedPatch(rating, now))
  {
    UpdateThen(items, id, WatchedPatch(rating, now), WatchedPatch(rating, now));
    assert ThenPatch(WatchedPatch(rating, now), WatchedPatch(rating, now)) == WatchedPatch(rating, now);
  }

  // ---------------------------------------------------------------------------
  // getFilteredItems

  function HasStatus(s: Status): WatchlistItem -> bool {
    (x: WatchlistItem) => x.status == s
  }

  /** All entries when no status is given, otherwise those with the status. */
  function GetFilteredItems(items: seq<WatchlistItem>, status: Option<Status>): (r: seq<WatchlistItem>)
    ensures status.None? ==> r == items
    ensures forall x :: x in r <==> x in items && (status.None? || x.status == status.value)
  {
    if status.None? then items else Filter(items, HasStatus(status.value))
  }

  /** A status filter is an order-preserving subsequence of the unfiltered list. */
  lemma FilteredKeepsOrder(items: seq<WatchlistItem>, status: Status)
    ensures IsSubsequence(GetFilteredItems(items, Some(status)), GetFilteredItems(items, None))
  {
    FilterIsSubsequence(items, HasStatus(status));
  }

  /** The three status filters partition the collection: together they hold
      every entry exactly as often as the collection does, and no entry is in two. */
  lemma {:induction false} StatusPartition(items: seq<WatchlistItem>)
    ensures multiset(GetFilteredItems(items, Some(WantToWatch)))
          + multiset(GetFilteredItems(items, Some(Watching)))
          + multiset(GetFilteredItems(items, Some(Watched))) == multiset(items)
    ensures |GetFilteredItems(items, Some(WantToWatch))| + |GetFilteredItems(items, Some(Watching))|
          + |GetFilteredItems(items, Some(Watched))| == |items|
  {
    var w, g, d := Filter(items, HasStatus(WantToWatch)),
                   Filter(items, HasStatus(Watching)),
                   Filter(items, HasStatus(Watched));
    forall i | 0 <= i < |items|
      ensures ExactlyOne(items[i], HasStatus(WantToWatch), HasStatus(Watching), HasStatus(Watched))
    {
    }
    FilterPartition3(items, HasStatus(WantToWatch), HasStatus(Watching), HasStatus(Watched));
    assert GetFilteredItems(items, Some(WantToWatch)) == w;
    assert GetFilteredItems(items, Some(Watching)) == g;
    assert GetFilteredItems(items, Some(Watched)) == d;
    assert |multiset(w) + multiset(g) + multiset(d)| == |w| + |g| + |d|;
  }

  /** No entry is in two status filters. */
  lemma StatusFiltersDisjoint(items: seq<WatchlistItem>, s: Status, t: Status)
    requires s != t
    ensures forall x :: x in GetFilteredItems(items, Some(s)) ==> x !in GetFilteredItems(items, Some(t))
  {
  }

  // ---------------------------------------------------------------------------
  // The store

  class WatchlistStore {
    var items: seq<WatchlistItem>

    constructor ()
      ensures items == []
    {
      items := [];
    }

    /** Appends the new entry after every existing one. */
    method AddToWatchlist(item: NewEntry, now: Timestamp)
      modifies this
      ensures items == old(items) + [NewItem(item, now)]
      ensures IsInWatchlist(items, item.tmdbId, item.mediaType)
      ensures KeyedIds(old(items)) ==> KeyedIds(items)
    {
      var newItem := NewItem(item, now);
      items := items + [newItem];
      assert newItem in items;
    }

    method RemoveFromWatchlist(id: string)
      modifies this
      ensures items == Without(old(items), id)
      ensures forall x :: x in items ==> x.id != id
    {
      items := Without(items, id);
    }

    method UpdateWatchlistItem(id: string, updates: Patch)
      modifies this
      ensures items == Updated(old(items), id, updates)
      ensures KeepsIdentity(updates) && KeyedIds(old(items)) ==> KeyedIds(items)
    {
      if KeepsIdentity(updates) && KeyedIds(items) {
        UpdateKeepsKeyedIds(items, id, updates);
      }
      items := Updated(items, id, updates);
    }

    method MarkAsWatched(id: string, rating: Option<int>, now: Timestamp)
      modifies this
      ensures items == Updated(old(items), id, WatchedPatch(rating, now))
      ensures forall i :: 0 <= i < |items| && old(items)[i].id == id ==>
                items[i].status == Watched && items[i].watchedAt == Some(now)
      ensures KeyedIds(old(items)) ==> KeyedIds(items)
    {
      if KeyedIds(items) {
        UpdateKeepsKeyedIds(items, id, WatchedPatch(rating, now));
      }
      items := Updated(items, id, WatchedPatch(rating, now));
    }

    method ClearWatchlist()
      modifies this
      ensures items == []
    {
      items := [];
    }
  }
}
