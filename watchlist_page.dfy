/** The watchlist page: its derived views (the status tab filter, the
    per-status buckets and the tab counts), its status colours, and the edit
    and status-change handlers that call into the store. */
module Page {
  import opened Wrappers
  import opened Seqs
  import opened Text
  import opened Types
  import opened Store

  /** The active tab: every entry, or one status. */
  datatype TabFilter = All | Only(status: Status)

  function PassesFilter(f: TabFilter): WatchlistItem -> bool {
    (x: WatchlistItem) => f.All? || x.status == f.status
  }

  /** `filteredItems`: the entries shown under the active tab. */
  function FilteredItems(items: seq<WatchlistItem>, active: TabFilter): (r: seq<WatchlistItem>)
    ensures active.All? ==> r == items
    ensures active.Only? ==> r == GetFilteredItems(items, Some(active.status))
  {
    if active.All? then
      FilterKeepsAll(items, PassesFilter(active));
      Filter(items, PassesFilter(active))
    else
      FilterCongruent(items, PassesFilter(active), HasStatus(active.status));
      Filter(items, PassesFilter(active))
  }

  // ---------------------------------------------------------------------------
  // groupedItems

  type Groups = map<Status, seq<WatchlistItem>>

  function StatusesOf(items: seq<WatchlistItem>): set<Status> {
    set x | x in items :: x.status
  }

  /** What the `reduce` builds: one bucket per status that occurs, holding
      the entries with that status in order; so no bucket is empty. */
  function GroupedByStatus(items: seq<WatchlistItem>): (g: Groups)
    ensures forall s :: s in g ==> g[s] != []
  {
    StatusBucketsNonEmpty(items);
    map s | s in StatusesOf(items) :: Filter(items, HasStatus(s))
  }

  lemma StatusBucketsNonEmpty(items: seq<WatchlistItem>)
    ensures forall s :: s in StatusesOf(items) ==> Filter(items, HasStatus(s)) != []
  {
    forall s | s in StatusesOf(items)
      ensures Filter(items, HasStatus(s)) != []
    {
      var x :| x in items && x.status == s;
      assert x in Filter(items, HasStatus(s));
    }
  }

  /** `groupedItems[status] || []`. */
  function BucketOf(g: Groups, s: Status): seq<WatchlistItem> {
    if s in g then g[s] else []
  }

  /** Each bucket is the order-preserving subsequence of entries with its status. */
  lemma BucketIsStatusFilter(items: seq<WatchlistItem>, s: Status)
    ensures BucketOf(GroupedByStatus(items), s) == GetFilteredItems(items, Some(s))
  {
    if s !in StatusesOf(items) {
      forall i | 0 <= i < |items|
        ensures !HasStatus(s)(items[i])
      {
        assert items[i] in items;
      }
      FilterDropsAll(items, HasStatus(s));
    }
  }

  /** The buckets together hold every grouped entry exactly once, so their
      lengths add up to the number of entries grouped. */
  lemma BucketsCoverAll(items: seq<WatchlistItem>)
    ensures multiset(BucketOf(GroupedByStatus(items), WantToWatch))
          + multiset(BucketOf(GroupedByStatus(items), Watching))
          + multiset(BucketOf(GroupedByStatus(items), Watched)) == multiset(items)
    ensures |BucketOf(GroupedByStatus(items), WantToWatch)|
          + |BucketOf(GroupedByStatus(items), Watching)|
          + |BucketOf(GroupedByStatus(items), Watched)| == |items|
  {
    BucketIsStatusFilter(items, WantToWatch);
    BucketIsStatusFilter(items, Watching);
    BucketIsStatusFilter(items, Watched);
    StatusPartition(items);
  }

  /** Grouping one more entry appends it to the bucket of its status. */
  lemma GroupedSnoc(s: seq<WatchlistItem>, x: WatchlistItem)
    ensures GroupedByStatus(s + [x]) ==
            GroupedByStatus(s)[x.status := BucketOf(GroupedByStatus(s), x.status) + [x]]
  {
    var g, g' := GroupedByStatus(s), GroupedByStatus(s + [x]);
    var h := g[x.status := BucketOf(g, x.status) + [x]];
    forall k
      ensures k in StatusesOf(s + [x]) <==> k in StatusesOf(s) || k == x.status
    {
      if k in StatusesOf(s + [x]) {
        var y :| y in s + [x] && y.status == k;
        assert y in s || y == x;
      }
      if k in StatusesOf(s) {
        var y :| y in s && y.status == k;
        assert y in s + [x];
      }
      assert x in s + [x];
    }
    forall k | k in g'
      ensures k in h && g'[k] == h[k]
    {
      FilterSnoc(s, x, HasStatus(k));
      BucketIsStatusFilter(s, k);
    }
    assert g'.Keys == h.Keys;
  }

  /** One step of the `reduce`, after creating the bucket if missing and
      pushing the entry, has grouped one more entry. */
  lemma PushIsSnoc(prefix: seq<WatchlistItem>, item: WatchlistItem, before: Groups, after: Groups)
    requires before == GroupedByStatus(prefix)
    requires after == (if item.status in before then before else before[item.status := []])
                        [item.status := BucketOf(before, item.status) + [item]]
    ensures after == GroupedByStatus(prefix + [item])
  {
    assert after == before[item.status := BucketOf(before, item.status) + [item]];
    GroupedSnoc(prefix, item);
  }

  /** The `reduce` over the filtered entries: for each entry, create its
      status's bucket if missing, then push the entry onto it. */
  method GroupItems(filtered: seq<WatchlistItem>) returns (groups: Groups)
    ensures groups == GroupedByStatus(filtered)
  {
    groups := map[];
    for i := 0 to |filtered|
      invariant groups == GroupedByStatus(filtered[..i])
    {
      var item := filtered[i];
      ghost var before := groups;
      if item.status !in groups {
        groups := groups[item.status := []];
      }
      groups := groups[item.status := groups[item.status] + [item]];
      PushIsSnoc(filtered[..i], item, before, groups);
      assert filtered[..i + 1] == filtered[..i] + [item];
    }
    assert filtered[..|filtered|] == filtered;
  }

  // ---------------------------------------------------------------------------
  // Tab counts

  /** The badge of a tab: every entry for 'all', otherwise the size of that
      status's bucket of the currently filtered entries. */
  function TabCount(items: seq<WatchlistItem>, active: TabFilter, tab: TabFilter): (n: nat)
    ensures n <= |items|
  {
    if tab.All? then |items|
    else
      BucketIsStatusFilter(FilteredItems(items, active), tab.status);
      |BucketOf(GroupedByStatus(FilteredItems(items, active)), tab.status)|
  }

  /** Under the 'all' tab (or its own tab) a status tab counts the entries
      with its status; under another status tab it counts zero. */
  lemma TabCounts(items: seq<WatchlistItem>, active: TabFilter, s: Status)
    ensures TabCount(items, active, All) == |items|
    ensures active == All || active == Only(s) ==>
              TabCount(items, active, Only(s)) == |GetFilteredItems(items, Some(s))|
    ensures active.Only? && active.status != s ==> TabCount(items, active, Only(s)) == 0
  {
    var shown := FilteredItems(items, active);
    BucketIsStatusFilter(shown, s);
    if active.Only? {
      if active.status == s {
        FilterAbsorb(items, HasStatus(s), HasStatus(s));
      } else {
        forall i | 0 <= i < |shown|
          ensures !HasStatus(s)(shown[i])
        {
          assert shown[i] in shown;
        }
        FilterDropsAll(shown, HasStatus(s));
      }
    }
  }

  /** Under the 'all' tab the three status badges add up to the 'all' badge. */
  lemma TabCountsAddUp(items: seq<WatchlistItem>)
    ensures TabCount(items, All, Only(WantToWatch)) + TabCount(items, All, Only(Watching))
          + TabCount(items, All, Only(Watched)) == TabCount(items, All, All)
  {
    BucketsCoverAll(items);
  }

  /** The badge of a status tab counted over every entry, whichever tab is
      active, as the 'all' badge already is. */
  function StatusTabCount(items: seq<WatchlistItem>, s: Status): (n: nat)
    ensures n <= |items|
  {
    |GetFilteredItems(items, Some(s))|
  }

  /** The status badges counted over every entry agree with what the page
      shows under the 'all' tab, add up to the 'all' badge, and do not depend
      on the active tab. */
  lemma StatusTabCountAgrees(items: seq<WatchlistItem>, active: TabFilter, s: Status)
    ensures StatusTabCount(items, s) == TabCount(items, All, Only(s))
    ensures active == Only(s) ==> StatusTabCount(items, s) == TabCount(items, active, Only(s))
    ensures StatusTabCount(items, WantToWatch) + StatusTabCount(items, Watching)
          + StatusTabCount(items, Watched) == TabCount(items, active, All)
  {
    TabCounts(items, All, s);
    TabCounts(items, active, s);
    StatusPartition(items);
  }

  /** One entry that is being watched: under the 'want to watch' tab the
      'watching' badge reads 0 although one entry is being watched. */
  lemma TabCountHidesOtherStatuses(x: WatchlistItem)
    requires x.status == Watching
    ensures TabCount([x], Only(WantToWatch), Only(Watching)) == 0
    ensures StatusTabCount([x], Watching) == 1
  {
    TabCounts([x], Only(WantToWatch), Watching);
    assert Filter([x], HasStatus(Watching)) == [x] + Filter([x][1..], HasStatus(Watching));
  }

  // ---------------------------------------------------------------------------
  // getStatusColor

  /** The gradient classes of a status badge; the gradient alone tells
      which status it belongs to. */
  function StatusColor(s: Status): (c: string)
    ensures ColorStatus(c) == Some(s)
  {
    match s
    case WantToWatch => "from-yellow-500 to-orange-500"
    case Watching => "from-blue-500 to-purple-500"
    case Watched => "from-green-500 to-emerald-500"
  }

  /** Reads the status back from a gradient by its first colour. */
  function ColorStatus(c: string): Option<Status> {
    if |c| < 6 then None
    else if c[5] == 'y' then Some(WantToWatch)
    else if c[5] == 'b' then Some(Watching)
    else if c[5] == 'g' then Some(Watched)
    else None
  }

  /** Different statuses get different gradients. */
  lemma StatusColorsDistinct(s: Status, t: Status)
    requires s != t
    ensures StatusColor(s) != StatusColor(t)
  {
    assert StatusColor(s)[5] != StatusColor(t)[5];
  }

  // ---------------------------------------------------------------------------
  // Editing

  /** `item.rating || 0`: the rating the form starts from. Since `0` is the
      only falsy number, this is the stored rating whenever there is one. */
  function EditRatingOf(x: WatchlistItem): (r: int)
    ensures x.rating.Some? ==> r == x.rating.value
    ensures x.rating.None? ==> r == 0
  {
    if Truthy(x.rating) then x.rating.value else 0
  }

  /** `item.notes || ''`: the notes the form starts from. Since `''` is the
      only falsy string, these are the stored notes whenever there are any. */
  function EditNotesOf(x: WatchlistItem): (n: string)
    ensures x.notes.Some? ==> n == x.notes.value
    ensures x.notes.None? ==> n == ""
  {
    if x.notes.Some? && x.notes.value != "" then x.notes.value else ""
  }

  /** The update `handleSaveEdit` sends: the rating only when positive, the
      trimmed notes only when not blank; both keys are always present, so an
      absent value clears the field. */
  function SavePatch(editRating: int, editNotes: string): (u: Patch)
    ensures KeepsIdentity(u)
  {
    NoChange.(rating := Put(if editRating > 0 then Some(editRating) else None),
              notes := Put(if Trim(editNotes) == [] then None else Some(Trim(editNotes))))
  }

  /** What saving an edit does to an entry: a rating is stored exactly when
      the edited one is positive, notes exactly when the edited text has a
      non-blank character, and then trimmed; no other field changes. */
  lemma SaveEditEffect(x: WatchlistItem, editRating: int, editNotes: string)
    ensures Merge(x, SavePatch(editRating, editNotes)).rating.Some? <==> editRating > 0
    ensures Merge(x, SavePatch(editRating, editNotes)).rating.Some? ==>
              Merge(x, SavePatch(editRating, editNotes)).rating.value == editRating
    ensures Merge(x, SavePatch(editRating, editNotes)).notes.Some? <==>
              exists i :: 0 <= i < |editNotes| && !IsWhitespace(editNotes[i])
    ensures Merge(x, SavePatch(editRating, editNotes)).notes.Some? ==>
              var n := Merge(x, SavePatch(editRating, editNotes)).notes.value;
              n == Trim(editNotes) && n != [] && Trim(n) == n
    ensures Merge(x, SavePatch(editRating, editNotes)).(rating := x.rating, notes := x.notes) == x
  {
    var notes := if Trim(editNotes) == [] then None else Some(Trim(editNotes));
    assert Merge(x, SavePatch(editRating, editNotes)) ==
           x.(rating := if editRating > 0 then Some(editRating) else None, notes := notes);
    TrimIdempotent(editNotes);
  }

  /** Opening the editor and saving without changes keeps a positive rating
      and notes that are already trimmed and non-blank; anything else in
      those two fields is normalised away; no other field changes. */
  lemma EditRoundTrip(x: WatchlistItem)
    ensures x.rating.Some? && x.rating.value > 0 ==>
              Merge(x, SavePatch(EditRatingOf(x), EditNotesOf(x))).rating == x.rating
    ensures x.rating.None? || x.rating.value <= 0 ==>
              Merge(x, SavePatch(EditRatingOf(x), EditNotesOf(x))).rating.None?
    ensures x.notes.Some? && x.notes.value != [] && Trim(x.notes.value) == x.notes.value ==>
              Merge(x, SavePatch(EditRatingOf(x), EditNotesOf(x))).notes == x.notes
    ensures x.notes.None? ==> Merge(x, SavePatch(EditRatingOf(x), EditNotesOf(x))).notes.None?
    ensures Merge(x, SavePatch(EditRatingOf(x), EditNotesOf(x))).(rating := x.rating, notes := x.notes) == x
  {
    assert Trim("") == "";
  }

  /** Saving an unedited entry a second time changes nothing more. */
  lemma EditRoundTripIdempotent(x: WatchlistItem)
    ensures var y := Merge(x, SavePatch(EditRatingOf(x), EditNotesOf(x)));
            Merge(y, SavePatch(EditRatingOf(y), EditNotesOf(y))) == y
  {
    var y := Merge(x, SavePatch(EditRatingOf(x), EditNotesOf(x)));
    SaveEditEffect(x, EditRatingOf(x), EditNotesOf(x));
    SaveEditEffect(y, EditRatingOf(y), EditNotesOf(y));
    var z := Merge(y, SavePatch(EditRatingOf(y), EditNotesOf(y)));
    assert Trim("") == "";
    assert z.rating == y.rating;
    assert z.notes == y.notes;
  }

  // ---------------------------------------------------------------------------
  // Status changes

  function StatusPatch(s: Status): (u: Patch)
    ensures KeepsIdentity(u)
  {
    NoChange.(status := Put(s))
  }

  /** What `handleStatusChange` does to an entry: the new status is set, the
      rating is kept, and the watch time is set exactly when the new status is
      'watched'; no other field changes. */
  lemma StatusChangeEffect(x: WatchlistItem, newStatus: Status, now: Timestamp)
    ensures var y := if newStatus == Watched
                     then Merge(Merge(x, StatusPatch(newStatus)), WatchedPatch(None, now))
                     else Merge(x, StatusPatch(newStatus));
            && y.status == newStatus
            && y.rating == x.rating
            && y.watchedAt == (if newStatus == Watched then Some(now) else x.watchedAt)
            && y.(status := x.status, watchedAt := x.watchedAt) == x
  {
  }

  // ---------------------------------------------------------------------------
  // The page's own state and handlers

  class WatchlistPage {
    const store: WatchlistStore
    var editingItem: Option<string>
    var editRating: int
    var editNotes: string

    constructor (store: WatchlistStore)
      ensures this.store == store
      ensures editingItem == None && editRating == 0 && editNotes == ""
    {
      this.store := store;
      editingItem := None;
      editRating := 0;
      editNotes := "";
    }

    /** Opens the editor on `item`, loading its rating and notes into the form. */
    method HandleEdit(item: WatchlistItem)
      modifies this
      ensures editingItem == Some(item.id)
      ensures editRating == EditRatingOf(item) && editNotes == EditNotesOf(item)
    {
      editingItem := Some(item.id);
      editRating := EditRatingOf(item);
      editNotes := EditNotesOf(item);
    }

    /** Sends the form's rating and notes to the store and closes the editor. */
    method HandleSaveEdit(item: WatchlistItem)
      modifies this, store
      ensures store.items == Updated(old(store.items), item.id, SavePatch(old(editRating), old(editNotes)))
      ensures KeyedIds(old(store.items)) ==> KeyedIds(store.items)
      ensures editingItem == None
      ensures editRating == old(editRating) && editNotes == old(editNotes)
    {
      store.UpdateWatchlistItem(item.id, SavePatch(editRating, editNotes));
      editingItem := None;
    }

    /** The editor's Cancel button: closes the editor without saving. */
    method CancelEdit()
      modifies this
      ensures editingItem == None
      ensures editRating == old(editRating) && editNotes == old(editNotes)
    {
      editingItem := None;
    }

    /** Sets the new status; for 'watched' also marks the entry as watched now. */
    method HandleStatusChange(item: WatchlistItem, newStatus: Status, now: Timestamp)
      modifies store
      ensures |store.items| == |old(store.items)|
      ensures forall i :: 0 <= i < |store.items| && old(store.items)[i].id != item.id ==>
                store.items[i] == old(store.items)[i]
      ensures forall i :: 0 <= i < |store.items| && old(store.items)[i].id == item.id ==>
                store.items[i] == if newStatus == Watched
                                  then Merge(Merge(old(store.items)[i], StatusPatch(newStatus)), WatchedPatch(None, now))
                                  else Merge(old(store.items)[i], StatusPatch(newStatus))
      ensures KeyedIds(old(store.items)) ==> KeyedIds(store.items)
    {
      store.UpdateWatchlistItem(item.id, StatusPatch(newStatus));
      if newStatus == Watched {
        store.MarkAsWatched(item.id, None, now);
      }
    }
  }
}
