# Watchlist store: a verified Dafny model

This project models the core of a browser application for tracking movies and TV shows. The core is
the **watchlist store**: one ordered collection of watchlist entries, with operations to add,
remove, partially update, mark as watched and clear, and queries by catalog key and by status.
On top of the store the model covers three more pieces:

- the watchlist page's derived views (status tab filter, per-status buckets, tab badges, status
  colours) and its edit and status-change handlers;
- the media card's add/remove toggle;
- the two image URL builders of the catalog service.

Modules, one per source file (plus helpers):

| file | module | models |
|---|---|---|
| `types.dfy` | `Types` | `watchlist-app/src/types/index.ts`: `WatchlistItem`, the add input, `Partial<WatchlistItem>` as `Patch`, catalog items |
| `watchlist_store.dfy` | `Store` | `watchlist-app/src/stores/watchlistStore.ts`: class `WatchlistStore` with field `items`; pure functions for the new arrays the mutators build and for the getters |
| `watchlist_page.dfy` | `Page` | `watchlist-app/src/components/WatchlistPage.tsx`: views, grouping loop, class `WatchlistPage` with the editor state and handlers |
| `media_card.dfy` | `Card` | `watchlist-app/src/components/MediaCard.tsx`: field selection and `HandleWatchlistToggle` |
| `tmdb.dfy` | `Tmdb` | `getImageUrl` and `getBackdropUrl` of `watchlist-app/src/services/tmdb.ts` |
| `seqs.dfy`, `text.dfy`, `wrappers.dfy` | `Seqs`, `Text`, `Wrappers` | `Array.prototype.filter`, number-to-text rendering and `String.prototype.trim`, `Option` |

Modelling choices:

- Each mutator of the store is a method on `WatchlistStore` that reassigns `items`. Its `ensures`
  gives the new collection as a function of the old one. `Without` is the `filter` and `Updated`
  is the `map` with the shallow merge. Those functions and the lemmas about them carry the
  properties.
- `Partial<WatchlistItem>` is a `Patch` that holds one `Edit<T> = Keep | Put(v)` per field. For an
  optional field, `Put(None)` is a key explicitly set to `undefined`, which the spread turns into a
  cleared field. `markAsWatched` spreads `{status, watchedAt, ...(rating && {rating})}` over the
  entry, so it is modelled as `Updated` with `WatchedPatch`.
- Clocks are parameters: `now` stands for `Date.now()` / `new Date()`, as milliseconds.
- The configured image base URL is a parameter `base`.
- `KeyedIds` says that every entry's id names that entry's own `(type, tmdbId)` key. The store does
  not enforce it, because a partial update may rewrite an id. Every id the store creates satisfies
  it (`MakeId`), and every mutation the page and the card perform preserves it. The lemmas
  about "other entries are untouched" assume it.

Behaviours of the code a reader might not expect, which the model keeps:

- `addToWatchlist` returns nothing.
- The caller supplies the status; there is no default.
- Ids are not guaranteed unique. Two adds of the same key in the same millisecond get the same id
  (`MakeIdInjective` shows that this is the only way two ids collide).
- `markAsWatched` replaces the rating only when the given rating is truthy, so 0 is ignored.
- `updateWatchlistItem(id, {status: 'watched'})` does not set `watchedAt`. Only `markAsWatched`
  does, and the page's status-change handler calls both.
- The store enforces no rating range.

## Model

| member | source | states |
|---|---|---|
| `Store.WatchlistStore.constructor` | watchlist-app/src/stores/watchlistStore.ts:20 | the store starts with no entries |
| `Store.MakeId` | watchlist-app/src/stores/watchlistStore.ts:25 | the id `type_tmdbId_stamp` can be split at its first two underscores and read back into the media type, the catalog id and the millisecond |
| `Store.MakeIdInjective` | watchlist-app/src/stores/watchlistStore.ts:25 | two ids are equal only when type, catalog id and millisecond all are |
| `Store.NewItem` | watchlist-app/src/stores/watchlistStore.ts:23-27 | the new entry carries every caller field unchanged (dropping id and addedAt gives back the input), `addedAt = now`, the synthesised id, and an id that names its own key |
| `Store.WatchlistStore.AddToWatchlist` | watchlist-app/src/stores/watchlistStore.ts:22-32 | the collection becomes the old entries followed by exactly the new one; the key is then in the watchlist; ids keep naming their keys |
| `Store.Without` | watchlist-app/src/stores/watchlistStore.ts:36 | an entry survives removal exactly when it was present and its id differs; ids keep naming their keys |
| `Store.RemoveKeepsOrder` | watchlist-app/src/stores/watchlistStore.ts:36 | the surviving entries are an order-preserving subsequence of the old ones |
| `Store.RemoveAbsentIsNoop` | watchlist-app/src/stores/watchlistStore.ts:34-38 | removing an id no entry has leaves the collection unchanged |
| `Store.RemoveCount` | watchlist-app/src/stores/watchlistStore.ts:36 | the length drops by exactly the number of entries carrying the id |
| `Store.WatchlistStore.RemoveFromWatchlist` | watchlist-app/src/stores/watchlistStore.ts:34-38 | the new collection is the filter of the old one; no entry with the id remains |
| `Store.Merge` | watchlist-app/src/stores/watchlistStore.ts:43 | an empty update leaves the entry unchanged; an update without id, tmdbId or mediaType keeps all three, and with them whether the id names the key |
| `Store.MergeLaws` | watchlist-app/src/stores/watchlistStore.ts:43 | merging two updates in turn equals merging their combination (later keys win); the empty update changes nothing; re-merging the same update changes nothing |
| `Store.Updated` | watchlist-app/src/stores/watchlistStore.ts:42-44 | the length is preserved; entries with another id are unchanged; entries with the id become the merge of the entry and the update |
| `Store.UpdateAbsentIsNoop` | watchlist-app/src/stores/watchlistStore.ts:40-46 | updating an id no entry has leaves the collection unchanged |
| `Store.UpdateThen` | watchlist-app/src/stores/watchlistStore.ts:40-46 | two updates of one id equal one update with the combined fields, when the first keeps the id |
| `Store.UpdateKeepsOthers` | watchlist-app/src/stores/watchlistStore.ts:40-46 | when the update keeps ids, the entries with other ids are exactly the same, in the same order |
| `Store.UpdateKeepsKeyedIds` | watchlist-app/src/stores/watchlistStore.ts:40-46 | an update touching neither id nor key keeps every id naming its key |
| `Store.WatchlistStore.UpdateWatchlistItem` | watchlist-app/src/stores/watchlistStore.ts:40-46 | the new collection is the mapped old one; ids keep naming their keys when the update leaves them alone |
| `Store.GetWatchlistItem` | watchlist-app/src/stores/watchlistStore.ts:48-50 | a found entry is in the collection and has the key; nothing is found only when no entry has the key |
| `Store.GetWatchlistItemIsFirst` | watchlist-app/src/stores/watchlistStore.ts:49 | the entry found is the first one in collection order with the key |
| `Store.GetWatchlistItemAppend` | watchlist-app/src/stores/watchlistStore.ts:49 | lookup in a concatenation finds in the first part if it can, otherwise in the second |
| `Store.IsInWatchlist` | watchlist-app/src/stores/watchlistStore.ts:52-54 | membership holds exactly when the lookup finds an entry |
| `Store.GetFilteredItems` | watchlist-app/src/stores/watchlistStore.ts:56-60 | with no status, all entries; otherwise an entry is in the result exactly when it has the status |
| `Store.FilteredKeepsOrder` | watchlist-app/src/stores/watchlistStore.ts:59 | a status filter is an order-preserving subsequence of the unfiltered list |
| `Store.StatusPartition` | watchlist-app/src/stores/watchlistStore.ts:56-60 | the three status filters together hold each entry exactly as often as the collection does, and their lengths add up to its length |
| `Store.StatusFiltersDisjoint` | watchlist-app/src/stores/watchlistStore.ts:59 | no entry appears under two different statuses |
| `Store.Truthy` | watchlist-app/src/stores/watchlistStore.ts:70 | only a defined rating can be truthy, and a defined one is truthy exactly when it is not 0 |
| `Store.WatchedPatch` | watchlist-app/src/stores/watchlistStore.ts:66-71 | marking as watched never touches the id or the catalog key |
| `Store.MarkAsWatchedEffect` | watchlist-app/src/stores/watchlistStore.ts:64-72 | a marked entry has status watched and `watchedAt = now`; its rating is the given one when that is defined and non-zero, else the old one; no other field changes |
| `Store.MarkAsWatchedIdempotent` | watchlist-app/src/stores/watchlistStore.ts:62-75 | marking twice with the same rating at the same instant is marking once |
| `Store.WatchlistStore.MarkAsWatched` | watchlist-app/src/stores/watchlistStore.ts:62-75 | the collection is updated with the watched fields; every entry with the id is watched at `now`; ids keep naming their keys |
| `Store.WatchlistStore.ClearWatchlist` | watchlist-app/src/stores/watchlistStore.ts:77-79 | the collection is empty |
| `Seqs.Filter` | watchlist-app/src/stores/watchlistStore.ts:59 | `Array.prototype.filter`: never longer than its input, and holds exactly the input elements that pass the test |
| `Text.ParseIntToDecimal` | watchlist-app/src/stores/watchlistStore.ts:25 | the decimal text an integer renders to in a template literal reads back as that integer |
| `Text.Trim` | watchlist-app/src/components/WatchlistPage.tsx:41 | `trim()` result: the infix of the input left after dropping only whitespace before and after it; it has no whitespace at either end, and it is empty exactly when the input is all whitespace |
| `Text.TrimIdempotent` | watchlist-app/src/components/WatchlistPage.tsx:41 | trimming twice is trimming once |
| `Page.FilteredItems` | watchlist-app/src/components/WatchlistPage.tsx:22-24 | under 'all' the shown entries are all entries; under a status tab they are the store's status filter |
| `Page.GroupedByStatus` | watchlist-app/src/components/WatchlistPage.tsx:26-30 | the `reduce` never leaves an empty bucket: a status has a bucket only when some grouped entry has it (`BucketIsStatusFilter` gives each bucket's contents) |
| `Page.BucketIsStatusFilter` | watchlist-app/src/components/WatchlistPage.tsx:26-30 | the bucket of a status (empty when missing) is the order-preserving subsequence of entries with that status |
| `Page.BucketsCoverAll` | watchlist-app/src/components/WatchlistPage.tsx:26-30 | the buckets together hold every grouped entry exactly once; their lengths sum to the number grouped |
| `Page.GroupedSnoc` | watchlist-app/src/components/WatchlistPage.tsx:27-28 | grouping one more entry appends it to the bucket of its status, creating the bucket if needed |
| `Page.GroupItems` | watchlist-app/src/components/WatchlistPage.tsx:26-30 | the `reduce` loop builds exactly the per-status buckets of its input |
| `Page.TabCount` | watchlist-app/src/components/WatchlistPage.tsx:129 | a badge, as the page computes it, never exceeds the number of entries |
| `Page.TabCounts` | watchlist-app/src/components/WatchlistPage.tsx:129 | the 'all' badge is the number of entries; a status badge counts that status under 'all' or its own tab, and is 0 under another status tab |
| `Page.TabCountsAddUp` | watchlist-app/src/components/WatchlistPage.tsx:129 | under 'all' the three status badges add up to the 'all' badge |
| `Page.StatusTabCount` | watchlist-app/src/components/WatchlistPage.tsx:129 | a status badge counted over all entries is at most the number of entries |
| `Page.StatusTabCountAgrees` | watchlist-app/src/components/WatchlistPage.tsx:129 | status badges counted over all entries equal the 'all'-tab badges under every tab and add up to the 'all' badge |
| `Page.TabCountHidesOtherStatuses` | watchlist-app/src/components/WatchlistPage.tsx:129 | one watching entry: under 'want to watch' the 'watching' badge reads 0, the intended count is 1 |
| `Page.StatusColor` | watchlist-app/src/components/WatchlistPage.tsx:53-64 | the gradient of a status determines the status: reading its first colour back gives the status |
| `Page.StatusColorsDistinct` | watchlist-app/src/components/WatchlistPage.tsx:53-64 | different statuses get different gradient strings |
| `Page.EditRatingOf` | watchlist-app/src/components/WatchlistPage.tsx:34 | the form's starting rating (the rating or-ed with 0) is the stored rating when there is one and 0 otherwise (a stored 0 is falsy but maps to 0 anyway) |
| `Page.EditNotesOf` | watchlist-app/src/components/WatchlistPage.tsx:35 | the form's starting notes (the notes or-ed with '') are the stored notes when there are any and '' otherwise |
| `Page.SavePatch` | watchlist-app/src/components/WatchlistPage.tsx:39-42 | saving an edit never touches the id or the catalog key |
| `Page.SaveEditEffect` | watchlist-app/src/components/WatchlistPage.tsx:38-44 | a rating is stored exactly when the edited one is positive and is then that rating; notes are stored exactly when the edited text has a non-blank character, and then trimmed; no other field changes |
| `Page.EditRoundTrip` | watchlist-app/src/components/WatchlistPage.tsx:32-44 | opening the editor and saving unchanged keeps a positive rating and already-trimmed non-blank notes, clears a non-positive rating, keeps absent notes absent, and changes no other field |
| `Page.EditRoundTripIdempotent` | watchlist-app/src/components/WatchlistPage.tsx:32-44 | a second unchanged save after the first changes nothing |
| `Page.StatusPatch` | watchlist-app/src/components/WatchlistPage.tsx:47 | a status update never touches the id or the catalog key |
| `Page.StatusChangeEffect` | watchlist-app/src/components/WatchlistPage.tsx:46-51 | after a status change the entry has the new status and its old rating; `watchedAt` is `now` exactly for 'watched', else unchanged; no other field changes |
| `Page.WatchlistPage.constructor` | watchlist-app/src/components/WatchlistPage.tsx:9-13 | no entry being edited, rating 0, empty notes |
| `Page.WatchlistPage.HandleEdit` | watchlist-app/src/components/WatchlistPage.tsx:32-36 | the editor opens on the entry with its rating (0 when absent) and notes ('' when absent) |
| `Page.WatchlistPage.HandleSaveEdit` | watchlist-app/src/components/WatchlistPage.tsx:38-44 | the store receives the normalised rating and notes for the entry's id; the editor closes; ids keep naming their keys |
| `Page.WatchlistPage.CancelEdit` | watchlist-app/src/components/WatchlistPage.tsx:234 | the editor closes; the form values stay |
| `Page.WatchlistPage.HandleStatusChange` | watchlist-app/src/components/WatchlistPage.tsx:46-51 | entries with the id get the new status (and, for 'watched', the watch time through markAsWatched); all other entries and the length are unchanged |
| `Card.CardTitle` | watchlist-app/src/components/MediaCard.tsx:17-18 | a movie's title, a show's name |
| `Card.CardReleaseDate` | watchlist-app/src/components/MediaCard.tsx:17-19 | a movie's release date, a show's first air date |
| `Card.CardEntry` | watchlist-app/src/components/MediaCard.tsx:29-39 | the added entry has the catalog id, the card's type, status 'want to watch', the chosen title and date, the copied catalog fields, and no rating, notes or watch time |
| `Card.Toggled` | watchlist-app/src/components/MediaCard.tsx:23-41 | one press on a tracked item removes at least one entry; on an untracked item it adds exactly one, after which the item is tracked |
| `Card.ToggleAdds` | watchlist-app/src/components/MediaCard.tsx:28-39 | pressing on an untracked item appends exactly one entry, which membership and lookup then find |
| `Card.ToggleRemoves` | watchlist-app/src/components/MediaCard.tsx:26-27 | pressing on a tracked item removes, by id, the first entry the lookup finds; the collection shrinks |
| `Card.ToggleRemovesOnlyEntry` | watchlist-app/src/components/MediaCard.tsx:26-27 | if that was the only entry for the item, the item is no longer tracked |
| `Card.ToggleKeepsOtherItems` | watchlist-app/src/components/MediaCard.tsx:23-41 | when ids name their keys, the entries of every other item stay, in order |
| `Card.ToggleTwiceRestores` | watchlist-app/src/components/MediaCard.tsx:23-41 | when ids name their keys, pressing twice on an untracked item gives back exactly the original collection |
| `Card.ToggleKeepsKeyedIds` | watchlist-app/src/components/MediaCard.tsx:23-41 | the button keeps every id naming its key |
| `Card.HandleWatchlistToggle` | watchlist-app/src/components/MediaCard.tsx:20-41 | the store's collection becomes the toggled one: remove the found entry's id when tracked, else add a new entry |
| `Tmdb.GetImageUrl` | watchlist-app/src/services/tmdb.ts:75-78 | a null or empty path gives the poster placeholder; otherwise the URL is base, '/', size, path |
| `Tmdb.GetBackdropUrl` | watchlist-app/src/services/tmdb.ts:80-83 | a null or empty path gives the backdrop placeholder; otherwise the URL is base, '/', size, path |
| `Tmdb.DefaultSizes` | watchlist-app/src/services/tmdb.ts:75-83 | without a size, posters use w500 and backdrops w1280 |
| `Tmdb.ImageUrlInjective` | watchlist-app/src/services/tmdb.ts:77 | for one base and size, different paths give different URLs |
| `Tmdb.ResolvedUrlIsNotPlaceholder` | watchlist-app/src/services/tmdb.ts:75-83 | with a base URL that does not start with '/', a resolved image URL never equals a placeholder |

## Left out

- Persistence (`persist` middleware, `watchlistStore.ts:17-18, 81-83`): JSON serialisation to local storage is foreign library I/O. After a reload the `Date` fields come back as strings, so no persistence round trip is claimed.
- Clocks: `Date.now()` and `new Date()` are the parameter `now`. The two readings in `addToWatchlist` (lines 25 and 26) are taken as one instant.
- Store.MakeIdInjective: ids are not proved unique, because the source does not make them unique. Equal key and millisecond collide.
- JavaScript numbers: `tmdbId`, ratings and timestamps are integers. NaN, fractional values and the exponent notation of numbers of 1e21 and above are not modelled. `vote_average` is an opaque `real`.
- A partial update that sets a required field explicitly to `undefined` is not modelled. Required fields are either absent or set.
- The axios client, every `tmdbApi` endpoint, and reading the base URL from the environment are network I/O and configuration.
- Rendering, animation, icons, `toFixed` and `getFullYear` formatting, and the empty-state branch (`WatchlistPage.tsx:66-89`) are not modelled.
- The tab click handler (`WatchlistPage.tsx:117`) and the form's input handlers (lines 211, 219) are not modelled. They assign one state variable. The views take the active tab as a parameter, and `HandleSaveEdit` works for any form values.
- `getStatusColor`'s default branch is not modelled. It cannot be reached with a typed status.
- Card.TypeMatches: the card's `type` must match the kind of catalog item. Every call site satisfies this. A mismatched pair would read an undefined field, which is not modelled.
- Card.HandleWatchlistToggle: `inWatchlist` and `watchlistItem` are read from the store when the button is pressed. In the source they come from the last render, which is the same state unless another update happens in between.
- Pages that load and search the catalog, the search bar, the layout and the app shell are not part of this model.

## Findings

| source | as written | input that shows it | evidently intended | confidence | as-written member | corrected member |
|---|---|---|---|---|---|---|
| watchlist-app/src/components/WatchlistPage.tsx:26, 129 | status badges count the buckets of the already filtered list, so while a status tab is active every other status badge reads 0 | one entry with status 'watching', active tab 'want to watch': the 'watching' badge shows 0 | each status badge counts that status over all entries, like the 'all' badge counts all entries | medium, not executed | `Page.TabCountHidesOtherStatuses` | `Page.StatusTabCountAgrees` |
