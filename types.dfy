/** The records of the application: the catalog entries the remote service
    returns and the watchlist entries the store owns. */
module Types {
  import opened Wrappers

  /** Milliseconds since the epoch, as `Date.now()` returns them. */
  type Timestamp = nat

  datatype MediaType = Movie | Tv

  datatype Status = WantToWatch | Watching | Watched

  /** One entry of the personal watchlist. `voteAverage` is carried as an
      opaque number. */
  datatype WatchlistItem = WatchlistItem(
    id: string,
    tmdbId: int,
    mediaType: MediaType,
    title: string,
    posterPath: Option<string>,
    backdropPath: Option<string>,
    releaseDate: string,
    voteAverage: real,
    overview: string,
    status: Status,
    rating: Option<int>,
    notes: Option<string>,
    addedAt: Timestamp,
    watchedAt: Option<Timestamp>)

  /** What `addToWatchlist` is given: every field of an entry except `id` and `addedAt`. */
  datatype NewEntry = NewEntry(
    tmdbId: int,
    mediaType: MediaType,
    title: string,
    posterPath: Option<string>,
    backdropPath: Option<string>,
    releaseDate: string,
    voteAverage: real,
    overview: string,
    status: Status,
    rating: Option<int>,
    notes: Option<string>,
    watchedAt: Option<Timestamp>)

  /** One field of a partial update: absent (`Keep`) or present with a value
      (`Put`). For an optional field `Put(None)` is a key explicitly set to
      `undefined`, which clears the field when spread. */
  datatype Edit<T> = Keep | Put(value: T) {

    function Apply(current: T): T {
      match this
      case Keep => current
      case Put(v) => v
    }

    /** The field of `{...this, ...later}`: a later present key wins. */
    function Then(later: Edit<T>): Edit<T> {
      if later.Put? then later else this
    }
  }

  /** `Partial<WatchlistItem>`: any subset of the fields of an entry. */
  datatype Patch = Patch(
    id: Edit<string>,
    tmdbId: Edit<int>,
    mediaType: Edit<MediaType>,
    title: Edit<string>,
    posterPath: Edit<Option<string>>,
    backdropPath: Edit<Option<string>>,
    releaseDate: Edit<string>,
    voteAverage: Edit<real>,
    overview: Edit<string>,
    status: Edit<Status>,
    rating: Edit<Option<int>>,
    notes: Edit<Option<string>>,
    addedAt: Edit<Timestamp>,
    watchedAt: Edit<Option<Timestamp>>)

  /** The empty partial update `{}`. */
  const NoChange: Patch :=
    Patch(Keep, Keep, Keep, Keep, Keep, Keep, Keep, Keep, Keep, Keep, Keep, Keep, Keep, Keep)

  /** A movie or a TV show as the remote catalog returns it (only the fields
      the watchlist copies). */
  datatype CatalogItem =
    | MovieItem(id: int, title: string, overview: string, posterPath: Option<string>,
                backdropPath: Option<string>, releaseDate: string, voteAverage: real)
    | TvShowItem(id: int, name: string, overview: string, posterPath: Option<string>,
                 backdropPath: Option<string>, firstAirDate: string, voteAverage: real)
}
