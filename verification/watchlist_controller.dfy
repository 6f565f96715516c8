/** The server's watchlist: a set of (user, asteroid) pairs, unique by the
    compound index, with add, remove and get.  A database failure other than
    the duplicate-key error is the parameter `dbOk`. */
module WatchlistController {
  import opened Wrappers
  import opened NasaService

  /** (user id, NASA id) pairs; being a set is the unique compound index. */
  type Entries = set<(string, string)>

  datatype Reply = Reply(status: int, message: string)

  const IdRequired := Reply(400, "Asteroid ID required")
  const AlreadyWatched := Reply(400, "Already in watchlist")
  const Added := Reply(201, "Added to watchlist")
  const Removed := Reply(200, "Removed from watchlist")
  const ServerError := Reply(500, "Server error")

  /** `!asteroidId`: absent or the empty string. */
  predicate Falsy(asteroidId: Option<string>) {
    asteroidId.None? || asteroidId.value == ""
  }

  /** `addToWatchlist`. */
  function AddToWatchlist(entries: Entries, user: string, asteroidId: Option<string>, dbOk: bool)
    : (out: (Entries, Reply))
    ensures Falsy(asteroidId) ==> out == (entries, IdRequired)
    ensures !Falsy(asteroidId) && !dbOk ==> out == (entries, ServerError)
    ensures !Falsy(asteroidId) && dbOk && (user, asteroidId.value) in entries ==> out == (entries, AlreadyWatched)
    ensures !Falsy(asteroidId) && dbOk && (user, asteroidId.value) !in entries ==>
              out == (entries + {(user, asteroidId.value)}, Added)
    ensures out.1 == Added <==> out.0 != entries
    ensures forall u, a :: u != user ==> ((u, a) in out.0 <==> (u, a) in entries)
  {
    if Falsy(asteroidId) then (entries, IdRequired)
    else
      var pair := (user, asteroidId.value);
      if !dbOk then (entries, ServerError)
      else if pair in entries then (entries, AlreadyWatched)
      else (entries + {pair}, Added)
  }

  /** `removeFromWatchlist`: `findOneAndDelete` succeeds whether or not the
      pair exists. */
  function RemoveFromWatchlist(entries: Entries, user: string, asteroidId: string, dbOk: bool)
    : (out: (Entries, Reply))
    ensures dbOk ==> out.1 == Removed && (user, asteroidId) !in out.0
    ensures !dbOk ==> out == (entries, ServerError)
    ensures forall u, a :: (u, a) != (user, asteroidId) ==> ((u, a) in out.0 <==> (u, a) in entries)
  {
    if dbOk then (entries - {(user, asteroidId)}, Removed) else (entries, ServerError)
  }

  /** Adding a new pair and removing it restores the entries; removing twice
      is removing once. */
  lemma AddThenRemove(entries: Entries, user: string, asteroidId: string)
    requires asteroidId != "" && (user, asteroidId) !in entries
    ensures RemoveFromWatchlist(AddToWatchlist(entries, user, Some(asteroidId), true).0, user, asteroidId, true).0 == entries
    ensures var once := RemoveFromWatchlist(entries, user, asteroidId, true);
            RemoveFromWatchlist(once.0, user, asteroidId, true) == once
  {
    var p := (user, asteroidId);
    assert (entries - {p}) - {p} == entries - {p};
  }

  /** The requesting user's watched ids. */
  function WatchedBy(entries: Entries, user: string): (ids: set<string>)
    ensures forall a :: a in ids <==> (user, a) in entries
  {
    set p | p in entries && p.0 == user :: p.1
  }

  datatype GetReply = Asteroids(records: set<Record>) | GetFailed(status: int, message: string)

  /** `getWatchlist`: the stored asteroids whose NASA id the user watches
      (`Asteroid.find` returns them in no promised order, hence a set). */
  function GetWatchlist(entries: Entries, store: Store, user: string, dbOk: bool): (r: GetReply)
    requires WellKeyed(store)
    ensures !dbOk ==> r == GetFailed(500, "Server error fetching watchlist")
    ensures dbOk ==> r.Asteroids?
    ensures dbOk ==> forall rec :: rec in r.records <==> rec in store.Values && (user, rec.nasaId) in entries
  {
    if !dbOk then GetFailed(500, "Server error fetching watchlist")
    else
      var ids := WatchedBy(entries, user);
      Asteroids(set k | k in store && k in ids :: store[k])
  }

  /** Another user's add or remove does not change what a user gets back. */
  lemma OthersDoNotInterfere(entries: Entries, store: Store, user: string, other: string,
                             asteroidId: string)
    requires WellKeyed(store) && other != user
    ensures GetWatchlist(AddToWatchlist(entries, other, Some(asteroidId), true).0, store, user, true)
         == GetWatchlist(entries, store, user, true)
    ensures GetWatchlist(RemoveFromWatchlist(entries, other, asteroidId, true).0, store, user, true)
         == GetWatchlist(entries, store, user, true)
  {
    assert WatchedBy(AddToWatchlist(entries, other, Some(asteroidId), true).0, user) == WatchedBy(entries, user);
    assert WatchedBy(RemoveFromWatchlist(entries, other, asteroidId, true).0, user) == WatchedBy(entries, user);
  }
}
