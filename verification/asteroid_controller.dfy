/** `getAsteroids` and `refreshAsteroids`: the cache-aside read of the asteroid
    collection with its one-hour staleness rule, and the forced refresh.  The
    clock is the parameter `now` (milliseconds). */
module AsteroidController {
  import opened Wrappers
  import opened NasaService
  import opened Feed
  import Seqs

  const OneHourMs: int := 60 * 60 * 1000

  /** The collection is empty, or some document was written strictly more
      than an hour before `now`. */
  predicate NeedsRefresh(store: Store, now: int) {
    |store| == 0 || exists k :: k in store && store[k].lastUpdated < now - OneHourMs
  }

  /** The HTTP reply. */
  datatype Response = Json(body: seq<Record>) | Status500(message: string)

  const GetErrorMessage := "Server error fetching asteroids"
  const RefreshErrorMessage := "Server error refreshing asteroids"

  /** Ascending approach date along `xs`. */
  predicate ByApproachDate(xs: seq<Record>) {
    forall i, j :: 0 <= i < j < |xs| ==> xs[i].closeApproachDate <= xs[j].closeApproachDate
  }

  /** `xs` lists the documents of `store`: as many entries as documents, every
      document present, nothing else. */
  predicate Lists(xs: seq<Record>, store: Store) {
    && |xs| == |store|
    && (forall k :: k in store ==> store[k] in xs)
    && (forall r :: r in xs ==> exists k :: k in store && store[k] == r)
  }

  /** `Asteroid.find().sort({ closeApproachDate: 1 })`. */
  method FindSortedByDate(store: Store) returns (listing: seq<Record>)
    ensures Lists(listing, store)
    ensures ByApproachDate(listing)
  {
    var remaining := store.Keys;
    var acc: seq<Record> := [];
    while remaining != {}
      invariant remaining <= store.Keys
      invariant |acc| + |remaining| == |store.Keys|
      invariant forall k :: k in store.Keys - remaining ==> store[k] in acc
      invariant forall r :: r in acc ==> exists k :: k in store.Keys - remaining && store[k] == r
      decreases remaining
    {
      var k :| k in remaining;
      acc := acc + [store[k]];
      remaining := remaining - {k};
    }
    assert store.Keys - remaining == store.Keys;
    listing := Seqs.SortDesc(acc, (r: Record) => -r.closeApproachDate);
    assert forall r :: r in listing <==> r in acc by {
      forall r ensures r in listing <==> r in acc {
        assert r in listing <==> r in multiset(listing);
        assert r in acc <==> r in multiset(acc);
      }
    }
  }

  /** `getAsteroids`: serve the collection while it is fresh, otherwise fetch.
      `findOk` is whether the initial database read succeeded: when it throws,
      nothing is fetched and the reply is the 500. */
  method GetAsteroids(store: Store, now: int, upstream: Upstream, today: string, failAt: Option<nat>, findOk: bool)
    returns (store': Store, response: Response)
    ensures !findOk ==> store' == store && response == Status500(GetErrorMessage)
    ensures findOk && !NeedsRefresh(store, now) ==>
              store' == store && response.Json? && Lists(response.body, store) && ByApproachDate(response.body)
    ensures findOk && NeedsRefresh(store, now) ==>
              var out := FetchAndCache(store, upstream, today, now, failAt);
              && store' == out.store
              && (out.result.Success? ==> response == Json(out.result.value))
              && (out.result.Failure? ==> response == Status500(GetErrorMessage))
  {
    if !findOk {
      return store, Status500(GetErrorMessage);
    }
    var listing := FindSortedByDate(store);
    if NeedsRefresh(store, now) {
      var out := FetchAndCacheLoop(store, upstream, today, now, failAt);
      store' := out.store;
      response := if out.result.Success? then Json(out.result.value) else Status500(GetErrorMessage);
    } else {
      store' := store;
      response := Json(listing);
    }
  }

  /** `refreshAsteroids`: fetch whatever the staleness. */
  method RefreshAsteroids(store: Store, now: int, upstream: Upstream, today: string, failAt: Option<nat>)
    returns (store': Store, response: Response)
    ensures var out := FetchAndCache(store, upstream, today, now, failAt);
            && store' == out.store
            && (out.result.Success? ==> response == Json(out.result.value))
            && (out.result.Failure? ==> response == Status500(RefreshErrorMessage))
  {
    var out := FetchAndCacheLoop(store, upstream, today, now, failAt);
    store' := out.store;
    response := if out.result.Success? then Json(out.result.value) else Status500(RefreshErrorMessage);
  }

  /** The comparison is strict: a collection whose documents are all exactly
      one hour old is still served from the cache. */
  lemma ExactlyOneHourIsFresh(store: Store, now: int)
    requires |store| > 0
    requires forall k :: k in store ==> store[k].lastUpdated >= now - OneHourMs
    ensures !NeedsRefresh(store, now)
  {
  }

  /** One document a millisecond past the hour makes the whole collection stale. */
  lemma OneStaleDocumentSuffices(store: Store, now: int, k: string)
    requires k in store && store[k].lastUpdated == now - OneHourMs - 1
    ensures NeedsRefresh(store, now)
  {
  }

  /** A successful refresh of a non-empty feed that names every cached id
      leaves a collection the next request serves from the cache. */
  lemma RefreshedCollectionIsFresh(store: Store, buckets: map<string, seq<RawNeo>>, today: string,
                                   now: int, failAt: Option<nat>)
    requires today in buckets && |buckets[today]| > 0
    requires forall k :: k in store ==> exists i :: 0 <= i < |buckets[today]| && buckets[today][i].id == k
    requires FetchAndCache(store, Delivered(buckets), today, now, failAt).result.Success?
    ensures !NeedsRefresh(FetchAndCache(store, Delivered(buckets), today, now, failAt).store, now)
  {
    var s := FetchAndCache(store, Delivered(buckets), today, now, failAt).store;
    var first := buckets[today][0].id;
    LastNeoWithFound(buckets[today], first, 0);
    RefreshedStore(store, buckets, today, now, failAt, first);
    assert first in s;
    forall k | k in s
      ensures s[k].lastUpdated == now
    {
      if k in store {
        var i :| 0 <= i < |buckets[today]| && buckets[today][i].id == k;
        LastNeoWithFound(buckets[today], k, i);
      }
      RefreshedStore(store, buckets, today, now, failAt, k);
    }
  }
}
