/** The browser's own feed query (`fetchAsteroids` behind `useAsteroids`) and
    the in-memory `useWatchlist` hook next to it.  The HTTP exchange is the
    parameter `reply`; the date buckets are kept in `Object.entries` order. */
module UseAsteroids {
  import opened Wrappers
  import opened Feed
  import opened AsteroidData
  import Seqs

  /** What `fetch` hands back: a non-2xx status, or the parsed
      `near_earth_objects` entries. */
  datatype Reply = NotOk | Ok(buckets: seq<(string, seq<RawNeo>)>)

  /** The rejection of the query's promise. */
  datatype FetchError =
    | Error(message: string)   // thrown before the body is read
    | TypeError                // `approach.relative_velocity` of an undefined approach

  const FetchErrorMessage := "Failed to fetch asteroid data"

  /** The number of objects over all buckets. */
  function TotalSize(buckets: seq<(string, seq<RawNeo>)>): nat {
    if |buckets| == 0 then 0 else |buckets[0].1| + TotalSize(buckets[1..])
  }

  /** The objects of every bucket, bucket after bucket. */
  function Flatten(buckets: seq<(string, seq<RawNeo>)>): (neos: seq<RawNeo>)
    ensures |neos| == TotalSize(buckets)
    ensures forall b, n :: b in buckets && n in b.1 ==> n in neos
    ensures forall n :: n in neos ==> exists b :: b in buckets && n in b.1
  {
    if |buckets| == 0 then []
    else buckets[0].1 + Flatten(buckets[1..])
  }

  /** A single date bucket flattens to its own list, in order. */
  lemma FlattenSingle(b: (string, seq<RawNeo>))
    ensures Flatten([b]) == b.1
  {
    assert [b][1..] == [];
  }

  /** Flattening distributes over splitting the buckets: the objects of earlier
      dates come first, each date's objects in their feed order. */
  lemma {:induction false} FlattenAppend(a: seq<(string, seq<RawNeo>)>, b: seq<(string, seq<RawNeo>)>)
    ensures Flatten(a + b) == Flatten(a) + Flatten(b)
  {
    if |a| == 0 {
      assert a + b == b;
    } else {
      assert (a + b)[1..] == a[1..] + b;
      FlattenAppend(a[1..], b);
    }
  }

  /** The `Asteroid` literal the loop body builds, score filled in. */
  function BuildAsteroid(neo: RawNeo): (a: Asteroid)
    requires HasApproach(neo)
    ensures a.id == neo.id && a.nasaId == neo.id && a.name == neo.name
    ensures a.diameter == Diameter(neo.diameterMinKm, neo.diameterMaxKm, "km")
    ensures a.velocity == FirstApproach(neo).velocityKmh
    ensures a.missDistance == FirstApproach(neo).missKm
    ensures a.closeApproachDate == FirstApproach(neo).date
    ensures a.orbitingBody == FirstApproach(neo).orbitingBody
    ensures a.isHazardous == neo.hazardous && a.absoluteMagnitude == neo.absoluteMagnitude
    ensures a.riskScore == ScoreOf(a)
  {
    var approach := FirstApproach(neo);
    var a := Asteroid(neo.id, neo.name, neo.id, Diameter(neo.diameterMinKm, neo.diameterMaxKm, "km"),
                      approach.velocityKmh, approach.missKm, neo.hazardous, approach.date,
                      approach.orbitingBody, 0, neo.absoluteMagnitude);
    a.(riskScore := ScoreOf(a))
  }

  predicate AllHaveApproach(neos: seq<RawNeo>) {
    forall i :: 0 <= i < |neos| ==> HasApproach(neos[i])
  }

  /** The pushes of the two nested `forEach` loops. */
  function BuildAll(neos: seq<RawNeo>): (xs: seq<Asteroid>)
    requires AllHaveApproach(neos)
    ensures |xs| == |neos|
    ensures forall i :: 0 <= i < |neos| ==> xs[i] == BuildAsteroid(neos[i])
  {
    if |neos| == 0 then [] else [BuildAsteroid(neos[0])] + BuildAll(neos[1..])
  }

  /** The sort key of `(a, b) => b.riskScore - a.riskScore`. */
  function RiskKey(a: Asteroid): int {
    a.riskScore
  }

  /** `fetchAsteroids`. */
  function FetchAsteroids(reply: Reply): (r: Result<seq<Asteroid>, FetchError>)
    ensures reply.NotOk? ==> r == Failure(Error(FetchErrorMessage))
    ensures r.Success? <==> reply.Ok? && AllHaveApproach(Flatten(reply.buckets))
    ensures reply.Ok? && r.Failure? ==> r.error == TypeError
    ensures r.Success? ==>
              && |r.value| == |Flatten(reply.buckets)|
              && multiset(r.value) == multiset(BuildAll(Flatten(reply.buckets)))
              && Seqs.SortedDesc(r.value, RiskKey)
  {
    match reply
    case NotOk => Failure(Error(FetchErrorMessage))
    case Ok(buckets) =>
      var neos := Flatten(buckets);
      if AllHaveApproach(neos) then Success(Seqs.SortDesc(BuildAll(neos), RiskKey))
      else Failure(TypeError)
  }

  /** Every listed asteroid comes from one object of the feed and carries the
      browser's score of itself. */
  lemma ListedComeFromFeed(reply: Reply, a: Asteroid)
    requires FetchAsteroids(reply).Success? && a in FetchAsteroids(reply).value
    ensures exists n :: n in Flatten(reply.buckets) && HasApproach(n) && a == BuildAsteroid(n)
    ensures a.riskScore == ScoreOf(a)
  {
    var built := BuildAll(Flatten(reply.buckets));
    assert a in multiset(FetchAsteroids(reply).value);
    assert a in built;
    var i :| 0 <= i < |built| && built[i] == a;
    assert Flatten(reply.buckets)[i] in Flatten(reply.buckets);
  }

  /** Objects with the same score stay in feed order (the sort is stable). */
  lemma TiesKeepFeedOrder(reply: Reply, v: int)
    requires FetchAsteroids(reply).Success?
    ensures Seqs.Filter(FetchAsteroids(reply).value, (a: Asteroid) => a.riskScore == v)
         == Seqs.Filter(BuildAll(Flatten(reply.buckets)), (a: Asteroid) => a.riskScore == v)
  {
    var p := (a: Asteroid) => a.riskScore == v;
    assert Seqs.OneKey(p, RiskKey);
    Seqs.SortDescStable(BuildAll(Flatten(reply.buckets)), RiskKey, p);
  }

  /** `useWatchlist`: a set created afresh on every call of the hook. */
  type WatchedIds = set<string>

  function AddToWatchlist(ids: WatchedIds, id: string): (r: WatchedIds)
    ensures forall x :: x in r <==> x == id || x in ids
  {
    ids + {id}
  }

  function RemoveFromWatchlist(ids: WatchedIds, id: string): (r: WatchedIds)
    ensures forall x :: x in r <==> x != id && x in ids
  {
    ids - {id}
  }

  predicate IsWatched(ids: WatchedIds, id: string) {
    id in ids
  }

  /** Adding then removing an id that was not watched restores the set, and
      either operation twice is the operation once. */
  lemma WatchlistOps(ids: WatchedIds, id: string)
    ensures id !in ids ==> RemoveFromWatchlist(AddToWatchlist(ids, id), id) == ids
    ensures AddToWatchlist(AddToWatchlist(ids, id), id) == AddToWatchlist(ids, id)
    ensures RemoveFromWatchlist(RemoveFromWatchlist(ids, id), id) == RemoveFromWatchlist(ids, id)
    ensures IsWatched(AddToWatchlist(ids, id), id) && !IsWatched(RemoveFromWatchlist(ids, id), id)
  {
  }
}
