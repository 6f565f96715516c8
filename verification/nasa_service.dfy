/** `fetchAndCacheAsteroids`: read today's bucket of the NASA feed, normalise
    every object, score it with the server heuristic and upsert it into the
    asteroid collection keyed by `nasaId`.  The collection is a map from
    `nasaId` to record (the schema's unique index); the HTTP call and the
    database are inputs: `Upstream` is what the request produced, and
    `failAt` is the position of the first upsert the database rejects, if any. */
module NasaService {
  import opened Wrappers
  import opened JsNumber
  import opened Feed
  import ServerRisk

  /** A document of the asteroid collection. */
  datatype Record = Record(
    nasaId: string,
    name: string,
    diameterMin: real,
    diameterMax: real,
    velocity: Parsed,
    missDistance: Parsed,
    closeApproachDate: int,
    isHazardous: bool,
    riskScore: int,
    lastUpdated: int)

  type Store = map<string, Record>

  /** Every document sits under its own `nasaId`. */
  predicate WellKeyed(store: Store) {
    forall k :: k in store ==> store[k].nasaId == k
  }

  /** The outcome of the HTTP request to the feed. */
  datatype Upstream = Unreachable | Delivered(buckets: map<string, seq<RawNeo>>)

  /** Why a refresh threw. */
  datatype RefreshError =
    | FetchFailed                 // axios rejected
    | MissingApproach(index: nat) // close_approach_data[0] undefined: TypeError
    | WriteFailed(index: nat)     // findOneAndUpdate rejected

  /** The document written for `neo` at time `now`. */
  function Normalize(neo: RawNeo, now: int): (r: Record)
    requires HasApproach(neo)
    ensures r.nasaId == neo.id && r.name == neo.name
    ensures r.diameterMin == neo.diameterMinKm && r.diameterMax == neo.diameterMaxKm
    ensures r.velocity == neo.approaches[0].velocityKmh
    ensures r.missDistance == neo.approaches[0].missKm
    ensures r.closeApproachDate == neo.approaches[0].dateFullMs
    ensures r.isHazardous == neo.hazardous
    ensures Some(r.riskScore) == ServerRisk.CalculateRiskScore(neo)
    ensures 0 <= r.riskScore <= 100
    ensures r.lastUpdated == now
  {
    var a := FirstApproach(neo);
    Record(neo.id, neo.name, neo.diameterMinKm, neo.diameterMaxKm, a.velocityKmh, a.missKm,
           a.dateFullMs, neo.hazardous, ServerRisk.CalculateRiskScore(neo).value, now)
  }

  predicate AllHaveApproach(neos: seq<RawNeo>) {
    forall i :: 0 <= i < |neos| ==> HasApproach(neos[i])
  }

  /** The documents of a sequence of objects, in order. */
  function NormalizeAll(neos: seq<RawNeo>, now: int): (rs: seq<Record>)
    requires AllHaveApproach(neos)
    ensures |rs| == |neos|
    ensures forall i :: 0 <= i < |neos| ==> rs[i] == Normalize(neos[i], now)
  {
    seq(|neos|, i requires 0 <= i < |neos| => Normalize(neos[i], now))
  }

  /** `findOneAndUpdate({nasaId}, r, {upsert: true})`: create or replace. */
  function Upsert(store: Store, r: Record): (s: Store)
    ensures r.nasaId in s && s[r.nasaId] == r
    ensures forall k :: k != r.nasaId ==> (k in s <==> k in store)
    ensures forall k :: k in store && k != r.nasaId ==> s[k] == store[k]
  {
    store[r.nasaId := r]
  }

  /** The last record of `rs` whose `nasaId` is `k`. */
  function LastWith(rs: seq<Record>, k: string): (r: Option<Record>)
    ensures r.None? <==> forall i :: 0 <= i < |rs| ==> rs[i].nasaId != k
    ensures r.Some? ==> r.value.nasaId == k
    ensures r.Some? ==> exists i :: 0 <= i < |rs| && rs[i] == r.value
                          && forall j :: i < j < |rs| ==> rs[j].nasaId != k
  {
    if |rs| == 0 then None
    else if rs[|rs| - 1].nasaId == k then Some(rs[|rs| - 1])
    else LastWith(rs[..|rs| - 1], k)
  }

  /** The upserts of `rs`, one after the other. */
  function UpsertAll(store: Store, rs: seq<Record>): (s: Store)
    ensures forall k :: k in s <==> k in store || LastWith(rs, k).Some?
    ensures forall k :: k in s && LastWith(rs, k).Some? ==> s[k] == LastWith(rs, k).value
    ensures forall k :: k in store && LastWith(rs, k).None? ==> s[k] == store[k]
    ensures WellKeyed(store) ==> WellKeyed(s)
  {
    if |rs| == 0 then store
    else Upsert(UpsertAll(store, rs[..|rs| - 1]), rs[|rs| - 1])
  }

  /** Where the loop over `neos` stops: at the first object without a
      close-approach entry or the first rejected write, or at the end. */
  function StopIndex(neos: seq<RawNeo>, failAt: Option<nat>): (k: nat)
    ensures k <= |neos|
    ensures forall i :: 0 <= i < k ==> HasApproach(neos[i]) && failAt != Some(i)
    ensures k < |neos| ==> !HasApproach(neos[k]) || failAt == Some(k)
  {
    StopFrom(neos, failAt, 0)
  }

  function StopFrom(neos: seq<RawNeo>, failAt: Option<nat>, i: nat): (k: nat)
    requires i <= |neos|
    requires forall j :: 0 <= j < i ==> HasApproach(neos[j]) && failAt != Some(j)
    ensures i <= k <= |neos|
    ensures forall j :: 0 <= j < k ==> HasApproach(neos[j]) && failAt != Some(j)
    ensures k < |neos| ==> !HasApproach(neos[k]) || failAt == Some(k)
    decreases |neos| - i
  {
    if i == |neos| || !HasApproach(neos[i]) || failAt == Some(i) then i
    else StopFrom(neos, failAt, i + 1)
  }

  /** The state a refresh leaves and what it returns or throws. */
  datatype Refresh = Refresh(store: Store, result: Result<seq<Record>, RefreshError>)

  /** `fetchAndCacheAsteroids()` at time `now` for date key `today`. */
  function FetchAndCache(store: Store, upstream: Upstream, today: string, now: int,
                         failAt: Option<nat>): (out: Refresh)
    // a failed request or a missing bucket writes nothing
    ensures upstream.Unreachable? ==> out == Refresh(store, Failure(FetchFailed))
    ensures upstream.Delivered? && today !in upstream.buckets ==> out == Refresh(store, Success([]))
    // nothing is ever deleted, whatever happens
    ensures forall k :: k in store ==> k in out.store
    // on success: one document per object, in feed order
    ensures out.result.Success? && upstream.Delivered? && today in upstream.buckets ==>
              var neos := upstream.buckets[today];
              AllHaveApproach(neos) && out.result.value == NormalizeAll(neos, now)
    ensures out.result.Success? ==> forall r :: r in out.result.value ==> r.lastUpdated == now
    // a throw keeps the writes made before it
    ensures out.result.Failure? && upstream.Delivered? ==>
              var neos := upstream.buckets[today];
              var k := StopIndex(neos, failAt);
              k < |neos| && out.store == UpsertAll(store, NormalizeAll(neos[..k], now))
              && out.result.error == (if HasApproach(neos[k]) then WriteFailed(k) else MissingApproach(k))
  {
    match upstream
    case Unreachable => Refresh(store, Failure(FetchFailed))
    case Delivered(buckets) =>
      if today !in buckets then Refresh(store, Success([]))
      else
        var neos := buckets[today];
        var k := StopIndex(neos, failAt);
        var done := NormalizeAll(neos[..k], now);
        var s := UpsertAll(store, done);
        if k == |neos| then
          assert neos[..k] == neos;
          Refresh(s, Success(done))
        else
          Refresh(s, Failure(if HasApproach(neos[k]) then WriteFailed(k) else MissingApproach(k)))
  }

  /** `fetchAndCacheAsteroids()` as the code runs it: the request, the bucket
      lookup and then the loop; it computes exactly `FetchAndCache`. */
  method FetchAndCacheLoop(store: Store, upstream: Upstream, today: string, now: int,
                           failAt: Option<nat>) returns (out: Refresh)
    ensures out == FetchAndCache(store, upstream, today, now, failAt)
  {
    if upstream.Unreachable? {
      return Refresh(store, Failure(FetchFailed));
    }
    if today !in upstream.buckets {
      return Refresh(store, Success([]));
    }
    var neos := upstream.buckets[today];
    var s, processed, i := UpsertLoop(store, neos, now, failAt);
    if i < |neos| {
      return Refresh(s, Failure(if HasApproach(neos[i]) then WriteFailed(i) else MissingApproach(i)));
    }
    assert neos[..i] == neos;
    return Refresh(s, Success(processed));
  }

  /** The `for ... of` loop: one awaited upsert per object, leaving at the
      first object that throws.  `i` is where it stopped. */
  method UpsertLoop(store: Store, neos: seq<RawNeo>, now: int, failAt: Option<nat>)
    returns (s: Store, processed: seq<Record>, i: nat)
    ensures i == StopIndex(neos, failAt)
    ensures AllHaveApproach(neos[..i])
    ensures processed == NormalizeAll(neos[..i], now)
    ensures s == UpsertAll(store, processed)
  {
    ghost var stop := StopIndex(neos, failAt);
    s := store;
    processed := [];
    i := 0;
    while i < |neos|
      invariant 0 <= i <= stop
      invariant AllHaveApproach(neos[..i])
      invariant processed == NormalizeAll(neos[..i], now)
      invariant s == UpsertAll(store, processed)
    {
      if !HasApproach(neos[i]) || failAt == Some(i) {
        return;
      }
      assert i < stop by {
        assert i < |neos| && HasApproach(neos[i]) && failAt != Some(i);
      }
      var saved := Normalize(neos[i], now);
      NormalizeAllSnoc(neos[..i], neos[i], now);
      UpsertAllSnoc(store, processed, saved);
      PrefixSnoc(neos, i);
      s := Upsert(s, saved);
      processed := processed + [saved];
      i := i + 1;
    }
  }

  lemma PrefixSnoc<T>(xs: seq<T>, i: nat)
    requires i < |xs|
    ensures xs[..i + 1] == xs[..i] + [xs[i]]
  {
  }

  lemma NormalizeAllSnoc(neos: seq<RawNeo>, neo: RawNeo, now: int)
    requires AllHaveApproach(neos) && HasApproach(neo)
    ensures AllHaveApproach(neos + [neo])
    ensures NormalizeAll(neos + [neo], now) == NormalizeAll(neos, now) + [Normalize(neo, now)]
  {
  }

  lemma UpsertAllSnoc(store: Store, rs: seq<Record>, r: Record)
    ensures UpsertAll(store, rs + [r]) == Upsert(UpsertAll(store, rs), r)
  {
    assert (rs + [r])[..|rs|] == rs;
  }

  /** The last object of `neos` whose id is `k`. */
  function LastNeoWith(neos: seq<RawNeo>, k: string): Option<RawNeo> {
    if |neos| == 0 then None
    else if neos[|neos| - 1].id == k then Some(neos[|neos| - 1])
    else LastNeoWith(neos[..|neos| - 1], k)
  }

  /** An id that occurs anywhere in the feed has a last occurrence. */
  lemma {:induction false} LastNeoWithFound(neos: seq<RawNeo>, k: string, i: nat)
    requires i < |neos| && neos[i].id == k
    ensures LastNeoWith(neos, k).Some? && LastNeoWith(neos, k).value.id == k
    decreases |neos|
  {
    if neos[|neos| - 1].id != k {
      LastNeoWithFound(neos[..|neos| - 1], k, i);
    }
  }

  lemma {:induction false} LastWithNormalized(neos: seq<RawNeo>, now: int, k: string)
    requires AllHaveApproach(neos)
    ensures LastNeoWith(neos, k).None? <==> LastWith(NormalizeAll(neos, now), k).None?
    ensures LastNeoWith(neos, k).Some? ==>
              HasApproach(LastNeoWith(neos, k).value) &&
              LastWith(NormalizeAll(neos, now), k).value == Normalize(LastNeoWith(neos, k).value, now)
  {
    if |neos| > 0 {
      var init := neos[..|neos| - 1];
      assert NormalizeAll(neos, now)[..|neos| - 1] == NormalizeAll(init, now);
      LastWithNormalized(init, now, k);
    }
  }

  /** After a successful refresh every id of the feed holds the document built
      from its last occurrence in the feed, written at `now`; every other
      document is untouched. */
  lemma RefreshedStore(store: Store, buckets: map<string, seq<RawNeo>>, today: string, now: int,
                       failAt: Option<nat>, k: string)
    requires today in buckets
    requires FetchAndCache(store, Delivered(buckets), today, now, failAt).result.Success?
    ensures var out := FetchAndCache(store, Delivered(buckets), today, now, failAt);
            var last := LastNeoWith(buckets[today], k);
            && (last.Some? ==> HasApproach(last.value) && k in out.store
                                && out.store[k] == Normalize(last.value, now)
                                && out.store[k].lastUpdated == now)
            && (last.None? ==> (k in out.store <==> k in store)
                                && (k in store ==> out.store[k] == store[k]))
  {
    var neos := buckets[today];
    var k' := StopIndex(neos, failAt);
    assert neos[..k'] == neos;
    LastWithNormalized(neos, now, k);
  }

  /** Two objects with the same id in one feed: the later one wins. */
  lemma LaterDuplicateWins(store: Store, a: RawNeo, b: RawNeo, now: int)
    requires HasApproach(a) && HasApproach(b) && a.id == b.id
    ensures UpsertAll(store, NormalizeAll([a, b], now))[a.id] == Normalize(b, now)
  {
    assert LastWith(NormalizeAll([a, b], now), a.id) == Some(Normalize(b, now));
  }
}
