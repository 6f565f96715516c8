/** The Dashboard page's derived state: the data source, the search filter,
    the four headline figures, the aggregate risk bar and the three tabs. */
module Dashboard {
  import opened Wrappers
  import opened Text
  import JsNumber
  import opened AsteroidData
  import Seqs

  /** `asteroids ?? mockAsteroids`: the mock list only while the query has no
      data; an empty feed is shown as empty. */
  function Displayed(api: Option<seq<Asteroid>>, mock: seq<Asteroid>): (xs: seq<Asteroid>)
    ensures api.Some? ==> xs == api.value
    ensures api.None? ==> xs == mock
  {
    api.GetOr(mock)
  }

  /** The search predicate: the lower-cased name contains the lower-cased
      term, or the NASA id contains the term as typed. */
  predicate Matches(a: Asteroid, term: string) {
    Contains(ToLower(a.name), ToLower(term)) || Contains(a.nasaId, term)
  }

  /** `filteredAsteroids`. */
  function SearchResults(xs: seq<Asteroid>, term: string): (ys: seq<Asteroid>)
    ensures forall a :: a in ys <==> a in xs && Matches(a, term)
    ensures Seqs.IsSubsequence(ys, xs)
    ensures forall a :: multiset(ys)[a] == if Matches(a, term) then multiset(xs)[a] else 0
  {
    var p := (a: Asteroid) => Matches(a, term);
    forall a ensures multiset(Seqs.Filter(xs, p))[a] == if Matches(a, term) then multiset(xs)[a] else 0 {
      Seqs.FilterMultiplicity(xs, p, a);
    }
    Seqs.Filter(xs, p)
  }

  /** An empty search box shows every asteroid, in order. */
  lemma EmptySearchShowsAll(xs: seq<Asteroid>)
    ensures SearchResults(xs, "") == xs
  {
    forall a | a in xs ensures Matches(a, "") {
      assert OccursAt(ToLower(a.name), ToLower(""), 0);
    }
    Seqs.FilterAll(xs, (a: Asteroid) => Matches(a, ""));
  }

  /** Whether an asteroid matches by name does not depend on the case of its
      name. */
  lemma SearchIgnoresNameCase(a: Asteroid, term: string)
    ensures Matches(a.(name := ToLower(a.name)), term) == Matches(a, term)
  {
    ToLowerIdempotent(a.name);
  }

  function IsHazardous(): Asteroid -> bool {
    (a: Asteroid) => a.isHazardous
  }

  /** `hazardousCount`. */
  function HazardousCount(xs: seq<Asteroid>): (n: nat)
    ensures n <= |xs|
    ensures n == |xs| <==> forall a :: a in xs ==> a.isHazardous
    ensures n == 0 <==> forall a :: a in xs ==> !a.isHazardous
  {
    Seqs.FilterCount(xs, IsHazardous());
    |Seqs.Filter(xs, IsHazardous())|
  }

  /** One more object adds one to the count exactly when it is hazardous;
      with the empty list counting zero, this pins the count down as the
      number of hazardous objects. */
  lemma HazardousCountCons(a: Asteroid, xs: seq<Asteroid>)
    ensures HazardousCount([a] + xs) == HazardousCount(xs) + (if a.isHazardous then 1 else 0)
  {
    Seqs.FilterCons(a, xs, IsHazardous());
  }

  function SumScores(xs: seq<Asteroid>): int {
    if |xs| == 0 then 0 else SumScores(xs[..|xs| - 1]) + xs[|xs| - 1].riskScore
  }

  /** `Math.round` on a finite value: the nearest integer, halves upward. */
  function Round(x: real): (n: int)
    ensures n as real - 0.5 <= x < n as real + 0.5
  {
    (x + 0.5).Floor
  }

  /** `avgRiskScore`; `None` is the NaN of `0 / 0` for an empty list. */
  function AvgRiskScore(xs: seq<Asteroid>): (r: Option<int>)
    ensures r.None? <==> |xs| == 0
    ensures r.Some? ==>
              var mean := SumScores(xs) as real / |xs| as real;
              r.value as real - 0.5 <= mean < r.value as real + 0.5
  {
    if |xs| == 0 then None else Some(Round(SumScores(xs) as real / |xs| as real))
  }

  lemma {:induction false} SumBounds(xs: seq<Asteroid>, lo: int, hi: int)
    requires forall a :: a in xs ==> lo <= a.riskScore <= hi
    ensures |xs| * lo <= SumScores(xs) <= |xs| * hi
  {
    if |xs| > 0 {
      var init, last := xs[..|xs| - 1], xs[|xs| - 1];
      forall a | a in init
        ensures lo <= a.riskScore <= hi
      {
        assert a in xs;
      }
      SumBounds(init, lo, hi);
      assert last in xs;
      StepBounds(|init|, SumScores(init), last.riskScore, lo, hi);
    }
  }

  /** One more score within the bounds keeps the running sum within them. */
  lemma StepBounds(n: nat, s: int, v: int, lo: int, hi: int)
    requires n * lo <= s <= n * hi && lo <= v <= hi
    ensures (n + 1) * lo <= s + v <= (n + 1) * hi
  {
    assert (n + 1) * lo == n * lo + lo;
    assert (n + 1) * hi == n * hi + hi;
  }

  /** The average lies between the smallest and the largest score. */
  lemma AvgWithinScoreRange(xs: seq<Asteroid>, lo: int, hi: int)
    requires |xs| > 0
    requires forall a :: a in xs ==> lo <= a.riskScore <= hi
    ensures lo <= AvgRiskScore(xs).value <= hi
  {
    var n, s := |xs|, SumScores(xs);
    SumBounds(xs, lo, hi);
    RealOfProduct(n, lo);
    RealOfProduct(n, hi);
    DivideBounds(s as real, n as real, lo as real, hi as real);
    RoundWithin(s as real / n as real, lo, hi);
  }

  /** Rounding a value between two integers stays between them. */
  lemma RoundWithin(x: real, lo: int, hi: int)
    requires lo as real <= x <= hi as real
    ensures lo <= Round(x) <= hi
  {
  }

  lemma DivideBounds(s: real, n: real, lo: real, hi: real)
    requires n > 0.0 && lo * n <= s <= hi * n
    ensures lo <= s / n <= hi
  {
  }

  lemma RealOfProduct(a: int, b: int)
    ensures (a * b) as real == a as real * b as real
  {
  }

  /** One step of `(min, a) => (a.missDistance < min ? a.missDistance : min)`
      with `None` standing for the initial `Infinity`; a NaN distance never
      compares below anything. */
  function ClosestStep(min: Option<real>, d: Option<real>): Option<real> {
    if d.Some? && (min.None? || d.value < min.value) then d else min
  }

  /** `closestApproach`: the smallest parsed miss distance, `None` when no
      asteroid has one (the page then shows `Infinity`). */
  function ClosestApproach(xs: seq<Asteroid>): (r: Option<real>)
    ensures r.None? <==> forall a :: a in xs ==> a.missDistance.None?
    ensures r.Some? ==> exists a :: a in xs && a.missDistance == r
    ensures r.Some? ==> forall a :: a in xs && a.missDistance.Some? ==> r.value <= a.missDistance.value
  {
    if |xs| == 0 then None
    else
      var init := xs[..|xs| - 1];
      var last := xs[|xs| - 1];
      assert xs == init + [last];
      ClosestStep(ClosestApproach(init), last.missDistance)
  }

  /** The class of the aggregate risk bar. */
  function RiskFillClass(avg: Option<int>): (c: string)
    ensures avg.None? ==> c == ""
    ensures avg.Some? ==>
              && (c == "is-critical" <==> GetRiskLevel(avg.value) == Critical)
              && (c == "is-high" <==> GetRiskLevel(avg.value) == High)
              && (c == "is-moderate" <==> GetRiskLevel(avg.value) == Moderate)
              && (c == "" <==> GetRiskLevel(avg.value) == Low)
  {
    match avg
    case None => ""
    case Some(v) =>
      if v >= 70 then "is-critical" else if v >= 50 then "is-high" else if v >= 30 then "is-moderate" else ""
  }

  /** `Math.min(avgRiskScore, 100)` as the bar's fill percentage. */
  function RiskFillPercent(avg: Option<int>): (p: Option<int>)
    ensures p.None? <==> avg.None?
    ensures p.Some? ==> p.value <= 100 && p.value <= avg.value
    ensures p.Some? && avg.value <= 100 ==> p == avg
  {
    match avg
    case None => None
    case Some(v) => Some(JsNumber.Min(v, 100))
  }

  /** The risk panel turns red exactly at the Critical level. */
  predicate CriticalAccent(avg: Option<int>) {
    avg.Some? && avg.value >= 70
  }

  lemma CriticalAccentIsCriticalLevel(avg: Option<int>)
    ensures CriticalAccent(avg) <==> avg.Some? && GetRiskLevel(avg.value) == Critical
  {
  }

  datatype Tab = AllObjects | HazardousOnly | WatchedTab

  /** The tiles of a tab, drawn from the search results. */
  function TabItems(tab: Tab, filtered: seq<Asteroid>, watchedIds: set<string>): (ys: seq<Asteroid>)
    ensures Seqs.IsSubsequence(ys, filtered)
    ensures tab == AllObjects ==> ys == filtered
    ensures tab == HazardousOnly ==> forall a :: a in ys <==> a in filtered && a.isHazardous
    ensures tab == WatchedTab ==> forall a :: a in ys <==> a in filtered && a.id in watchedIds
    ensures tab == HazardousOnly ==>
              forall a :: multiset(ys)[a] == if a.isHazardous then multiset(filtered)[a] else 0
    ensures tab == WatchedTab ==>
              forall a :: multiset(ys)[a] == if a.id in watchedIds then multiset(filtered)[a] else 0
  {
    forall a ensures multiset(Seqs.Filter(filtered, IsHazardous()))[a] == if a.isHazardous then multiset(filtered)[a] else 0 {
      Seqs.FilterMultiplicity(filtered, IsHazardous(), a);
    }
    forall a ensures multiset(Seqs.Filter(filtered, IsWatchedIn(watchedIds)))[a] == if a.id in watchedIds then multiset(filtered)[a] else 0 {
      Seqs.FilterMultiplicity(filtered, IsWatchedIn(watchedIds), a);
    }
    match tab
    case AllObjects =>
      assert Seqs.Filter(filtered, (a: Asteroid) => true) == filtered by {
        Seqs.FilterAll(filtered, (a: Asteroid) => true);
      }
      filtered
    case HazardousOnly => Seqs.Filter(filtered, IsHazardous())
    case WatchedTab => Seqs.Filter(filtered, IsWatchedIn(watchedIds))
  }

  function IsWatchedIn(watchedIds: set<string>): Asteroid -> bool {
    (a: Asteroid) => a.id in watchedIds
  }

  /** The `isWatched` flag a tile is drawn with: the watched tab passes `true`. */
  function TileWatched(tab: Tab, a: Asteroid, watchedIds: set<string>): bool {
    if tab == WatchedTab then true else a.id in watchedIds
  }

  /** Every tile shows its true watch state, in every tab; an empty watchlist
      leaves the watched tab without tiles (it then shows its empty note). */
  lemma TilesShowWatchState(tab: Tab, filtered: seq<Asteroid>, watchedIds: set<string>)
    ensures forall a :: a in TabItems(tab, filtered, watchedIds) ==>
              TileWatched(tab, a, watchedIds) == (a.id in watchedIds)
    ensures |watchedIds| == 0 ==> TabItems(WatchedTab, filtered, watchedIds) == []
  {
  }
}
