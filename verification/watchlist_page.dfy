/** The Watchlist page: the watched objects (drawn from the mock catalogue),
    their search, the three counters and the choice of view.  Date parsing is
    the parameter `parseDate` (`new Date(s).getTime()`, `None` for an invalid
    date). */
module WatchlistPage {
  import opened Wrappers
  import opened AsteroidData
  import Dashboard
  import Seqs

  /** `watchedAsteroids`. */
  function WatchedAsteroids(catalogue: seq<Asteroid>, ids: set<string>): (ws: seq<Asteroid>)
    ensures forall a :: a in ws <==> a in catalogue && a.id in ids
    ensures Seqs.IsSubsequence(ws, catalogue)
    ensures forall a :: multiset(ws)[a] == if a.id in ids then multiset(catalogue)[a] else 0
  {
    var p := Dashboard.IsWatchedIn(ids);
    forall a ensures multiset(Seqs.Filter(catalogue, p))[a] == if a.id in ids then multiset(catalogue)[a] else 0 {
      Seqs.FilterMultiplicity(catalogue, p, a);
    }
    Seqs.Filter(catalogue, p)
  }

  /** Only catalogue entries can appear: a watched id that names no catalogue
      entry is never shown. */
  lemma UncataloguedIdsNeverShown(catalogue: seq<Asteroid>, ids: set<string>, id: string)
    requires forall a :: a in catalogue ==> a.id != id
    ensures forall a :: a in WatchedAsteroids(catalogue, ids) ==> a.id != id
  {
  }

  /** `filteredWatched`: the dashboard's search predicate over the watched ones. */
  function FilteredWatched(watched: seq<Asteroid>, term: string): (fs: seq<Asteroid>)
    ensures forall a :: a in fs <==> a in watched && Dashboard.Matches(a, term)
    ensures Seqs.IsSubsequence(fs, watched)
    ensures forall a :: multiset(fs)[a] == if Dashboard.Matches(a, term) then multiset(watched)[a] else 0
  {
    Dashboard.SearchResults(watched, term)
  }

  /** The "Watching" and "Hazardous" counters. */
  function Counters(watched: seq<Asteroid>): (c: (nat, nat))
    ensures c.0 == |watched|
    ensures c.1 <= c.0
    ensures c.1 == c.0 <==> forall a :: a in watched ==> a.isHazardous
    ensures c.1 == 0 <==> forall a :: a in watched ==> !a.isHazardous
  {
    (|watched|, Dashboard.HazardousCount(watched))
  }

  /** Watching one more object raises the first counter by one and the
      hazardous counter by one exactly when that object is hazardous. */
  lemma CountersCons(a: Asteroid, watched: seq<Asteroid>)
    ensures Counters([a] + watched).0 == Counters(watched).0 + 1
    ensures Counters([a] + watched).1 == Counters(watched).1 + (if a.isHazardous then 1 else 0)
  {
    Dashboard.HazardousCountCons(a, watched);
  }

  /** The card's content. */
  datatype NextApproach = NoneWatched | Earliest(ms: int) | InvalidDate

  /** `Math.min(...watched.map(a => new Date(a.closeApproachDate).getTime()))`,
      "--" when nothing is watched; one invalid date makes the minimum NaN. */
  function NextApproachOf(watched: seq<Asteroid>, parseDate: string -> Option<int>): (n: NextApproach)
    ensures n == NoneWatched <==> |watched| == 0
    ensures n == InvalidDate <==> exists a :: a in watched && parseDate(a.closeApproachDate).None?
    ensures n.Earliest? ==>
              && (exists a :: a in watched && parseDate(a.closeApproachDate) == Some(n.ms))
              && (forall a :: a in watched ==>
                    (parseDate(a.closeApproachDate).Some? && n.ms <= parseDate(a.closeApproachDate).value))
  {
    if |watched| == 0 then NoneWatched else MinDate(watched, parseDate)
  }

  function MinDate(watched: seq<Asteroid>, parseDate: string -> Option<int>): (n: NextApproach)
    requires |watched| > 0
    ensures n != NoneWatched
    ensures n == InvalidDate <==> exists a :: a in watched && parseDate(a.closeApproachDate).None?
    ensures n.Earliest? ==>
              && (exists a :: a in watched && parseDate(a.closeApproachDate) == Some(n.ms))
              && (forall a :: a in watched ==>
                    (parseDate(a.closeApproachDate).Some? && n.ms <= parseDate(a.closeApproachDate).value))
  {
    var head := parseDate(watched[0].closeApproachDate);
    if |watched| == 1 then
      if head.None? then InvalidDate else Earliest(head.value)
    else
      var rest := MinDate(watched[1..], parseDate);
      assert watched == [watched[0]] + watched[1..];
      if head.None? || rest == InvalidDate then InvalidDate
      else if head.value <= rest.ms then Earliest(head.value)
      else rest
  }

  /** Which of the three panels the page shows. */
  datatype View = Results | EmptyWatchlist | NoResults(term: string)

  function ViewOf(watched: seq<Asteroid>, term: string): (v: View)
    ensures v == Results <==> |FilteredWatched(watched, term)| > 0
    ensures v == EmptyWatchlist <==> |watched| == 0
    ensures v.NoResults? <==> |watched| > 0 && |FilteredWatched(watched, term)| == 0
  {
    var fs := FilteredWatched(watched, term);
    if |fs| > 0 then Results
    else if |watched| == 0 then EmptyWatchlist
    else NoResults(term)
  }

  /** With an empty search box the "no results" panel never appears: the page
      shows either the list or the empty-watchlist panel. */
  lemma EmptyTermNeverNoResults(watched: seq<Asteroid>)
    ensures !ViewOf(watched, "").NoResults?
    ensures ViewOf(watched, "") == Results <==> |watched| > 0
  {
    Dashboard.EmptySearchShowsAll(watched);
  }
}
