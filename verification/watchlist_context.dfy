/** The browser's watchlist context: a set of watched asteroid ids, toggled by
    the tiles and persisted under `cosmic_watchlist`. */
module WatchlistContext {
  import opened Wrappers

  type WatchedIds = set<string>

  const StorageKey := "cosmic_watchlist"

  /** `toggleWatch`: a new set in which `id`'s membership is flipped. */
  function ToggleWatch(ids: WatchedIds, id: string): (next: WatchedIds)
    ensures id in next <==> id !in ids
    ensures forall x :: x != id ==> (x in next <==> x in ids)
  {
    if id in ids then ids - {id} else ids + {id}
  }

  /** Toggling twice restores the set; toggles of different ids commute. */
  lemma ToggleTwice(ids: WatchedIds, id: string, other: string)
    ensures ToggleWatch(ToggleWatch(ids, id), id) == ids
    ensures ToggleWatch(ToggleWatch(ids, id), other) == ToggleWatch(ToggleWatch(ids, other), id)
  {
    var a := ToggleWatch(ToggleWatch(ids, id), id);
    assert forall x :: x in a <==> x in ids;
    var b := ToggleWatch(ToggleWatch(ids, id), other);
    var c := ToggleWatch(ToggleWatch(ids, other), id);
    assert forall x :: x in b <==> x in c;
  }

  /** The initial state: the saved array as a set when something is saved
      (`None` is the `null` or empty string `getItem` gives otherwise). */
  function Load(saved: Option<seq<string>>): (ids: WatchedIds)
    ensures saved.None? ==> ids == {}
    ensures saved.Some? ==> forall x :: x in ids <==> x in saved.value
  {
    match saved
    case None => {}
    case Some(xs) => set x | x in xs
  }

  /** What the effect writes back: `[...watchedIds]`, each id once. */
  method Save(ids: WatchedIds) returns (saved: seq<string>)
    ensures |saved| == |ids|
    ensures forall i, j :: 0 <= i < j < |saved| ==> saved[i] != saved[j]
    ensures Load(Some(saved)) == ids
  {
    saved := [];
    var rest := ids;
    while rest != {}
      invariant rest <= ids
      invariant forall x :: x in saved <==> x in ids && x !in rest
      invariant forall i, j :: 0 <= i < j < |saved| ==> saved[i] != saved[j]
      invariant |saved| + |rest| == |ids|
      decreases rest
    {
      var x :| x in rest;
      saved := saved + [x];
      rest := rest - {x};
    }
  }
}
