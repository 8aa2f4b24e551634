/**
 * The registry of focusable components (`FocusableStore`) and its reducer.
 * The registry lists component addresses; the reducer starts it empty and
 * not rescanning, and the rescan action raises the flag and keeps the list.
 */
module Event {
  /** `FocusableStore`: whether a rescan is under way, and the focusable components' addresses. */
  datatype FocusableStore = FocusableStore(rescanning: bool, focusables: seq<nat>)

  /** The reducer's `InitStore` specialisation. */
  function InitFocusable(): (s: FocusableStore)
    ensures !s.rescanning
    ensures s.focusables == []
  {
    FocusableStore(false, [])
  }

  /** The reducer's `rescanFocusable` specialisation: the previous list moved into a rescanning registry. */
  function RescanFocusable(prev: FocusableStore): (s: FocusableStore)
    ensures s.rescanning
    ensures |s.focusables| == |prev.focusables|
    ensures forall i :: 0 <= i < |prev.focusables| ==> s.focusables[i] == prev.focusables[i]
  {
    FocusableStore(true, prev.focusables)
  }

  /** A rescan changes nothing but the flag. */
  lemma RescanKeepsRegistry(prev: FocusableStore)
    ensures RescanFocusable(prev) == prev.(rescanning := true)
  {
  }

  /** A second rescan gives the registry the first one gave. */
  lemma RescanIsIdempotent(prev: FocusableStore)
    ensures RescanFocusable(RescanFocusable(prev)) == RescanFocusable(prev)
  {
  }

  /** Rescanning the initial registry gives an empty rescanning one. */
  lemma RescanOfInitial()
    ensures RescanFocusable(InitFocusable()) == FocusableStore(true, [])
  {
  }
}
