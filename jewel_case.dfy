/**
 * One album case on the shelf: whether it is focused, its animation
 * targets, the click that selects it, and the spinning disc shown while
 * its track plays.
 */
module JewelCase {
  import opened Store
  import opened Shelf

  /** A case is focused when the view is FOCUS and its index is the current track. */
  predicate IsFocused(mode: ViewMode, currentTrack: int, index: int)
  {
    mode == FOCUS && currentTrack == index
  }

  predicate IsThisTrack(currentTrack: int, index: int) { currentTrack == index }

  /** The glow outline is drawn only on the shelf view. */
  predicate ShowGlow(mode: ViewMode) { mode == SHELF }

  const FOCUS_POSITION: Vec3 := Vec3(0.0, 0.5, 3.0)

  /** Where the case moves to: the front of the room when focused, else its own slot. */
  function TargetPosition(focused: bool, position: Vec3): (p: Vec3)
    ensures focused ==> p == FOCUS_POSITION
    ensures !focused ==> p == position
  {
    if focused then FOCUS_POSITION else position
  }

  /** Enlarged when focused, slightly enlarged when only hovered. */
  function TargetScale(focused: bool, hovered: bool): (k: real)
    ensures k >= 1.0
    ensures focused ==> k == 2.5
    ensures !focused && hovered ==> k == 1.15
    ensures !focused && !hovered ==> k == 1.0
  {
    if focused then 2.5 else if hovered then 1.15 else 1.0
  }

  /** At most one case is focused at a time, and none in any mode other than FOCUS. */
  lemma FocusIsExclusive(mode: ViewMode, currentTrack: int, i: int, j: int)
    requires IsFocused(mode, currentTrack, i) && IsFocused(mode, currentTrack, j)
    ensures i == j && mode == FOCUS
  {
  }

  /** The focus position is never a shelf slot, so a focused case always leaves its slot. */
  lemma FocusLeavesShelf(index: nat)
    ensures TargetPosition(true, ShelfAndPosition(index)) != ShelfAndPosition(index)
  {
  }

  /** The state a click leaves, and whether it scheduled the delayed start of playback. */
  datatype ClickOutcome = ClickOutcome(state: StoreState, playScheduled: bool)

  /** `handleClick`: only on the shelf view does a click select this case and schedule playback. */
  function AfterClick(s: StoreState, index: int): (o: ClickOutcome)
    ensures s.viewMode != SHELF ==> o == ClickOutcome(s, false)
    ensures s.viewMode == SHELF ==>
              o.playScheduled && o.state == s.(currentTrack := index, viewMode := FOCUS)
  {
    if s.viewMode == SHELF then ClickOutcome(s.(currentTrack := index, viewMode := FOCUS), true)
    else ClickOutcome(s, false)
  }

  /** After a click on the shelf this case, and only this case, is focused and no glow is drawn. */
  lemma ClickFocusesOnlyThisCase(s: StoreState, index: int, other: int)
    requires s.viewMode == SHELF
    ensures var t := AfterClick(s, index).state;
            IsFocused(t.viewMode, t.currentTrack, index) &&
            (other != index ==> !IsFocused(t.viewMode, t.currentTrack, other)) &&
            !ShowGlow(t.viewMode)
  {
  }

  /** A second click changes nothing: the view has already left the shelf. */
  lemma ClickIdempotent(s: StoreState, index: int, again: int)
    ensures AfterClick(AfterClick(s, index).state, again).state == AfterClick(s, index).state
  {
  }

  /** Runs the click handler on the store; `playScheduled` stands for the 100 ms timer that later plays. */
  method HandleClick(store: AppStore, index: int) returns (playScheduled: bool)
    modifies store
    ensures ClickOutcome(store.State(), playScheduled) == AfterClick(old(store.State()), index)
  {
    playScheduled := false;
    if store.viewMode == SHELF {
      store.SetCurrentTrack(index);
      store.SetViewMode(FOCUS);
      playScheduled := true;
    }
  }

  /** The disc's rotation about its axis, turned by the per-frame callback. */
  class Disc {
    var rotationZ: real

    constructor (rotation: real)
      ensures rotationZ == rotation
    {
      rotationZ := rotation;
    }

    /** One frame: while this case's track plays, the mounted disc turns clockwise by `2 * delta`. */
    method OnFrame(mounted: bool, isPlaying: bool, currentTrack: int, index: int, delta: real)
      modifies this
      ensures rotationZ == old(rotationZ) -
                (if mounted && isPlaying && IsThisTrack(currentTrack, index) then delta * 2.0 else 0.0)
      ensures rotationZ != old(rotationZ) ==> mounted && isPlaying && IsThisTrack(currentTrack, index)
      ensures delta >= 0.0 ==> rotationZ <= old(rotationZ)
    {
      if mounted && isPlaying && IsThisTrack(currentTrack, index) {
        rotationZ := rotationZ - delta * 2.0;
      }
    }
  }
}
