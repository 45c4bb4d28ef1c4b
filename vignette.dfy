/**
 * The dark vignette laid over the page while an album plays close to the
 * camera: a visibility condition and a clamped linear opacity.
 */
module Vignette {
  import opened Store
  import opened Common

  /** Shown only in the album view, with the camera within distance 3, while playing. */
  predicate ShouldShow(mode: ViewMode, cameraDistance: real, isPlaying: bool)
  {
    mode == ALBUM && cameraDistance <= 3.0 && isPlaying
  }

  /** `max(0, min(1, 3 - d))` when shown, else 0. */
  function Opacity(mode: ViewMode, cameraDistance: real, isPlaying: bool): (r: real)
    ensures 0.0 <= r <= 1.0
    ensures !ShouldShow(mode, cameraDistance, isPlaying) ==> r == 0.0
    ensures ShouldShow(mode, cameraDistance, isPlaying) && 2.0 <= cameraDistance ==> r == 3.0 - cameraDistance
    ensures ShouldShow(mode, cameraDistance, isPlaying) && cameraDistance <= 2.0 ==> r == 1.0
  {
    if ShouldShow(mode, cameraDistance, isPlaying)
    then Max(0.0, Min(1.0, (3.0 - cameraDistance) / 1.0))
    else 0.0
  }

  /** Closer is darker: the opacity never decreases as the camera approaches. */
  lemma OpacityAntitone(mode: ViewMode, isPlaying: bool, d1: real, d2: real)
    requires d1 <= d2
    ensures Opacity(mode, d1, isPlaying) >= Opacity(mode, d2, isPlaying)
  {
  }
}
