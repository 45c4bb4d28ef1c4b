/**
 * Properties that span several components reading the same store:
 * what the transport, the vignette, the cases and the television show
 * after the user's interactions.
 */
module Scenarios {
  import opened Common
  import opened Store
  import PlayerControls
  import JewelCase
  import Vignette
  import TVVisualizer
  import JsText

  /**
   * Clicking a case on the shelf and letting the delayed play fire: the case
   * is focused and playing, and since FOCUS is not one of the transport's
   * modes the controls disappear, together with their back button.
   */
  lemma ClickThenDelayedPlay(s: StoreState, index: int, distance: real)
    requires s.viewMode == SHELF
    ensures var o := JewelCase.AfterClick(s, index);
            var t := o.state.(isPlaying := true);
            o.playScheduled &&
            JewelCase.IsFocused(t.viewMode, t.currentTrack, index) && t.isPlaying &&
            !PlayerControls.ShouldShowControls(t.viewMode) &&
            PlayerControls.ControlsOpacity(t.viewMode, distance) == 0.0 &&
            Vignette.Opacity(t.viewMode, distance, t.isPlaying) == 0.0
  {
  }

  /**
   * Pressing play on the shelf moves to ALBUM, not FOCUS: no case counts as
   * focused, and close to the camera the vignette covers the scene while
   * the controls have faded out.
   */
  lemma PlayFromShelfNearCamera(s: StoreState, index: int)
    requires s.viewMode == SHELF && !s.isPlaying && s.cameraDistance <= 2.0
    ensures var t := PlayerControls.AfterHandlePlay(s);
            !JewelCase.IsFocused(t.viewMode, t.currentTrack, index) &&
            Vignette.Opacity(t.viewMode, t.cameraDistance, t.isPlaying) == 1.0 &&
            PlayerControls.ControlsOpacity(t.viewMode, t.cameraDistance) == 0.0
  {
  }

  /** Pausing through the play button removes the vignette at once. */
  lemma PauseClearsVignette(s: StoreState)
    requires s.isPlaying
    ensures var t := PlayerControls.AfterHandlePlay(s);
            !t.isPlaying && Vignette.Opacity(t.viewMode, t.cameraDistance, t.isPlaying) == 0.0
  {
  }

  /** From the initial state, starting playback never draws a visualizer: the view is not the TV. */
  lemma InitialPlayShowsNoVisualizer(dinoGameActive: bool, isInitialized: bool, visualizerType: Option<int>)
    ensures var t := PlayerControls.AfterHandlePlay(INITIAL_STATE);
            t.viewMode == ALBUM && t.isPlaying &&
            TVVisualizer.Render(t.viewMode, dinoGameActive, t.isPlaying, isInitialized, visualizerType)
              == TVVisualizer.Hidden
  {
  }

  /** Walking past the end of the catalog: the LCD shows "05" while the title falls back to the first track. */
  lemma NextPastCatalog(s: StoreState)
    requires s.currentTrack == 3
    ensures var t := AfterNextTrack(s);
            PlayerControls.TrackNumber(t.currentTrack) == "05" &&
            PlayerControls.DisplayedTrack(t.currentTrack) == TRACKS[0]
  {
    var t := AfterNextTrack(s);
    PlayerControls.SingleDigitTrackNumber(t.currentTrack);
    assert JsText.DigitChar(5) == '5';
  }
}
