/**
 * The shared application store: one mutable record of view and playback
 * state, a one-field setter per field, and three derived actions
 * (toggle play, next track, previous track). Each action replaces only the
 * fields it names; the `StoreState` snapshot and the transition functions
 * over it are what the methods of `AppStore` are proved against.
 */
module Store {

  /** Every view-mode literal the components compare against. */
  datatype ViewMode = SHELF | FOCUS | ALBUM | TV | POSTER

  /** A static catalog entry. */
  datatype Track = Track(id: nat, title: string, artist: string, audioUrl: string, coverUrl: string)

  const TRACKS: seq<Track> := [
    Track(1, "Down Your Scope", "Unknown Artist",
          "/assets/tracks/Down Your Scope.wav", "/assets/tracks/Down Your Scope.png"),
    Track(2, "No Scope Ramp", "Unknown Artist",
          "/assets/tracks/No Scope Ramp.wav", "/assets/tracks/No Scope Ramp.jpeg"),
    Track(3, "Djno Djscope", "Unknown Artist",
          "/assets/tracks/Djno Djscope.wav", "/assets/tracks/Djno Djscope.png"),
    Track(4, "No Sk(ope)8", "Unknown Artist",
          "/assets/tracks/No Sk(ope)8.wav", "/assets/tracks/No Sk(ope)8.png")
  ]

  /** A snapshot of every field the store holds. */
  datatype StoreState = StoreState(
    viewMode: ViewMode,
    currentTrack: int,
    isPlaying: bool,
    volume: real,
    currentTime: real,
    duration: real,
    cameraDistance: real)

  const INITIAL_STATE: StoreState := StoreState(SHELF, 0, false, 0.7, 0.0, 0.0, 6.0)

  /** The state after `togglePlay`: only the play flag changes, and it flips. */
  function Toggled(s: StoreState): (r: StoreState)
    ensures r.isPlaying != s.isPlaying
    ensures r == s.(isPlaying := r.isPlaying)
  {
    s.(isPlaying := !s.isPlaying)
  }

  /** The state after `nextTrack`: the index moves up by one, with no upper bound. */
  function AfterNextTrack(s: StoreState): (r: StoreState)
    ensures r.currentTrack == s.currentTrack + 1
    ensures r == s.(currentTrack := r.currentTrack)
  {
    s.(currentTrack := s.currentTrack + 1)
  }

  /** The state after `prevTrack`: the index moves down by one but never below zero. */
  function AfterPrevTrack(s: StoreState): (r: StoreState)
    ensures r.currentTrack >= 0
    ensures s.currentTrack >= 1 ==> r.currentTrack == s.currentTrack - 1
    ensures s.currentTrack <= 0 ==> r.currentTrack == 0
    ensures r == s.(currentTrack := r.currentTrack)
  {
    s.(currentTrack := if s.currentTrack - 1 >= 0 then s.currentTrack - 1 else 0)
  }

  /** Toggling twice restores the original state. */
  lemma ToggleTwice(s: StoreState)
    ensures Toggled(Toggled(s)) == s
  {
  }

  /** From any non-negative index, stepping back after stepping forward restores the state. */
  lemma PrevAfterNext(s: StoreState)
    requires s.currentTrack >= 0
    ensures AfterPrevTrack(AfterNextTrack(s)) == s
  {
  }

  /** Stepping back at index 0 changes nothing. */
  lemma PrevAtFirstTrack(s: StoreState)
    requires s.currentTrack == 0
    ensures AfterPrevTrack(s) == s
  {
  }

  /** Stepping forward from the last catalog entry leaves the catalog. */
  lemma NextLeavesCatalog(s: StoreState)
    requires s.currentTrack == |TRACKS| - 1
    ensures !(0 <= AfterNextTrack(s).currentTrack < |TRACKS|)
  {
  }

  /** The catalog has four entries whose ids are their positions plus one. */
  lemma CatalogIds()
    ensures |TRACKS| == 4
    ensures forall i :: 0 <= i < |TRACKS| ==> TRACKS[i].id == i + 1
  {
  }

  /** The store itself: one object whose fields the actions replace. */
  class AppStore {
    var viewMode: ViewMode
    var currentTrack: int
    var isPlaying: bool
    var volume: real
    var currentTime: real
    var duration: real
    var cameraDistance: real

    function State(): StoreState
      reads this
    {
      StoreState(viewMode, currentTrack, isPlaying, volume, currentTime, duration, cameraDistance)
    }

    constructor ()
      ensures State() == INITIAL_STATE
    {
      viewMode := SHELF;
      currentTrack := 0;
      isPlaying := false;
      volume := 0.7;
      currentTime := 0.0;
      duration := 0.0;
      cameraDistance := 6.0;
    }

    method SetViewMode(mode: ViewMode)
      modifies this
      ensures State() == old(State()).(viewMode := mode)
    {
      viewMode := mode;
    }

    method SetCurrentTrack(track: int)
      modifies this
      ensures State() == old(State()).(currentTrack := track)
    {
      currentTrack := track;
    }

    method SetIsPlaying(playing: bool)
      modifies this
      ensures State() == old(State()).(isPlaying := playing)
    {
      isPlaying := playing;
    }

    /** Stores the argument as given: no clamping to [0, 1]. */
    method SetVolume(v: real)
      modifies this
      ensures State() == old(State()).(volume := v)
    {
      volume := v;
    }

    method SetCurrentTime(time: real)
      modifies this
      ensures State() == old(State()).(currentTime := time)
    {
      currentTime := time;
    }

    method SetDuration(d: real)
      modifies this
      ensures State() == old(State()).(duration := d)
    {
      duration := d;
    }

    method SetCameraDistance(distance: real)
      modifies this
      ensures State() == old(State()).(cameraDistance := distance)
    {
      cameraDistance := distance;
    }

    method TogglePlay()
      modifies this
      ensures State() == Toggled(old(State()))
    {
      isPlaying := !isPlaying;
    }

    method NextTrack()
      modifies this
      ensures State() == AfterNextTrack(old(State()))
    {
      currentTrack := currentTrack + 1;
    }

    method PrevTrack()
      modifies this
      ensures State() == AfterPrevTrack(old(State()))
    {
      currentTrack := if currentTrack - 1 >= 0 then currentTrack - 1 else 0;
    }
  }
}
