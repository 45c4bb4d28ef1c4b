/**
 * The transport panel: time formatting, visibility and opacity rules,
 * the derived track number and progress bar, and the two button handlers
 * that write to the store.
 */
module PlayerControls {
  import opened Store
  import opened JsText

  /** A JavaScript number as `formatTime` can receive it. */
  datatype JsNumber = NaN | Infinity(negative: bool) | Finite(value: real)

  /** `Math.trunc` on a finite value. */
  function Trunc(x: real): (t: int)
    ensures x >= 0.0 ==> t == x.Floor
    ensures x < 0.0 ==> t == -((-x).Floor)
  {
    if x >= 0.0 then x.Floor else -((-x).Floor)
  }

  /** JavaScript's `%` on finite values: the remainder takes the sign of the dividend. */
  function JsRemainder(x: real, m: real): real
    requires m > 0.0
  {
    x - m * (Trunc(x / m) as real)
  }

  /** The remainder lies strictly within one divisor of zero, on the dividend's side. */
  lemma RemainderSign(x: real, m: real)
    requires m > 0.0
    ensures x >= 0.0 ==> 0.0 <= JsRemainder(x, m) < m
    ensures x < 0.0 ==> -m < JsRemainder(x, m) <= 0.0
  {
    var q := x / m;
    var f := q - (Trunc(q) as real);
    var r := JsRemainder(x, m);
    assert r == m * f by {
      assert x == m * q;
    }
    if x >= 0.0 {
      assert q >= 0.0 by { assert q * m == x; }
      ScalePositive(m, f, r);
    } else {
      assert q < 0.0 by { assert q * m == x; }
      ScaleNegative(m, f, r);
    }
  }

  /** A non-negative fraction below one of a positive `m` lies in [0, m). */
  lemma ScalePositive(m: real, f: real, r: real)
    requires m > 0.0 && r == m * f && 0.0 <= f < 1.0
    ensures 0.0 <= r < m
  {
    assert m - r == m * (1.0 - f);
    assert m * (1.0 - f) > 0.0;
    assert m - r > 0.0;
  }

  /** A non-positive fraction above minus one of a positive `m` lies in (-m, 0]. */
  lemma ScaleNegative(m: real, f: real, r: real)
    requires m > 0.0 && r == m * f && -1.0 < f <= 0.0
    ensures -m < r <= 0.0
  {
    assert r + m == m * (f + 1.0);
    assert m * (f + 1.0) > 0.0;
    assert r + m > 0.0;
  }

  function Pad2(s: string): string { PadStart(s, 2, '0') }

  /** `Math.floor(seconds / 60)`. */
  function MinutesOf(s: real): int { (s / 60.0).Floor }

  /** `Math.floor(seconds % 60)`. */
  function SecondsOf(s: real): int { JsRemainder(s, 60.0).Floor }

  /** `formatTime`: minutes and seconds, each zero-padded to two characters. */
  function FormatTime(seconds: JsNumber): (r: string)
    ensures seconds == NaN ==> r == "00:00"
  {
    match seconds
    case NaN => "00:00"
    // Math.floor(±Infinity / 60) is ±Infinity, and ±Infinity % 60 is NaN.
    case Infinity(negative) => (if negative then "-Infinity" else "Infinity") + ":" + "NaN"
    case Finite(s) => Pad2(IntToString(MinutesOf(s))) + ":" + Pad2(IntToString(SecondsOf(s)))
  }

  /** At least two minute digits, a colon, then exactly two seconds digits. */
  predicate IsClockText(t: string)
  {
    |t| >= 5 && t[|t| - 3] == ':' && AllDigits(t[..|t| - 3]) && AllDigits(t[|t| - 2..])
  }

  /** Reads a formatted time back into whole seconds: minutes before the colon, two seconds digits after. */
  function ParseClock(t: string): int
    requires IsClockText(t)
  {
    ParseDigits(t[..|t| - 3]) * 60 + ParseDigits(t[|t| - 2..])
  }

  /** For a non-negative time the two fields are whole minutes and the 0..59 seconds left over. */
  lemma ClockFields(s: real)
    requires s >= 0.0
    ensures MinutesOf(s) >= 0 && 0 <= SecondsOf(s) < 60
    ensures MinutesOf(s) * 60 + SecondsOf(s) == s.Floor
  {
    var q := s / 60.0;
    var mins := q.Floor;
    assert 0.0 <= q && (mins as real) <= q < (mins as real) + 1.0;
    assert Trunc(q) == mins;
    var rem := JsRemainder(s, 60.0);
    assert rem == s - 60.0 * (mins as real);
    assert 60.0 * (mins as real) <= s < 60.0 * (mins as real) + 60.0 by {
      assert s == 60.0 * q;
    }
    FloorShift(s, 60 * mins);
  }

  lemma FloorShift(x: real, k: int)
    ensures (x - (k as real)).Floor == x.Floor - k
  {
  }

  /** For a non-negative time the text is the two padded decimal fields around a colon. */
  lemma FormatNonNegative(s: real)
    requires s >= 0.0
    ensures MinutesOf(s) >= 0 && SecondsOf(s) >= 0
    ensures FormatTime(Finite(s)) == ClockText(MinutesOf(s), SecondsOf(s))
  {
    ClockFields(s);
  }

  /** A text, a colon and a two-character text split back into the two texts. */
  lemma SliceClock(t: string, m: string, c: string)
    requires t == m + ":" + c && |c| == 2
    ensures |t| == |m| + 3 && t[|t| - 3] == ':' && t[..|t| - 3] == m && t[|t| - 2..] == c
  {
    assert t[..|t| - 3] == m;
    assert t[|t| - 2..] == c;
  }

  /** Any digit string, a colon and two digits read back field by field. */
  lemma SplitClock(t: string, m: string, c: string)
    requires AllDigits(m) && AllDigits(c) && |c| == 2 && |m| >= 2
    requires t == m + ":" + c
    ensures IsClockText(t)
    ensures ParseClock(t) == ParseDigits(m) * 60 + ParseDigits(c)
  {
    SliceClock(t, m, c);
  }

  /** Two digit fields holding `mins` and `secs`, the second two long, read back as `mins * 60 + secs`. */
  lemma ReadFields(m: string, c: string, mins: nat, secs: nat)
    requires AllDigits(m) && AllDigits(c) && |c| == 2 && |m| >= 2
    requires ParseDigits(m) == mins && ParseDigits(c) == secs
    ensures IsClockText(m + ":" + c) && ParseClock(m + ":" + c) == mins * 60 + secs
  {
    SplitClock(m + ":" + c, m, c);
  }

  /** The text `formatTime` builds from its two fields. */
  function ClockText(mins: nat, secs: nat): string
  {
    Pad2(NatToString(mins)) + ":" + Pad2(NatToString(secs))
  }

  lemma TwoDigitsAtMost(n: nat)
    requires n < 100
    ensures |NatToString(n)| <= 2
  {
    if n >= 10 {
      assert NatToString(n) == NatToString(n / 10) + [DigitChar(n % 10)];
    }
  }

  /** Two padded fields around a colon read back as `minutes * 60 + seconds` when the seconds are below 60. */
  lemma ClockTextRoundTrip(mins: nat, secs: nat)
    requires secs < 60
    ensures IsClockText(ClockText(mins, secs))
    ensures ParseClock(ClockText(mins, secs)) == mins * 60 + secs
  {
    PaddedField(mins);
    PaddedField(secs);
    ReadFields(Pad2(NatToString(mins)), Pad2(NatToString(secs)), mins, secs);
  }

  /** A padded field is all digits, at least two of them, exactly two below 100, and reads back as its value. */
  lemma PaddedField(n: nat)
    ensures var f := Pad2(NatToString(n));
            AllDigits(f) && ParseDigits(f) == n && |f| >= 2 && (n < 100 ==> |f| == 2)
  {
    if n < 100 {
      TwoDigitsAtMost(n);
    }
    PaddedNatRoundTrip(n, 2);
  }

  /** The seconds field has exactly two digits, and parsing the text gives back the whole seconds. */
  lemma FormatTimeRoundTrip(s: real)
    requires s >= 0.0
    ensures IsClockText(FormatTime(Finite(s)))
    ensures ParseClock(FormatTime(Finite(s))) == s.Floor
  {
    ClockFields(s);
    FormatNonNegative(s);
    ClockTextRoundTrip(MinutesOf(s), SecondsOf(s));
  }

  /** Sixty-five seconds read as one minute five. */
  lemma FormatTimeOneMinuteFive()
    ensures FormatTime(Finite(65.0)) == "01:05"
  {
    ClockFields(65.0);
    assert MinutesOf(65.0) == 1 && SecondsOf(65.0) == 5;
    FormatNonNegative(65.0);
    assert Pad2(NatToString(1)) == "01";
    assert Pad2(NatToString(5)) == "05";
  }

  /** Zero reads as all zeros. */
  lemma FormatTimeZero()
    ensures FormatTime(Finite(0.0)) == "00:00"
  {
    ClockFields(0.0);
    assert MinutesOf(0.0) == 0 && SecondsOf(0.0) == 0;
    FormatNonNegative(0.0);
    assert Pad2(NatToString(0)) == "00";
  }

  /** Padding never truncates: a hundred minutes keep all three digits. */
  lemma FormatTimeHundredMinutes()
    ensures FormatTime(Finite(6000.0)) == "100:00"
  {
    ClockFields(6000.0);
    assert MinutesOf(6000.0) == 100 && SecondsOf(6000.0) == 0;
    FormatNonNegative(6000.0);
    assert NatToString(100) == "100" by {
      assert NatToString(10) == "10";
    }
    assert Pad2("100") == "100";
    assert Pad2(NatToString(0)) == "00";
  }

  /** Controls are rendered only in these three modes. */
  predicate ShouldShowControls(mode: ViewMode)
  {
    mode == SHELF || mode == ALBUM || mode == TV
  }

  const FADE_START: real := 5.0
  const FADE_END: real := 2.0

  /** `calculateOpacity`: fully visible on the shelf, else a linear fade between distance 2 and 5. */
  function ControlsOpacity(mode: ViewMode, distance: real): (r: real)
    ensures 0.0 <= r <= 1.0
    ensures !ShouldShowControls(mode) ==> r == 0.0
    ensures mode == SHELF ==> r == 1.0
    ensures ShouldShowControls(mode) && mode != SHELF ==>
              (distance >= FADE_START ==> r == 1.0) &&
              (distance <= FADE_END ==> r == 0.0) &&
              (FADE_END < distance < FADE_START ==> r * 3.0 == distance - 2.0)
  {
    if !ShouldShowControls(mode) then 0.0
    else if mode == SHELF then 1.0
    else if distance >= FADE_START then 1.0
    else if distance <= FADE_END then 0.0
    else (distance - FADE_END) / (FADE_START - FADE_END)
  }

  /** Moving the camera away never makes the controls fainter. */
  lemma OpacityMonotone(mode: ViewMode, d1: real, d2: real)
    requires d1 <= d2
    ensures ControlsOpacity(mode, d1) <= ControlsOpacity(mode, d2)
  {
  }

  /** Pointer events are turned off below one tenth opacity. */
  predicate PointerEventsEnabled(opacity: real) { !(opacity < 0.1) }

  /** In the fading modes the controls take pointer events exactly from distance 2.3 on. */
  lemma PointerEventsThreshold(mode: ViewMode, distance: real)
    requires mode == ALBUM || mode == TV
    ensures PointerEventsEnabled(ControlsOpacity(mode, distance)) <==> distance >= 2.3
  {
  }

  /** The LCD track number: the one-based index, zero-padded to two characters. */
  function TrackNumber(currentTrack: int): (r: string)
    ensures currentTrack >= 0 ==> |r| >= 2 && AllDigits(r) && ParseDigits(r) == currentTrack + 1
    ensures 0 <= currentTrack < 9 ==> |r| == 2 && r[0] == '0'
  {
    var r := PadStart(IntToString(currentTrack + 1), 2, '0');
    if currentTrack >= 0 then PaddedNatRoundTrip(currentTrack + 1, 2); r else r
  }

  /** The first nine tracks are numbered "01" to "09". */
  lemma SingleDigitTrackNumber(currentTrack: int)
    requires 0 <= currentTrack < 9
    ensures TrackNumber(currentTrack) == ['0', DigitChar(currentTrack + 1)]
  {
    var d := DigitChar(currentTrack + 1);
    assert IntToString(currentTrack + 1) == [d];
    assert PadStart([d], 2, '0') == PadStart(['0', d], 2, '0') == ['0', d] by {
      assert ['0'] + [d] == ['0', d];
    }
  }

  /** The catalog entry whose title is shown: out-of-range indices fall back to the first track. */
  function DisplayedTrack(currentTrack: int): (t: Track)
    ensures t in TRACKS
    ensures 0 <= currentTrack < |TRACKS| ==> t == TRACKS[currentTrack]
    ensures !(0 <= currentTrack < |TRACKS|) ==> t == TRACKS[0]
  {
    if 0 <= currentTrack < |TRACKS| then TRACKS[currentTrack] else TRACKS[0]
  }

  /**
   * Inside the catalog the LCD number is the id of the track whose title is
   * shown; past its end the number keeps counting while the title stays on
   * the first track, so the two disagree.
   */
  lemma TrackNumberMatchesTitle(currentTrack: int)
    ensures 0 <= currentTrack < |TRACKS| ==>
              ParseDigits(TrackNumber(currentTrack)) == DisplayedTrack(currentTrack).id
    ensures currentTrack >= |TRACKS| ==>
              DisplayedTrack(currentTrack) == TRACKS[0] &&
              ParseDigits(TrackNumber(currentTrack)) == currentTrack + 1 != DisplayedTrack(currentTrack).id
  {
    CatalogIds();
  }

  /** Width of the progress bar in percent; 0 when the duration is 0. */
  function ProgressWidth(currentTime: real, duration: real): (r: real)
    ensures duration == 0.0 ==> r == 0.0
    ensures duration != 0.0 ==> r * duration == currentTime * 100.0
    ensures 0.0 <= currentTime <= duration ==> 0.0 <= r <= 100.0
  {
    if duration == 0.0 then 0.0 else (currentTime / duration) * 100.0
  }

  /** The state `handlePlay` leaves: starting playback from the shelf also switches to the album view. */
  function AfterHandlePlay(s: StoreState): (r: StoreState)
    ensures s.viewMode == SHELF && !s.isPlaying ==> r == s.(viewMode := ALBUM, isPlaying := true)
    ensures !(s.viewMode == SHELF && !s.isPlaying) ==> r == Toggled(s)
  {
    var s' := if s.viewMode == SHELF && !s.isPlaying then s.(viewMode := ALBUM) else s;
    Toggled(s')
  }

  /** The state `handleBack` leaves: back on the shelf, playback untouched. */
  function AfterHandleBack(s: StoreState): (r: StoreState)
    ensures r.viewMode == SHELF && r.isPlaying == s.isPlaying
    ensures r == s.(viewMode := SHELF)
  {
    s.(viewMode := SHELF)
  }

  /** Play then back from the shelf: the music keeps playing and the view is the shelf again. */
  lemma PlayThenBack(s: StoreState)
    requires s.viewMode == SHELF && !s.isPlaying
    ensures AfterHandleBack(AfterHandlePlay(s)) == s.(isPlaying := true)
  {
  }

  method HandleBack(store: AppStore)
    modifies store
    ensures store.State() == AfterHandleBack(old(store.State()))
  {
    store.SetViewMode(SHELF);
  }

  method HandlePlay(store: AppStore)
    modifies store
    ensures store.State() == AfterHandlePlay(old(store.State()))
  {
    if store.viewMode == SHELF && !store.isPlaying {
      store.SetViewMode(ALBUM);
    }
    store.TogglePlay();
  }
}
