# Rules of the virtual-room music player, in Dafny

This project models the parts of the browser 3D music player that follow
stateable rules rather than rendering:

- the **shared store** (`Store`): one mutable record of view mode, current
  track, play flag, volume, time, duration and camera distance, with a
  one-field setter per field plus `togglePlay`, `nextTrack` and `prevTrack`,
  and the four-entry track catalog;
- the **transport panel** (`PlayerControls`): `formatTime`, the visibility and
  opacity rules, the track number, the progress bar, and the play and back
  handlers;
- the **album cases** (`JewelCase`): focus, glow, animation targets, the click
  handler and the spinning disc;
- the **shelf layout** (`Shelf`): board and slot of each case;
- the **vignette overlay** (`Vignette`) and the **television visualizer
  selection** (`TVVisualizer`);
- the **runner side-game** (`DinoGame`): the game record, `jump`, the obstacle
  spawn, the collision test, and one frame of the game loop;
- cross-component consequences of the above (`Scenarios`).

The JavaScript string built-ins the display relies on (`toString` on an
integer, `padStart`) are in `JsText`, together with decimal parsing as their
inverse. `Common` holds `Option`, `Min` and `Max`.

Objects the source updates in place are classes: `Store.AppStore` (the store),
`DinoGame.Game` (the game record), `JewelCase.Disc` (the disc's rotation). Each
mutating method is proved against a pure function of the old state
(`Toggled`, `AfterNextTrack`, `Jumped`, `Ticked`, ...), and the lemmas state the
properties of those functions. The game record keeps the invariant
`DinoGame.Inv`: the dino never sinks below the ground and is at rest on it
whenever it is not jumping, every obstacle is one of the three spawned shapes
that has not scrolled off, and the speed equals `4 + 0.001 * score`.

Positions, speeds, distances, opacities and times are Dafny `real`s, and the
constants (0.8, -12, 4, 0.001, 0.45, 0.7, ...) are exact there. The model is
not bit-exact to JavaScript doubles: in JavaScript `-1.1 + 3 * 0.7` is not
exactly `1.0`, and some of the proved properties hold only in exact
arithmetic or only for numbers JavaScript prints without an exponent; the
lines under "Left out" that start with a member's name say which.

View mode is an enumeration of every literal the code compares against:
`SHELF`, `FOCUS`, `ALBUM`, `TV`, `POSTER`. A click on a case sets `FOCUS`
(src/components/JewelCase.jsx:73) while the play button sets `ALBUM`
(src/components/PlayerControls.jsx:55); the two are kept distinct, and
`Scenarios.ClickThenDelayedPlay` shows the consequence: after a click the
transport, whose modes are SHELF, ALBUM and TV, is not rendered at all.

The model follows the code throughout:
- a click on a case sets `FOCUS` (src/components/JewelCase.jsx:73), not `ALBUM`;
- `src/store.js` has no mute, dim or effective volume, and `setVolume` stores its argument unclamped (src/store.js:15);
- the store neither holds nor advances a visualizer type;
- `formatTime` special-cases only `NaN` (src/components/PlayerControls.jsx:4), so an infinite time renders as `Infinity:NaN`;
- the transport's back handler only sets the view mode (src/components/PlayerControls.jsx:47-50) and never stops playback.

## Model

| member | source | states |
|---|---|---|
| Store.Toggled | src/store.js:20 | `togglePlay` flips the play flag and changes no other field |
| Store.AfterNextTrack | src/store.js:21 | `nextTrack` raises the index by exactly one, with no upper bound, and changes no other field |
| Store.AfterPrevTrack | src/store.js:22 | `prevTrack` gives `max(0, index - 1)`: never negative, one lower from 1 up, 0 otherwise; no other field changes |
| Store.ToggleTwice | src/store.js:20 | toggling twice restores the whole state |
| Store.PrevAfterNext | src/store.js:21-22 | for a non-negative index, previous after next restores the state |
| Store.PrevAtFirstTrack | src/store.js:22 | previous at index 0 is a no-op |
| Store.NextLeavesCatalog | src/store.js:21-54 | next from the last catalog entry yields an index outside the catalog |
| Store.CatalogIds | src/store.js:25-54 | the catalog has four entries with ids 1..4 in order |
| Store.AppStore.constructor | src/store.js:4-10 | initial state: SHELF, track 0, not playing, volume 0.7, time 0, duration 0, distance 6 |
| Store.AppStore.SetViewMode | src/store.js:12 | replaces the view mode only |
| Store.AppStore.SetCurrentTrack | src/store.js:13 | replaces the track index only |
| Store.AppStore.SetIsPlaying | src/store.js:14 | replaces the play flag only |
| Store.AppStore.SetVolume | src/store.js:15 | stores the argument unclamped, nothing else changes |
| Store.AppStore.SetCurrentTime | src/store.js:16 | replaces the elapsed time only |
| Store.AppStore.SetDuration | src/store.js:17 | replaces the duration only |
| Store.AppStore.SetCameraDistance | src/store.js:18 | replaces the camera distance only |
| Store.AppStore.TogglePlay | src/store.js:20 | new state is `Toggled` of the old |
| Store.AppStore.NextTrack | src/store.js:21 | new state is `AfterNextTrack` of the old |
| Store.AppStore.PrevTrack | src/store.js:22 | new state is `AfterPrevTrack` of the old |
| JsText.NatToString | src/components/PlayerControls.jsx:7 | decimal rendering: at least one digit, one digit exactly below 10, no leading zero |
| JsText.IntToString | src/components/PlayerControls.jsx:7 | `toString` of an integer is integer text, all digits exactly for non-negative integers, a minus sign and at least one digit otherwise |
| JsText.ParseIntToString | src/components/PlayerControls.jsx:7 | reading `toString(n)` back gives `n` for every integer, negative ones included |
| JsText.IntToStringInjective | src/components/PlayerControls.jsx:7 | distinct integers render as distinct text |
| JsText.PadStart | src/components/PlayerControls.jsx:7 | `padStart`: result is `max(len, width)` long, ends with the input, and is fill before it; never truncates |
| JsText.ParseNatToString | src/components/PlayerControls.jsx:7 | parsing the decimal rendering gives the number back |
| JsText.ParseLeadingZero | src/components/PlayerControls.jsx:7 | a leading zero does not change the parsed value |
| JsText.ParsePadStart | src/components/PlayerControls.jsx:7 | zero padding does not change the parsed value |
| JsText.PaddedNatRoundTrip | src/components/PlayerControls.jsx:7 | zero-padded rendering of a natural number parses back to it |
| PlayerControls.RemainderSign | src/components/PlayerControls.jsx:6 | JavaScript's `%` by a positive divisor lies in [0, m) for a non-negative dividend and in (-m, 0] for a negative one |
| PlayerControls.FormatTime | src/components/PlayerControls.jsx:3-8 | `formatTime(NaN)` is `00:00`; infinite and finite inputs follow the floor/remainder/padding rules |
| PlayerControls.MinutesOf | src/components/PlayerControls.jsx:5 | `Math.floor(seconds / 60)` (a plain definition; `ClockFields` states its range) |
| PlayerControls.SecondsOf | src/components/PlayerControls.jsx:6 | `Math.floor(seconds % 60)` with JavaScript's truncating `%` (a plain definition; `ClockFields` states its range) |
| PlayerControls.JsRemainder | src/components/PlayerControls.jsx:6 | JavaScript's `%`: the dividend minus the divisor times the truncated quotient (a plain definition; `RemainderSign` states its range) |
| PlayerControls.ClockFields | src/components/PlayerControls.jsx:5-6 | for time >= 0: minutes `floor(s/60)` are non-negative, seconds `floor(s % 60)` lie in 0..59, and minutes*60+seconds is `floor(s)` |
| PlayerControls.FormatNonNegative | src/components/PlayerControls.jsx:5-7 | for time >= 0 the text is the two fields in decimal, each zero-padded, around a colon |
| PlayerControls.PaddedField | src/components/PlayerControls.jsx:7 | a zero-padded field is all digits, at least two of them, exactly two below 100, and reads back as its value |
| PlayerControls.SplitClock | src/components/PlayerControls.jsx:7 | digits, a colon and two digits form clock text, which reads back field by field |
| PlayerControls.ClockTextRoundTrip | src/components/PlayerControls.jsx:7 | padded minutes, a colon and padded seconds below 60 read back as minutes*60+seconds |
| PlayerControls.FormatTimeRoundTrip | src/components/PlayerControls.jsx:5-7 | for time >= 0 the text is `<minutes>:<two digits>` and reads back as `floor(s)` seconds |
| PlayerControls.FormatTimeOneMinuteFive | src/components/PlayerControls.jsx:3-8 | 65 seconds give `01:05` |
| PlayerControls.FormatTimeZero | src/components/PlayerControls.jsx:3-8 | 0 seconds give `00:00` |
| PlayerControls.FormatTimeHundredMinutes | src/components/PlayerControls.jsx:3-8 | 6000 seconds give `100:00`: padding never truncates |
| PlayerControls.ShouldShowControls | src/components/PlayerControls.jsx:30 | controls are rendered exactly in SHELF, ALBUM and TV (a plain predicate; `ControlsOpacity` states its consequences) |
| PlayerControls.ControlsOpacity | src/components/PlayerControls.jsx:30-43 | in [0,1]; 0 outside SHELF/ALBUM/TV; 1 on SHELF; else 1 from distance 5, 0 up to 2, `(d-2)/3` between |
| PlayerControls.OpacityMonotone | src/components/PlayerControls.jsx:37-42 | opacity is non-decreasing in camera distance |
| PlayerControls.PointerEventsEnabled | src/components/PlayerControls.jsx:67 | pointer events stay on unless the opacity is below 0.1 (a plain predicate; `PointerEventsThreshold` states its consequence) |
| PlayerControls.PointerEventsThreshold | src/components/PlayerControls.jsx:67 | in ALBUM and TV the controls take pointer events exactly when the distance is at least 2.3 |
| PlayerControls.TrackNumber | src/components/PlayerControls.jsx:76 | for index >= 0: at least two digits, reads back as index + 1; below 9 it is `0` and one digit |
| PlayerControls.SingleDigitTrackNumber | src/components/PlayerControls.jsx:76 | indices 0..8 show `01` to `09` |
| PlayerControls.DisplayedTrack | src/components/PlayerControls.jsx:27 | always a catalog entry: the one at the index, or the first one when the index is out of range |
| PlayerControls.TrackNumberMatchesTitle | src/components/PlayerControls.jsx:27-78 | inside the catalog the LCD number is the id of the track whose title is shown; past its end the number keeps counting while the title stays on the first track, so they disagree |
| PlayerControls.ProgressWidth | src/components/PlayerControls.jsx:89 | 0 when the duration is 0; otherwise width*duration is time*100; within [0,100] when time is within [0,duration] |
| PlayerControls.AfterHandlePlay | src/components/PlayerControls.jsx:52-58 | from SHELF while paused: ALBUM and playing; in every other case only the play flag flips |
| PlayerControls.AfterHandleBack | src/components/PlayerControls.jsx:47-50 | view becomes SHELF, play flag and all else unchanged |
| PlayerControls.PlayThenBack | src/components/PlayerControls.jsx:47-58 | play from the shelf then back: shelf again, still playing |
| PlayerControls.HandleBack | src/components/PlayerControls.jsx:47-50 | the store's new state is `AfterHandleBack` of the old |
| PlayerControls.HandlePlay | src/components/PlayerControls.jsx:52-58 | the store's new state is `AfterHandlePlay` of the old |
| Shelf.ShelfY | src/components/Shelf.jsx:37 | the looked-up board height is always a table entry and never 0, the middle board's own height |
| Shelf.ShelfAndPosition | src/components/Shelf.jsx:34-40 | slot `index % 4` in [0,4) with `index = 4*shelf + slot`; x is `-1.1 + 0.7*slot`, y is board height + 0.45, z is 0.15 |
| Shelf.ShelfHeights | src/components/Shelf.jsx:28-37 | board 0 at 1.2, board 1 also at 1.2 (0 is falsy), board 2 at -1.2, boards past the table at 1.2 |
| Shelf.SlotsIncreaseAlongShelf | src/components/Shelf.jsx:35-39 | on one board, a higher index sits strictly further right at the same height |
| Shelf.CatalogLayout | src/components/Shelf.jsx:34-40 | the four catalog cases sit on the top board at strictly increasing x |
| Shelf.SecondShelfOverlapsFirst | src/components/Shelf.jsx:28-39 | as written, case 4 gets exactly case 0's position |
| Shelf.IntendedShelfAndPosition | src/components/Shelf.jsx:34-40 | the layout with each board at its own table height |
| Shelf.IntendedSlotsDistinct | src/components/Shelf.jsx:28-40 | with the intended lookup the twelve slots of the three boards are pairwise distinct |
| Shelf.IntendedAgreesOffSecondShelf | src/components/Shelf.jsx:37 | the intended and written layouts agree except on board 1 |
| JewelCase.IsFocused | src/components/JewelCase.jsx:23 | focused exactly in FOCUS mode on the current track (a plain predicate; `FocusIsExclusive` states its consequence) |
| JewelCase.IsThisTrack | src/components/JewelCase.jsx:24 | the case is the current track (a plain predicate; it gates the disc's rotation in `Disc.OnFrame`) |
| JewelCase.ShowGlow | src/components/JewelCase.jsx:25 | glow exactly on the shelf view (a plain predicate; `ClickFocusesOnlyThisCase` states that a click turns it off) |
| JewelCase.TargetPosition | src/components/JewelCase.jsx:27-29 | (0, 0.5, 3) when focused, otherwise the case's own slot |
| JewelCase.TargetScale | src/components/JewelCase.jsx:35 | 2.5 when focused whatever the hover, else 1.15 when hovered, else 1; never below 1 |
| JewelCase.FocusIsExclusive | src/components/JewelCase.jsx:23 | a focused case has the current index and the mode is FOCUS, so at most one case is focused |
| JewelCase.FocusLeavesShelf | src/components/JewelCase.jsx:27-29 | the focus target is never a shelf slot |
| JewelCase.AfterClick | src/components/JewelCase.jsx:68-77 | outside SHELF nothing changes and nothing is scheduled; on SHELF the index and FOCUS are set and playback is scheduled |
| JewelCase.ClickFocusesOnlyThisCase | src/components/JewelCase.jsx:23-75 | after a click on the shelf, this case alone is focused and the glow is off |
| JewelCase.ClickIdempotent | src/components/JewelCase.jsx:70-76 | a second click, on any case, changes nothing |
| JewelCase.HandleClick | src/components/JewelCase.jsx:68-77 | the store's new state and the scheduled flag are `AfterClick` of the old state |
| JewelCase.Disc.OnFrame | src/components/JewelCase.jsx:24-56 | the rotation changes only for a mounted disc while playing and `IsThisTrack(currentTrack, index)` holds, by `-2*delta`, and never increases for delta >= 0 |
| Vignette.Opacity | src/components/VignetteOverlay.jsx:9-13 | in [0,1]; 0 unless ALBUM, distance <= 3 and playing; when shown, `3 - d` from distance 2 and 1 below |
| Vignette.ShouldShow | src/components/VignetteOverlay.jsx:9 | shown exactly in ALBUM, with the camera within distance 3, while playing (a plain predicate; `Vignette.Opacity` states its consequences) |
| Vignette.OpacityAntitone | src/components/VignetteOverlay.jsx:9-13 | moving closer never lightens the vignette, across the show/hide boundary too |
| TVVisualizer.SelectVisualizer | src/components/visualizers/TVVisualizer.jsx:42-53 | types 1, 2, 3 pick waveform, patterns, shader; 0 and every other value pick the bars |
| TVVisualizer.Render | src/components/visualizers/TVVisualizer.jsx:22-54 | hidden exactly outside TV or while the game is active; placeholder exactly when not playing or not initialized, whatever the type; otherwise the selected routine |
| TVVisualizer.Label | src/components/visualizers/TVVisualizer.jsx:56-76 | a name exactly for types 0..3 |
| TVVisualizer.LabelMatchesSelection | src/components/visualizers/TVVisualizer.jsx:42-76 | a shown label names the routine drawn; with no label the bars are drawn |
| TVVisualizer.SelectionCoversTable | src/components/visualizers/TVVisualizer.jsx:42-50 | each of the four routines is selected by some type in 0..3, and no two types in 0..3 select the same routine |
| DinoGame.ObstacleKind.Width | src/components/DinoGame.jsx:96-100 | the three obstacle widths 15, 20, 25, all positive |
| DinoGame.ObstacleKind.Height | src/components/DinoGame.jsx:96-100 | the three obstacle heights 25, 35, 20, all positive |
| DinoGame.CheckCollision | src/components/DinoGame.jsx:110-117 | `checkCollision`: strict overlap on both axes (a plain predicate; the three lemmas below state its meaning) |
| DinoGame.CollisionSymmetric | src/components/DinoGame.jsx:110-117 | swapping the two boxes gives the same answer |
| DinoGame.TouchingIsNoCollision | src/components/DinoGame.jsx:110-117 | boxes meeting only at an edge do not collide |
| DinoGame.CollisionIsSharedInterior | src/components/DinoGame.jsx:110-117 | for boxes of positive size the test holds exactly when their interiors share a point |
| DinoGame.SpawnObstacle | src/components/DinoGame.jsx:95-108 | a spawned obstacle starts at x 310, rests on the ground line 120, with size (15,25), (20,35) or (25,20) |
| DinoGame.Fall | src/components/DinoGame.jsx:141-150 | after gravity the dino is never below `120 - height`; when the clamp fires velocity is 0 and jumping is off; otherwise plain gravity integration |
| DinoGame.Shifted | src/components/DinoGame.jsx:160-161 | every obstacle's x drops by exactly the speed, order and count kept |
| DinoGame.Survivors | src/components/DinoGame.jsx:160-169 | the filter never keeps more obstacles than it is given |
| DinoGame.SurvivorsMembers | src/components/DinoGame.jsx:160-169 | the kept obstacles are exactly those with `x + width > 0` |
| DinoGame.SurvivorsAppend | src/components/DinoGame.jsx:160-169 | filtering distributes over concatenation, so survivors keep their original order |
| DinoGame.FilterStep | src/components/DinoGame.jsx:159-169 | one more obstacle moved: appended to the survivors if visible, and a hit iff it or an earlier one overlaps |
| DinoGame.MoveObstacles | src/components/DinoGame.jsx:159-169 | the loop's kept list is the survivors of the moved obstacles, and its hit flag is set iff a moved obstacle overlaps the dino |
| DinoGame.HitOnlySurvivors | src/components/DinoGame.jsx:163-168 | a dino right of the left edge collides only with obstacles the filter keeps |
| DinoGame.WithSpawn | src/components/DinoGame.jsx:152-157 | at most one obstacle is added per frame, at the end of the list |
| DinoGame.Jumped | src/components/DinoGame.jsx:37-59 | running and grounded: velocity -12 and jumping; running and jumping: nothing changes; not running: full reset with no impulse |
| DinoGame.Ticked | src/components/DinoGame.jsx:119-174 | no-op when stopped; otherwise score +1 and speed +0.001 even on the fatal frame, the dino is `Fall` of the old one, the obstacles are the survivors of the shifted list with at most one spawned at its end, all kept obstacles visible, running stops iff a moved obstacle overlaps, never restarts |
| DinoGame.InitialInv | src/components/DinoGame.jsx:20-33 | the initial record satisfies the game invariant |
| DinoGame.JumpOnlyFromGround | src/components/DinoGame.jsx:39-42 | an impulse is applied only to a dino at rest on the ground |
| DinoGame.JumpPreservesInv | src/components/DinoGame.jsx:37-59 | `jump` preserves the game invariant |
| DinoGame.TickPreservesInv | src/components/DinoGame.jsx:119-174 | a frame preserves the game invariant: ground, obstacle shapes and range, speed tied to score |
| DinoGame.TicksMonotone | src/components/DinoGame.jsx:171-174 | score and speed never decrease over a frame, and speed stays at least 4 |
| DinoGame.Game.constructor | src/components/DinoGame.jsx:20-33 | the record starts (and is reset on opening) at dino (40, 90), velocity 0, no obstacles, score 0, speed 4, running |
| DinoGame.Game.Jump | src/components/DinoGame.jsx:37-59 | the record's new state is `Jumped` of the old, invariant kept |
| DinoGame.Game.Tick | src/components/DinoGame.jsx:119-174 | the record's new state is `Ticked` of the old, invariant kept |
| Scenarios.ClickThenDelayedPlay | src/components/JewelCase.jsx:68-77 | after a shelf click and the delayed play: case focused and playing, transport not rendered, vignette off |
| Scenarios.PlayFromShelfNearCamera | src/components/PlayerControls.jsx:52-58 | play from the shelf leads to ALBUM, where no case is focused; within distance 2 the vignette is full and the controls at 0 |
| Scenarios.PauseClearsVignette | src/components/VignetteOverlay.jsx:9-13 | pausing through the play button clears the vignette |
| Scenarios.InitialPlayShowsNoVisualizer | src/components/visualizers/TVVisualizer.jsx:22-24 | playing from the initial state draws no visualizer, as the view is not TV |
| Scenarios.NextPastCatalog | src/components/PlayerControls.jsx:27-78 | next from track index 3 shows number `05` with the first track's title |

## Findings

| source | as written | input that shows it | evidently intended | confidence | as-written member | corrected member |
|---|---|---|---|---|---|---|
| src/components/Shelf.jsx:37 | `shelfYPositions[shelfIndex] \|\| shelfYPositions[0]` treats the middle board's height 0 as missing, so board 1 uses board 0's height | index 4 (board 1, slot 0) gets position (-1.1, 1.65, 0.15), the same as index 0 | each of the three boards at its own height (1.2, 0, -1.2), falling back only past the table; latent with the four-track catalog | high, not executed | Shelf.SecondShelfOverlapsFirst | Shelf.IntendedSlotsDistinct |

`Shelf.ShelfAndPosition` models the code as written and is what the rest of the
model uses for the catalog; `Shelf.IntendedAgreesOffSecondShelf` shows that the
two layouts coincide for the four catalog cases.

## Left out

- Drawing: canvas painting, the three.js scene (`src/components/Scene.jsx`), the four visualizer draw routines, lights, textures, the poster, camera interpolation and the per-frame position/scale lerps, hover cursor styling and the glow pulse of the cases.
- Input plumbing of the game: key, click and touch listeners, `requestAnimationFrame`, `closeGame`, and the publication of the score through `setDinoGameScore`, which the store does not define.
- Spawn timing of the game: `Date.now()` and `Math.random()` decide when an obstacle appears and which type; `Game.Tick` receives that decision as its `spawn` argument.
- `src/components/AudioManager.jsx`, `useAudioAnalyzer.js`, `PosterInfo.jsx`, `App.jsx` and the build configuration are not part of this model (media element I/O, audio analysis, presentation).
- Fields and actions components read but `src/store.js` does not define (`isMuted`, `isDimmed`, `toggleMute`, `toggleDim`, `visualizerType`, `dinoGameActive`, `analyzerData`) are free inputs: `visualizerType` is an `Option<int>` whose `None` stands for `undefined`, the others are plain booleans; non-integer visualizer types are not modelled.
- Store times and distances are reals, so `NaN` durations or times are not modelled there; `FormatTime` alone takes a JavaScript number with `NaN` and the infinities.
- JewelCase.HandleClick: the 100 ms timer is a returned `playScheduled` flag; what else happens to the store during those 100 ms is not modelled.
- PlayerControls.HandlePlay: reads the store's current fields, where the component reads the values captured at its last render; the two differ only for a stale render.
- JewelCase.HandleClick: likewise tests the store's current view mode, where the component tests the `viewMode` captured at its last render (src/components/JewelCase.jsx:71); the two differ only for a stale render.
- JewelCase.Disc.OnFrame: whether the disc is mounted (it is rendered only while the case is focused, src/components/JewelCase.jsx:139) is a parameter.
- The constant target rotation of the cases (zero whether focused or not) is not modelled.
- Floating point: all arithmetic is exact real arithmetic, not IEEE doubles.
- PlayerControls.PointerEventsThreshold: the cut at distance 2.3 holds in exact arithmetic only; in doubles `(2.3 - 2) / 3` is just below 0.1, so at distance exactly 2.3 the program turns pointer events off where the lemma says they are on.
- PlayerControls.ProgressWidth: `width * duration == time * 100` holds in exact arithmetic only; in doubles the quotient is rounded, so the product can miss `time * 100` in the last bits (time 1.11 and duration 3 is such a case).
- JsText.IntToString: JavaScript writes numbers of magnitude 1e21 and more in exponent notation (`1e+21`); the model always writes plain digits, so `PlayerControls.FormatTime`, its round trip `PlayerControls.FormatTimeRoundTrip` and `PlayerControls.TrackNumber` do not capture the program's text for minutes or track numbers that large.
- DinoGame.Inv: the link `gameSpeed == 4 + 0.001 * score` holds in exact arithmetic only; in doubles the speed accumulated by repeated `+= 0.001` drifts from `4 + 0.001 * score`.
