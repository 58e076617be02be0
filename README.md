# Playlist path: a Dafny model

The playlist draws its tracks as a chain of segments on a canvas. Each track is one segment. Its length is
the whole seconds of the track's duration plus a base length, and it leans left or right by a per-track
random angle. A click on a track's node plays or pauses that track. A click on a segment seeks to the
clicked fraction of it. Dragging pans the canvas, and hovering marks the node or segment under the pointer.

This project models that core:

- **Shared:** `Wrappers` (`wrappers.dfy`): the `Option` datatype.
- **Helpers:**
  - `PlMath` (`pl_math.dfy`): rotation about a pivot, the bounding box of two points, the
    inclusive point-in-box test and the point-near-line test.
  - `PlFormat` (`pl_format.dfy`): the "mm:ss/mm:ss" time display.
- **The `Playlist` object:**
  - `playlist_tracks.dfy`: the track records and the playback state machine (`toggleTrack`, `trackSeek`,
    `setVolume`, and the stroke choices of `drawConnection`), as functions on the sequence of tracks.
  - `playlist_layout.dfy`: the layout computed by `draw`.
  - `playlist_hit_test.dfy`: `findPoint`, `findConnection`, and the node-before-segment dispatch of the
    pointer handlers.
  - `playlist_view.dfy`: the class `Playlist`, whose methods update the track array and the fields
    `_currentTrack`, `_metaDataLoaded`, `_mouseDown`, `_oldClient`, `_translate` and `_points` in place.

### Modelling choices

- **Numbers:** coordinates, times and volumes are reals. The source's `~~` (truncation) appears only on
  non-negative values, so it is the floor there.
- **Trigonometry:**
  - `Math.cos` and `Math.sin` of a track's angle are inputs: a pair `Trig(cos, sin)`. `LoadedMetaData`
    receives them with the random values, and the object keeps them in the field `cosSin`.
  - `IsCosSinOf` ties each pair to the angle range that `rand` selects: unit length, positive cosine, and
    the sign and size of the sine.
  - The angle itself is `AngleDegrees`.
- **Line test:** `isPointOnLine` projects onto the unit direction and compares a square-rooted distance.
  The model computes the same projection foot with the squared length and compares the squares. Its
  contract is the exact closed form `cross(t - p1, p2 - p1)^2 <= error^2 * |p2 - p1|^2`, with
  `error >= 0`.
- **Track state:** the audio element of a track is represented by three fields of its record: `paused`,
  `currentTime` and `volume`. `cursorOnTrack` is `None` where the source has `false`.

### Invariants

- **Playback invariant (`Synced`):** every track other than `_currentTrack` is paused at position 0. Every
  handler keeps it, and it implies that at most one track plays. It is also what lets a plain
  `toggleTrack` on a playing track pause it without breaking the invariant: that track must be the
  current one.
- **Layout invariant (`NonDegenerate`):** no two consecutive nodes share an x or a y coordinate. This
  keeps every division in `findConnection` defined. `LayoutNonDegenerate` proves that `draw`'s layout
  always meets it.

### Behaviour of the code worth noting

- **Layout with no tracks:** the layout loop places the closing node at the end-point variable `e`, whose
  initial value is (0, 0) (playlist.js:521, 558), so on its own it would give the single node (0, 0), not
  START. `draw` itself never gets there without tracks: it first paints the background noise, which reads
  `_tracks[i % _tracks.length]` (playlist.js:535, 667) and throws when there are none. It is also never
  called then, because without audio elements no `loadedmetadata` event arrives. `Draw` therefore
  requires at least one track.
- **Hint stroke:** the constant misspelled in `drawConnection` (`CONN_WDITH`, playlist.js:615) is the
  hint's stroke width. Its colour is the correctly named `CURSOR_HINT`.
- **Segment progress:** `findConnection` takes the mean of the two per-axis fractions
  (playlist.js:156-161), not the projection parameter that `isPointOnLine` computes.
  `ProgressAlongSegment` shows that the two agree for points exactly on the segment.

## Model

| member | source | states |
|---|---|---|
| PlMath.Rotated | playlist-lib-help.js:13-18 | the rotation leaves the pivot where it is, and the identity rotation (cos 1, sin 0) leaves every point where it is |
| PlMath.RotatePoint | playlist-lib-help.js:12-21 | `rotatePoint` overwrites `p` with its rotation about `fixP`, returns the very object `p`, and leaves `fixP` unchanged |
| PlMath.RotatedKeepsDistance | playlist-lib-help.js:13-18 | when cos^2 + sin^2 = 1, the rotated point is as far from the pivot as the original |
| PlMath.RotatedInverse | playlist-lib-help.js:13-18 | rotating back with the sine negated restores the original point |
| PlMath.GetMaxAndMin | playlist-lib-help.js:30-53 | pMin <= pMax on both axes, and on each axis the pair (pMin, pMax) is the two input coordinates in some order |
| PlMath.IsPointInBox | playlist-lib-help.js:63-67 | true iff on each axis `t` lies between the two corners, both ends included |
| PlMath.InBoxSymmetric | playlist-lib-help.js:63-67 | the box test ignores the order of the corners, and it accepts each corner |
| PlMath.IsPointOnLine | playlist-lib-help.js:78-98 | true iff error >= 0 and the squared distance from `t` to the infinite line through `p1` and `p2` is at most error^2, in the closed form cross^2 <= error^2 * length^2 |
| PlMath.FootDistance | playlist-lib-help.js:91-95 | the squared distance from a point to its unclamped projection foot, times the squared line length, equals the squared cross product |
| PlMath.CollinearIsOnLine | playlist-lib-help.js:84-97 | every point `p1 + k(p2 - p1)` is accepted for any real k, also outside [0, 1], and any error >= 0 |
| PlFormat.Decimal | playlist-lib-help.js:126-137 | the decimal text of a whole number is made of digits, is one character long iff the number is below 10, and is at most two characters long below 100 |
| PlFormat.ValueOfDecimal | playlist-lib-help.js:126-137 | reading the decimal text back gives the number |
| PlFormat.Padded | playlist-lib-help.js:126-137 | a field is all digits, at least two characters long, exactly two below 100, and reads back as the number |
| PlFormat.ClockOf | playlist-lib-help.js:114-124 | the seconds are below 60, and minutes * 60 + seconds is the whole seconds of the time |
| PlFormat.Time | playlist-lib-help.js:113-139 | the display is at least 11 characters long; for times below 100 minutes it is exactly "mm:ss/mm:ss", with ':' at 2 and 8 and '/' at 5 |
| PlFormat.TimeRoundTrip | playlist-lib-help.js:113-139 | `time` splits into four fields at '/' and ':'; seconds fields are two digits in 00..59, minutes fields have at least two digits; each clock reads back as the whole seconds of `current` and of `duration` |
| PlaylistTracks.Unhovered | playlist.js:361-364 | a cleared track is hovered neither on its node nor on its segment, and its playback state, volume and metadata are kept |
| PlaylistTracks.SyncedAtMostOnePlaying | playlist.js:257-266 | under the playback invariant at most one track plays |
| PlaylistTracks.PlayOnly | playlist.js:256-267 | after the play branch exactly the chosen track plays, keeping its position; every other track is paused at 0; settings are unchanged |
| PlaylistTracks.Toggled | playlist.js:255-271 | a play leaves `k` playing at its position and every other track paused at 0; a pause leaves `k` paused at its position and every other track as it was; settings never change |
| PlaylistTracks.ToggledCurrent | playlist.js:255-271 | the new current track is `k` or the old one, and it is `k` iff the toggle plays (`keepPlaying` or `k` paused) or `k` already was current |
| PlaylistTracks.ToggleOutcome | playlist.js:255-271 | both branches of `toggleTrack`: the play branch makes `k` the only playing track and rewinds the others; the pause branch changes only `k`'s paused flag; either way the invariant holds for the new current track |
| PlaylistTracks.ToggleTwice | playlist.js:255-271 | toggling the current track twice without `keepPlaying` restores every track |
| PlaylistTracks.Seeked | playlist.js:279-282 | after a seek the track plays at duration * progress, every other track is paused at 0, and settings are unchanged |
| PlaylistTracks.SeekWithinTrack | playlist.js:279-282 | a seek to a progress in [0, 1] lands between 0 and the track's duration |
| PlaylistTracks.WithVolume | playlist.js:289-297 | a volume outside [0, 1] changes nothing; any other becomes the volume of every track and of nothing else; volumes stay in [0, 1] |
| PlaylistTracks.ProgressBarOnCurrentOnly | playlist.js:587 | under the playback invariant the progress bar is drawn on the current track's segment and on no other |
| PlaylistTracks.StyleOf | playlist.js:579-607 | segment i is stroked as played iff i < `_currentTrack`; its progress bar is drawn iff its track plays or it is the current one; the hint is drawn iff `cursorOnTrack` is a non-zero progress, so never for a progress of 0 and only on a hovered segment |
| PlaylistLayout.AngleDegrees | playlist.js:544-546 | the angle lies in (-45, -30] degrees when rand < 0.5, and in [45, 60) otherwise |
| PlaylistLayout.Layout | playlist.js:529-558 | N + 1 nodes; node i < N carries track i, the last node carries none; node 0 is START when N > 0, and (0, 0) for the loop alone when N = 0 |
| PlaylistLayout.LayoutChained | playlist.js:547-553 | each node after the first is the end of the previous track's segment |
| PlaylistLayout.SegmentGeometry | playlist.js:541-547 | a segment is exactly trunc(duration) + BASE_LENGTH long; its end is above its start, and to the left when rand < 0.5, to the right otherwise |
| PlaylistLayout.LayoutNonDegenerate | playlist.js:539-558 | consecutive nodes of the layout differ in both x and y |
| PlaylistHitTest.FirstNodeFrom | playlist.js:128-138 | the first node, in order, whose box of half-side RADIUS (edges included) holds the pointer; none iff no node's box does |
| PlaylistHitTest.FindPoint | playlist.js:127-139 | the scan returns exactly the first node under the pointer |
| PlaylistHitTest.Progress | playlist.js:156-161 | when the pointer is inside the segment's box, the progress lies in [0, 1] |
| PlaylistHitTest.ProgressAlongSegment | playlist.js:156-161 | for the point at parameter k on the segment, the progress is exactly k |
| PlaylistHitTest.FirstConnectionFrom | playlist.js:152-165 | the first segment, over i in [0, len - 2], that passes both the box test and the line test, with its progress; none iff no segment passes both |
| PlaylistHitTest.FindConnection | playlist.js:148-166 | the scan returns exactly the first segment under the pointer, with the mean of its per-axis fractions |
| PlaylistHitTest.TestSegment | playlist.js:153-161 | reports a hit iff both tests pass, and on a hit a progress in [0, 1] |
| PlaylistHitTest.ClickTarget | playlist.js:319-324 | a node of a track (index < N) wins; the closing node never toggles and falls through to the segment test; a seek target is the first segment hit, with a progress in [0, 1] |
| PlaylistHitTest.FindTarget | playlist.js:314-324 | the handlers' two scans and their dispatch give exactly `ClickTarget` |
| PlaylistHitTest.Hover | playlist.js:360-371 | after hovering, at most one track is flagged; only the node's track has `cursorOnStart`, only the segment's track has `cursorOnTrack` with its progress; nothing else changes |
| PlaylistView.Dragged | playlist.js:345-348 | after a drag step, the layout point that was under the pointer is under it again |
| PlaylistView.AfterClick | playlist.js:319-324 | a click on nothing changes nothing; a seek leaves its track playing and current; a node click plays a paused track and makes it current, or pauses a playing one |
| PlaylistView.ClickKeepsSynced | playlist.js:255-282 | every click outcome keeps the playback invariant and the volumes and metadata; a seek lands inside its track |
| PlaylistView.StartPoint | playlist.js:52-55 | START is the whole part of half the window width and of the window height / 1.1: non-negative, at most those values and less than one below them |
| PlaylistView.Playlist.constructor | playlist.js:187-206 | every track starts paused at 0 with volume 1, no hover and no metadata; `start` is `StartPoint` of the window size |
| PlaylistView.Playlist.ToggleTrack | playlist.js:255-271 | the array becomes `Toggled` of its old contents, `_currentTrack` moves only on a play, and all invariants hold |
| PlaylistView.Playlist.TrackSeek | playlist.js:279-282 | the array becomes `Seeked` of its old contents, and the sought track is the current one |
| PlaylistView.Playlist.EndedPlayNext | playlist.js:240-247 | the next track is toggled when there is one, and nothing changes after the last track; when the ended track was the current one, the next plays from 0 and becomes current |
| PlaylistView.Playlist.SetVolume | playlist.js:289-297 | the array becomes `WithVolume` of its old contents, and the invariants hold |
| PlaylistView.Playlist.ObserveMouseButtons | playlist.js:308-330 | a main-button press starts a drag and applies the click outcome; any other button event ends the drag, sets the drag's last x to 0, and leaves the tracks alone |
| PlaylistView.Playlist.Move | playlist.js:337-373 | first drag event: only records the pointer; later drag events: pan by the pointer's motion; no drag: hover flags as `Hover` of what is under the pointer |
| PlaylistView.Playlist.ShowHover | playlist.js:360-371 | the array becomes `Hover` of its old contents, and the invariants hold |
| PlaylistView.DrawLayout | playlist.js:539-558 | the loop that threads `s` and `e` through `rotatePoint` builds exactly `Layout` |
| PlaylistView.Playlist.Draw | playlist.js:516-558 | with at least one track, `_points` becomes the layout of the current tracks from the stored cosines and sines, stays non-degenerate, and nothing else changes, so every later frame gives the same `_points` |
| PlaylistView.Playlist.LoadedMetaData | playlist.js:215-233 | counts the event; fires iff the count reaches the number of tracks; then stores every duration and random value and the cosine and sine of each angle, and lays the tracks out |

## Left out

- audio-player.js is not part of this model. It wraps a single audio element and is not used by the playlist.
- **Canvas and DOM output:**
  - Drawing nodes, segments and the background noise.
  - Clearing and translating the canvas, and resizing it.
  - The volume bar elements, the tooltip bubble's position and text, and the info display.
  - Registering event listeners.
  - The only state effect among these, `displayBubble` setting `cursorOnStart`, is modelled.
  - Of `drawConnection`, only the three stroke decisions are modelled (`StyleOf`).
- **Timers:** the animation and FPS intervals and the FPS measurement depend on the wall clock. Each handler is one atomic method call.
- **The audio element's own behaviour:**
  - Playback advancing `currentTime` is not modelled.
  - Neither is `play()` restarting an element that has ended.
  - Neither is the browser pausing an element when it ends.
- **Library functions taken as inputs:** `Math.random` is an input `rands` to `LoadedMetaData`, in [0, 1). `Math.cos` and `Math.sin` are inputs `trig` to `LoadedMetaData`, kept in the field `cosSin` for every later `Draw`. `Math.sqrt` is avoided by the squared form of the line test.
- **Floating point:**
  - IEEE arithmetic, NaN and Infinity are not modelled: numbers are reals.
  - `setVolume` receives the `data-vol` attribute as a string and relies on JavaScript's coercion. The model takes a real.
- PlFormat.Time: defined for non-negative times only. `~~` wraps at 2^31 in the source; it is the floor here.
- PlaylistLayout.SegmentLength: `~~duration` is the floor of a non-negative duration. The 32-bit wrap of `~~` for durations of 2^31 seconds or more is not modelled.
- PlaylistHitTest.FindConnection: requires that no two consecutive nodes share an x or a y. Otherwise the source divides by zero. The layout always meets this (`LayoutNonDegenerate`), and so does an empty `_points`.
- PlaylistView.Playlist.EndedPlayNext: takes the track index directly. Parsing it out of the element id is not modelled.
- PlaylistView.Playlist.constructor: takes the track count and the window size directly. Titles, artists and file names are not modelled, because nothing in the core reads them.
- PlaylistView.Playlist.LoadedMetaData: requires the durations to be non-negative and the trig values to match the random values, because the line test and the layout proofs rely on both.
- **Drag sentinel:** "no drag position yet" is written as `_oldClient.x == 0`. A drag that passes through client x = 0 therefore skips one pan step. The model reproduces this behaviour as written.
