/**
 * The track records of the playlist and the playback state machine of
 * `toggleTrack`, `trackSeek` and `setVolume`, as functions on the sequence of
 * tracks. The audio element of a track (`track.dom`) is represented by its
 * `paused`, `currentTime` and `volume` fields.
 */
module PlaylistTracks {
  import opened Wrappers

  /**
   * One track: the state of its audio element, the cached `duration`, the
   * per-track random value `rand`, and the hover flags set by `move`
   * (`cursorOnTrack` is `false` or a progress value in the source).
   */
  datatype Track = Track(
    paused: bool,
    currentTime: real,
    volume: real,
    duration: real,
    rand: real,
    cursorOnTrack: Option<real>,
    cursorOnStart: bool)

  /**
   * A track as `addAudio` leaves it: its element paused at 0 with volume 1.0,
   * no hover flag. `duration` and `rand` are set later by `loadedMetaData`.
   */
  function NewTrack(): Track
  {
    Track(true, 0.0, 1.0, 0.0, 0.0, None, false)
  }

  /** A track the pointer hovers, on its node or on its segment. */
  predicate Hovered(t: Track)
  {
    t.cursorOnStart || t.cursorOnTrack.Some?
  }

  /** A track with both hover flags cleared, as the first loop of `move` leaves it. */
  function Unhovered(t: Track): (r: Track)
    ensures !Hovered(r)
    ensures r.paused == t.paused && r.currentTime == t.currentTime && SameSettingsExceptHover(r, t)
  {
    t.(cursorOnTrack := None, cursorOnStart := false)
  }

  /** Every track other than the current one is paused at position 0. */
  predicate Synced(ts: seq<Track>, current: nat)
  {
    forall i :: 0 <= i < |ts| && i != current ==> ts[i].paused && ts[i].currentTime == 0.0
  }

  predicate AtMostOnePlaying(ts: seq<Track>)
  {
    forall i, j :: 0 <= i < j < |ts| ==> ts[i].paused || ts[j].paused
  }

  predicate AtMostOneHovered(ts: seq<Track>)
  {
    forall i, j :: 0 <= i < j < |ts| ==> !Hovered(ts[i]) || !Hovered(ts[j])
  }

  predicate VolumesInRange(ts: seq<Track>)
  {
    forall i :: 0 <= i < |ts| ==> 0.0 <= ts[i].volume <= 1.0
  }

  /** What `loadedMetaData` stores: a duration >= 0 and a `Math.random()` value. */
  predicate MetadataInRange(ts: seq<Track>)
  {
    forall i :: 0 <= i < |ts| ==> 0.0 <= ts[i].duration && 0.0 <= ts[i].rand < 1.0
  }

  /** Volume and metadata agree. */
  predicate SameSettingsExceptHover(a: Track, b: Track)
  {
    a.volume == b.volume && a.duration == b.duration && a.rand == b.rand
  }

  /** The settings a playback operation leaves alone. */
  predicate SameSettings(a: Track, b: Track)
  {
    SameSettingsExceptHover(a, b) && a.cursorOnTrack == b.cursorOnTrack && a.cursorOnStart == b.cursorOnStart
  }

  /** Only the current track can be playing, so at most one track plays. */
  lemma SyncedAtMostOnePlaying(ts: seq<Track>, current: nat)
    requires Synced(ts, current)
    ensures AtMostOnePlaying(ts)
  {
  }

  /** `pause()` followed by `currentTime = 0.0`. */
  function Stopped(t: Track): Track
  {
    t.(paused := true, currentTime := 0.0)
  }

  /**
   * The play branch of `toggleTrack`: every other track is stopped and
   * rewound, track `k` plays from where it stands.
   */
  function PlayOnly(ts: seq<Track>, k: nat): (r: seq<Track>)
    requires k < |ts|
    ensures |r| == |ts|
    ensures forall i :: 0 <= i < |r| ==> (!r[i].paused <==> i == k)
    ensures Synced(r, k)
    ensures r[k].currentTime == ts[k].currentTime
    ensures forall i :: 0 <= i < |r| ==> SameSettings(r[i], ts[i])
  {
    seq(|ts|, i requires 0 <= i < |ts| => if i == k then ts[i].(paused := false) else Stopped(ts[i]))
  }

  /** `toggleTrack(track k, keepPlaying)` on the tracks. */
  function Toggled(ts: seq<Track>, k: nat, keepPlaying: bool): (r: seq<Track>)
    requires k < |ts|
    ensures |r| == |ts| && forall i :: 0 <= i < |r| ==> SameSettings(r[i], ts[i])
    ensures keepPlaying || ts[k].paused ==>
      && !r[k].paused && r[k].currentTime == ts[k].currentTime
      && forall i :: 0 <= i < |r| && i != k ==> r[i].paused && r[i].currentTime == 0.0
    ensures !(keepPlaying || ts[k].paused) ==>
      && r[k].paused && r[k].currentTime == ts[k].currentTime
      && forall i :: 0 <= i < |r| && i != k ==> r[i] == ts[i]
  {
    if keepPlaying || ts[k].paused then PlayOnly(ts, k) else ts[k := ts[k].(paused := true)]
  }

  /** `_currentTrack` after `toggleTrack(track k, keepPlaying)`. */
  function ToggledCurrent(ts: seq<Track>, k: nat, keepPlaying: bool, current: nat): (r: nat)
    requires k < |ts|
    ensures r == k || r == current
    ensures r == k <==> keepPlaying || ts[k].paused || current == k
  {
    if keepPlaying || ts[k].paused then k else current
  }

  /**
   * The two outcomes of `toggleTrack`: a play makes the chosen track the only
   * one playing, with its position kept, and rewinds all others; a pause
   * changes nothing but the chosen track's `paused` flag. Either way the
   * playback invariant is kept.
   */
  lemma ToggleOutcome(ts: seq<Track>, k: nat, keepPlaying: bool, current: nat)
    requires k < |ts| && Synced(ts, current)
    ensures var r := Toggled(ts, k, keepPlaying);
      && |r| == |ts|
      && Synced(r, ToggledCurrent(ts, k, keepPlaying, current))
      && (forall i :: 0 <= i < |r| ==> SameSettings(r[i], ts[i]))
      && if keepPlaying || ts[k].paused then
           && (forall i :: 0 <= i < |r| ==> (!r[i].paused <==> i == k))
           && r[k].currentTime == ts[k].currentTime
           && (forall i :: 0 <= i < |r| && i != k ==> r[i].currentTime == 0.0)
         else
           && r[k] == ts[k].(paused := true)
           && (forall i :: 0 <= i < |r| && i != k ==> r[i] == ts[i])
  {
    if !(keepPlaying || ts[k].paused) {
      assert k == current;
    }
  }

  /** Toggling the current track twice (play then pause, or pause then play) restores every track. */
  lemma {:induction false} ToggleTwice(ts: seq<Track>, k: nat)
    requires k < |ts| && Synced(ts, k)
    ensures Toggled(Toggled(ts, k, false), k, false) == ts
  {
    var r := Toggled(Toggled(ts, k, false), k, false);
    assert |r| == |ts|;
    forall i | 0 <= i < |ts|
      ensures r[i] == ts[i]
    {
      if i != k {
        assert ts[i] == Stopped(ts[i]);
      }
    }
  }

  /** `trackSeek(track k, progress)`: set the position, then play with `keepPlaying`. */
  function Seeked(ts: seq<Track>, k: nat, progress: real): (r: seq<Track>)
    requires k < |ts|
    ensures |r| == |ts|
    ensures !r[k].paused && r[k].currentTime == ts[k].duration * progress
    ensures forall i :: 0 <= i < |r| && i != k ==> r[i].paused && r[i].currentTime == 0.0
    ensures Synced(r, k)
    ensures forall i :: 0 <= i < |r| ==> SameSettings(r[i], ts[i])
  {
    Toggled(ts[k := ts[k].(currentTime := ts[k].duration * progress)], k, true)
  }

  /** A seek to a progress in [0, 1] lands inside the track. */
  lemma SeekWithinTrack(ts: seq<Track>, k: nat, progress: real)
    requires k < |ts| && 0.0 <= ts[k].duration && 0.0 <= progress <= 1.0
    ensures 0.0 <= Seeked(ts, k, progress)[k].currentTime <= ts[k].duration
  {
    var d := ts[k].duration;
    assert Seeked(ts, k, progress)[k].currentTime == d * progress;
    assert 0.0 <= d * progress;
    assert d * progress <= d by {
      assert d * (1.0 - progress) >= 0.0;
    }
  }

  /** `setVolume(vol)`: a volume outside [0, 1] is ignored, any other is given to every track. */
  function WithVolume(ts: seq<Track>, vol: real): (r: seq<Track>)
    ensures |r| == |ts|
    ensures vol < 0.0 || vol > 1.0 ==> r == ts
    ensures 0.0 <= vol <= 1.0 ==> forall i :: 0 <= i < |r| ==> r[i] == ts[i].(volume := vol)
    ensures VolumesInRange(ts) ==> VolumesInRange(r)
  {
    if vol < 0.0 || vol > 1.0 then ts else seq(|ts|, i requires 0 <= i < |ts| => ts[i].(volume := vol))
  }

  /** The stroke choices of `drawConnection` for segment `i`. */
  datatype SegmentStyle = SegmentStyle(played: bool, progressBar: bool, hint: bool)

  /**
   * Segment `i` is stroked as played iff `i < _currentTrack`; its progress bar
   * is drawn iff its track is not paused or it is the current one; the hover
   * hint is drawn iff `cursorOnTrack` is truthy, so a progress of 0 draws none.
   */
  function StyleOf(t: Track, i: nat, current: nat): (s: SegmentStyle)
    ensures s.played <==> i < current
    ensures s.progressBar <==> !t.paused || i == current
    ensures s.hint <==> t.cursorOnTrack.Some? && t.cursorOnTrack.value != 0.0
    ensures s.played ==> i != current && s.progressBar == !t.paused
    ensures i == current ==> !s.played && s.progressBar
    ensures s.hint ==> Hovered(t)
    ensures t.cursorOnTrack == Some(0.0) ==> !s.hint
  {
    SegmentStyle(
      i < current,
      !t.paused || i == current,
      t.cursorOnTrack.Some? && t.cursorOnTrack.value != 0.0)
  }

  /** Under the playback invariant the progress bar is drawn on the current segment only. */
  lemma ProgressBarOnCurrentOnly(ts: seq<Track>, current: nat, i: nat)
    requires Synced(ts, current) && i < |ts|
    ensures StyleOf(ts[i], i, current).progressBar <==> i == current
  {
  }
}
