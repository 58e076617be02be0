/**
 * The `Playlist` object: the tracks, the current track, the pan of the
 * canvas, the drag state and the `_points` built by `draw`, with the event
 * handlers that change them. Drawing on the canvas, the DOM and the timers
 * are not part of this model; what they compute from the state is.
 */
module PlaylistView {
  import opened Wrappers
  import opened PlMath
  import opened PlaylistTracks
  import opened PlaylistLayout
  import opened PlaylistHitTest

  datatype EventKind = MouseDownEvent | MouseUpEvent

  /** The fields of a `mousedown`/`mouseup` event that `observeMouseButtons` reads. */
  datatype MouseEvent = MouseEvent(kind: EventKind, which: int, client: Point)

  /** The pointer in layout coordinates: the client position minus the pan. */
  function Pointer(translate: Point, client: Point): Point
  {
    Point(client.x - translate.x, client.y - translate.y)
  }

  /**
   * The pan after a drag step from `oldClient` to `client`: the layout point
   * that was under the pointer is under it again.
   */
  function Dragged(translate: Point, oldClient: Point, client: Point): (r: Point)
    ensures Pointer(r, client) == Pointer(translate, oldClient)
    ensures client == oldClient ==> r == translate
  {
    Point(translate.x - (oldClient.x - client.x), translate.y - (oldClient.y - client.y))
  }

  /**
   * `CONF.START`: the truncated half of the window's width and the truncated
   * window height divided by 1.1.
   */
  function StartPoint(innerWidth: nat, innerHeight: nat): (p: Point)
    ensures 0.0 <= p.x <= innerWidth as real / 2.0 < p.x + 1.0
    ensures 0.0 <= p.y <= innerHeight as real / 1.1 < p.y + 1.0
    ensures p.y <= innerHeight as real
  {
    Point((innerWidth as real / 2.0).Floor as real, (innerHeight as real / 1.1).Floor as real)
  }

  /** The tracks and the current track after a click on `target`. */
  function AfterClick(ts: seq<Track>, current: nat, target: Target): (r: (seq<Track>, nat))
    requires target.ToggleNode? ==> target.index < |ts|
    requires target.SeekSegment? ==> target.track < |ts|
    ensures |r.0| == |ts|
    ensures target.NoTarget? ==> r == (ts, current)
    ensures target.SeekSegment? ==> r.1 == target.track && !r.0[r.1].paused
    ensures target.ToggleNode? && ts[target.index].paused ==> r.1 == target.index && !r.0[r.1].paused
    ensures target.ToggleNode? && !ts[target.index].paused ==> r.1 == current && r.0[target.index].paused
  {
    match target
    case ToggleNode(k) => (Toggled(ts, k, false), ToggledCurrent(ts, k, false, current))
    case SeekSegment(k, p) => (Seeked(ts, k, p), k)
    case NoTarget => (ts, current)
  }

  /**
   * A click keeps the playback invariant and the track settings; a click on
   * a segment at a progress in [0, 1] starts its track inside the track, at
   * that fraction of its duration.
   */
  lemma ClickKeepsSynced(ts: seq<Track>, current: nat, target: Target)
    requires Synced(ts, current) && MetadataInRange(ts)
    requires target.ToggleNode? ==> target.index < |ts|
    requires target.SeekSegment? ==> target.track < |ts| && 0.0 <= target.progress <= 1.0
    ensures var r := AfterClick(ts, current, target);
      && Synced(r.0, r.1)
      && (forall i :: 0 <= i < |ts| ==> SameSettingsExceptHover(r.0[i], ts[i]))
      && (target.SeekSegment? ==>
            && r.0[target.track].currentTime == ts[target.track].duration * target.progress
            && 0.0 <= r.0[target.track].currentTime <= ts[target.track].duration)
  {
    match target
    case ToggleNode(k) =>
      ToggleOutcome(ts, k, false, current);
    case SeekSegment(k, p) =>
      SeekWithinTrack(ts, k, p);
    case NoTarget =>
  }

  class Playlist {
    /** `_tracks`: the track records with the state of their audio elements. */
    const tracks: array<Track>
    /** `CONF.START`: the centre of the first node. */
    const start: Point
    /** `_currentTrack` */
    var currentTrack: nat
    /** `_metaDataLoaded`: how many `loadedmetadata` events have arrived. */
    var metaDataLoaded: nat
    /** `_mouseDown` */
    var mouseDown: bool
    /** `_oldClient`: the last pointer position of a drag; x == 0 means none yet. */
    var oldClient: Point
    /** `_translate`: the pan of the canvas. */
    var translate: Point
    /** `_points`: the nodes of the last `draw`. */
    var points: seq<Node>
    /**
     * `Math.cos` and `Math.sin` of each track's angle. The angle depends only
     * on the track's `rand`, which is fixed once the last `loadedmetadata`
     * event has stored it, so every `draw` after that sees the same values.
     */
    var cosSin: seq<Trig>

    /** Everything the handlers keep, whether or not the playback invariant holds. */
    predicate Core()
      reads this, tracks
    {
      && (currentTrack == 0 || currentTrack < tracks.Length)
      && VolumesInRange(tracks[..])
      && MetadataInRange(tracks[..])
      && AtMostOneHovered(tracks[..])
      && NonDegenerate(points)
      && (points == [] || |points| == tracks.Length + 1)
    }

    /** `Core` plus the playback invariant: only the current track may play or stand away from 0. */
    predicate Valid()
      reads this, tracks
    {
      Core() && Synced(tracks[..], currentTrack)
    }

    /**
     * `new Playlist(canvasId, tracks)` with `addAudio`: `n` tracks, all paused
     * at 0 with volume 1, and START at the truncated middle of the width and
     * the truncated `innerHeight / 1.1`.
     */
    constructor (n: nat, innerWidth: nat, innerHeight: nat)
      ensures Valid()
      ensures fresh(tracks) && tracks.Length == n
      ensures forall i :: 0 <= i < n ==> tracks[i] == NewTrack()
      ensures start == StartPoint(innerWidth, innerHeight)
      ensures currentTrack == 0 && metaDataLoaded == 0 && !mouseDown
      ensures oldClient == Point(0.0, 0.0) && translate == Point(0.0, 0.0) && points == [] && cosSin == []
    {
      tracks := new Track[n](_ => NewTrack());
      start := StartPoint(innerWidth, innerHeight);
      currentTrack := 0;
      metaDataLoaded := 0;
      mouseDown := false;
      oldClient := Point(0.0, 0.0);
      translate := Point(0.0, 0.0);
      points := [];
      cosSin := [];
    }

    /**
     * `toggleTrack(_tracks[k], keepPlaying)`. Without `keepPlaying` the
     * playback invariant is needed: it is what makes a playing `k` the current
     * track, so that pausing it keeps the invariant.
     */
    method ToggleTrack(k: nat, keepPlaying: bool)
      requires Core() && k < tracks.Length
      requires keepPlaying || Synced(tracks[..], currentTrack)
      modifies this, tracks
      ensures Valid()
      ensures tracks[..] == Toggled(old(tracks[..]), k, keepPlaying)
      ensures currentTrack == ToggledCurrent(old(tracks[..]), k, keepPlaying, old(currentTrack))
      ensures metaDataLoaded == old(metaDataLoaded) && mouseDown == old(mouseDown)
      ensures oldClient == old(oldClient) && translate == old(translate) && points == old(points)
      ensures cosSin == old(cosSin)
    {
      ghost var ts := tracks[..];
      if keepPlaying || tracks[k].paused {
        var i := 0;
        while i < tracks.Length
          modifies tracks
          invariant 0 <= i <= tracks.Length
          invariant forall j :: 0 <= j < i ==> tracks[j] == (if j == k then ts[j] else Stopped(ts[j]))
          invariant forall j :: i <= j < tracks.Length ==> tracks[j] == ts[j]
        {
          if i != k {
            tracks[i] := Stopped(tracks[i]);
          }
          i := i + 1;
        }
        tracks[k] := tracks[k].(paused := false);
        currentTrack := k;
        assert tracks[..] == PlayOnly(ts, k);
      } else {
        tracks[k] := tracks[k].(paused := true);
        assert tracks[..] == ts[k := ts[k].(paused := true)];
      }
      PlayOnlyKeepsCore(ts, k);
      if !keepPlaying {
        ToggleOutcome(ts, k, keepPlaying, old(currentTrack));
      } else {
        assert Synced(PlayOnly(ts, k), k);
      }
    }

    /** `trackSeek(_tracks[k], progress)`: jump to `progress` of the duration and play. */
    method TrackSeek(k: nat, progress: real)
      requires Core() && k < tracks.Length
      modifies this, tracks
      ensures Valid()
      ensures tracks[..] == Seeked(old(tracks[..]), k, progress) && currentTrack == k
      ensures metaDataLoaded == old(metaDataLoaded) && mouseDown == old(mouseDown)
      ensures oldClient == old(oldClient) && translate == old(translate) && points == old(points)
      ensures cosSin == old(cosSin)
    {
      ghost var ts := tracks[..];
      tracks[k] := tracks[k].(currentTime := tracks[k].duration * progress);
      ghost var mid := ts[k := ts[k].(currentTime := ts[k].duration * progress)];
      assert tracks[k] == mid[k];
      assert forall j :: 0 <= j < tracks.Length && j != k ==> tracks[j] == mid[j];
      assert tracks[..] == mid;
      SeekedIsToggled(ts, k, progress);
      assert AtMostOneHovered(mid) by {
        assert forall i :: 0 <= i < |mid| ==> Hovered(mid[i]) == Hovered(ts[i]);
      }
      ToggleTrack(k, true);
    }

    /**
     * `endedPlayNext` for the element of track `idx`: the next track, if
     * there is one, is toggled. When the ended track was the current one the
     * next track now plays from its start.
     */
    method EndedPlayNext(idx: nat)
      requires Valid() && idx < tracks.Length
      modifies this, tracks
      ensures Valid()
      ensures idx + 1 < tracks.Length ==>
                && tracks[..] == Toggled(old(tracks[..]), idx + 1, false)
                && currentTrack == ToggledCurrent(old(tracks[..]), idx + 1, false, old(currentTrack))
      ensures idx + 1 >= tracks.Length ==> tracks[..] == old(tracks[..]) && currentTrack == old(currentTrack)
      ensures old(currentTrack) == idx && idx + 1 < tracks.Length ==>
                currentTrack == idx + 1 && !tracks[idx + 1].paused && tracks[idx + 1].currentTime == 0.0
      ensures metaDataLoaded == old(metaDataLoaded) && mouseDown == old(mouseDown)
      ensures oldClient == old(oldClient) && translate == old(translate) && points == old(points)
      ensures cosSin == old(cosSin)
    {
      var next := idx + 1;
      if next < tracks.Length {
        ToggleTrack(next, false);
      }
    }

    /** `setVolume(vol)`: every track gets `vol` unless it lies outside [0, 1]. */
    method SetVolume(vol: real)
      requires Valid()
      modifies tracks
      ensures Valid()
      ensures tracks[..] == WithVolume(old(tracks[..]), vol)
    {
      if vol < 0.0 || vol > 1.0 {
        return;
      }
      var i := 0;
      while i < tracks.Length
        invariant 0 <= i <= tracks.Length
        invariant forall j :: 0 <= j < i ==> tracks[j] == old(tracks[j]).(volume := vol)
        invariant forall j :: i <= j < tracks.Length ==> tracks[j] == old(tracks[j])
      {
        tracks[i] := tracks[i].(volume := vol);
        i := i + 1;
      }
      assert tracks[..] == WithVolume(old(tracks[..]), vol);
      assert Valid() by {
        assert forall j :: 0 <= j < tracks.Length ==>
          Hovered(tracks[j]) == Hovered(old(tracks[j])) && tracks[j].paused == old(tracks[j]).paused
          && tracks[j].currentTime == old(tracks[j]).currentTime;
      }
    }

    /**
     * `observeMouseButtons`: a press of the main button starts a drag and acts
     * on what is under the pointer (toggle a track's node, or seek in a
     * track's segment); any other event ends the drag and resets the drag's
     * last x to 0.
     */
    method ObserveMouseButtons(ev: MouseEvent)
      requires Valid()
      modifies this, tracks
      ensures Valid()
      ensures ev.kind == MouseDownEvent && ev.which == 1 ==>
                && mouseDown && oldClient == old(oldClient)
                && (tracks[..], currentTrack)
                   == AfterClick(old(tracks[..]), old(currentTrack),
                                 ClickTarget(points, tracks.Length, Pointer(translate, ev.client)))
      ensures !(ev.kind == MouseDownEvent && ev.which == 1) ==>
                && !mouseDown && oldClient == old(oldClient).(x := 0.0)
                && tracks[..] == old(tracks[..]) && currentTrack == old(currentTrack)
      ensures metaDataLoaded == old(metaDataLoaded) && translate == old(translate) && points == old(points)
      ensures cosSin == old(cosSin)
    {
      if ev.kind == MouseDownEvent && ev.which == 1 {
        var target := FindTarget(points, tracks.Length, Pointer(translate, ev.client));
        mouseDown := true;
        match target {
          case ToggleNode(k) => ToggleTrack(k, false);
          case SeekSegment(k, p) => TrackSeek(k, p);
          case NoTarget =>
        }
      } else {
        mouseDown := false;
        oldClient := oldClient.(x := 0.0);
      }
    }

    /**
     * `move`: while the button is down, the first event of a drag records the
     * pointer and later ones pan by the pointer's motion; otherwise the hover
     * flags are recomputed for what is under the pointer.
     */
    method Move(client: Point)
      requires Valid()
      modifies this, tracks
      ensures Valid()
      ensures old(mouseDown) && old(oldClient).x == 0.0 ==>
                oldClient == client && translate == old(translate)
      ensures old(mouseDown) && old(oldClient).x != 0.0 ==>
                oldClient == client && translate == Dragged(old(translate), old(oldClient), client)
      ensures old(mouseDown) ==> tracks[..] == old(tracks[..])
      ensures !old(mouseDown) ==>
                && tracks[..] == Hover(old(tracks[..]), ClickTarget(points, tracks.Length, Pointer(translate, client)))
                && oldClient == old(oldClient) && translate == old(translate)
      ensures currentTrack == old(currentTrack) && metaDataLoaded == old(metaDataLoaded)
      ensures mouseDown == old(mouseDown) && points == old(points) && cosSin == old(cosSin)
    {
      if mouseDown {
        if oldClient.x == 0.0 {
          oldClient := client;
          return;
        }
        translate := Dragged(translate, oldClient, client);
        oldClient := client;
      } else {
        var target := FindTarget(points, tracks.Length, Pointer(translate, client));
        ShowHover(target);
      }
    }

    /**
     * The hover part of `move`: clear both flags of every track, then flag
     * the node (`displayBubble`) or the segment, with its progress, under the
     * pointer.
     */
    method ShowHover(target: Target)
      requires Valid()
      requires target.ToggleNode? ==> target.index < tracks.Length
      requires target.SeekSegment? ==> target.track < tracks.Length
      modifies tracks
      ensures Valid()
      ensures tracks[..] == Hover(old(tracks[..]), target)
    {
      var i := 0;
      while i < tracks.Length
        invariant 0 <= i <= tracks.Length
        invariant forall j :: 0 <= j < i ==> tracks[j] == Unhovered(old(tracks[j]))
        invariant forall j :: i <= j < tracks.Length ==> tracks[j] == old(tracks[j])
      {
        tracks[i] := Unhovered(tracks[i]);
        i := i + 1;
      }
      match target {
        case ToggleNode(k) => tracks[k] := tracks[k].(cursorOnStart := true);
        case SeekSegment(k, p) => tracks[k] := tracks[k].(cursorOnTrack := Some(p));
        case NoTarget =>
      }
      assert tracks[..] == Hover(old(tracks[..]), target);
      HoverKeepsValid(old(tracks[..]), target, currentTrack);
    }

    /**
     * `draw`'s layout loop: from START, each track adds its node and moves
     * the start point to its segment's end (`rotatePoint` overwrites `e`);
     * the closing node goes at the last end. `cosSin[i]` is the cosine and
     * sine of track `i`'s angle. `draw` is only reached with tracks: it runs
     * once every track's metadata has arrived, and without tracks the
     * background noise it paints first would read `_tracks[i % 0]` and throw.
     * Since it changes neither the tracks nor `cosSin`, every frame after
     * the first lays out the same `_points`.
     */
    method Draw()
      requires Valid() && tracks.Length > 0 && |cosSin| == tracks.Length
      requires forall i :: 0 <= i < tracks.Length ==> IsCosSinOf(tracks[i].rand, cosSin[i])
      modifies this
      ensures Valid() && cosSin == old(cosSin)
      ensures points == Layout(start, tracks[..], cosSin)
      ensures currentTrack == old(currentTrack) && metaDataLoaded == old(metaDataLoaded)
      ensures mouseDown == old(mouseDown) && oldClient == old(oldClient) && translate == old(translate)
    {
      points := DrawLayout(start, tracks[..], cosSin);
      LayoutNonDegenerate(start, tracks[..], cosSin);
    }

    /**
     * `loadedMetaData`: counts the event; the one that brings the count to
     * the number of tracks stores every duration and random value, keeps
     * the cosine and sine of each track's angle, and draws.
     */
    method LoadedMetaData(durations: seq<real>, rands: seq<real>, trig: seq<Trig>) returns (fired: bool)
      requires Valid()
      requires |durations| == |rands| == |trig| == tracks.Length
      requires forall i :: 0 <= i < |durations| ==> 0.0 <= durations[i] && 0.0 <= rands[i] < 1.0
      requires forall i :: 0 <= i < |trig| ==> IsCosSinOf(rands[i], trig[i])
      modifies this, tracks
      ensures Valid()
      ensures metaDataLoaded == old(metaDataLoaded) + 1
      ensures fired <==> metaDataLoaded == tracks.Length
      ensures fired ==> && (forall i :: 0 <= i < tracks.Length ==>
                             tracks[i] == old(tracks[i]).(duration := durations[i], rand := rands[i]))
                        && cosSin == trig && points == Layout(start, tracks[..], trig)
      ensures !fired ==> tracks[..] == old(tracks[..]) && points == old(points) && cosSin == old(cosSin)
      ensures currentTrack == old(currentTrack) && mouseDown == old(mouseDown)
      ensures oldClient == old(oldClient) && translate == old(translate)
    {
      metaDataLoaded := metaDataLoaded + 1;
      fired := metaDataLoaded == tracks.Length;
      if fired {
        var i := 0;
        while i < tracks.Length
          modifies tracks
          invariant 0 <= i <= tracks.Length
          invariant forall j :: 0 <= j < i ==> tracks[j] == old(tracks[j]).(duration := durations[j], rand := rands[j])
          invariant forall j :: i <= j < tracks.Length ==> tracks[j] == old(tracks[j])
        {
          tracks[i] := tracks[i].(duration := durations[i], rand := rands[i]);
          i := i + 1;
        }
        assert Valid() by {
          assert forall j :: 0 <= j < tracks.Length ==>
            Hovered(tracks[j]) == Hovered(old(tracks[j])) && tracks[j].paused == old(tracks[j]).paused
            && tracks[j].currentTime == old(tracks[j]).currentTime && tracks[j].volume == old(tracks[j]).volume;
        }
        cosSin := trig;
        Draw();
      }
    }
  }

  /**
   * The loop of `draw` that places the nodes: from `start`, each track adds
   * its node and moves the start point to its segment's end (`rotatePoint`
   * overwrites `e`); the closing node goes at the last end. `trig[i]` is the
   * cosine and sine of track `i`'s angle.
   */
  method DrawLayout(start: Point, ts: seq<Track>, trig: seq<Trig>) returns (ps: seq<Node>)
    requires |ts| == |trig|
    ensures ps == Layout(start, ts, trig)
  {
    var s := new PointRef(start.x, start.y);
    var e := new PointRef(0.0, 0.0);
    ghost var end := e;
    ps := [];
    var i := 0;
    while i < |ts|
      modifies s, e
      invariant e == end && s != e
      invariant 0 <= i <= |ts|
      invariant |ps| == i
      invariant forall j {:trigger ps[j]} :: 0 <= j < i ==> ps[j] == Node(StartOf(start, ts, trig, j), Some(j))
      invariant s.Value() == StartOf(start, ts, trig, i)
      invariant i == 0 ==> e.Value() == Point(0.0, 0.0)
      invariant i > 0 ==> e.Value() == StartOf(start, ts, trig, i)
    {
      ps := ps + [Node(s.Value(), Some(i))];
      ghost var from := s.Value();
      e.x := s.x;
      e.y := s.y - ts[i].duration.Floor as real - BASE_LENGTH;
      ghost var raw := e.Value();
      e := RotatePoint(e, s, trig[i].cos, trig[i].sin);
      RotatedStart(from, raw, ts[i].duration, trig[i], e.Value());
      NextStart(start, ts, trig, i);
      s.x := e.x;
      s.y := e.y;
      i := i + 1;
    }
    ps := ps + [Node(e.Value(), None)];
  }

  /** The point `draw` rotates is the unrotated segment end of `SegmentEnd`. */
  lemma RotatedStart(from: Point, raw: Point, duration: real, t: Trig, rot: Point)
    requires raw == Point(from.x, from.y - duration.Floor as real - BASE_LENGTH)
    requires rot == Rotated(raw, from, t.cos, t.sin)
    ensures rot == SegmentEnd(from, duration, t)
  {
    assert raw == Point(from.x, from.y - SegmentLength(duration));
  }

  /** One unfolding of `StartOf`. */
  lemma NextStart(start: Point, ts: seq<Track>, trig: seq<Trig>, i: nat)
    requires i < |ts| == |trig|
    ensures StartOf(start, ts, trig, i + 1) == SegmentEnd(StartOf(start, ts, trig, i), ts[i].duration, trig[i])
  {
  }

  /** `trackSeek` is a position change followed by `toggleTrack` with `keepPlaying`. */
  lemma SeekedIsToggled(ts: seq<Track>, k: nat, progress: real)
    requires k < |ts|
    ensures Seeked(ts, k, progress) == Toggled(ts[k := ts[k].(currentTime := ts[k].duration * progress)], k, true)
  {
  }

  /** The play branch of `toggleTrack` keeps the ranges and the hover flags of every track. */
  lemma PlayOnlyKeepsCore(ts: seq<Track>, k: nat)
    requires k < |ts| && VolumesInRange(ts) && MetadataInRange(ts) && AtMostOneHovered(ts)
    ensures VolumesInRange(PlayOnly(ts, k)) && MetadataInRange(PlayOnly(ts, k)) && AtMostOneHovered(PlayOnly(ts, k))
    ensures var p := ts[k := ts[k].(paused := true)];
      VolumesInRange(p) && MetadataInRange(p) && AtMostOneHovered(p)
  {
    var r := PlayOnly(ts, k);
    assert forall i :: 0 <= i < |ts| ==> Hovered(r[i]) == Hovered(ts[i]);
    var p := ts[k := ts[k].(paused := true)];
    assert forall i :: 0 <= i < |ts| ==> Hovered(p[i]) == Hovered(ts[i]);
  }

  /** Recomputing the hover flags keeps the playback invariant and the ranges. */
  lemma HoverKeepsValid(ts: seq<Track>, target: Target, current: nat)
    requires target.ToggleNode? ==> target.index < |ts|
    requires target.SeekSegment? ==> target.track < |ts|
    requires Synced(ts, current) && VolumesInRange(ts) && MetadataInRange(ts)
    ensures var r := Hover(ts, target);
      Synced(r, current) && VolumesInRange(r) && MetadataInRange(r) && AtMostOneHovered(r)
  {
  }
}
