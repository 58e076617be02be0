/**
 * Hit testing against the layout: `findPoint` (the node under the pointer),
 * `findConnection` (the segment under the pointer and the progress along it),
 * and the choice `observeMouseButtons` and `move` make between the two.
 * Pointer coordinates are already in layout space (client minus pan offset).
 */
module PlaylistHitTest {
  import opened Wrappers
  import opened PlMath
  import opened PlaylistTracks
  import opened PlaylistLayout

  /** `CONF.RADIUS`, the radius of a node in pixels. */
  const RADIUS: real := 10.0
  /** `CONF.ERR_MARGIN`, how far from a segment a pointer still hits it. */
  const ERR_MARGIN: real := 10.0

  /** The `{ index, point }` result of `findPoint`. */
  datatype PointHit = PointHit(index: nat, point: Point)

  /** The `{ track, progress }` result of `findConnection` (the track by its index). */
  datatype Connection = Connection(track: nat, progress: real)

  /** `m` lies in the square box of side 2 * RADIUS around a node's centre, edges included. */
  predicate OnNode(center: Point, m: Point)
  {
    m.x >= center.x - RADIUS && m.x <= center.x + RADIUS
    && m.y >= center.y - RADIUS && m.y <= center.y + RADIUS
  }

  /** The first node at or after `from` that `m` is on. */
  function FirstNodeFrom(points: seq<Node>, m: Point, from: nat): (r: Option<PointHit>)
    requires from <= |points|
    ensures r.Some? ==> && from <= r.value.index < |points|
                        && r.value.point == points[r.value.index].center
                        && OnNode(r.value.point, m)
                        && forall j :: from <= j < r.value.index ==> !OnNode(points[j].center, m)
    ensures r.None? <==> forall j :: from <= j < |points| ==> !OnNode(points[j].center, m)
    decreases |points| - from
  {
    if from == |points| then None
    else if OnNode(points[from].center, m) then Some(PointHit(from, points[from].center))
    else FirstNodeFrom(points, m, from + 1)
  }

  function FirstNode(points: seq<Node>, m: Point): Option<PointHit>
  {
    FirstNodeFrom(points, m, 0)
  }

  /** `findPoint`: scans the nodes in order and returns the first one under `m`. */
  method FindPoint(points: seq<Node>, m: Point) returns (r: Option<PointHit>)
    ensures r == FirstNode(points, m)
  {
    var i := 0;
    while i < |points|
      invariant 0 <= i <= |points|
      invariant FirstNodeFrom(points, m, i) == FirstNode(points, m)
    {
      var c := points[i].center;
      if m.x >= c.x - RADIUS && m.x <= c.x + RADIUS && m.y >= c.y - RADIUS && m.y <= c.y + RADIUS {
        return Some(PointHit(i, c));
      }
      i := i + 1;
    }
    return None;
  }

  /** The segment from `a` to `b` is hit: box test and line test both hold. */
  predicate OnSegment(a: Point, b: Point, m: Point)
    requires a != b
  {
    IsPointInBox(a, b, m) && IsPointOnLine(a, b, m, ERR_MARGIN)
  }

  /** The mean of the per-axis fractions of the way from `a` to `b` that `m` has come. */
  function Progress(a: Point, b: Point, m: Point): (p: real)
    requires a.x != b.x && a.y != b.y
    ensures IsPointInBox(a, b, m) ==> 0.0 <= p <= 1.0
  {
    var fx := (m.x - a.x) / (b.x - a.x);
    var fy := (m.y - a.y) / (b.y - a.y);
    FractionInUnit(m.x - a.x, b.x - a.x);
    FractionInUnit(m.y - a.y, b.y - a.y);
    (fx + fy) / 2.0
  }

  lemma FractionInUnit(num: real, den: real)
    requires den != 0.0
    ensures (0.0 <= num <= den) || (den <= num <= 0.0) ==> 0.0 <= num / den <= 1.0
  {
    var q := num / den;
    assert q * den == num;
    assert (1.0 - q) * den == den - num;
  }

  /** For a point on the segment at parameter k, both fractions are k, so the progress is exactly k. */
  lemma ProgressAlongSegment(a: Point, b: Point, k: real)
    requires a.x != b.x && a.y != b.y
    ensures Progress(a, b, Point(a.x + k * (b.x - a.x), a.y + k * (b.y - a.y))) == k
  {
    var m := Point(a.x + k * (b.x - a.x), a.y + k * (b.y - a.y));
    var dx, dy := b.x - a.x, b.y - a.y;
    assert m.x - a.x == k * dx && m.y - a.y == k * dy;
    DivideScaled(k, dx);
    DivideScaled(k, dy);
    assert (m.x - a.x) / dx == k && (m.y - a.y) / dy == k;
  }

  lemma DivideScaled(k: real, d: real)
    requires d != 0.0
    ensures (k * d) / d == k
  {
    var q := (k * d) / d;
    assert q * d == k * d;
    assert (q - k) * d == 0.0;
  }

  /** The first segment at or after `from` that `m` is on, with the progress along it. */
  function FirstConnectionFrom(points: seq<Node>, m: Point, from: nat): (r: Option<Connection>)
    requires NonDegenerate(points) && from < |points| + 1
    ensures r.Some? ==> && from <= r.value.track < |points| - 1
                        && OnSegment(points[r.value.track].center, points[r.value.track + 1].center, m)
                        && r.value.progress == Progress(points[r.value.track].center, points[r.value.track + 1].center, m)
                        && forall j :: from <= j < r.value.track ==> !OnSegment(points[j].center, points[j + 1].center, m)
    ensures r.None? <==> forall j :: from <= j < |points| - 1 ==> !OnSegment(points[j].center, points[j + 1].center, m)
    decreases |points| - from
  {
    if from >= |points| - 1 then None
    else if OnSegment(points[from].center, points[from + 1].center, m) then
      Some(Connection(from, Progress(points[from].center, points[from + 1].center, m)))
    else FirstConnectionFrom(points, m, from + 1)
  }

  function FirstConnection(points: seq<Node>, m: Point): Option<Connection>
    requires NonDegenerate(points)
  {
    FirstConnectionFrom(points, m, 0)
  }

  /**
   * `findConnection`: scans the segments `i` in [0, len - 2] in order and
   * returns the first one under `m`, with the mean of the per-axis progress.
   */
  method FindConnection(points: seq<Node>, m: Point) returns (r: Option<Connection>)
    requires NonDegenerate(points)
    ensures r == FirstConnection(points, m)
  {
    var i := 0;
    while i < |points| - 1
      invariant 0 <= i <= |points|
      invariant FirstConnectionFrom(points, m, i) == FirstConnection(points, m)
    {
      var hit, progress := TestSegment(points[i].center, points[i + 1].center, m);
      if hit {
        return Some(Connection(i, progress));
      }
      i := i + 1;
    }
    return None;
  }

  /** The body of the segment loop of `findConnection`: both tests, then the per-axis fractions. */
  method TestSegment(a: Point, b: Point, m: Point) returns (hit: bool, progress: real)
    requires a.x != b.x && a.y != b.y
    ensures hit == OnSegment(a, b, m)
    ensures hit ==> progress == Progress(a, b, m) && 0.0 <= progress <= 1.0
  {
    hit := IsPointInBox(a, b, m) && IsPointOnLine(a, b, m, ERR_MARGIN);
    progress := 0.0;
    if hit {
      var progX := (m.x - a.x) / (b.x - a.x);
      var progY := (m.y - a.y) / (b.y - a.y);
      progress := (progX + progY) / 2.0;
    }
  }

  /** What a pointer at `m` designates, in the order `observeMouseButtons` and `move` test it. */
  datatype Target = ToggleNode(index: nat) | SeekSegment(track: nat, progress: real) | NoTarget

  /**
   * A node of a track (index < n) wins; the closing node (index n) never
   * toggles and falls through to the segment test like a miss.
   */
  function ClickTarget(points: seq<Node>, n: nat, m: Point): (r: Target)
    requires NonDegenerate(points) && (points == [] || |points| == n + 1)
    ensures r.ToggleNode? ==> r.index < n && r.index < |points| && FirstNode(points, m) == Some(PointHit(r.index, points[r.index].center))
    ensures r.SeekSegment? ==> && r.track < n && 0.0 <= r.progress <= 1.0
                               && FirstConnection(points, m) == Some(Connection(r.track, r.progress))
                               && (FirstNode(points, m).None? || FirstNode(points, m).value.index == n)
    ensures r.NoTarget? ==> && (FirstNode(points, m).None? || FirstNode(points, m).value.index == n)
                            && FirstConnection(points, m).None?
  {
    var node := FirstNode(points, m);
    if node.Some? && node.value.index < n then ToggleNode(node.value.index)
    else
      match FirstConnection(points, m)
      case Some(c) => SeekSegment(c.track, c.progress)
      case None => NoTarget
  }

  /**
   * The dispatch shared by `observeMouseButtons` and `move`: look for a node
   * and for a segment under `m`, then prefer a track's node over a segment.
   */
  method FindTarget(points: seq<Node>, n: nat, m: Point) returns (r: Target)
    requires NonDegenerate(points) && (points == [] || |points| == n + 1)
    ensures r == ClickTarget(points, n, m)
    ensures r.ToggleNode? ==> r.index < n
    ensures r.SeekSegment? ==> r.track < n && 0.0 <= r.progress <= 1.0
  {
    var s := FindPoint(points, m);
    var c := FindConnection(points, m);
    if s.Some? && s.value.index < n {
      r := ToggleNode(s.value.index);
    } else if c.Some? {
      r := SeekSegment(c.value.track, c.value.progress);
    } else {
      r := NoTarget;
    }
  }

  /**
   * The hover flags after `move` (not dragging): all cleared, then the node's
   * track gets `cursorOnStart` or the segment's track gets `cursorOnTrack`.
   */
  function Hover(ts: seq<Track>, target: Target): (r: seq<Track>)
    requires target.ToggleNode? ==> target.index < |ts|
    requires target.SeekSegment? ==> target.track < |ts|
    ensures |r| == |ts| && AtMostOneHovered(r)
    ensures forall i :: 0 <= i < |r| ==>
      && (r[i].cursorOnStart <==> target == ToggleNode(i))
      && r[i].cursorOnTrack == (if target.SeekSegment? && target.track == i then Some(target.progress) else None)
      && r[i].paused == ts[i].paused && r[i].currentTime == ts[i].currentTime
      && SameSettingsExceptHover(r[i], ts[i])
  {
    var cleared := seq(|ts|, i requires 0 <= i < |ts| => Unhovered(ts[i]));
    match target
    case ToggleNode(k) => cleared[k := cleared[k].(cursorOnStart := true)]
    case SeekSegment(k, p) => cleared[k := cleared[k].(cursorOnTrack := Some(p))]
    case NoTarget => cleared
  }
}
