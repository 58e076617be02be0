/**
 * The layout computed by `draw`: one node per track, chained so that each
 * track's segment starts where the previous one ended, plus a closing node.
 * Each segment is a vertical stroke of length `trunc(duration) + BASE_LENGTH`
 * rotated about its start by the track's angle; the cosine and sine of that
 * angle are inputs.
 */
module PlaylistLayout {
  import opened Wrappers
  import opened PlMath
  import opened PlaylistTracks

  /** `CONF.BASE_LENGTH`, the minimum segment length in pixels. */
  const BASE_LENGTH: real := 100.0

  /** A node of `_points`: its centre and the index of the track starting there (`null` for the closing node). */
  datatype Node = Node(center: Point, track: Option<nat>)

  /** Cosine and sine of a track's rotation angle. */
  datatype Trig = Trig(cos: real, sin: real)

  /** The rotation of a track in degrees: 30 + 30 * rand, turned the other way when rand < 0.5. */
  function AngleDegrees(rand: real): (a: real)
    requires 0.0 <= rand < 1.0
    ensures rand < 0.5 ==> -45.0 < a <= -30.0
    ensures rand >= 0.5 ==> 45.0 <= a < 60.0
  {
    (30.0 + rand * 30.0) * (if rand < 0.5 then -1.0 else 1.0)
  }

  /**
   * `t` is the cosine and sine of an angle in the range `AngleDegrees(rand)`
   * falls in: (-45, -30] degrees, where sin^2 is in [1/4, 1/2) and sin < 0,
   * or [45, 60) degrees, where sin^2 is in [1/2, 3/4) and sin > 0.
   */
  predicate IsCosSinOf(rand: real, t: Trig)
  {
    && t.cos * t.cos + t.sin * t.sin == 1.0
    && t.cos > 0.0
    && if rand < 0.5 then t.sin < 0.0 && 0.25 <= t.sin * t.sin < 0.5
       else t.sin > 0.0 && 0.5 <= t.sin * t.sin < 0.75
  }

  /** Length of a track's segment: the whole seconds of its duration plus `BASE_LENGTH`. */
  function SegmentLength(duration: real): real
  {
    duration.Floor as real + BASE_LENGTH
  }

  /** The end of the segment of a track that starts at `s`. */
  function SegmentEnd(s: Point, duration: real, t: Trig): Point
  {
    Rotated(Point(s.x, s.y - SegmentLength(duration)), s, t.cos, t.sin)
  }

  /** The start of track `i`'s segment: START for the first, the previous end otherwise. */
  function StartOf(start: Point, ts: seq<Track>, trig: seq<Trig>, i: nat): Point
    requires i <= |ts| == |trig|
  {
    if i == 0 then start else SegmentEnd(StartOf(start, ts, trig, i - 1), ts[i - 1].duration, trig[i - 1])
  }

  /**
   * The `_points` that `draw`'s layout loop builds: track `i`'s node at
   * `StartOf(i)`, then the closing node at the last segment's end. With no
   * track the loop alone would put that node at the end point's initial
   * value (0, 0); `draw` itself never gets that far without tracks.
   */
  function Layout(start: Point, ts: seq<Track>, trig: seq<Trig>): (r: seq<Node>)
    requires |ts| == |trig|
    ensures |r| == |ts| + 1
    ensures forall i :: 0 <= i < |ts| ==> r[i].track == Some(i)
    ensures r[|ts|].track == None
    ensures |ts| > 0 ==> r[0].center == start
    ensures |ts| == 0 ==> r[0].center == Point(0.0, 0.0)
  {
    seq(|ts|, i requires 0 <= i < |ts| => Node(StartOf(start, ts, trig, i), Some(i)))
    + [Node(if |ts| == 0 then Point(0.0, 0.0) else StartOf(start, ts, trig, |ts|), None)]
  }

  /** Each node after the first is the end of the segment of the track before it. */
  lemma LayoutChained(start: Point, ts: seq<Track>, trig: seq<Trig>, i: nat)
    requires |ts| == |trig| && i < |ts|
    ensures Layout(start, ts, trig)[i + 1].center
         == SegmentEnd(Layout(start, ts, trig)[i].center, ts[i].duration, trig[i])
  {
  }

  /**
   * A segment of a track with duration >= 0: before rotation its end lies
   * exactly `SegmentLength` above its start; the rotation keeps that distance,
   * and the end lies strictly higher (smaller y) than the start and to the
   * left when rand < 0.5, to the right otherwise.
   */
  lemma SegmentGeometry(s: Point, duration: real, rand: real, t: Trig)
    requires 0.0 <= duration && IsCosSinOf(rand, t)
    ensures var e := SegmentEnd(s, duration, t);
      && SquaredDistance(e, s) == SegmentLength(duration) * SegmentLength(duration)
      && e.y < s.y
      && (rand < 0.5 ==> e.x < s.x)
      && (rand >= 0.5 ==> e.x > s.x)
  {
    var len := SegmentLength(duration);
    var raw := Point(s.x, s.y - len);
    var e := SegmentEnd(s, duration, t);
    RotatedKeepsDistance(raw, s, t.cos, t.sin);
    assert SquaredDistance(raw, s) == len * len;
    assert Sub(raw, s) == Point(0.0, -len);
    assert e.x - s.x == len * t.sin;
    assert e.y - s.y == -(len * t.cos);
    assert len > 0.0;
    assert len * t.cos > 0.0;
    if rand < 0.5 {
      assert len * (-t.sin) > 0.0;
    } else {
      assert len * t.sin > 0.0;
    }
  }

  /** No two consecutive nodes share an x or a y coordinate. */
  predicate NonDegenerate(points: seq<Node>)
  {
    forall i :: 0 <= i < |points| - 1 ==>
      points[i].center.x != points[i + 1].center.x && points[i].center.y != points[i + 1].center.y
  }

  /**
   * The layout never produces a zero-length or axis-parallel segment, which
   * keeps the divisions of the hit test defined.
   */
  lemma LayoutNonDegenerate(start: Point, ts: seq<Track>, trig: seq<Trig>)
    requires |ts| == |trig| && MetadataInRange(ts)
    requires forall i :: 0 <= i < |ts| ==> IsCosSinOf(ts[i].rand, trig[i])
    ensures NonDegenerate(Layout(start, ts, trig))
  {
    var r := Layout(start, ts, trig);
    forall i | 0 <= i < |r| - 1
      ensures r[i].center.x != r[i + 1].center.x && r[i].center.y != r[i + 1].center.y
    {
      LayoutChained(start, ts, trig, i);
      SegmentGeometry(r[i].center, ts[i].duration, ts[i].rand, trig[i]);
    }
  }
}
