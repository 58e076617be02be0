/**
 * The geometry helpers of `PlMath`: rotation about a pivot, the bounding box of
 * two points, the inclusive point-in-box test and the point-near-line test.
 * Numbers are reals; the cosine and sine of a rotation angle are parameters.
 */
module PlMath {

  datatype Point = Point(x: real, y: real)

  /** A point object the source updates in place (`p.x = ...; p.y = ...`). */
  class PointRef {
    var x: real
    var y: real

    constructor (x0: real, y0: real)
      ensures x == x0 && y == y0
    {
      x := x0;
      y := y0;
    }

    function Value(): Point
      reads this
    {
      Point(x, y)
    }
  }

  function Sub(a: Point, b: Point): Point
  {
    Point(a.x - b.x, a.y - b.y)
  }

  function Dot(u: Point, v: Point): real
  {
    u.x * v.x + u.y * v.y
  }

  /** The z component of the cross product of two plane vectors. */
  function Cross(u: Point, v: Point): real
  {
    u.x * v.y - u.y * v.x
  }

  function SquaredDistance(a: Point, b: Point): real
  {
    Dot(Sub(a, b), Sub(a, b))
  }

  /**
   * The point `p` turned about `pivot` by the angle whose cosine is `c` and
   * whose sine is `s`.
   */
  function Rotated(p: Point, pivot: Point, c: real, s: real): (r: Point)
    ensures p == pivot ==> r == pivot
    ensures c == 1.0 && s == 0.0 ==> r == p
  {
    var d := Sub(p, pivot);
    Point(pivot.x + d.x * c - d.y * s, pivot.y + d.x * s + d.y * c)
  }

  /** `rotatePoint`: overwrites `p` with its rotation about `fixP` and returns `p`. */
  method RotatePoint(p: PointRef, fixP: PointRef, c: real, s: real) returns (r: PointRef)
    modifies p
    ensures r == p
    ensures p.Value() == Rotated(old(p.Value()), old(fixP.Value()), c, s)
    ensures fixP.Value() == old(fixP.Value())
  {
    var dx, dy := p.x - fixP.x, p.y - fixP.y;
    p.x := fixP.x + dx * c - dy * s;
    p.y := fixP.y + dx * s + dy * c;
    r := p;
  }

  /** A rotation (cos^2 + sin^2 == 1) keeps the distance to the pivot. */
  lemma RotatedKeepsDistance(p: Point, pivot: Point, c: real, s: real)
    requires c * c + s * s == 1.0
    ensures SquaredDistance(Rotated(p, pivot, c, s), pivot) == SquaredDistance(p, pivot)
  {
    var d := Sub(p, pivot);
    var a, b := d.x * c - d.y * s, d.x * s + d.y * c;
    assert Sub(Rotated(p, pivot, c, s), pivot) == Point(a, b);
    calc {
      a * a + b * b;
      d.x * d.x * (c * c + s * s) + d.y * d.y * (c * c + s * s);
      d.x * d.x + d.y * d.y;
    }
  }

  /** Rotating back by the opposite angle (sine negated) restores the point. */
  lemma RotatedInverse(p: Point, pivot: Point, c: real, s: real)
    requires c * c + s * s == 1.0
    ensures Rotated(Rotated(p, pivot, c, s), pivot, c, -s) == p
  {
    var d := Sub(p, pivot);
    var a, b := d.x * c - d.y * s, d.x * s + d.y * c;
    assert Sub(Rotated(p, pivot, c, s), pivot) == Point(a, b);
    calc {
      a * c + b * s;
      d.x * (c * c + s * s);
      d.x;
    }
    calc {
      -a * s + b * c;
      d.y * (c * c + s * s);
      d.y;
    }
  }

  /** The `{ pMax, pMin }` pair of `getMaxAndMin`. */
  datatype Box = Box(pMax: Point, pMin: Point)

  /** `getMaxAndMin`: the corners of the axis-aligned box spanned by two points. */
  function GetMaxAndMin(p1: Point, p2: Point): (b: Box)
    ensures b.pMin.x <= b.pMax.x && b.pMin.y <= b.pMax.y
    ensures (b.pMin.x, b.pMax.x) == (p1.x, p2.x) || (b.pMin.x, b.pMax.x) == (p2.x, p1.x)
    ensures (b.pMin.y, b.pMax.y) == (p1.y, p2.y) || (b.pMin.y, b.pMax.y) == (p2.y, p1.y)
  {
    var (maxX, minX) := if p1.x > p2.x then (p1.x, p2.x) else (p2.x, p1.x);
    var (maxY, minY) := if p1.y > p2.y then (p1.y, p2.y) else (p2.y, p1.y);
    Box(Point(maxX, maxY), Point(minX, minY))
  }

  /** `isPointInBox`: `t` lies in the closed box spanned by `p1` and `p2`. */
  function IsPointInBox(p1: Point, p2: Point, t: Point): (r: bool)
    ensures r <==> (((p1.x <= t.x <= p2.x) || (p2.x <= t.x <= p1.x))
                 && ((p1.y <= t.y <= p2.y) || (p2.y <= t.y <= p1.y)))
  {
    var m := GetMaxAndMin(p1, p2);
    t.x >= m.pMin.x && t.x <= m.pMax.x && t.y <= m.pMax.y && t.y >= m.pMin.y
  }

  /** The box test does not depend on the order of its corners and holds at both of them. */
  lemma InBoxSymmetric(p1: Point, p2: Point, t: Point)
    ensures IsPointInBox(p1, p2, t) == IsPointInBox(p2, p1, t)
    ensures IsPointInBox(p1, p2, p1) && IsPointInBox(p1, p2, p2)
  {
  }

  /**
   * `isPointOnLine`: the distance from `t` to the (unbounded) line through
   * `p1` and `p2` is at most `error`. The source projects `t` on the line with
   * the unit direction (`lambda` is not clamped) and compares the Euclidean
   * distance to the foot; here the same foot is computed with the squared
   * length, and the distance is compared in squared form.
   */
  function IsPointOnLine(p1: Point, p2: Point, t: Point, error: real): (r: bool)
    requires p1 != p2
    ensures r <==> (0.0 <= error
                 && Cross(Sub(t, p1), Sub(p2, p1)) * Cross(Sub(t, p1), Sub(p2, p1))
                    <= error * error * Dot(Sub(p2, p1), Sub(p2, p1)))
  {
    var line := Sub(p2, p1);
    var len2 := Dot(line, line);
    PositiveLength(line);
    // lambda * |line|, the projection of t - p1 on the line's direction
    var lambdaLen := Dot(Sub(t, p1), line);
    var f := Point(p1.x + lambdaLen * line.x / len2, p1.y + lambdaLen * line.y / len2);
    var dist2 := SquaredDistance(f, t);
    FootDistance(Sub(t, p1), line, lambdaLen / len2);
    assert Sub(f, t) == Point(lambdaLen / len2 * line.x - (t.x - p1.x), lambdaLen / len2 * line.y - (t.y - p1.y));
    ScaleByPositive(dist2, error * error, len2);
    0.0 <= error && dist2 <= error * error
  }

  lemma PositiveLength(l: Point)
    requires l != Point(0.0, 0.0)
    ensures Dot(l, l) > 0.0
  {
    calc {
      Dot(l, l);
      l.x * l.x + l.y * l.y;
    > { SumSquaresPositive(l.x, l.y); }
      0.0;
    }
  }

  lemma SumSquaresPositive(a: real, b: real)
    requires a != 0.0 || b != 0.0
    ensures a * a + b * b > 0.0
  {
    if a < 0.0 {
      assert a * a == (-a) * (-a);
    }
    if b < 0.0 {
      assert b * b == (-b) * (-b);
    }
  }

  /**
   * The squared distance from `u` to its projection `k * l` on the line of
   * direction `l`, times `|l|^2`, is the squared cross product (Lagrange's identity).
   */
  lemma FootDistance(u: Point, l: Point, k: real)
    requires Dot(l, l) > 0.0
    requires k == Dot(u, l) / Dot(l, l)
    ensures Dot(Point(k * l.x - u.x, k * l.y - u.y), Point(k * l.x - u.x, k * l.y - u.y)) * Dot(l, l)
            == Cross(u, l) * Cross(u, l)
  {
    var n := Dot(l, l);
    var dt := Dot(u, l);
    assert k * n == dt;
    var e := Point(k * l.x - u.x, k * l.y - u.y);
    calc {
      Dot(e, e);
      k * k * n - 2.0 * k * dt + Dot(u, u);
      k * dt - 2.0 * k * dt + Dot(u, u);
      Dot(u, u) - k * dt;
    }
    calc {
      Dot(e, e) * n;
      Dot(u, u) * n - k * n * dt;
      Dot(u, u) * n - dt * dt;
      Cross(u, l) * Cross(u, l);
    }
  }

  lemma ScaleByPositive(a: real, b: real, k: real)
    requires k > 0.0
    ensures a <= b <==> a * k <= b * k
  {
    if a <= b {
      assert (b - a) * k >= 0.0;
    } else {
      assert (a - b) * k > 0.0;
    }
  }

  /**
   * Every point of the infinite line through `p1` and `p2`, whatever the
   * parameter `k` (not only the segment's `0 <= k <= 1`), is accepted by the
   * line test with any non-negative tolerance.
   */
  lemma CollinearIsOnLine(p1: Point, p2: Point, k: real, error: real)
    requires p1 != p2 && 0.0 <= error
    ensures IsPointOnLine(p1, p2, Point(p1.x + k * (p2.x - p1.x), p1.y + k * (p2.y - p1.y)), error)
  {
    var t := Point(p1.x + k * (p2.x - p1.x), p1.y + k * (p2.y - p1.y));
    var l := Sub(p2, p1);
    assert Sub(t, p1) == Point(k * l.x, k * l.y);
    assert Cross(Sub(t, p1), l) == k * (l.x * l.y - l.y * l.x) == 0.0;
    PositiveLength(l);
    assert error * error * Dot(l, l) >= 0.0;
  }
}
