/**
 * Frame geometry used by the stillness tracker: the centre of a face box
 * (getMidPoint) and the "same place" test built on the Euclidean distance
 * between two centres (distance, compared with 10 pixels).
 *
 * Coordinates are reals. Math.sqrt is not modelled as a function: a value `d`
 * is the distance of two points when it is non-negative and its square is
 * their squared distance (IsDistance), and NearIffDistanceBelowEpsilon shows
 * that comparing such a `d` with 10 is the same as comparing the squared
 * distance with 100, which is what Near does.
 */
module Geometry {

  /** A point in video-frame pixel coordinates. */
  datatype Point = Point(x: real, y: real)

  /** A face bounding box as the detector reports it: top-left corner and size. */
  datatype Box = Box(x: real, y: real, width: real, height: real)

  /** Distance in pixels below which two face centres are "the same place". */
  const Epsilon: real := 10.0

  /** The centre of a face box. */
  function MidPoint(b: Box): (c: Point)
    // the centre is as far from the left edge as from the right edge,
    // and as far from the top edge as from the bottom edge
    ensures c.x - b.x == (b.x + b.width) - c.x
    ensures c.y - b.y == (b.y + b.height) - c.y
    // so it lies inside every box of non-negative size
    ensures 0.0 <= b.width ==> b.x <= c.x <= b.x + b.width
    ensures 0.0 <= b.height ==> b.y <= c.y <= b.y + b.height
  {
    Point(b.x + b.width / 2.0, b.y + b.height / 2.0)
  }

  lemma SquareNonNegative(t: real)
    ensures 0.0 <= t * t
  {
    if t < 0.0 {
      assert t * t == (-t) * (-t);
    }
  }

  /** The square of the Euclidean distance between two points. */
  function SquaredDistance(a: Point, b: Point): (r: real)
    ensures 0.0 <= r
  {
    var dx := a.x - b.x;
    var dy := a.y - b.y;
    SquareNonNegative(dx);
    SquareNonNegative(dy);
    dx * dx + dy * dy
  }

  /** Whether `d` is the Euclidean distance between `a` and `b`, as Math.sqrt gives it. */
  ghost predicate IsDistance(d: real, a: Point, b: Point)
  {
    0.0 <= d && d * d == SquaredDistance(a, b)
  }

  /** Two centres are "the same place": closer than Epsilon. */
  predicate Near(a: Point, b: Point)
  {
    SquaredDistance(a, b) < Epsilon * Epsilon
  }

  /** For a distance `d`, the test `d < 10` of main.js is exactly Near. */
  lemma NearIffDistanceBelowEpsilon(a: Point, b: Point, d: real)
    requires IsDistance(d, a, b)
    ensures d < Epsilon <==> Near(a, b)
  {
    if d < Epsilon {
      assert d * d <= d * Epsilon;
      assert d * Epsilon < Epsilon * Epsilon;
    } else {
      assert Epsilon * Epsilon <= d * Epsilon;
      assert d * Epsilon <= d * d;
    }
  }

  /** A centre is always in the same place as itself. */
  lemma NearReflexive(p: Point)
    ensures SquaredDistance(p, p) == 0.0
    ensures Near(p, p)
  {
    assert p.x - p.x == 0.0 && p.y - p.y == 0.0;
    assert 0.0 * 0.0 + 0.0 * 0.0 == 0.0;
  }

  /** The "same place" test does not depend on which centre came first. */
  lemma NearSymmetric(a: Point, b: Point)
    ensures Near(a, b) <==> Near(b, a)
  {
    assert (a.x - b.x) * (a.x - b.x) == (b.x - a.x) * (b.x - a.x);
    assert (a.y - b.y) * (a.y - b.y) == (b.y - a.y) * (b.y - a.y);
  }
}
