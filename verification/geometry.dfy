/** The 2D segment-crossing test used by crossing resolution and by the
    candidate filter. Points are node positions; the orientation test looks
    at their x and y coordinates only, while the proximity guards measure
    the full 3D distance. */
module Geometry {
  import opened Vectors

  /** Twice the signed area of the triangle (a, b, c) projected on the x-y plane. */
  function Orient(a: Vec3, b: Vec3, c: Vec3): real {
    (b.x - a.x) * (c.y - a.y) - (b.y - a.y) * (c.x - a.x)
  }

  /** The counter-clockwise turn test `ccw` of both source files. */
  predicate Ccw(a: Vec3, b: Vec3, c: Vec3)
    ensures Ccw(a, b, c) <==> Orient(a, b, c) > 0.0
  {
    (c.y - a.y) * (b.x - a.x) > (b.y - a.y) * (c.x - a.x)
  }

  /** The square of the 0.01 proximity tolerance. */
  const Tol: real := 0.0001

  /** c, d lie on different sides of the line through a, b and vice versa. */
  predicate Straddles(a: Vec3, b: Vec3, c: Vec3, d: Vec3) {
    Ccw(a, c, d) != Ccw(b, c, d) && Ccw(a, b, c) != Ccw(a, b, d)
  }

  /** `intersect` of the earlier variant: rejected as soon as one of the
      distances |a-c|, |a-d|, |b-c| is below 0.01. */
  predicate Intersect(a: Vec3, b: Vec3, c: Vec3, d: Vec3)
    ensures Intersect(a, b, c, d) ==> a != c && a != d && b != c && Straddles(a, b, c, d)
  {
    if DistSq(a, c) < Tol then false
    else if DistSq(a, d) < Tol then false
    else if DistSq(b, c) < Tol then false
    else Straddles(a, b, c, d)
  }

  /** The vectorised test of `intersect_all` and `intersect_withone`: all
      three distances must be greater than 0.01. */
  predicate LinksCross(a: Vec3, b: Vec3, c: Vec3, d: Vec3)
    ensures LinksCross(a, b, c, d) ==> a != c && a != d && b != c && Straddles(a, b, c, d)
  {
    DistSq(a, c) > Tol && DistSq(a, d) > Tol && DistSq(b, c) > Tol && Straddles(a, b, c, d)
  }

  lemma OrientCyclic(a: Vec3, b: Vec3, c: Vec3)
    ensures Orient(a, b, c) == Orient(b, c, a)
  {
  }

  lemma OrientSwap(a: Vec3, b: Vec3, c: Vec3)
    ensures Orient(a, c, b) == -Orient(a, b, c)
    ensures Orient(b, a, c) == -Orient(a, b, c)
  {
  }

  /** The turn test is strict: of the two orders of b and c exactly one is
      counter-clockwise, unless the three points are collinear, when neither is. */
  lemma CcwTrichotomy(a: Vec3, b: Vec3, c: Vec3)
    ensures Orient(a, b, c) == 0.0 ==> !Ccw(a, b, c) && !Ccw(a, c, b)
    ensures Orient(a, b, c) != 0.0 ==> Ccw(a, b, c) != Ccw(a, c, b)
  {
    OrientSwap(a, b, c);
  }

  /** Rotating the three points does not change the turn. */
  lemma CcwCyclic(a: Vec3, b: Vec3, c: Vec3)
    ensures Ccw(a, b, c) == Ccw(b, c, a) == Ccw(c, a, b)
  {
    OrientCyclic(a, b, c);
    OrientCyclic(b, c, a);
  }

  lemma DistSqSymmetric(u: Vec3, v: Vec3)
    ensures DistSq(u, v) == DistSq(v, u)
  {
  }

  /** Swapping the two segments maps the three guards and the two straddle
      tests onto each other. */
  lemma IntersectSymmetric(a: Vec3, b: Vec3, c: Vec3, d: Vec3)
    ensures Intersect(a, b, c, d) == Intersect(c, d, a, b)
    ensures LinksCross(a, b, c, d) == LinksCross(c, d, a, b)
  {
    DistSqSymmetric(a, c);
    DistSqSymmetric(a, d);
    DistSqSymmetric(b, c);
    CcwCyclic(a, c, d);
    CcwCyclic(b, c, d);
    CcwCyclic(a, b, c);
    CcwCyclic(a, b, d);
  }

  /** Two segments with a common endpoint are never reported as crossing.
      Three of the four cases are the guards; b == d is ruled out by the
      strictness of the turn test. */
  lemma SharedEndpointNeverCrosses(a: Vec3, b: Vec3, c: Vec3, d: Vec3)
    requires a == c || a == d || b == c || b == d
    ensures !Intersect(a, b, c, d) && !LinksCross(a, b, c, d)
  {
    if b == d && a != c && a != d && b != c {
      OrientSwap(a, c, d);
      assert !Ccw(b, c, d) && !Ccw(a, b, d);
      assert Ccw(a, c, d) ==> !Ccw(a, b, c);
    }
  }

  /** The two variants agree except when a distance is exactly 0.01. */
  lemma LinksCrossVersusIntersect(a: Vec3, b: Vec3, c: Vec3, d: Vec3)
    ensures LinksCross(a, b, c, d) ==> Intersect(a, b, c, d)
    ensures Intersect(a, b, c, d) && DistSq(a, c) != Tol && DistSq(a, d) != Tol && DistSq(b, c) != Tol
            ==> LinksCross(a, b, c, d)
  {
  }

  /** In general position (no three of the points collinear) the test is the
      textbook one: c and d strictly on opposite sides of line ab, and a and b
      strictly on opposite sides of line cd; then the order of the endpoints
      of either segment does not matter. */
  lemma StraddlesInGeneralPosition(a: Vec3, b: Vec3, c: Vec3, d: Vec3)
    requires Orient(a, b, c) != 0.0 && Orient(a, b, d) != 0.0
    requires Orient(c, d, a) != 0.0 && Orient(c, d, b) != 0.0
    ensures Straddles(a, b, c, d) <==>
              (Orient(a, b, c) > 0.0) != (Orient(a, b, d) > 0.0) &&
              (Orient(c, d, a) > 0.0) != (Orient(c, d, b) > 0.0)
    ensures Straddles(a, b, c, d) == Straddles(b, a, c, d) == Straddles(a, b, d, c)
  {
    OrientCyclic(a, c, d);
    OrientCyclic(b, c, d);
    OrientSwap(a, b, c);
    OrientSwap(a, b, d);
    OrientSwap(c, d, a);
    OrientSwap(c, d, b);
    OrientCyclic(a, d, c);
    OrientCyclic(b, d, c);
  }

  /** Outside general position the strict test can depend on endpoint
      order. An example: the segment from (0, 0) to (2, 0) is touched at its
      interior point (1, 0) by the segment from (1, 0) to (1, 1); the pair is
      reported when the first segment is written from (0, 0) but not when it
      is written from (2, 0). */
  lemma TouchingDependsOnOrder()
    ensures Straddles(Vec3(0.0, 0.0, 0.0), Vec3(2.0, 0.0, 0.0), Vec3(1.0, 0.0, 0.0), Vec3(1.0, 1.0, 0.0))
    ensures !Straddles(Vec3(2.0, 0.0, 0.0), Vec3(0.0, 0.0, 0.0), Vec3(1.0, 0.0, 0.0), Vec3(1.0, 1.0, 0.0))
  {
  }
}
