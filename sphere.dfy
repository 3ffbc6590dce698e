/**
  `pointsOnSphere(n)` of script.js: n points on the unit sphere laid out on a
  golden-angle spiral. The latitude `y` of point i is exact rational
  arithmetic and is modelled as such. The horizontal coordinates
  `x = cos(phi) * r` and `z = sin(phi) * r`, with `phi = i * PI * (3 - sqrt(5))`
  and `r = sqrt(1 - y * y)`, are trigonometry; they are left abstract as the
  parameter `ring`, which gives (x, z) for point index i at latitude y.
 */
module Sphere {

  import opened Helpers

  datatype Point3 = Point3(x: real, y: real, z: real)

  /** (i, y) to (cos(i * inc) * sqrt(1 - y * y), sin(i * inc) * sqrt(1 - y * y)). */
  type Ring = (nat, real) -> (real, real)

  /**
    The latitude of point i out of n: `i * off - 1 + off / 2` with `off = 2 / n`.
    It is the centre of the i-th of n equal bands of [-1, 1], so it lies
    strictly inside (-1, 1) and the radicand `1 - y * y` is positive.
   */
  function Latitude(i: nat, n: nat): (y: real)
    requires i < n
    ensures y == (2 * i + 1) as real / n as real - 1.0
    ensures -1.0 < y < 1.0
    ensures 1.0 - y * y > 0.0
  {
    var off := 2.0 / n as real;
    LatitudeArithmetic(i as real, n as real, off);
    i as real * off - 1.0 + off / 2.0
  }

  /** The spiral's latitude formula is the centre of band i of [-1, 1] cut into m bands. */
  lemma LatitudeArithmetic(i: real, m: real, off: real)
    requires 0.0 <= i && i + 1.0 <= m && off == 2.0 / m
    ensures i * off - 1.0 + off / 2.0 == (2.0 * i + 1.0) / m - 1.0
    ensures -1.0 < (2.0 * i + 1.0) / m - 1.0 < 1.0
    ensures 1.0 - ((2.0 * i + 1.0) / m - 1.0) * ((2.0 * i + 1.0) / m - 1.0) > 0.0
  {
  }

  /**
    What `cos` and `sin` promise over the reals: for every latitude strictly
    inside (-1, 1), `(cos(phi) * r)^2 + (sin(phi) * r)^2` is `r * r`, that is
    `1 - y * y`.
   */
  ghost predicate OnRing(ring: Ring)
  {
    forall i: nat, y: real :: -1.0 < y < 1.0 ==>
      ring(i, y).0 * ring(i, y).0 + ring(i, y).1 * ring(i, y).1 == 1.0 - y * y
  }

  /** Point i of `pointsOnSphere(n)`: the ring coordinates around the exact latitude. */
  function SpherePoint(i: nat, n: nat, ring: Ring): Point3
    requires i < n
  {
    var y := Latitude(i, n);
    var (x, z) := ring(i, y);
    Point3(x, y, z)
  }

  /** When the ring is the circle of radius `sqrt(1 - y * y)`, every point lies on the unit sphere. */
  lemma UnitLength(i: nat, n: nat, ring: Ring)
    requires i < n
    requires OnRing(ring)
    ensures var p := SpherePoint(i, n, ring);
            p.x * p.x + p.y * p.y + p.z * p.z == 1.0
  {
    var y := Latitude(i, n);
    assert ring(i, y).0 * ring(i, y).0 + ring(i, y).1 * ring(i, y).1 == 1.0 - y * y;
  }

  /** Latitudes climb strictly from the south pole towards the north pole. */
  lemma LatitudeStrictlyIncreasing(i: nat, j: nat, n: nat)
    requires i < j < n
    ensures Latitude(i, n) < Latitude(j, n)
  {
  }

  /** `pointsOnSphere(n)`: pushes one point per index of `range(n)`. */
  method PointsOnSphere(n: nat, ring: Ring) returns (pts: seq<Point3>)
    ensures |pts| == n
    ensures forall i :: 0 <= i < n ==> -1.0 < pts[i].y < 1.0
    ensures forall i :: 0 <= i < n ==> pts[i] == SpherePoint(i, n, ring)
    ensures OnRing(ring) ==> forall i :: 0 <= i < n ==> pts[i].x * pts[i].x + pts[i].y * pts[i].y + pts[i].z * pts[i].z == 1.0
  {
    pts := [];
    // For n == 0 the script computes 2 / 0 (Infinity) and never reads it.
    var off: real := if n == 0 then 0.0 else 2.0 / n as real;
    var indices := Range(n);
    var t := 0;
    while t < |indices|
      invariant 0 <= t <= n
      invariant |pts| == t
      invariant forall k :: 0 <= k < t ==> pts[k] == SpherePoint(k, n, ring)
    {
      var i: nat := indices[t];
      var y := i as real * off - 1.0 + off / 2.0;
      assert i == t && off == 2.0 / n as real;
      assert y == Latitude(i, n);
      var (x, z) := ring(i, y);
      pts := pts + [Point3(x, y, z)];
      t := t + 1;
    }
    if OnRing(ring) {
      forall i | 0 <= i < n
        ensures pts[i].x * pts[i].x + pts[i].y * pts[i].y + pts[i].z * pts[i].z == 1.0
      {
        UnitLength(i, n, ring);
      }
    }
  }
}
