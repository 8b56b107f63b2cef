/**
 * Plane geometry shared by the browser pose coach and the Python angle tools.
 *
 * The square root behind a vector length, the arc cosine and the two-argument
 * arc tangent are floating-point library calls in the source. They are not
 * computed here: a `Numerics` value carries them as functions, and `Sound`
 * states the only facts the model relies on (lengths are never negative and
 * vanish only for the zero vector, arc cosine maps [-1, 1] into [0, 180]
 * degrees, arc tangent lies in [-180, 180] degrees).
 */
module Geometry {

  /** A landmark position in image coordinates (y grows downward). */
  datatype Point = Point(x: real, y: real)

  /** The floating-point primitives of the runtime, in degrees where an angle is returned. */
  datatype Numerics = Numerics(
    hypot: (real, real) -> real,
    acosDeg: real -> real,
    atan2Deg: (real, real) -> real)

  ghost predicate Sound(n: Numerics) {
    && (forall x, y :: n.hypot(x, y) >= 0.0 && (n.hypot(x, y) == 0.0 <==> x == 0.0 && y == 0.0))
    && (forall c :: -1.0 <= c <= 1.0 ==> 0.0 <= n.acosDeg(c) <= 180.0)
    && (forall y, x :: -180.0 <= n.atan2Deg(y, x) <= 180.0)
  }

  function Sub(a: Point, b: Point): Point {
    Point(a.x - b.x, a.y - b.y)
  }

  function Dot(u: Point, v: Point): real {
    u.x * v.x + u.y * v.y
  }

  function Length(n: Numerics, v: Point): (r: real)
    requires Sound(n)
    ensures r >= 0.0
  {
    n.hypot(v.x, v.y)
  }

  /** The segment from `b` to `a` has length zero exactly when the two points coincide. */
  lemma ZeroLength(n: Numerics, a: Point, b: Point)
    requires Sound(n)
    ensures Length(n, Sub(a, b)) == 0.0 <==> a == b
  {
  }

  lemma ZeroProduct(x: real, y: real)
    ensures x * y == 0.0 <==> x == 0.0 || y == 0.0
  {
  }

  function Abs(x: real): real {
    if x < 0.0 then -x else x
  }

  function Distance(x: real, y: real): real {
    Abs(x - y)
  }

  /** `max(lo, min(hi, x))`: the point of [lo, hi] nearest to `x`. */
  function Clamp(lo: real, hi: real, x: real): (r: real)
    requires lo <= hi
    ensures lo <= r <= hi
    ensures lo <= x <= hi ==> r == x
    ensures forall y :: lo <= y <= hi ==> Distance(r, x) <= Distance(y, x)
  {
    if x > hi then hi else if x < lo then lo else x
  }

  /** The 1e-9 the browser adds to the product of lengths so that it never divides by zero. */
  const DivisionGuard: real := 0.000000001

  /**
   * `angleDeg(a, b, c)`: the angle at vertex `b` between the rays to `a` and to `c`,
   * in degrees; the cosine is clamped into [-1, 1] before the arc cosine.
   */
  function AngleDeg(n: Numerics, a: Point, b: Point, c: Point): (r: real)
    requires Sound(n)
    ensures 0.0 <= r <= 180.0
  {
    var ab := Sub(a, b);
    var cb := Sub(c, b);
    var lengths := Length(n, ab) * Length(n, cb);
    assert lengths >= 0.0 by { ProductOfNonNegatives(Length(n, ab), Length(n, cb)); }
    n.acosDeg(Clamp(-1.0, 1.0, Dot(ab, cb) / (lengths + DivisionGuard)))
  }

  lemma ProductOfNonNegatives(x: real, y: real)
    requires x >= 0.0 && y >= 0.0
    ensures x * y >= 0.0
  {
  }

  /** The angle is measured at the middle argument: the two outer points can be swapped. */
  lemma AngleDegSymmetric(n: Numerics, a: Point, b: Point, c: Point)
    requires Sound(n)
    ensures AngleDeg(n, a, b, c) == AngleDeg(n, c, b, a)
  {
    var ab, cb := Sub(a, b), Sub(c, b);
    assert Dot(ab, cb) == Dot(cb, ab);
    assert Length(n, ab) * Length(n, cb) == Length(n, cb) * Length(n, ab);
  }
}
