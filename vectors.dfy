/** SceneKit's SCNVector3 and the operators and helper functions the app adds to it
    (ARFlock/SCNVector3+Extensions.swift), over exact reals instead of Float.

    The square root that `length` takes from the C library (sqrtf) is not defined here:
    every member that needs it takes it as a parameter `sqrt` that must satisfy IsSqrt. */
module Vectors {

  datatype Vec3 = Vec3(x: real, y: real, z: real)

  const Zero := Vec3(0.0, 0.0, 0.0)

  /** `sqrt` returns the non-negative square root of every non-negative argument. */
  ghost predicate IsSqrt(sqrt: real -> real) {
    forall u: real :: 0.0 <= u ==> 0.0 <= sqrt(u) && sqrt(u) * sqrt(u) == u
  }

  lemma SquareLess(a: real, b: real)
    requires 0.0 <= a < b
    ensures a * a < b * b
  {
    calc {
      a * a;
    <= a * b;
    <  b * b;
    }
  }

  lemma SquareZero(a: real)
    ensures 0.0 <= a * a
    ensures a * a == 0.0 <==> a == 0.0
  {
    if 0.0 < a { SquareLess(0.0, a); }
    else if a < 0.0 { SquareLess(0.0, -a); assert (-a) * (-a) == a * a; }
  }

  lemma SqrtOf(sqrt: real -> real, u: real)
    requires IsSqrt(sqrt) && 0.0 <= u
    ensures 0.0 <= sqrt(u) && sqrt(u) * sqrt(u) == u
    ensures sqrt(u) == 0.0 <==> u == 0.0
  {
    SquareZero(sqrt(u));
  }

  lemma ProductNonNegative(a: real, b: real)
    requires 0.0 <= a && 0.0 <= b
    ensures 0.0 <= a * b
  {
  }

  lemma ProductOfSquares(a: real, b: real)
    ensures (a * b) * (a * b) == a * a * (b * b)
  {
  }

  /** A square root is determined by its square: the one `sqrt` returns is the only one. */
  lemma SqrtUnique(sqrt: real -> real, u: real, r: real)
    requires IsSqrt(sqrt) && 0.0 <= r && r * r == u
    ensures sqrt(u) == r
  {
    var q := sqrt(u);
    assert 0.0 <= q && q * q == u;
    if q < r { SquareLess(q, r); }
    else if q > r { SquareLess(r, q); }
  }

  // ---------------------------------------------------------------------------
  // Component-wise and scalar arithmetic (the infix operators)

  /** `left + right` */
  function Add(a: Vec3, b: Vec3): Vec3 {
    Vec3(a.x + b.x, a.y + b.y, a.z + b.z)
  }

  /** `left - right` */
  function Sub(a: Vec3, b: Vec3): Vec3 {
    Vec3(a.x - b.x, a.y - b.y, a.z - b.z)
  }

  /** `left * right` between two vectors */
  function Mul(a: Vec3, b: Vec3): Vec3 {
    Vec3(a.x * b.x, a.y * b.y, a.z * b.z)
  }

  /** `vector * scalar` */
  function Scale(v: Vec3, s: real): Vec3 {
    Vec3(v.x * s, v.y * s, v.z * s)
  }

  /** `left / right` between two vectors; every component of the divisor must be non-zero. */
  function Div(a: Vec3, b: Vec3): Vec3
    requires b.x != 0.0 && b.y != 0.0 && b.z != 0.0
  {
    Vec3(a.x / b.x, a.y / b.y, a.z / b.z)
  }

  /** `vector / scalar`; the scalar must be non-zero. */
  function DivScalar(v: Vec3, s: real): Vec3
    requires s != 0.0
  {
    Vec3(v.x / s, v.y / s, v.z / s)
  }

  lemma AddSubCancel(a: Vec3, b: Vec3)
    ensures Sub(Add(a, b), b) == a
    ensures Add(Sub(a, b), b) == a
  {
  }

  lemma ScaleDivCancel(v: Vec3, s: real)
    requires s != 0.0
    ensures DivScalar(Scale(v, s), s) == v
    ensures Scale(DivScalar(v, s), s) == v
  {
  }

  lemma MulDivCancel(a: Vec3, b: Vec3)
    requires b.x != 0.0 && b.y != 0.0 && b.z != 0.0
    ensures Div(Mul(a, b), b) == a
    ensures Mul(Div(a, b), b) == a
  {
  }

  /** Dividing by a scalar is scaling by its inverse. */
  lemma DivScalarIsScale(v: Vec3, s: real)
    requires s != 0.0
    ensures DivScalar(v, s) == Scale(v, 1.0 / s)
  {
  }

  // ---------------------------------------------------------------------------
  // Compound assignments: each one takes the inout operand and returns what it is set to

  /** `left += right` */
  method AddAssign(left: Vec3, right: Vec3) returns (left': Vec3)
    ensures left' == Add(left, right)
  {
    left' := Add(left, right);
  }

  /** `left -= right` */
  method SubAssign(left: Vec3, right: Vec3) returns (left': Vec3)
    ensures left' == Sub(left, right)
  {
    left' := Sub(left, right);
  }

  /** `left *= right` between two vectors */
  method MulAssign(left: Vec3, right: Vec3) returns (left': Vec3)
    ensures left' == Mul(left, right)
  {
    left' := Mul(left, right);
  }

  /** `vector *= scalar` */
  method ScaleAssign(v: Vec3, s: real) returns (v': Vec3)
    ensures v' == Scale(v, s)
  {
    v' := Scale(v, s);
  }

  /** `left /= right` between two vectors */
  method DivAssign(left: Vec3, right: Vec3) returns (left': Vec3)
    requires right.x != 0.0 && right.y != 0.0 && right.z != 0.0
    ensures left' == Div(left, right)
  {
    left' := Div(left, right);
  }

  /** `vector /= scalar` */
  method DivScalarAssign(v: Vec3, s: real) returns (v': Vec3)
    requires s != 0.0
    ensures v' == DivScalar(v, s)
  {
    v' := DivScalar(v, s);
  }

  // ---------------------------------------------------------------------------
  // Negation

  /** `negate()`: the vector times -1. */
  function Negate(v: Vec3): Vec3 {
    Scale(v, -1.0)
  }

  /** The free function `SCNVector3Negate`. */
  function Vector3Negate(v: Vec3): Vec3 {
    Scale(v, -1.0)
  }

  /** The mutating `negated()`: the receiver is replaced by its negation, which is also returned. */
  method Negated(v: Vec3) returns (v': Vec3, r: Vec3)
    ensures v' == Negate(v) && r == v'
  {
    v' := Negate(v);
    r := v';
  }

  lemma NegateLaws(v: Vec3)
    ensures Negate(v) == Vector3Negate(v)
    ensures Negate(v) == Vec3(-v.x, -v.y, -v.z)
    ensures Negate(Negate(v)) == v
    ensures Add(v, Negate(v)) == Zero
  {
  }

  // ---------------------------------------------------------------------------
  // Dot and cross products

  /** `dot(_:)` */
  function Dot(a: Vec3, b: Vec3): real {
    a.x * b.x + a.y * b.y + a.z * b.z
  }

  /** `cross(_:)` */
  function Cross(a: Vec3, b: Vec3): Vec3 {
    Vec3(a.y * b.z - a.z * b.y, a.z * b.x - a.x * b.z, a.x * b.y - a.y * b.x)
  }

  /** The free function `SCNVector3DotProduct`. */
  function Vector3DotProduct(left: Vec3, right: Vec3): real {
    left.x * right.x + left.y * right.y + left.z * right.z
  }

  /** The free function `SCNVector3CrossProduct`. */
  function Vector3CrossProduct(left: Vec3, right: Vec3): Vec3 {
    Vec3(left.y * right.z - left.z * right.y, left.z * right.x - left.x * right.z,
         left.x * right.y - left.y * right.x)
  }

  lemma DotLaws(a: Vec3, b: Vec3)
    ensures Dot(a, b) == Dot(b, a)
    ensures Dot(a, b) == Vector3DotProduct(a, b)
  {
  }

  lemma CrossLaws(a: Vec3, b: Vec3)
    ensures Cross(a, b) == Negate(Cross(b, a))
    ensures Cross(a, a) == Zero
    ensures Cross(a, b) == Vector3CrossProduct(a, b)
  {
  }

  /** The cross product is orthogonal to both of its operands. */
  lemma CrossOrthogonal(a: Vec3, b: Vec3)
    ensures Dot(a, Cross(a, b)) == 0.0
    ensures Dot(b, Cross(a, b)) == 0.0
  {
  }

  /** The squared length `dot(v, v)` is never negative and is zero only for the zero vector. */
  lemma DotSelf(v: Vec3)
    ensures 0.0 <= Dot(v, v)
    ensures Dot(v, v) == 0.0 <==> v == Zero
  {
    SquareZero(v.x);
    SquareZero(v.y);
    SquareZero(v.z);
  }

  lemma DotScale(v: Vec3, k: real)
    ensures Dot(Scale(v, k), Scale(v, k)) == k * k * Dot(v, v)
  {
  }

  // ---------------------------------------------------------------------------
  // Length, distance and normalisation

  /** `length()`: the Euclidean norm, the square root of x*x + y*y + z*z, which is `dot(v, v)`. */
  function Length(v: Vec3, sqrt: real -> real): (r: real)
    requires IsSqrt(sqrt)
    ensures 0.0 <= r && r * r == Dot(v, v)
    ensures r == 0.0 <==> v == Zero
  {
    DotSelf(v);
    SqrtOf(sqrt, Dot(v, v));
    sqrt(Dot(v, v))
  }

  /** The free function `SCNVector3Length`. */
  function Vector3Length(v: Vec3, sqrt: real -> real): (r: real)
    requires IsSqrt(sqrt)
    ensures r == Length(v, sqrt)
  {
    DotLaws(v, v);
    sqrt(Vector3DotProduct(v, v))
  }

  /** Scaling by a non-negative factor scales the length by that factor. */
  lemma LengthScale(v: Vec3, k: real, sqrt: real -> real)
    requires IsSqrt(sqrt) && 0.0 <= k
    ensures Length(Scale(v, k), sqrt) == k * Length(v, sqrt)
  {
    var l := Length(v, sqrt);
    var d := Dot(v, v);
    var d' := Dot(Scale(v, k), Scale(v, k));
    DotScale(v, k);
    assert d' == k * k * d;
    assert l * l == d;
    ProductOfSquares(k, l);
    assert 0.0 <= k * l by { ProductNonNegative(k, l); }
    SqrtUnique(sqrt, d', k * l);
  }

  /** Comparing a length with a non-negative bound is comparing squared length with the squared bound. */
  lemma LengthLessIff(v: Vec3, c: real, sqrt: real -> real)
    requires IsSqrt(sqrt) && 0.0 <= c
    ensures Length(v, sqrt) < c <==> Dot(v, v) < c * c
  {
    var l := Length(v, sqrt);
    if l < c { SquareLess(l, c); }
    else if c < l { SquareLess(c, l); }
  }

  /** `distance(_:)`: the length of `self - vector`. */
  function Distance(a: Vec3, b: Vec3, sqrt: real -> real): real
    requires IsSqrt(sqrt)
  {
    Length(Sub(a, b), sqrt)
  }

  /** The free function `SCNVector3Distance`: the length of `vectorEnd - vectorStart`. */
  function Vector3Distance(start: Vec3, end: Vec3, sqrt: real -> real): real
    requires IsSqrt(sqrt)
  {
    Vector3Length(Sub(end, start), sqrt)
  }

  lemma DistanceLaws(a: Vec3, b: Vec3, sqrt: real -> real)
    requires IsSqrt(sqrt)
    ensures 0.0 <= Distance(a, b, sqrt)
    ensures Distance(a, b, sqrt) == Distance(b, a, sqrt)
    ensures Distance(a, a, sqrt) == 0.0
    ensures Distance(a, b, sqrt) == 0.0 <==> a == b
    ensures Distance(a, b, sqrt) == Vector3Distance(a, b, sqrt)
  {
    assert Dot(Sub(a, b), Sub(a, b)) == Dot(Sub(b, a), Sub(b, a));
    SqrtUnique(sqrt, Dot(Sub(b, a), Sub(b, a)), Distance(a, b, sqrt));
    assert Sub(a, b) == Zero <==> a == b;
  }

  /** `v` is `k * u` for some positive `k`: same direction as `u`. */
  ghost predicate PositiveMultiple(v: Vec3, u: Vec3) {
    exists k: real :: 0.0 < k && v == Scale(u, k)
  }

  /** `normalized()`: the vector divided by its length; the length must be non-zero,
      that is, the vector must not be the zero vector (see Length). */
  function Normalized(v: Vec3, sqrt: real -> real): Vec3
    requires IsSqrt(sqrt) && v != Zero
  {
    DivScalar(v, Length(v, sqrt))
  }

  /** The free function `SCNVector3Normalize`. */
  function Vector3Normalize(v: Vec3, sqrt: real -> real): Vec3
    requires IsSqrt(sqrt) && v != Zero
  {
    DivScalar(v, Vector3Length(v, sqrt))
  }

  /** The mutating `normalize()`: the receiver is replaced by its normalisation, which is also returned. */
  method Normalize(v: Vec3, sqrt: real -> real) returns (v': Vec3, r: Vec3)
    requires IsSqrt(sqrt) && v != Zero
    ensures v' == Normalized(v, sqrt) && r == v'
  {
    v' := Normalized(v, sqrt);
    r := v';
  }

  /** A normalised vector points the same way as the input and has length 1. */
  lemma NormalizedIsUnit(v: Vec3, sqrt: real -> real)
    requires IsSqrt(sqrt) && v != Zero
    ensures Normalized(v, sqrt) == Vector3Normalize(v, sqrt)
    ensures PositiveMultiple(Normalized(v, sqrt), v)
    ensures Length(Normalized(v, sqrt), sqrt) == 1.0
    ensures Dot(Normalized(v, sqrt), Normalized(v, sqrt)) == 1.0
  {
    var l := Length(v, sqrt);
    var k := 1.0 / l;
    DivScalarIsScale(v, l);
    assert Normalized(v, sqrt) == Scale(v, k);
    LengthScale(v, k, sqrt);
    assert k * l == 1.0;
    var n := Normalized(v, sqrt);
    assert Length(n, sqrt) * Length(n, sqrt) == Dot(n, n);
  }

  /** The free function `SCNVector3Project`: `projectionVector` scaled by
      dot(projectionVector, vectorToProject) / dot(projectionVector, projectionVector), which
      must not divide by zero (so projectionVector is not the zero vector, see DotSelf). */
  function Vector3Project(u: Vec3, p: Vec3): Vec3
    requires Vector3DotProduct(p, p) != 0.0
  {
    var scale := Vector3DotProduct(p, u) / Vector3DotProduct(p, p);
    Scale(p, scale)
  }

  lemma DivMulCancel(a: real, d: real)
    requires d != 0.0
    ensures (a / d) * d == a
    ensures (a * d) / d == a
  {
  }

  lemma DotWithScaled(p: Vec3, u: Vec3, k: real)
    ensures Dot(p, Scale(p, k)) == k * Dot(p, p)
    ensures Dot(p, Sub(u, Scale(p, k))) == Dot(p, u) - k * Dot(p, p)
  {
  }

  /** The projection is a multiple of the projection vector and what is left of the projected
      vector is orthogonal to the projection vector. */
  lemma ProjectOrthogonal(u: Vec3, p: Vec3)
    requires p != Zero
    ensures Vector3DotProduct(p, p) != 0.0
    ensures exists k: real :: Vector3Project(u, p) == Scale(p, k)
    ensures Dot(p, Sub(u, Vector3Project(u, p))) == 0.0
  {
    DotSelf(p);
    DotLaws(p, p);
    DotLaws(p, u);
    var d := Dot(p, p);
    var k := Dot(p, u) / d;
    assert Vector3Project(u, p) == Scale(p, k);
    DotWithScaled(p, u, k);
    DivMulCancel(Dot(p, u), d);
  }

  /** Projecting the projection vector onto itself returns it, and projecting twice is projecting once. */
  lemma ProjectIdempotent(u: Vec3, p: Vec3)
    requires p != Zero
    ensures Vector3DotProduct(p, p) != 0.0
    ensures Vector3Project(p, p) == p
    ensures Vector3Project(Vector3Project(u, p), p) == Vector3Project(u, p)
  {
    DotSelf(p);
    DotLaws(p, p);
    var d := Dot(p, p);
    DivMulCancel(1.0, d);
    assert Vector3Project(p, p) == Scale(p, 1.0);
    var k := Vector3DotProduct(p, u) / d;
    var r := Vector3Project(u, p);
    assert r == Scale(p, k);
    DotWithScaled(p, u, k);
    DotLaws(p, r);
    DivMulCancel(k, d);
    assert Vector3DotProduct(p, r) / d == k;
  }
}
