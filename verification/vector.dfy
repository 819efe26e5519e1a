/**
 * Directions in homogeneous 3D space. A vector is a register of four lanes
 * x, y, z, w; the w lane is a type tag that is 0 for a direction. Lanes are
 * `real`, an idealisation of the f64 lanes the program stores: no rounding,
 * no NaN and no infinity.
 */
module Vectors {

  /** The four lanes of a vector register. `w` is not forced to 0 by the
      type: that every operation keeps it at 0 is proved below. */
  datatype Vector = Vector(x: real, y: real, z: real, w: real)

  /** A fixed-size array of three components, as taken by `FromArray`. */
  type Triple = s: seq<real> | |s| == 3 witness [0.0, 0.0, 0.0]

  /** The named axes by which a vector's components are read. */
  datatype Direction = X | Y | Z

  /** The tag lane marks the value as a direction. */
  predicate IsDirection(v: Vector) {
    v.w == 0.0
  }

  /** Reads the component of an axis: X, Y and Z read lanes 0, 1 and 2.
      The tag lane has no axis. */
  function Get(v: Vector, d: Direction): (r: real)
    ensures d == X ==> r == v.x
    ensures d == Y ==> r == v.y
    ensures d == Z ==> r == v.z
  {
    match d
    case X => v.x
    case Y => v.y
    case Z => v.z
  }

  /** Builds a direction from its three components. */
  function New(x: real, y: real, z: real): (r: Vector)
    ensures IsDirection(r)
    ensures Get(r, X) == x && Get(r, Y) == y && Get(r, Z) == z
  {
    Vector(x, y, z, 0.0)
  }

  /** Builds a direction from an array of three components. */
  function FromArray(vals: Triple): (r: Vector)
    ensures r == New(vals[0], vals[1], vals[2])
    ensures IsDirection(r)
    ensures Get(r, X) == vals[0] && Get(r, Y) == vals[1] && Get(r, Z) == vals[2]
  {
    Vector(vals[0], vals[1], vals[2], 0.0)
  }

  /** Lane-wise sum of two registers. */
  function Add(a: Vector, b: Vector): (r: Vector)
    ensures forall d :: Get(r, d) == Get(a, d) + Get(b, d)
    ensures r.w == a.w + b.w
    ensures IsDirection(a) && IsDirection(b) ==> IsDirection(r)
  {
    Vector(a.x + b.x, a.y + b.y, a.z + b.z, a.w + b.w)
  }

  /** Lane-wise difference of two registers. */
  function Sub(a: Vector, b: Vector): (r: Vector)
    ensures forall d :: Get(r, d) == Get(a, d) - Get(b, d)
    ensures r.w == a.w - b.w
    ensures IsDirection(a) && IsDirection(b) ==> IsDirection(r)
  {
    Vector(a.x - b.x, a.y - b.y, a.z - b.z, a.w - b.w)
  }

  /** Multiplies the three components by a scalar; the tag lane is copied. */
  function Scale(v: Vector, s: real): (r: Vector)
    ensures forall d :: Get(r, d) == Get(v, d) * s
    ensures r.w == v.w
  {
    Vector(v.x * s, v.y * s, v.z * s, v.w)
  }

  /** Divides the three components by a scalar; the tag lane is copied. */
  function Div(v: Vector, s: real): (r: Vector)
    requires s != 0.0
    ensures forall d :: Get(r, d) == Get(v, d) / s
    ensures r.w == v.w
  {
    Vector(v.x / s, v.y / s, v.z / s, v.w)
  }

  /** Negation, computed as the zero register minus `v`, lane by lane. */
  function Neg(v: Vector): (r: Vector)
    ensures forall d :: Get(r, d) == -Get(v, d)
    ensures r.w == -v.w
    ensures IsDirection(v) ==> IsDirection(r)
  {
    Vector(0.0 - v.x, 0.0 - v.y, 0.0 - v.z, 0.0 - v.w)
  }

  /** The dot product over the three axes; the tag lane is not read. For
      two directions it is the product over all four stored lanes, and the
      dot product of a vector with itself is never negative. */
  function Dot(a: Vector, b: Vector): (r: real)
    ensures IsDirection(a) && IsDirection(b) ==> r == a.x * b.x + a.y * b.y + a.z * b.z + a.w * b.w
    ensures a == b ==> r >= 0.0
  {
    Square(a.x); Square(a.y); Square(a.z);
    Get(a, X) * Get(b, X) + Get(a, Y) * Get(b, Y) + Get(a, Z) * Get(b, Z)
  }

  /** The cross product: a direction perpendicular to both arguments. */
  function Cross(a: Vector, b: Vector): (r: Vector)
    ensures IsDirection(r)
    ensures Dot(r, a) == 0.0 && Dot(r, b) == 0.0
  {
    New(Get(a, Y) * Get(b, Z) - Get(a, Z) * Get(b, Y),
        Get(a, Z) * Get(b, X) - Get(a, X) * Get(b, Z),
        Get(a, X) * Get(b, Y) - Get(a, Y) * Get(b, X))
  }

  /** The square of the magnitude: the sum of squares over all four stored
      lanes, tag included. */
  function MagSquared(v: Vector): (r: real)
    ensures r >= 0.0
    ensures r == 0.0 <==> v == Vector(0.0, 0.0, 0.0, 0.0)
  {
    Square(v.x); Square(v.y); Square(v.z); Square(v.w);
    v.x * v.x + v.y * v.y + v.z * v.z + v.w * v.w
  }

  /** A square is never negative, and is zero only for zero. */
  lemma Square(a: real)
    ensures a * a >= 0.0
    ensures a * a == 0.0 ==> a == 0.0
  {
    if a != 0.0 {
      assert (a * a) / a == a;
    }
  }

  /** No axis reads the tag lane. */
  lemma GetIgnoresTag(v: Vector, d: Direction, t: real)
    ensures Get(v.(w := t), d) == Get(v, d)
  {
  }

  lemma AddCommutes(a: Vector, b: Vector)
    ensures Add(a, b) == Add(b, a)
  {
  }

  /** Subtraction is addition of the negation. */
  lemma SubIsAddNeg(a: Vector, b: Vector)
    ensures Sub(a, b) == Add(a, Neg(b))
  {
  }

  lemma SubAntiCommutes(a: Vector, b: Vector)
    ensures Sub(a, b) == Neg(Sub(b, a))
  {
  }

  lemma NegInvolutive(v: Vector)
    ensures Neg(Neg(v)) == v
  {
  }

  /** Adding and then subtracting the same vector is the identity. */
  lemma AddSubRoundTrip(a: Vector, b: Vector)
    ensures Sub(Add(a, b), b) == a
  {
  }

  /** Dividing by the scalar undoes scaling by it and scaling undoes
      dividing, tag lane included. */
  lemma ScaleDivRoundTrip(v: Vector, s: real)
    requires s != 0.0
    ensures Div(Scale(v, s), s) == v
    ensures Scale(Div(v, s), s) == v
  {
  }

  lemma DotSymmetric(a: Vector, b: Vector)
    ensures Dot(a, b) == Dot(b, a)
  {
  }

  /** The dot product does not depend on either tag lane. */
  lemma DotIgnoresTag(a: Vector, b: Vector, s: real, t: real)
    ensures Dot(a.(w := s), b.(w := t)) == Dot(a, b)
  {
  }

  lemma CrossAntiCommutes(a: Vector, b: Vector)
    ensures Cross(a, b) == Neg(Cross(b, a))
  {
  }

  /** For a direction the squared magnitude is the dot product with itself. */
  lemma MagSquaredIsDot(v: Vector)
    requires IsDirection(v)
    ensures MagSquared(v) == Dot(v, v)
  {
  }

  lemma MagSquaredNeg(v: Vector)
    ensures MagSquared(Neg(v)) == MagSquared(v)
  {
  }

  /** Vectors compare lane by lane. */
  lemma EqualityCase()
    ensures New(1.0, 1.0, 1.0) == New(1.0, 1.0, 1.0)
    ensures New(1.0, -1.0, 1.0) != New(1.0, 1.0, 1.0)
  {
  }

  lemma AddCase()
    ensures Add(New(1.0, -1.0, 1.0), New(1.0, 1.0, 1.0)) == New(2.0, 0.0, 2.0)
  {
  }

  lemma SubCase()
    ensures Sub(New(1.0, -1.0, 1.0), New(1.0, 1.0, 1.0)) == New(0.0, -2.0, 0.0)
  {
  }

  lemma NegCase()
    ensures Neg(New(1.0, 2.0, 3.0)) == New(-1.0, -2.0, -3.0)
  {
  }

  lemma ScaleCase()
    ensures Scale(New(1.0, 2.0, 3.0), 3.0) == New(3.0, 6.0, 9.0)
  {
  }

  /** The unit axes have magnitude 1. */
  lemma MagSquaredUnitCase()
    ensures MagSquared(New(1.0, 0.0, 0.0)) == 1.0
    ensures MagSquared(New(0.0, 1.0, 0.0)) == 1.0
    ensures MagSquared(New(0.0, 0.0, 1.0)) == 1.0
  {
  }

  /** (1, 2, 3) and its negation both have squared magnitude 14. */
  lemma MagSquaredCase()
    ensures MagSquared(New(1.0, 2.0, 3.0)) == 14.0
    ensures MagSquared(Neg(New(1.0, 2.0, 3.0))) == 14.0
  {
    var v := New(1.0, 2.0, 3.0);
    assert MagSquared(v) == 1.0 + 4.0 + 9.0 + 0.0;
    MagSquaredNeg(v);
  }

  lemma DotCase()
    ensures Dot(New(1.0, 2.0, 3.0), New(2.0, 3.0, 4.0)) == 20.0
  {
  }

  lemma CrossCase()
    ensures Cross(New(1.0, 2.0, 3.0), New(2.0, 3.0, 4.0)) == New(-1.0, 2.0, -1.0)
  {
  }

  lemma CrossReversedCase()
    ensures Cross(New(2.0, 3.0, 4.0), New(1.0, 2.0, 3.0)) == New(1.0, -2.0, 1.0)
  {
  }
}
