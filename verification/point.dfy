/**
 * Positions in homogeneous 3D space. A point is a register of four lanes
 * x, y, z, w whose tag lane w is 1 for a position. Points and vectors mix
 * under fixed result types: a point moved by a vector is a point, and the
 * difference of two points is a vector.
 */
module Points {
  import Vectors

  /** The four lanes of a point register. `w` is not forced to 1 by the
      type: that the operations keep it at 1 is proved below. */
  datatype Point = Point(x: real, y: real, z: real, w: real)

  /** The tag lane marks the value as a position. */
  predicate IsPoint(p: Point) {
    p.w == 1.0
  }

  /** Builds a position from its three components. */
  function New(x: real, y: real, z: real): (r: Point)
    ensures IsPoint(r)
    ensures r.x == x && r.y == y && r.z == z
  {
    Point(x, y, z, 1.0)
  }

  /** Builds a position from an array of three components. */
  function FromArray(vals: Vectors.Triple): (r: Point)
    ensures r == New(vals[0], vals[1], vals[2])
    ensures IsPoint(r)
  {
    Point(vals[0], vals[1], vals[2], 1.0)
  }

  /** Moves a point by a vector, lane by lane. */
  function Add(p: Point, v: Vectors.Vector): (r: Point)
    ensures r.x == p.x + v.x && r.y == p.y + v.y && r.z == p.z + v.z
    ensures r.w == p.w + v.w
    ensures IsPoint(p) && Vectors.IsDirection(v) ==> IsPoint(r)
  {
    Point(p.x + v.x, p.y + v.y, p.z + v.z, p.w + v.w)
  }

  /** The displacement between two points, lane by lane; it is a vector. */
  function Sub(p: Point, q: Point): (r: Vectors.Vector)
    ensures r.x == p.x - q.x && r.y == p.y - q.y && r.z == p.z - q.z
    ensures r.w == p.w - q.w
    ensures IsPoint(p) && IsPoint(q) ==> Vectors.IsDirection(r)
  {
    Vectors.Vector(p.x - q.x, p.y - q.y, p.z - q.z, p.w - q.w)
  }

  /** Moves a point backwards by a vector, lane by lane. */
  function SubVector(p: Point, v: Vectors.Vector): (r: Point)
    ensures r.x == p.x - v.x && r.y == p.y - v.y && r.z == p.z - v.z
    ensures r.w == p.w - v.w
    ensures IsPoint(p) && Vectors.IsDirection(v) ==> IsPoint(r)
  {
    Point(p.x - v.x, p.y - v.y, p.z - v.z, p.w - v.w)
  }

  /** Multiplies the three components by a scalar; the tag lane is copied. */
  function Scale(p: Point, s: real): (r: Point)
    ensures r.x == p.x * s && r.y == p.y * s && r.z == p.z * s
    ensures r.w == p.w
  {
    Point(p.x * s, p.y * s, p.z * s, p.w)
  }

  /** Divides the three components by a scalar; the tag lane is copied. */
  function Div(p: Point, s: real): (r: Point)
    requires s != 0.0
    ensures r.x == p.x / s && r.y == p.y / s && r.z == p.z / s
    ensures r.w == p.w
  {
    Point(p.x / s, p.y / s, p.z / s, p.w)
  }

  /** Translating and then translating back returns the starting point. */
  lemma AddSubRoundTrip(p: Point, v: Vectors.Vector)
    ensures SubVector(Add(p, v), v) == p
    ensures Add(SubVector(p, v), v) == p
  {
  }

  /** Moving `q` by the displacement from `q` to `p` lands on `p`. */
  lemma DisplacementRoundTrip(p: Point, q: Point)
    ensures Add(q, Sub(p, q)) == p
  {
  }

  /** The displacement from `p` to `p` moved by `v` is `v`. */
  lemma TranslationDisplacement(p: Point, v: Vectors.Vector)
    ensures Sub(Add(p, v), p) == v
  {
  }

  /** Moving backwards by `v` is moving forwards by its negation. */
  lemma SubVectorIsAddNeg(p: Point, v: Vectors.Vector)
    ensures SubVector(p, v) == Add(p, Vectors.Neg(v))
  {
  }

  /** Dividing by the scalar undoes scaling by it and scaling undoes
      dividing, tag lane included. */
  lemma ScaleDivRoundTrip(p: Point, s: real)
    requires s != 0.0
    ensures Div(Scale(p, s), s) == p
    ensures Scale(Div(p, s), s) == p
  {
  }

  /** Points compare lane by lane. */
  lemma EqualityCase()
    ensures New(1.0, 1.0, 1.0) == New(1.0, 1.0, 1.0)
    ensures New(1.0, -1.0, 1.0) != New(1.0, 1.0, 1.0)
  {
  }

  lemma AddCase()
    ensures Add(New(3.0, -2.0, 5.0), Vectors.New(-2.0, 3.0, 1.0)) == New(1.0, 1.0, 6.0)
  {
  }

  lemma SubCase()
    ensures Sub(New(3.0, 2.0, 1.0), New(5.0, 6.0, 7.0)) == Vectors.New(-2.0, -4.0, -6.0)
  {
  }

  lemma SubVectorCase()
    ensures SubVector(New(3.0, 2.0, 1.0), Vectors.New(5.0, 6.0, 7.0)) == New(-2.0, -4.0, -6.0)
  {
  }

  lemma ScaleCase()
    ensures Scale(New(1.0, 2.0, 3.0), 3.0) == New(3.0, 6.0, 9.0)
  {
  }
}
