/**
 * Colours: a register of four lanes whose first three are the red, green
 * and blue channels and whose fourth is inert padding, 0 in every colour the
 * program builds. Channel values are not clamped: values outside [0, 1] are
 * legal until export.
 */
module Colors {

  /** The four lanes of a colour register. */
  datatype Color = Color(r: real, g: real, b: real, pad: real)

  /** The named channels by which a colour is read. */
  datatype Channel = R | G | B

  /** The padding lane holds 0. */
  predicate Padded(c: Color) {
    c.pad == 0.0
  }

  /** Reads a channel: R, G and B read lanes 0, 1 and 2. The padding lane
      has no channel. */
  function Get(c: Color, ch: Channel): (v: real)
    ensures ch == R ==> v == c.r
    ensures ch == G ==> v == c.g
    ensures ch == B ==> v == c.b
  {
    match ch
    case R => c.r
    case G => c.g
    case B => c.b
  }

  /** Builds a colour from its channels, with zero padding. */
  function New(r: real, g: real, b: real): (c: Color)
    ensures Padded(c)
    ensures Get(c, R) == r && Get(c, G) == g && Get(c, B) == b
  {
    Color(r, g, b, 0.0)
  }

  /** The default colour is black. */
  function Default(): (c: Color)
    ensures Padded(c)
    ensures forall ch :: Get(c, ch) == 0.0
  {
    New(0.0, 0.0, 0.0)
  }

  /** Lane-wise sum of two registers. */
  function Add(a: Color, b: Color): (c: Color)
    ensures forall ch :: Get(c, ch) == Get(a, ch) + Get(b, ch)
    ensures c.pad == a.pad + b.pad
    ensures Padded(a) && Padded(b) ==> Padded(c)
  {
    Color(a.r + b.r, a.g + b.g, a.b + b.b, a.pad + b.pad)
  }

  /** Lane-wise difference of two registers. */
  function Sub(a: Color, b: Color): (c: Color)
    ensures forall ch :: Get(c, ch) == Get(a, ch) - Get(b, ch)
    ensures c.pad == a.pad - b.pad
    ensures Padded(a) && Padded(b) ==> Padded(c)
  {
    Color(a.r - b.r, a.g - b.g, a.b - b.b, a.pad - b.pad)
  }

  /** Lane-wise (Hadamard) product of two registers. */
  function Hadamard(a: Color, b: Color): (c: Color)
    ensures forall ch :: Get(c, ch) == Get(a, ch) * Get(b, ch)
    ensures c.pad == a.pad * b.pad
    ensures Padded(a) && Padded(b) ==> Padded(c)
  {
    Color(a.r * b.r, a.g * b.g, a.b * b.b, a.pad * b.pad)
  }

  /** Scales each channel, rebuilding the colour through `New`, so the
      padding of the result is 0 whatever the input's padding was. */
  function Scale(c: Color, s: real): (r: Color)
    ensures forall ch :: Get(r, ch) == Get(c, ch) * s
    ensures Padded(r)
  {
    New(Get(c, R) * s, Get(c, G) * s, Get(c, B) * s)
  }

  /** Half of the f64 machine epsilon, 2^-53. */
  const Epsilon: real := 1.0 / 9007199254740992.0

  /** Two channel values are equal up to the tolerance. */
  predicate FloatEqual(a: real, b: real) {
    (if a < b then b - a else a - b) < Epsilon
  }

  /** Colour equality: each channel in turn is compared up to the tolerance;
      the padding is never read. */
  function Equal(a: Color, b: Color): (eq: bool)
    ensures eq <==> forall ch :: FloatEqual(Get(a, ch), Get(b, ch))
  {
    if !FloatEqual(Get(a, R), Get(b, R)) then false
    else if !FloatEqual(Get(a, G), Get(b, G)) then false
    else if !FloatEqual(Get(a, B), Get(b, B)) then false
    else true
  }

  /** Equality does not depend on either padding lane. */
  lemma EqualIgnoresPadding(a: Color, b: Color, p: real, q: real)
    ensures Equal(a.(pad := p), b.(pad := q)) == Equal(a, b)
  {
  }

  /** No channel reads the padding lane. */
  lemma GetIgnoresPadding(c: Color, ch: Channel, p: real)
    ensures Get(c.(pad := p), ch) == Get(c, ch)
  {
  }

  /** Every colour equals itself. */
  lemma EqualReflexive(a: Color)
    ensures Equal(a, a)
  {
  }

  /** Colours with the same channels are equal. */
  lemma EqualOfSameChannels(a: Color, b: Color)
    requires forall ch :: Get(a, ch) == Get(b, ch)
    ensures Equal(a, b)
  {
  }

  lemma EqualSymmetric(a: Color, b: Color)
    ensures Equal(a, b) == Equal(b, a)
  {
  }

  /** Scaling by a scalar never reads the padding lane. */
  lemma ScaleIgnoresPadding(c: Color, s: real, p: real)
    ensures Scale(c.(pad := p), s) == Scale(c, s)
  {
  }

  /** The channels of a sum, difference or product never depend on the
      padding lanes. */
  lemma ChannelsIgnorePadding(a: Color, b: Color, p: real, q: real, ch: Channel)
    ensures Get(Add(a.(pad := p), b.(pad := q)), ch) == Get(Add(a, b), ch)
    ensures Get(Sub(a.(pad := p), b.(pad := q)), ch) == Get(Sub(a, b), ch)
    ensures Get(Hadamard(a.(pad := p), b.(pad := q)), ch) == Get(Hadamard(a, b), ch)
  {
  }

  lemma AddCommutes(a: Color, b: Color)
    ensures Add(a, b) == Add(b, a)
  {
  }

  lemma HadamardCommutes(a: Color, b: Color)
    ensures Hadamard(a, b) == Hadamard(b, a)
  {
  }

  /** Subtracting what was added returns the original colour. */
  lemma AddSubRoundTrip(a: Color, b: Color)
    ensures Sub(Add(a, b), b) == a
  {
  }

  /** Channels are stored as given, without clamping. */
  lemma NewCase()
    ensures Get(New(-0.5, 0.4, 1.7), R) == -0.5
    ensures Get(New(-0.5, 0.4, 1.7), G) == 0.4
    ensures Get(New(-0.5, 0.4, 1.7), B) == 1.7
  {
  }

  lemma AddCase()
    ensures Equal(Add(New(0.9, 0.6, 0.75), New(0.1, 0.4, 0.25)), New(1.0, 1.0, 1.0))
  {
    var white := New(1.0, 1.0, 1.0);
    assert Equal(white, white);
  }

  lemma SubCase()
    ensures Equal(Sub(New(1.0, 1.0, 1.0), New(0.9, 0.6, 0.75)), New(0.1, 0.4, 0.25))
  {
    var want := New(0.1, 0.4, 0.25);
    assert Equal(want, want);
  }

  lemma HadamardCase()
    ensures Hadamard(New(1.0, 2.0, 3.0), New(2.0, 0.5, 3.0)) == New(2.0, 1.0, 9.0)
  {
  }

  lemma ScaleCase()
    ensures Scale(New(1.0, 2.0, 3.0), 2.0) == New(2.0, 4.0, 6.0)
  {
  }
}
