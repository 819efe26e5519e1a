# Homogeneous tuples and the canvas of a SIMD ray tracer

A Dafny model of the numeric and raster core of a Rust ray tracer. The core
has two parts.

- **Tuple algebra.** `Vector`, `Point` and `Color` are each a four-lane f64
  SIMD register. For a vector the fourth lane `w` is a type tag fixed at 0
  (a direction). For a point it is fixed at 1 (a position). For a colour it
  is inert padding fixed at 0.
- **Canvas.** A `width × height` grid of colours stored as one flat
  row-major buffer. Reads are bounds-checked and return an option. A write
  must be in bounds. Export flattens the buffer to RGB8 bytes.

Each tuple type is a `datatype` with four explicit `real` lanes. Because
the tag lane is an ordinary field, the tag invariants are proved facts, not
consequences of the type. `real` is an idealisation of `f64`: there is no
rounding, no NaN and no infinity. The canvas is an immutable record of
`width`, `height` and a `seq<Color>`. `WriteColor` is a pure update and
`ToImageData` is a pure function returning bytes.

Modules, one per source file:

- `Vectors` (`vector.dfy`): `src/vector.rs`
- `Points` (`point.dfy`): `src/point.rs`
- `Colors` (`color.dfy`): `src/color.rs`. The Rust channel enum `Colors` is
  called `Channel` here, because `Colors` names the module.
- `Canvases` (`canvas.dfy`): `src/canvas.rs`
- `Wrappers` (`wrappers.dfy`): the `Option` type that the reads return.

Rust's operator traits become named functions. `Add`, `Sub` and `Neg` keep
their names. `Mul<f64>` is `Scale`, `Div<f64>` is `Div`, and `Mul<Color>`
is `Hadamard`. `Sub<Vector> for Point` is `Points.SubVector`. `PartialEq`
for `Color` is `Colors.Equal`.

Two points where the code's behaviour is easy to misread, and which the model follows exactly:

- Colour `Add`, `Sub` and the Hadamard product are whole-register
  operations. They do compute on the padding lane (sum, difference,
  product). The padding stays 0 only because both inputs have 0 padding.
  It is never read into a channel: `Colors.ChannelsIgnorePadding` proves
  this.
- The export cast is Rust's f64→u8 `as` cast, which saturates (0 below,
  255 above) and truncates in between. It does not wrap. There is no ×255
  scaling: a channel of 1.0 exports as byte 1.

## Model

| member | source | states |
|---|---|---|
| Vectors.New | src/vector.rs:7-10 | the result is a direction (w = 0), and the X, Y and Z index reads back x, y and z |
| Vectors.FromArray | src/vector.rs:12-15 | the same vector as `new` applied to the three array elements; w = 0; each axis reads back its element |
| Vectors.Get | src/vector.rs:35-45 | the X, Y and Z index reads lanes 0, 1 and 2; no axis reads the tag lane |
| Vectors.GetIgnoresTag | src/vector.rs:38-44 | changing the tag lane never changes what an axis reads |
| Vectors.Add | src/vector.rs:79-85 | each axis, and the tag lane, is the lane-wise sum; the sum of two directions is a direction |
| Vectors.Sub | src/vector.rs:87-93 | each axis, and the tag lane, is the lane-wise difference; the difference of two directions is a direction |
| Vectors.Scale | src/vector.rs:95-106 | each axis is multiplied by the scalar; the tag lane is copied unchanged, so a direction stays a direction for every scalar |
| Vectors.Div | src/vector.rs:108-119 | each axis is divided by the (non-zero) scalar; the tag lane is copied unchanged |
| Vectors.Neg | src/vector.rs:121-127 | every axis and the tag lane are negated (0 − lane); the negation of a direction is a direction |
| Vectors.Cross | src/vector.rs:59-77 | the result is a direction, and it is perpendicular to both arguments: its dot product with each is 0 |
| Vectors.MagSquared | src/vector.rs:17-20 | the sum of squares over all four lanes is never negative, and it is zero exactly for the all-zero register |
| Vectors.Dot | src/vector.rs:54-57 | the sum of the three axis products; for two directions it equals the product over all four lanes; dot(v, v) is never negative |
| Vectors.AddCommutes | src/vector.rs:79-85 | a + b == b + a |
| Vectors.SubIsAddNeg | src/vector.rs:87-93 | a − b == a + (−b) |
| Vectors.SubAntiCommutes | src/vector.rs:87-93 | a − b == −(b − a) |
| Vectors.NegInvolutive | src/vector.rs:121-127 | −(−v) == v |
| Vectors.AddSubRoundTrip | src/vector.rs:79-93 | (a + b) − b == a |
| Vectors.ScaleDivRoundTrip | src/vector.rs:95-119 | for a non-zero scalar, dividing undoes scaling and scaling undoes dividing, tag lane included |
| Vectors.DotSymmetric | src/vector.rs:47-57 | dot(a, b) == dot(b, a) |
| Vectors.DotIgnoresTag | src/vector.rs:54-57 | the dot product does not depend on the tag lane of either argument |
| Vectors.CrossAntiCommutes | src/vector.rs:69-77 | cross(a, b) == −cross(b, a) |
| Vectors.MagSquaredIsDot | src/vector.rs:17-20 | for a direction the squared magnitude equals dot(v, v) |
| Vectors.MagSquaredNeg | src/vector.rs:196-200 | negation preserves the squared magnitude |
| Vectors.EqualityCase | src/vector.rs:133-145 | (1,1,1) equals (1,1,1); (1,−1,1) differs from (1,1,1) |
| Vectors.AddCase | src/vector.rs:147-155 | (1,−1,1) + (1,1,1) == (2,0,2) |
| Vectors.SubCase | src/vector.rs:156-164 | (1,−1,1) − (1,1,1) == (0,−2,0) |
| Vectors.NegCase | src/vector.rs:166-173 | −(1,2,3) == (−1,−2,−3) |
| Vectors.ScaleCase | src/vector.rs:175-183 | (1,2,3) · 3 == (3,6,9) |
| Vectors.MagSquaredUnitCase | src/vector.rs:186-194 | each unit axis has squared magnitude 1 |
| Vectors.MagSquaredCase | src/vector.rs:196-200 | (1,2,3) and its negation both have squared magnitude 14 |
| Vectors.DotCase | src/vector.rs:222-228 | dot((1,2,3), (2,3,4)) == 20 |
| Vectors.CrossCase | src/vector.rs:230-238 | cross((1,2,3), (2,3,4)) == (−1,2,−1) |
| Vectors.CrossReversedCase | src/vector.rs:230-239 | cross((2,3,4), (1,2,3)) == (1,−2,1) |
| Points.New | src/point.rs:12-15 | the result is a position (w = 1) holding x, y and z |
| Points.FromArray | src/point.rs:17-20 | the same point as `new` applied to the three array elements; w = 1 |
| Points.Add | src/point.rs:23-29 | lane-wise sum; a position moved by a direction is a position |
| Points.Sub | src/point.rs:31-37 | lane-wise difference returned as a Vector; the difference of two positions is a direction |
| Points.SubVector | src/point.rs:39-45 | lane-wise difference; a position moved back by a direction is a position |
| Points.Scale | src/point.rs:47-58 | x, y and z are multiplied by the scalar; w is copied exactly |
| Points.Div | src/point.rs:60-71 | x, y and z are divided by the (non-zero) scalar; w is copied exactly |
| Points.AddSubRoundTrip | src/point.rs:23-45 | (p + v) − v == p and (p − v) + v == p |
| Points.DisplacementRoundTrip | src/point.rs:23-37 | q + (p − q) == p |
| Points.TranslationDisplacement | src/point.rs:23-37 | (p + v) − p == v |
| Points.SubVectorIsAddNeg | src/point.rs:39-45 | p − v == p + (−v) |
| Points.ScaleDivRoundTrip | src/point.rs:47-71 | for a non-zero scalar, dividing undoes scaling and scaling undoes dividing, w included |
| Points.EqualityCase | src/point.rs:77-89 | (1,1,1) equals (1,1,1); (1,−1,1) differs from (1,1,1) |
| Points.AddCase | src/point.rs:91-99 | point (3,−2,5) + vector (−2,3,1) == point (1,1,6) |
| Points.SubCase | src/point.rs:101-109 | point (3,2,1) − point (5,6,7) == vector (−2,−4,−6) |
| Points.SubVectorCase | src/point.rs:111-119 | point (3,2,1) − vector (5,6,7) == point (−2,−4,−6) |
| Points.ScaleCase | src/point.rs:121-129 | point (1,2,3) · 3 == point (3,6,9) |
| Colors.New | src/color.rs:9-11 | padding 0; the R, G and B index reads back r, g and b |
| Colors.Get | src/color.rs:76-86 | the R, G and B index reads lanes 0, 1 and 2; no channel reads the padding lane |
| Colors.GetIgnoresPadding | src/color.rs:79-85 | changing the padding lane never changes what a channel reads |
| Colors.Default | src/color.rs:63-67 | the default colour is black: every channel 0, padding 0 |
| Colors.Add | src/color.rs:14-20 | each channel is the sum; the padding is the sum of paddings, so it stays 0 |
| Colors.Sub | src/color.rs:22-28 | each channel is the difference; the padding stays 0 |
| Colors.Hadamard | src/color.rs:30-36 | each channel is the product (not a dot product); the padding is 0 · 0 = 0 |
| Colors.Scale | src/color.rs:38-45 | each channel is scaled; the result is rebuilt through `new`, so its padding is 0 whatever the input's |
| Colors.Equal | src/color.rs:47-61 | equal exactly when every channel is equal up to the tolerance |
| Colors.EqualIgnoresPadding | src/color.rs:47-61 | equality never reads either padding lane |
| Colors.EqualReflexive | src/color.rs:47-61 | every colour equals itself |
| Colors.EqualOfSameChannels | src/color.rs:47-61 | colours with identical channels are equal, whatever their padding |
| Colors.EqualSymmetric | src/color.rs:47-61 | equality is symmetric |
| Colors.ScaleIgnoresPadding | src/color.rs:38-45 | scaling never reads the padding lane |
| Colors.ChannelsIgnorePadding | src/color.rs:14-36 | the channels of a sum, difference or product do not depend on the padding lanes |
| Colors.AddCommutes | src/color.rs:14-20 | a + b == b + a |
| Colors.HadamardCommutes | src/color.rs:30-36 | a ∘ b == b ∘ a |
| Colors.AddSubRoundTrip | src/color.rs:14-28 | (a + b) − b == a |
| Colors.NewCase | src/color.rs:92-99 | (−0.5, 0.4, 1.7) is stored unclamped and read back channel by channel |
| Colors.AddCase | src/color.rs:101-109 | (0.9,0.6,0.75) + (0.1,0.4,0.25) equals (1,1,1) |
| Colors.SubCase | src/color.rs:111-119 | (1,1,1) − (0.9,0.6,0.75) equals (0.1,0.4,0.25) |
| Colors.HadamardCase | src/color.rs:121-129 | (1,2,3) ∘ (2,0.5,3) == (2,1,9) |
| Colors.ScaleCase | src/color.rs:131-138 | (1,2,3) · 2 == (2,4,6) |
| Canvases.FromPair | src/canvas.rs:19-23 | the pair (x, y) becomes the coordinate {x, y} |
| Canvases.InBounds | src/canvas.rs:40-42 | true exactly when x < width and y < height, and then the row-major index is inside the buffer |
| Canvases.Offset | src/canvas.rs:48 | the row-major index y·width + x; for x < width it divides back to row y with remainder column x |
| Canvases.RowMajorDecode | src/canvas.rs:48 | for x < width, (y·width + x) div width = y and (y·width + x) mod width = x |
| Canvases.OffsetInRange | src/canvas.rs:44-56 | for x < width and y < height the row-major index y·width + x is below width·height |
| Canvases.OffsetInjective | src/canvas.rs:48-55 | two coordinates with x < width and the same row-major index are the same coordinate |
| Canvases.OffsetSurjective | src/canvas.rs:80-87 | every index i below width·height is the row-major index of the in-bounds cell (i mod width, i div width) |
| Canvases.New | src/canvas.rs:32-38 | width and height as given, exactly width·height pixels, all black |
| Canvases.CellMut | src/canvas.rs:44-49 | None exactly when x ≥ width or y ≥ height; otherwise a buffer slot that exists |
| Canvases.Cell | src/canvas.rs:51-56 | None exactly when x ≥ width or y ≥ height; otherwise the colour in the slot that `cell_mut` hands out |
| Canvases.WriteColor | src/canvas.rs:58-63 | for an in-bounds coordinate: width, height and pixel count are unchanged, and reading the coordinate gives the written colour |
| Canvases.WriteLeavesOthers | src/canvas.rs:58-63 | a write leaves the cell at every other coordinate as it was |
| Canvases.NewCells | src/canvas.rs:32-56 | in a new canvas every in-bounds cell reads black and every other coordinate reads None |
| Canvases.CastU8 | src/canvas.rs:84 | the f64→u8 cast gives 0 at or below 0, 255 at or above 255, and the floor in between |
| Canvases.PixelBytes | src/canvas.rs:84 | three bytes, the cast R, G and B in that order; the padding is not read; a black pixel gives three zero bytes |
| Canvases.Flatten | src/canvas.rs:82-86 | three bytes per pixel; bytes 3i, 3i+1 and 3i+2 are the cast R, G and B of pixel i |
| Canvases.ToImageData | src/canvas.rs:80-87 | the image data is exactly 3·width·height bytes long |
| Canvases.CellAtPosition | src/canvas.rs:48-56 | buffer position i holds the cell (i mod width, i div width) |
| Canvases.ImageDataRowMajor | src/canvas.rs:80-87 | bytes 3i, 3i+1 and 3i+2 are the cast R, G and B of the cell (i mod width, i div width) |
| Canvases.CastZero | src/canvas.rs:84 | a zero channel casts to byte 0 |
| Canvases.NewImageDataIsZero | src/canvas.rs:32-38 | a new canvas exports as 3·width·height zero bytes |
| Canvases.CanvasCase | src/canvas.rs:95-111 | a 10×20 canvas starts all black; after writing white at (0,0), that cell reads white and every other cell stays black |

## Left out

- `Canvas::write_file` (src/canvas.rs:66-78): file handle, buffered writer, PNG encoder and error context. These are I/O and a foreign library. The bytes it would hand the encoder are `ToImageData`.
- `Vector::mag` and `Vector::norm` (src/vector.rs:17-25): they need a square root and IEEE rounding. Only the squared magnitude, `MagSquared`, is modelled.
- IEEE-754 behaviour: rounding, NaN, infinities, signed zero. Lanes are `real`.
- Vectors.Div: requires a non-zero scalar. The Rust code divides by zero into infinity or NaN, which `real` cannot express.
- Points.Div: requires a non-zero scalar, for the same reason as `Vectors.Div`.
- Colors.Equal: `float_equal` is not part of this model. It is taken to be |a − b| < 2⁻⁵³, half the f64 machine epsilon. Over `real` the tolerance only matters for the tests, which hold exactly.
- Canvases.CastU8: models the saturating, truncating `as u8` cast on finite values only. It does not model the cast of NaN to 0.
- Canvases.Cell, Canvases.CellMut, Canvases.WriteColor, Canvases.ToImageData: require `Valid`, so the model assumes `width` and `height` are never reassigned after `new`. The Rust fields are public, and raising `width` afterwards would make `cell` and `cell_mut` panic on the slice index.
- Canvases.WriteColor: requires an in-bounds coordinate. Out of bounds, the Rust `unwrap` panics, and the model has no panicking result.
- `usize` widths: `width * height` could overflow in the Rust allocation. The model's naturals are unbounded.
- The `Debug` impl of `GridCoord` and the derived `Debug`/`PartialOrd` impls: presentation only.
- `src/main.rs`: a demo print. It does not declare the `color` or `canvas` modules.
- Export consuming the canvas: `to_image_data` takes `self` by value. A pure function has no ownership, so the model does not express that nothing is written after export.
