/**
 * The canvas: a width-by-height grid of colours stored as one flat
 * row-major buffer, with bounds-checked reads, a write that demands an
 * in-bounds coordinate, and export of the buffer as RGB8 bytes.
 */
module Canvases {
  import opened Wrappers
  import Colors

  /** A cell coordinate; x is the column and y the row, both from 0. */
  datatype GridCoord = GridCoord(x: nat, y: nat)

  /** Builds a coordinate from an (x, y) pair. */
  function FromPair(p: (nat, nat)): (c: GridCoord)
    ensures c.x == p.0 && c.y == p.1
  {
    GridCoord(p.0, p.1)
  }

  /** The dimensions and the flat pixel buffer, row after row. */
  datatype Canvas = Canvas(width: nat, height: nat, pixels: seq<Colors.Color>)

  /** The buffer holds one colour per cell. Every canvas the operations build
      satisfies it. The Rust `width` and `height` fields are public, so other
      code could reassign them and break it; the model assumes it does not. */
  predicate Valid(c: Canvas) {
    |c.pixels| == c.width * c.height
  }

  /** The coordinate names a cell of the grid, so its row-major position
      lies inside a buffer of width * height cells. */
  function InBounds(c: Canvas, coord: GridCoord): (r: bool)
    ensures r <==> coord.x < c.width && coord.y < c.height
    ensures r ==> Offset(c.width, coord) < c.width * c.height
  {
    if coord.x < c.width && coord.y < c.height then
      OffsetInRange(c.width, c.height, coord);
      true
    else
      false
  }

  /** The position of a cell in a row-major buffer of the given width. For
      a cell inside the row, dividing the position by the width gives back
      the row and the remainder gives back the column. */
  function Offset(width: nat, coord: GridCoord): (i: nat)
    ensures coord.x < width ==> i / width == coord.y && i % width == coord.x
  {
    RowMajorDecode(width, coord.x, coord.y);
    coord.y * width + coord.x
  }

  /** y * width + x splits back into row y and column x when x < width. */
  lemma RowMajorDecode(width: nat, x: nat, y: nat)
    ensures x < width ==> (y * width + x) / width == y && (y * width + x) % width == x
  {
    if x < width {
      var n := y * width + x;
      var q, m := n / width, n % width;
      assert n == q * width + m;
      if q < y {
        MulMonotone(q + 1, y, width);
        assert false;
      } else if y < q {
        MulMonotone(y + 1, q, width);
        assert false;
      }
    }
  }

  /** a <= b implies a * c <= b * c on naturals. */
  lemma MulMonotone(a: nat, b: nat, c: nat)
    requires a <= b
    ensures a * c <= b * c
  {
    assert b * c == a * c + (b - a) * c;
  }

  /** An in-bounds cell lies inside the buffer. */
  lemma OffsetInRange(width: nat, height: nat, coord: GridCoord)
    requires coord.x < width && coord.y < height
    ensures Offset(width, coord) < width * height
  {
    MulMonotone(coord.y + 1, height, width);
    assert (coord.y + 1) * width == coord.y * width + width;
  }

  /** Distinct in-row coordinates occupy distinct buffer positions: the
      position decodes back to the coordinate. */
  lemma OffsetInjective(width: nat, a: GridCoord, b: GridCoord)
    requires a.x < width && b.x < width
    requires Offset(width, a) == Offset(width, b)
    ensures a == b
  {
    var i := Offset(width, a);
    assert a.y == i / width == b.y;
    assert a.x == i % width == b.x;
  }

  /** Every buffer position is the offset of the cell in column
      `i % width` of row `i / width`, and that cell is in bounds. */
  lemma OffsetSurjective(width: nat, height: nat, i: nat)
    requires i < width * height
    ensures width > 0
    ensures i % width < width && i / width < height
    ensures Offset(width, GridCoord(i % width, i / width)) == i
  {
    if width == 0 {
      assert false;
    }
    if i / width >= height {
      MulMonotone(height, i / width, width);
      assert false;
    }
  }

  /** A new canvas of the given size, every cell black. */
  function New(width: nat, height: nat): (c: Canvas)
    ensures Valid(c)
    ensures c.width == width && c.height == height
    ensures forall i :: 0 <= i < |c.pixels| ==> c.pixels[i] == Colors.New(0.0, 0.0, 0.0)
  {
    Canvas(width, height, seq(width * height, _ => Colors.Default()))
  }

  /** The buffer slot of a cell, for writing, or None outside the grid. */
  function CellMut(c: Canvas, coord: GridCoord): (slot: Option<nat>)
    requires Valid(c)
    ensures slot.None? <==> !(coord.x < c.width && coord.y < c.height)
    ensures slot.Some? ==> slot.value < |c.pixels|
  {
    if !InBounds(c, coord) then None
    else
      OffsetInRange(c.width, c.height, coord);
      Some(Offset(c.width, coord))
  }

  /** The colour of a cell, or None outside the grid. */
  function Cell(c: Canvas, coord: GridCoord): (r: Option<Colors.Color>)
    requires Valid(c)
    ensures r.None? <==> !(coord.x < c.width && coord.y < c.height)
    ensures r.Some? ==> r.value == c.pixels[CellMut(c, coord).value]
  {
    if !InBounds(c, coord) then None
    else
      OffsetInRange(c.width, c.height, coord);
      Some(c.pixels[Offset(c.width, coord)])
  }

  /** Sets the colour of an in-bounds cell; out of bounds the program
      aborts, so the coordinate is required to be in bounds. */
  function WriteColor(c: Canvas, coord: GridCoord, color: Colors.Color): (r: Canvas)
    requires Valid(c) && InBounds(c, coord)
    ensures Valid(r)
    ensures r.width == c.width && r.height == c.height && |r.pixels| == |c.pixels|
    ensures Cell(r, coord) == Some(color)
  {
    var slot := CellMut(c, coord).value;
    c.(pixels := c.pixels[slot := color])
  }

  /** A write changes no other cell. */
  lemma WriteLeavesOthers(c: Canvas, coord: GridCoord, color: Colors.Color)
    requires Valid(c) && InBounds(c, coord)
    ensures forall q :: q != coord ==> Cell(WriteColor(c, coord, color), q) == Cell(c, q)
  {
    var r := WriteColor(c, coord, color);
    forall q | q != coord
      ensures Cell(r, q) == Cell(c, q)
    {
      if InBounds(c, q) {
        if Offset(c.width, q) == Offset(c.width, coord) {
          OffsetInjective(c.width, q, coord);
        }
      }
    }
  }

  /** Every cell of a new canvas is black, and only in-bounds cells exist. */
  lemma NewCells(width: nat, height: nat, coord: GridCoord)
    ensures coord.x < width && coord.y < height ==>
              Cell(New(width, height), coord) == Some(Colors.New(0.0, 0.0, 0.0))
    ensures !(coord.x < width && coord.y < height) ==> Cell(New(width, height), coord) == None
  {
  }

  /** A byte, as the image data holds it. */
  type Byte = b: int | 0 <= b < 256

  /** The f64-to-u8 `as` cast: it saturates at 0 and 255 and otherwise
      truncates toward zero, which for a positive value is the floor. */
  function CastU8(v: real): (b: Byte)
    ensures v <= 0.0 ==> b == 0
    ensures v >= 255.0 ==> b == 255
    ensures 0.0 < v < 255.0 ==> b as real <= v < b as real + 1.0
  {
    if v <= 0.0 then 0
    else if v >= 255.0 then 255
    else v.Floor
  }

  /** The three bytes of one pixel: its channels cast, red first. The
      padding lane is not read, and black gives three zero bytes. */
  function PixelBytes(color: Colors.Color): (bytes: seq<Byte>)
    ensures |bytes| == 3
    ensures bytes[0] == CastU8(color.r) && bytes[1] == CastU8(color.g) && bytes[2] == CastU8(color.b)
    ensures (forall ch :: Colors.Get(color, ch) == 0.0) ==> bytes == [0, 0, 0]
  {
    [CastU8(Colors.Get(color, Colors.R)),
     CastU8(Colors.Get(color, Colors.G)),
     CastU8(Colors.Get(color, Colors.B))]
  }

  /** The bytes of each pixel in turn, concatenated. */
  function Flatten(pixels: seq<Colors.Color>): (data: seq<Byte>)
    ensures |data| == 3 * |pixels|
    ensures forall i :: 0 <= i < |pixels| ==>
              data[3 * i] == CastU8(Colors.Get(pixels[i], Colors.R)) &&
              data[3 * i + 1] == CastU8(Colors.Get(pixels[i], Colors.G)) &&
              data[3 * i + 2] == CastU8(Colors.Get(pixels[i], Colors.B))
  {
    if |pixels| == 0 then []
    else
      var rest := Flatten(pixels[1..]);
      assert forall i :: 1 <= i < |pixels| ==> pixels[1..][i - 1] == pixels[i];
      PixelBytes(pixels[0]) + rest
  }

  /** The image data of a canvas: three bytes per cell, row after row. */
  function ToImageData(c: Canvas): (data: seq<Byte>)
    requires Valid(c)
    ensures |data| == 3 * c.width * c.height
  {
    Flatten(c.pixels)
  }

  /** Bytes 3i, 3i+1 and 3i+2 of the image data are the cast channels of the
      cell in column i % width of row i / width. */
  lemma ImageDataRowMajor(c: Canvas, i: nat)
    requires Valid(c) && i < c.width * c.height
    ensures c.width > 0
    ensures var coord := GridCoord(i % c.width, i / c.width);
      && Cell(c, coord).Some?
      && ToImageData(c)[3 * i] == CastU8(Colors.Get(Cell(c, coord).value, Colors.R))
      && ToImageData(c)[3 * i + 1] == CastU8(Colors.Get(Cell(c, coord).value, Colors.G))
      && ToImageData(c)[3 * i + 2] == CastU8(Colors.Get(Cell(c, coord).value, Colors.B))
  {
    CellAtPosition(c, i);
  }

  /** Buffer position i holds the cell in column i % width of row i / width. */
  lemma CellAtPosition(c: Canvas, i: nat)
    requires Valid(c) && i < c.width * c.height
    ensures c.width > 0
    ensures Cell(c, GridCoord(i % c.width, i / c.width)) == Some(c.pixels[i])
  {
    OffsetSurjective(c.width, c.height, i);
  }

  /** Zero casts to the zero byte. */
  lemma CastZero()
    ensures CastU8(0.0) == 0
  {
  }

  /** A new canvas exports as all zero bytes. */
  lemma NewImageDataIsZero(width: nat, height: nat)
    ensures |ToImageData(New(width, height))| == 3 * width * height
    ensures forall j :: 0 <= j < |ToImageData(New(width, height))| ==>
              ToImageData(New(width, height))[j] == 0
  {
    var c := New(width, height);
    var data := ToImageData(c);
    CastZero();
    forall j | 0 <= j < |data|
      ensures data[j] == 0
    {
      var i := j / 3;
      assert j == 3 * i || j == 3 * i + 1 || j == 3 * i + 2;
      assert c.pixels[i] == Colors.New(0.0, 0.0, 0.0);
    }
  }

  /** A 10 by 20 canvas starts black; writing white at (0, 0) reads back as
      white and leaves every other cell black. */
  lemma CanvasCase()
    ensures New(10, 20).width == 10 && New(10, 20).height == 20
    ensures forall q :: InBounds(New(10, 20), q) ==>
              Cell(New(10, 20), q) == Some(Colors.New(0.0, 0.0, 0.0))
    ensures Cell(WriteColor(New(10, 20), FromPair((0, 0)), Colors.New(1.0, 1.0, 1.0)),
                 FromPair((0, 0))) == Some(Colors.New(1.0, 1.0, 1.0))
    ensures forall q :: InBounds(New(10, 20), q) && q != FromPair((0, 0)) ==>
              Cell(WriteColor(New(10, 20), FromPair((0, 0)), Colors.New(1.0, 1.0, 1.0)), q)
                == Some(Colors.New(0.0, 0.0, 0.0))
  {
    var c := New(10, 20);
    forall q | InBounds(c, q)
      ensures Cell(c, q) == Some(Colors.New(0.0, 0.0, 0.0))
    {
      NewCells(10, 20, q);
    }
    WriteLeavesOthers(c, FromPair((0, 0)), Colors.New(1.0, 1.0, 1.0));
  }
}
