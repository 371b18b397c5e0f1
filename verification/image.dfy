/**
  Images as the tracking pipeline sees them: a row-major grid of pixels with a
  bounds-checked two-dimensional lookup. A camera frame holds BGR pixels; a
  mask holds one byte per pixel.
 */
module Images {
  import opened Bytes
  import opened Optional

  /** A 3-channel 8-bit pixel in the frame's native B, G, R order. */
  datatype Bgr = Bgr(b: Byte, g: Byte, r: Byte)

  /** A `rows` x `cols` image stored row by row. */
  datatype Image<P> = Image(rows: nat, cols: nat, data: seq<P>)
  {
    /** The pixel buffer holds exactly one element per grid cell. */
    predicate Valid()
    {
      |data| == rows * cols
    }

    /** The grid has at least one cell (OpenCV's `Mat::empty` is false). */
    predicate NonEmpty()
    {
      rows > 0 && cols > 0
    }

    /** `(y, x)` names a cell of the grid. */
    predicate InBounds(y: int, x: int)
    {
      0 <= y < rows && 0 <= x < cols
    }

    /** The element at row `y`, column `x`; only meaningful for cells in bounds. */
    function Pixel(y: int, x: int): (p: P)
      requires Valid() && InBounds(y, x)
    {
      CellIndexInRange(rows, cols, y, x);
      data[y * cols + x]
    }

    /** `at_2d(y, x)`: the element at a cell, or nothing when the cell is outside the grid. */
    function At2d(y: int, x: int): (p: Option<P>)
      requires Valid()
      ensures p.Some? <==> InBounds(y, x)
      ensures p.Some? ==> 0 <= y * cols + x < |data| && p.value == data[y * cols + x]
      ensures p.Some? ==> p.value == Pixel(y, x)
    {
      if InBounds(y, x) then
        CellIndexInRange(rows, cols, y, x);
        Some(Pixel(y, x))
      else
        None
    }
  }

  type Frame = Image<Bgr>
  type Mask = Image<Byte>

  /** A row-major offset of a cell in bounds lies inside the buffer. */
  lemma CellIndexInRange(rows: nat, cols: nat, y: int, x: int)
    requires 0 <= y < rows && 0 <= x < cols
    ensures 0 <= y * cols + x < rows * cols
  {
    assert y * cols <= (rows - 1) * cols;
  }
}
