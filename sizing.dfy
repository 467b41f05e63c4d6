/** Motion-vector grid geometry of a VP9 frame: one 16-byte motion-vector
    record per 8x8 mode-info cell, the grid being the frame rounded up to
    whole cells in each direction. */
module Sizing {

  /** Side of one mode-info cell, in pixels. */
  const MI_SIZE: nat := 8

  /** Size of one motion-vector record (Vp9MvRef), in bytes. */
  const MV_RECORD_SIZE: nat := 16

  /** Largest value of a C# `int`. */
  const INT32_MAX: int := 0x7FFF_FFFF

  /** Width and height of one frame, in pixels. */
  datatype FrameSize = FrameSize(width: nat, height: nat)

  /** BitUtils.DivRoundUp on non-negative operands: the smallest multiple
      count of `divisor` that reaches `value`. */
  function DivRoundUp(value: nat, divisor: nat): (r: nat)
    requires divisor > 0
    ensures value <= r * divisor < value + divisor
  {
    var q := (value + divisor - 1) / divisor;
    var m := (value + divisor - 1) % divisor;
    assert value + divisor - 1 == q * divisor + m;
    q
  }

  /** Number of mode-info columns of a frame. */
  function MiCols(size: FrameSize): nat {
    DivRoundUp(size.width, MI_SIZE)
  }

  /** Number of mode-info rows of a frame. */
  function MiRows(size: FrameSize): nat {
    DivRoundUp(size.height, MI_SIZE)
  }

  /** Byte length of the motion-vector buffer of a frame. */
  function MvBufferBytes(size: FrameSize): nat {
    MiRows(size) * MiCols(size) * MV_RECORD_SIZE
  }

  /** DivRoundUp is the least count that covers the value: any n with
      n * divisor >= value is at least DivRoundUp(value, divisor). */
  lemma {:induction false} DivRoundUpIsLeast(value: nat, divisor: nat, n: nat)
    requires divisor > 0
    requires value <= n * divisor
    ensures DivRoundUp(value, divisor) <= n
  {
    var r := DivRoundUp(value, divisor);
    assert r * divisor < (n + 1) * divisor;
    MulCancel(r, n + 1, divisor);
  }

  /** DivRoundUp is the ceiling: it is determined by the two bounds. */
  lemma DivRoundUpUnique(value: nat, divisor: nat, n: nat)
    requires divisor > 0
    requires value <= n * divisor < value + divisor
    ensures DivRoundUp(value, divisor) == n
  {
    var r := DivRoundUp(value, divisor);
    DivRoundUpIsLeast(value, divisor, n);
    assert n * divisor < (r + 1) * divisor;
    MulCancel(n, r + 1, divisor);
  }

  /** The grid covers the frame: every pixel (x, y) lies in a cell whose
      record lies wholly inside the motion-vector buffer (row-major
      grid of miRows x miCols records). */
  lemma MvRecordOfPixelInBuffer(size: FrameSize, x: nat, y: nat)
    requires x < size.width && y < size.height
    ensures x / MI_SIZE < MiCols(size) && y / MI_SIZE < MiRows(size)
    ensures (y / MI_SIZE * MiCols(size) + x / MI_SIZE + 1) * MV_RECORD_SIZE <= MvBufferBytes(size)
  {
    var cols, rows := MiCols(size), MiRows(size);
    var cx, cy := x / MI_SIZE, y / MI_SIZE;
    assert cx * MI_SIZE <= x < cols * MI_SIZE;
    assert cy * MI_SIZE <= y < rows * MI_SIZE;
    assert cy + 1 <= rows;
    calc {
      cy * cols + cx + 1;
    <= cy * cols + cols;
    == (cy + 1) * cols;
    <= { MulMonotone(cy + 1, rows, cols); } rows * cols;
    }
    MulMonotone(cy * cols + cx + 1, rows * cols, MV_RECORD_SIZE);
  }

  /** No cell is wasted: dropping the last row or the last column of the
      grid leaves some pixel of the frame without a record. */
  lemma MvGridIsTight(size: FrameSize)
    ensures (MiCols(size) - 1) * MI_SIZE < size.width
    ensures (MiRows(size) - 1) * MI_SIZE < size.height
  {
  }

  /** With 16-bit frame dimensions (the largest a FrameSize field can hold),
      the byte length computed in a C# `int` cannot overflow: it is at most
      2^30. */
  lemma MvBufferFitsInt32(size: FrameSize)
    requires size.width <= 0xFFFF && size.height <= 0xFFFF
    ensures MvBufferBytes(size) <= 0x4000_0000 <= INT32_MAX
  {
    DivRoundUpIsLeast(size.width, MI_SIZE, 0x2000);
    DivRoundUpIsLeast(size.height, MI_SIZE, 0x2000);
    var rows, cols := MiRows(size), MiCols(size);
    MulMonotone(rows, 0x2000, cols);
    MulMonotone(cols, 0x2000, 0x2000);
    MulMonotone(rows * cols, 0x2000 * 0x2000, MV_RECORD_SIZE);
  }

  /** A 1920x1080 frame has a 240 x 135 grid and a 518,400-byte buffer. */
  lemma MvBufferOf1080p()
    ensures MiCols(FrameSize(1920, 1080)) == 240
    ensures MiRows(FrameSize(1920, 1080)) == 135
    ensures MvBufferBytes(FrameSize(1920, 1080)) == 518_400
  {
    DivRoundUpUnique(1920, MI_SIZE, 240);
    DivRoundUpUnique(1080, MI_SIZE, 135);
  }

  lemma MulMonotone(a: nat, b: nat, c: nat)
    requires a <= b
    ensures a * c <= b * c
  {
  }

  /** Multiplication by a positive factor reflects strict order. */
  lemma MulCancel(a: nat, b: nat, c: nat)
    requires c > 0 && a * c < b * c
    ensures a < b
  {
    if b <= a {
      MulMonotone(b, a, c);
    }
  }
}
