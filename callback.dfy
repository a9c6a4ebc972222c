// samples/Linux/callback.py: `get_pixel_format_as_string` and the preview callback
// `callback_format_preview`, which sets the middle fifth of the image (rows and columns
// from 2/5 to 3/5 of the ROI) to full intensity. The frame buffer is an array of bytes;
// the ROI width and height are whole numbers of pixels.

module Callback {
  import opened Outcomes
  import PF = PixelFormat
  import PxLApi

  const UNKNOWN_FORMAT: string := "Unknown data format"

  /** `get_pixel_format_as_string(dataFormat)`: the dictionary lookup with its default. */
  function PixelFormatName(dataFormat: int): (s: string)
    ensures s != UNKNOWN_FORMAT <==> 0 <= dataFormat <= 34
  {
    if dataFormat == PF.MONO8 then "MONO8"
    else if dataFormat == PF.MONO16 then "MONO16"
    else if dataFormat == PF.YUV422 then "YUV422"
    else if dataFormat == PF.BAYER8_GRBG then "BAYER8_GRBG"
    else if dataFormat == PF.BAYER16_GRBG then "BAYER16_GRBG"
    else if dataFormat == PF.RGB24 then "RGB24"
    else if dataFormat == PF.RGB48 then "RGB48"
    else if dataFormat == PF.BAYER8_RGGB then "BAYER8_RGGB"
    else if dataFormat == PF.BAYER8_GBRG then "BAYER8_GBRG"
    else if dataFormat == PF.BAYER8_BGGR then "BAYER8_BGGR"
    else if dataFormat == PF.BAYER16_RGGB then "BAYER16_RGGB"
    else if dataFormat == PF.BAYER16_GBRG then "BAYER16_GBRG"
    else if dataFormat == PF.BAYER16_BGGR then "BAYER16_BGGR"
    else if dataFormat == PF.MONO12_PACKED then "MONO12_PACKED"
    else if dataFormat == PF.BAYER12_GRBG_PACKED then "BAYER12_GRBG_PACKED"
    else if dataFormat == PF.BAYER12_RGGB_PACKED then "BAYER12_RGGB_PACKED"
    else if dataFormat == PF.BAYER12_GBRG_PACKED then "BAYER12_GBRG_PACKED"
    else if dataFormat == PF.BAYER12_BGGR_PACKED then "BAYER12_BGGR_PACKED"
    else if dataFormat == PF.RGB24_NON_DIB then "RGB24_NON_DIB"
    else if dataFormat == PF.RGB48_DIB then "RGB48_DIB"
    else if dataFormat == PF.MONO12_PACKED_MSFIRST then "MONO12_PACKED_MSFIRST"
    else if dataFormat == PF.BAYER12_GRBG_PACKED_MSFIRST then "BAYER12_GRBG_PACKED_MSFIRST"
    else if dataFormat == PF.BAYER12_RGGB_PACKED_MSFIRST then "BAYER12_RGGB_PACKED_MSFIRST"
    else if dataFormat == PF.BAYER12_GBRG_PACKED_MSFIRST then "BAYER12_GBRG_PACKED_MSFIRST"
    else if dataFormat == PF.BAYER12_BGGR_PACKED_MSFIRST then "BAYER12_BGGR_PACKED_MSFIRST"
    else if dataFormat == PF.MONO10_PACKED_MSFIRST then "MONO10_PACKED_MSFIRST"
    else if dataFormat == PF.BAYER10_GRBG_PACKED_MSFIRST then "BAYER10_GRBG_PACKED_MSFIRST"
    else if dataFormat == PF.BAYER10_RGGB_PACKED_MSFIRST then "BAYER10_RGGB_PACKED_MSFIRST"
    else if dataFormat == PF.BAYER10_GBRG_PACKED_MSFIRST then "BAYER10_GBRG_PACKED_MSFIRST"
    else if dataFormat == PF.BAYER10_BGGR_PACKED_MSFIRST then "BAYER10_BGGR_PACKED_MSFIRST"
    else if dataFormat == PF.STOKES4_12 then "STOKES4_12"
    else if dataFormat == PF.POLAR4_12 then "POLAR4_12"
    else if dataFormat == PF.POLAR_RAW4_12 then "POLAR_RAW4_12"
    else if dataFormat == PF.HSV4_12 then "HSV4_12"
    else if dataFormat == PF.BGR24_NON_DIB then "BGR24_NON_DIB"
    else UNKNOWN_FORMAT
  }

  /** Exactly the formats 0..34 have a name, the same formats that have a byte width. */
  lemma PixelFormatNameKnown(dataFormat: int)
    ensures PixelFormatName(dataFormat) != UNKNOWN_FORMAT <==> 0 <= dataFormat <= 34
    ensures PixelFormatName(dataFormat) != UNKNOWN_FORMAT <==> PxLApi.BytesPerPixelQuarters(dataFormat) > 0
  {
    PxLApi.BytesPerPixelValues(dataFormat);
  }

  /** The dictionary has one name per format value: two different named formats never share a name. */
  lemma NamesDistinct(a: int, b: int)
    requires 0 <= a < b <= 34
    ensures PixelFormatName(a) != PixelFormatName(b)
  {
  }

  // ---------------------------------------------------------------------------
  // The centre rectangle

  /** `int((n / 5) * 2)` and `int((n / 5) * 3)` for a whole number `n`. */
  function TwoFifths(n: nat): (r: nat)
    ensures 5 * r <= 2 * n < 5 * (r + 1)
  {
    PxLApi.FloorDiv(2 * n, 5)
  }

  function ThreeFifths(n: nat): (r: nat)
    ensures 5 * r <= 3 * n < 5 * (r + 1)
  {
    PxLApi.FloorDiv(3 * n, 5)
  }

  /** Byte `idx` belongs to a pixel in rows `r0..r1` and columns `c0..c1` of a `w`-wide image of `b`-byte pixels. */
  predicate InRect(idx: int, r0: int, r1: int, c0: int, c1: int, w: nat, b: nat) {
    b > 0 && w > 0 && idx >= 0 && r0 <= (idx / b) / w < r1 && c0 <= (idx / b) % w < c1
  }

  /** The bytes of pixel (`row`, `col`) are `b * (row * w + col)` up to `b` further. */
  lemma PixelBytes(row: nat, col: nat, w: nat, b: nat, k: nat)
    requires col < w && k < b
    ensures (b * (row * w + col) + k) / b == row * w + col
    ensures (row * w + col) / w == row && (row * w + col) % w == col
  {
    DivOfMultiple(row * w + col, b, k);
    DivOfMultiple(row, w, col);
    assert b * (row * w + col) == (row * w + col) * b;
  }

  lemma MulSign(a: int, d: nat)
    ensures a >= 1 ==> a * d >= d
    ensures a <= -1 ==> a * d + d <= 0
  {
  }

  lemma MulLe(a: nat, b: nat, c: nat)
    requires a <= b
    ensures a * c <= b * c
  {
  }

  lemma DivOfMultiple(q: nat, d: nat, r: nat)
    requires r < d
    ensures (q * d + r) / d == q && (q * d + r) % d == r
  {
    var n := q * d + r;
    var qq := n / d;
    assert n == qq * d + n % d;
    assert (q - qq) * d == n % d - r;
    MulSign(q - qq, d);
  }

  /** A byte of a pixel inside a `w` by `h` image of `b`-byte pixels lies inside its buffer. */
  lemma PixelWithinImage(row: nat, col: nat, w: nat, h: nat, b: nat, k: nat)
    requires row < h && col < w && k < b
    ensures b * (row * w + col) + k < w * h * b
  {
    var p := row * w + col;
    assert p + 1 <= (row + 1) * w;
    MulLe(row + 1, h, w);
    MulLe(p + 1, h * w, b);
    assert b * p + k < (p + 1) * b;
    assert (h * w) * b == w * h * b;
  }

  /** The innermost loop: the `b` bytes of one pixel become 0xff. */
  method FillPixel(frameData: array<bv8>, pixel: nat, b: nat)
    requires pixel + b <= frameData.Length
    modifies frameData
    ensures forall idx :: 0 <= idx < frameData.Length ==>
      frameData[idx] == if pixel <= idx < pixel + b then 0xff else old(frameData[idx])
  {
    for k := 0 to b
      invariant forall idx :: 0 <= idx < frameData.Length ==>
        frameData[idx] == if pixel <= idx < pixel + k then 0xff else old(frameData[idx])
    {
      frameData[pixel + k] := 0xff;
    }
  }

  /**
   * The loop over the columns `c0..c1` of one row: `pixel0` is
   * `int(bytesPerPixel * (row * width + c0))` and each column moves on by `b` bytes.
   */
  method FillRow(frameData: array<bv8>, pixel0: nat, c0: nat, c1: nat, b: nat)
    requires c0 <= c1 && pixel0 + (c1 - c0) * b <= frameData.Length
    modifies frameData
    ensures forall idx :: 0 <= idx < frameData.Length ==>
      frameData[idx] == if pixel0 <= idx < pixel0 + (c1 - c0) * b then 0xff else old(frameData[idx])
  {
    var pixel := pixel0;
    for j := c0 to c1
      invariant pixel == pixel0 + (j - c0) * b
      invariant forall idx :: 0 <= idx < frameData.Length ==>
        frameData[idx] == if pixel0 <= idx < pixel then 0xff else old(frameData[idx])
    {
      MulStep(j - c0, c1 - c0, b);
      FillPixel(frameData, pixel, b);
      pixel := pixel + b;
    }
  }

  lemma MulStep(n: nat, m: nat, b: nat)
    requires n < m
    ensures (n + 1) * b == n * b + b <= m * b
  {
    MulLe(n + 1, m, b);
  }

  /** The bytes of the columns `c0..c1` of row `row` end where the row's next column starts, inside the image. */
  lemma RowBytes(row: nat, c0: nat, c1: nat, w: nat, h: nat, b: nat)
    requires c0 <= c1 <= w && row < h
    ensures b * (row * w + c0) + (c1 - c0) * b == b * (row * w + c1) <= w * h * b
  {
    assert row * w + c1 <= (row + 1) * w;
    MulLe(row + 1, h, w);
    MulLe(row * w + c1, h * w, b);
    assert (h * w) * b == w * h * b;
  }

  /** Division by a positive number keeps the order of its operands. */
  lemma DivLe(x: nat, y: nat, d: nat)
    requires x <= y && d > 0
    ensures x / d <= y / d
  {
    assert x == d * (x / d) + x % d && y == d * (y / d) + y % d;
    MulSign(x / d - y / d, d);
  }

  /** Every byte of the row's contiguous range belongs to a pixel of the rectangle. */
  lemma RowSpanInRect(idx: int, row: nat, c0: nat, c1: nat, w: nat, b: nat)
    requires c0 < c1 <= w && b > 0
    requires b * (row * w + c0) <= idx < b * (row * w + c1)
    ensures InRect(idx, row, row + 1, c0, c1, w, b)
  {
    var p := idx / b;
    DivOfMultiple(row * w + c0, b, 0);
    DivLe(b * (row * w + c0), idx, b);
    assert b * (row * w + c0) == (row * w + c0) * b + 0;
    assert idx == b * p + idx % b;
    MulSign(p - (row * w + c1) + 1, b);
    assert p - row * w < w;
    DivOfMultiple(row, w, p - row * w);
  }

  /** Every byte of a pixel of the rectangle in row `row` lies in the row's contiguous range. */
  lemma InRectRowSpan(idx: int, row: nat, c0: nat, c1: nat, w: nat, b: nat)
    requires InRect(idx, row, row + 1, c0, c1, w, b)
    ensures b * (row * w + c0) <= idx < b * (row * w + c1)
  {
    var p := idx / b;
    assert p == w * (p / w) + p % w;
    assert row * w + c0 <= p < row * w + c1;
    assert idx == b * p + idx % b;
    MulLe(row * w + c0, p, b);
    MulLe(p + 1, row * w + c1, b);
  }

  /**
   * The body of the row loop: `pixel` starts at `int(bytesPerPixel * (row * width + startCol))`
   * and the bytes of the row's pixels in columns `c0..c1` become 0xff.
   */
  method FillRectRow(frameData: array<bv8>, row: nat, c0: nat, c1: nat, w: nat, h: nat, b: nat)
    requires c0 < c1 <= w && row < h && b > 0 && w * h * b <= frameData.Length
    modifies frameData
    ensures forall idx :: 0 <= idx < frameData.Length ==>
      frameData[idx] == if InRect(idx, row, row + 1, c0, c1, w, b) then 0xff else old(frameData[idx])
  {
    var pixel := b * (row * w + c0);
    RowBytes(row, c0, c1, w, h, b);
    FillRow(frameData, pixel, c0, c1, b);
    forall idx | 0 <= idx < frameData.Length
      ensures frameData[idx] == if InRect(idx, row, row + 1, c0, c1, w, b) then 0xff else old(frameData[idx])
    {
      if pixel <= idx < b * (row * w + c1) {
        RowSpanInRect(idx, row, c0, c1, w, b);
      }
      if InRect(idx, row, row + 1, c0, c1, w, b) {
        InRectRowSpan(idx, row, c0, c1, w, b);
      }
    }
  }

  /**
   * `callback_format_preview`: for a format of a whole number of bytes per pixel every
   * byte of the centre rectangle becomes 0xff and nothing else changes; for a format
   * of 1.25 or 1.5 bytes the first `range(bytesPerPixel)` raises TypeError before any
   * write. The buffer holds the `roiWidth * roiHeight` pixels of the frame.
   */
  method CallbackFormatPreview(frameData: array<bv8>, dataFormat: int, roiWidth: nat, roiHeight: nat)
    returns (r: Outcome<int>)
    requires frameData.Length >= roiWidth * roiHeight * (PxLApi.BytesPerPixelQuarters(dataFormat) / 4)
    modifies frameData
    ensures var q := PxLApi.BytesPerPixelQuarters(dataFormat);
      r.Raised? <==> q % 4 != 0 && TwoFifths(roiHeight) < ThreeFifths(roiHeight) && TwoFifths(roiWidth) < ThreeFifths(roiWidth)
    ensures r.Raised? ==> r.exc == TypeError && frameData[..] == old(frameData[..])
    ensures r.Normal? ==> r.value == 0
    ensures r.Normal? ==> forall idx :: 0 <= idx < frameData.Length ==>
      frameData[idx] == if InRect(idx, TwoFifths(roiHeight), ThreeFifths(roiHeight), TwoFifths(roiWidth), ThreeFifths(roiWidth),
                                  roiWidth, PxLApi.BytesPerPixelQuarters(dataFormat) / 4)
                        then 0xff else old(frameData[idx])
  {
    var w := roiWidth;
    var startRow := TwoFifths(roiHeight);
    var endRow := ThreeFifths(roiHeight);
    var startCol := TwoFifths(w);
    var endCol := ThreeFifths(w);
    var q := PxLApi.BytesPerPixelQuarters(dataFormat);
    var b := q / 4;
    var r0 := startRow;  // `range(startRow, endRow)` is evaluated once
    if startCol >= endCol || b == 0 {
      // No column, or no byte per pixel: the loops write nothing.
      return Normal(0);
    }
    for i := r0 to endRow
      invariant startRow == i
      invariant q % 4 != 0 && startCol < endCol ==> i == r0
      invariant forall idx :: 0 <= idx < frameData.Length ==>
        frameData[idx] == if InRect(idx, r0, i, startCol, endCol, w, b) then 0xff else old(frameData[idx])
    {
      if q % 4 != 0 && startCol < endCol {
        // `range(1.25)` or `range(1.5)` at the first column of the first row.
        assert frameData[..] == old(frameData[..]);
        return Raised(TypeError);
      }
      FillRectRow(frameData, startRow, startCol, endCol, w, roiHeight, b);
      startRow := startRow + 1;
    }
    return Normal(0);
  }
}
