/**
 * The image rasterizer: every pixel of a raster image whose gray value is at
 * most the threshold sets one dot on a fresh page of the canvas. Where a
 * pixel lands is decided either by a linear mapping of pixel to dot indices
 * or by quantifying the pixel's position in millimetres to the dot raster.
 *
 * Ratios are `double`s in the source and exact reals here. The canvas's
 * quantification of a millimetre position to a dot index is not part of this
 * model; it enters as the canvas's opaque functions `quantifyX`/`quantifyY`.
 */
module Images {
  import opened JavaNumbers
  import opened MatrixPages

  // ---------------------------------------------------------------------
  // Gray values
  // ---------------------------------------------------------------------

  /**
   * `toGrayScaleValue`: the mean of the red, green and blue bytes of a
   * packed ARGB int, rounded down. `(rgb >> s) & 0xff` is an arithmetic shift
   * and a mask, which for a two's complement int is `(rgb / 2^s) % 256` with
   * division rounding down.
   */
  function ToGrayScaleValue(rgb: int): (gray: int)
    ensures 0 <= gray <= 255
  {
    var r := (rgb / 0x1_0000) % 0x100;
    var g := (rgb / 0x100) % 0x100;
    var b := rgb % 0x100;
    (r + g + b) / 3
  }

  /** The Java int holding the colour (alpha, red, green, blue), one byte each. */
  function Argb(a: int, r: int, g: int, b: int): int
  {
    IntCast(a * 0x100_0000 + r * 0x1_0000 + g * 0x100 + b)
  }

  /** The gray value of a packed colour is the mean of its red, green and blue bytes; alpha plays no part. */
  lemma GrayOfArgb(a: int, r: int, g: int, b: int)
    requires 0 <= a < 0x100 && 0 <= r < 0x100 && 0 <= g < 0x100 && 0 <= b < 0x100
    ensures ToGrayScaleValue(Argb(a, r, g, b)) == (r + g + b) / 3
  {
    var v := a * 0x100_0000 + r * 0x1_0000 + g * 0x100 + b;
    var rgb := Argb(a, r, g, b);
    var m := (rgb - v) / 0x1_0000_0000;
    assert rgb == v + m * 0x1_0000_0000;
    ByteOf(rgb, 0x1_0000, a + m * 0x100, r, g * 0x100 + b);
    ByteOf(rgb, 0x100, a * 0x100 + m * 0x1_0000 + r, g, b);
    ByteOf(rgb, 1, a * 0x1_0000 + m * 0x100_0000 + r * 0x100 + g, b, 0);
  }

  /** The byte above `low` in n = high * 256 * unit + byte * unit + low. */
  lemma ByteOf(n: int, unit: int, high: int, byte: int, low: int)
    requires unit > 0 && 0 <= byte < 0x100 && 0 <= low < unit
    requires n == (high * 0x100 + byte) * unit + low
    ensures (n / unit) % 0x100 == byte
  {
    DivModUnique(n, unit, high * 0x100 + byte, low);
    DivModUnique(high * 0x100 + byte, 0x100, high, byte);
  }

  // ---------------------------------------------------------------------
  // Images, canvases and the rasterizer's settings
  // ---------------------------------------------------------------------

  /** A raster image: `getRGB(x, y)` for 0 <= x < width and 0 <= y < height. */
  datatype Image = Image(width: nat, height: nat, rgb: (int, int) -> int)

  /** A pixel sets a dot iff its gray value is at most the threshold (dark enough). */
  predicate Dark(image: Image, threshold: int, x: int, y: int)
  {
    ToGrayScaleValue(image.rgb(x, y)) <= threshold
  }

  /**
   * The canvas the rasterizer draws on: its pages, the size of a new page,
   * the dot rectangle and the printable area, the dot distances and the
   * quantification of millimetre positions to dot indices.
   */
  class RasterCanvas {
    var pages: seq<MatrixData>
    const pageRows: nat
    const pageColumns: nat
    const dotAreaWidth: nat
    const dotAreaHeight: nat
    const printableWidth: real
    const printableHeight: real
    const horizontalDotDistance: real
    const verticalDotDistance: real
    const quantifyX: real -> int
    const quantifyY: real -> int

    constructor (pageRows: nat, pageColumns: nat, dotAreaWidth: nat, dotAreaHeight: nat,
                 printableWidth: real, printableHeight: real, horizontalDotDistance: real, verticalDotDistance: real,
                 quantifyX: real -> int, quantifyY: real -> int)
      ensures this.pageRows == pageRows && this.pageColumns == pageColumns
      ensures this.dotAreaWidth == dotAreaWidth && this.dotAreaHeight == dotAreaHeight
      ensures this.printableWidth == printableWidth && this.printableHeight == printableHeight
      ensures this.horizontalDotDistance == horizontalDotDistance && this.verticalDotDistance == verticalDotDistance
      ensures this.quantifyX == quantifyX && this.quantifyY == quantifyY
      ensures pages == []
    {
      this.pageRows, this.pageColumns := pageRows, pageColumns;
      this.dotAreaWidth, this.dotAreaHeight := dotAreaWidth, dotAreaHeight;
      this.printableWidth, this.printableHeight := printableWidth, printableHeight;
      this.horizontalDotDistance, this.verticalDotDistance := horizontalDotDistance, verticalDotDistance;
      this.quantifyX, this.quantifyY := quantifyX, quantifyY;
      pages := [];
    }

    /** `getNewPage`: appends an empty page and answers it. */
    method GetNewPage() returns (page: MatrixData)
      modifies this
      ensures pages == old(pages) + [page]
      ensures fresh(page) && fresh(page.cells)
      ensures page.RowCount() == pageRows && page.ColumnCount() == pageColumns
      ensures forall r, c :: page.InRange(r, c) ==> !page.cells[r, c]
    {
      page := new MatrixData(pageRows, pageColumns);
      pages := pages + [page];
    }
  }

  /** The rasterizer's switches and its threshold, fixed at construction. */
  datatype ImageRasterizer = ImageRasterizer(
    preventOverStretch: bool,
    preserveAspectRatio: bool,
    quantifiedPositions: bool,
    lowThreshold: int)

  const DefaultThreshold: int := 80

  /** The default constructor: all three switches on, threshold 80. */
  function DefaultImageRasterizer(): (r: ImageRasterizer)
    ensures r.preventOverStretch && r.preserveAspectRatio && r.quantifiedPositions
    ensures r.lowThreshold == DefaultThreshold
  {
    ImageRasterizer(true, true, true, DefaultThreshold)
  }

  // ---------------------------------------------------------------------
  // Scanning the pixels
  // ---------------------------------------------------------------------

  /** Some dark pixel is mapped to dot (r, c). */
  ghost predicate Marked(image: Image, threshold: int, column: int -> int, row: int -> int, r: int, c: int)
  {
    exists x, y :: 0 <= x < image.width && 0 <= y < image.height && Dark(image, threshold, x, y) && column(x) == c && row(y) == r
  }

  /** Pixel (x, y) comes before (xEnd, yEnd) in the scan: columns of pixels left to right, each top to bottom. */
  predicate Before(image: Image, x: int, y: int, xEnd: int, yEnd: int)
  {
    (0 <= x < xEnd && 0 <= y < image.height) || (x == xEnd && 0 <= y < yEnd)
  }

  /** Some dark pixel scanned before (xEnd, yEnd) is mapped to dot (r, c). */
  ghost predicate MarkedBefore(image: Image, threshold: int, column: int -> int, row: int -> int, xEnd: int, yEnd: int, r: int, c: int)
  {
    exists x, y :: Before(image, x, y, xEnd, yEnd) && Dark(image, threshold, x, y) && column(x) == c && row(y) == r
  }

  /** Every dark pixel scanned before (xEnd, yEnd) is mapped onto a page of the given size. */
  ghost predicate OnPageBefore(image: Image, threshold: int, column: int -> int, row: int -> int, xEnd: int, yEnd: int, rows: nat, columns: nat)
  {
    forall x, y :: Before(image, x, y, xEnd, yEnd) && Dark(image, threshold, x, y) ==>
      0 <= row(y) < rows && 0 <= column(x) < columns
  }

  /**
   * The two nested pixel loops shared by both mappings: each dark pixel
   * (x, y) sets the dot (row(y), column(x)). A position off the page makes
   * `setValue` throw; the scan then stops and the dots set so far stay.
   */
  method ScanPixels(page: MatrixData, image: Image, threshold: int, column: int -> int, row: int -> int) returns (ok: bool)
    modifies page.cells
    ensures ok <==> OnPageBefore(image, threshold, column, row, image.width, 0, page.RowCount(), page.ColumnCount())
    ensures ok ==> forall r, c :: page.InRange(r, c) ==>
      page.cells[r, c] == (old(page.cells[r, c]) || Marked(image, threshold, column, row, r, c))
    ensures forall r, c :: page.InRange(r, c) ==>
      (old(page.cells[r, c]) ==> page.cells[r, c]) && (page.cells[r, c] ==> old(page.cells[r, c]) || Marked(image, threshold, column, row, r, c))
  {
    var rows, columns := page.RowCount(), page.ColumnCount();
    var x := 0;
    while x < image.width
      invariant 0 <= x <= image.width
      invariant OnPageBefore(image, threshold, column, row, x, 0, rows, columns)
      invariant forall r, c :: page.InRange(r, c) ==>
        page.cells[r, c] == (old(page.cells[r, c]) || MarkedBefore(image, threshold, column, row, x, 0, r, c))
    {
      var dotColumn := column(x);
      var y := 0;
      NextPixelColumn(image, threshold, column, row, x, rows, columns);
      while y < image.height
        invariant 0 <= y <= image.height
        invariant OnPageBefore(image, threshold, column, row, x, y, rows, columns)
        invariant forall r, c :: page.InRange(r, c) ==>
          page.cells[r, c] == (old(page.cells[r, c]) || MarkedBefore(image, threshold, column, row, x, y, r, c))
      {
        var dotRow := row(y);
        NextPixel(image, threshold, column, row, x, y, rows, columns);
        if ToGrayScaleValue(image.rgb(x, y)) <= threshold {
          if !page.InRange(dotRow, dotColumn) {
            ScanStopped(image, threshold, column, row, x, y, rows, columns);
            MarkedBeforeEnd(image, threshold, column, row, x, y);
            return false;
          }
          page.SetValue(dotRow, dotColumn, true);
        }
        y := y + 1;
      }
      x := x + 1;
    }
    MarkedAtEnd(image, threshold, column, row);
    return true;
  }

  /** Scanning one more pixel adds it to the pixels scanned. */
  lemma NextPixel(image: Image, threshold: int, column: int -> int, row: int -> int, x: int, y: int, rows: nat, columns: nat)
    requires 0 <= x < image.width && 0 <= y < image.height
    ensures forall r, c ::
      MarkedBefore(image, threshold, column, row, x, y + 1, r, c)
      == (MarkedBefore(image, threshold, column, row, x, y, r, c) || (Dark(image, threshold, x, y) && column(x) == c && row(y) == r))
    ensures OnPageBefore(image, threshold, column, row, x, y + 1, rows, columns)
      == (OnPageBefore(image, threshold, column, row, x, y, rows, columns)
          && (Dark(image, threshold, x, y) ==> 0 <= row(y) < rows && 0 <= column(x) < columns))
  {
    forall r, c | MarkedBefore(image, threshold, column, row, x, y + 1, r, c)
      ensures MarkedBefore(image, threshold, column, row, x, y, r, c) || (Dark(image, threshold, x, y) && column(x) == c && row(y) == r)
    {
      var x', y' :| Before(image, x', y', x, y + 1) && Dark(image, threshold, x', y') && column(x') == c && row(y') == r;
      if !(x' == x && y' == y) {
        assert Before(image, x', y', x, y);
      }
    }
    forall r, c | MarkedBefore(image, threshold, column, row, x, y, r, c)
      ensures MarkedBefore(image, threshold, column, row, x, y + 1, r, c)
    {
      var x', y' :| Before(image, x', y', x, y) && Dark(image, threshold, x', y') && column(x') == c && row(y') == r;
      assert Before(image, x', y', x, y + 1);
    }
    assert Before(image, x, y, x, y + 1);
    if Dark(image, threshold, x, y) {
      assert MarkedBefore(image, threshold, column, row, x, y + 1, row(y), column(x));
    }
    if OnPageBefore(image, threshold, column, row, x, y, rows, columns) && (Dark(image, threshold, x, y) ==> 0 <= row(y) < rows && 0 <= column(x) < columns) {
      forall x', y' | Before(image, x', y', x, y + 1) && Dark(image, threshold, x', y')
        ensures 0 <= row(y') < rows && 0 <= column(x') < columns
      {
        if !(x' == x && y' == y) {
          assert Before(image, x', y', x, y);
        }
      }
    }
    if OnPageBefore(image, threshold, column, row, x, y + 1, rows, columns) {
      assert Before(image, x, y, x, y + 1);
      forall x', y' | Before(image, x', y', x, y) && Dark(image, threshold, x', y')
        ensures 0 <= row(y') < rows && 0 <= column(x') < columns
      {
        assert Before(image, x', y', x, y + 1);
      }
    }
  }

  /** Finishing a column of pixels is starting the next one. */
  lemma NextPixelColumn(image: Image, threshold: int, column: int -> int, row: int -> int, x: int, rows: nat, columns: nat)
    requires 0 <= x < image.width
    ensures forall r, c ::
      MarkedBefore(image, threshold, column, row, x, image.height, r, c) == MarkedBefore(image, threshold, column, row, x + 1, 0, r, c)
    ensures OnPageBefore(image, threshold, column, row, x, image.height, rows, columns)
      == OnPageBefore(image, threshold, column, row, x + 1, 0, rows, columns)
    ensures forall r, c ::
      MarkedBefore(image, threshold, column, row, x, 0, r, c) == MarkedBefore(image, threshold, column, row, x, 0, r, c)
  {
    assert forall x', y' :: Before(image, x', y', x, image.height) == Before(image, x', y', x + 1, 0);
  }

  /** Having scanned every column, the pixels scanned are all the pixels. */
  lemma MarkedAtEnd(image: Image, threshold: int, column: int -> int, row: int -> int)
    ensures forall r, c ::
      MarkedBefore(image, threshold, column, row, image.width, 0, r, c) == Marked(image, threshold, column, row, r, c)
  {
    assert forall x, y :: Before(image, x, y, image.width, 0) == (0 <= x < image.width && 0 <= y < image.height);
  }

  /** A dot marked by the pixels scanned so far is marked by the whole image. */
  lemma MarkedBeforeEnd(image: Image, threshold: int, column: int -> int, row: int -> int, x: int, y: int)
    requires 0 <= x < image.width && 0 <= y < image.height
    ensures forall r, c :: MarkedBefore(image, threshold, column, row, x, y, r, c) ==> Marked(image, threshold, column, row, r, c)
  {
    forall r, c | MarkedBefore(image, threshold, column, row, x, y, r, c)
      ensures Marked(image, threshold, column, row, r, c)
    {
      var x', y' :| Before(image, x', y', x, y) && Dark(image, threshold, x', y') && column(x') == c && row(y') == r;
    }
  }

  /** A dark pixel mapped off the page means the whole image is not mapped onto it. */
  lemma ScanStopped(image: Image, threshold: int, column: int -> int, row: int -> int, x: int, y: int, rows: nat, columns: nat)
    requires 0 <= x < image.width && 0 <= y < image.height
    requires Dark(image, threshold, x, y) && !(0 <= row(y) < rows && 0 <= column(x) < columns)
    ensures !OnPageBefore(image, threshold, column, row, image.width, 0, rows, columns)
  {
    assert Before(image, x, y, image.width, 0);
  }

  // ---------------------------------------------------------------------
  // The two mappings
  // ---------------------------------------------------------------------

  function Min(a: real, b: real): real
  {
    if a <= b then a else b
  }

  datatype Ratios = Ratios(h: real, v: real)

  /**
   * The ratios of the linear mapping (dots per pixel) as the source computes
   * them: the dot rectangle's extent minus one over the image's extent;
   * against over-stretching the vertical ratio is set from the horizontal one,
   * and for the aspect ratio the vertical one is set to itself.
   */
  function LinearRatiosAsWritten(areaWidth: nat, areaHeight: nat, image: Image, preventOverStretch: bool, preserveAspectRatio: bool): Ratios
    requires image.width > 0 && image.height > 0
  {
    var h := ((areaWidth - 1) as real) / (image.width as real);
    var v := ((areaHeight - 1) as real) / (image.height as real);
    var r1 := if preventOverStretch then var h' := Min(h, 1.0); Ratios(h', Min(h', 1.0)) else Ratios(h, v);
    if preserveAspectRatio then Ratios(Min(r1.h, r1.v), Min(r1.v, r1.v)) else r1
  }

  /**
   * The ratios of the linear mapping as the comments describe them: each
   * ratio capped at 1 against over-stretching, and both set to the smaller
   * one to keep the aspect ratio.
   */
  function LinearRatios(areaWidth: nat, areaHeight: nat, image: Image, preventOverStretch: bool, preserveAspectRatio: bool): (ratios: Ratios)
    requires image.width > 0 && image.height > 0
    ensures 0 < areaWidth && 0 < areaHeight ==>
      && 0.0 <= ratios.h <= ((areaWidth - 1) as real) / (image.width as real)
      && 0.0 <= ratios.v <= ((areaHeight - 1) as real) / (image.height as real)
    ensures preventOverStretch ==> ratios.h <= 1.0 && ratios.v <= 1.0
    ensures preserveAspectRatio ==> ratios.h == ratios.v
  {
    var h := ((areaWidth - 1) as real) / (image.width as real);
    var v := ((areaHeight - 1) as real) / (image.height as real);
    var r1 := if preventOverStretch then Ratios(Min(h, 1.0), Min(v, 1.0)) else Ratios(h, v);
    if preserveAspectRatio then var h' := Min(r1.h, r1.v); Ratios(h', Min(h', r1.v)) else r1
  }

  /**
   * As written, a tall image on a wide dot rectangle gets the horizontal
   * ratio (capped at 1) as its vertical ratio: with a 100 x 20 dot rectangle
   * and a 10 x 100 image the last pixel row goes to dot row 100, below the
   * rectangle's last row 19; the corrected ratio puts it on row 19.
   */
  lemma LinearRatiosAsWrittenOverrun()
    ensures var image := Image(10, 100, (x, y) => 0);
      && LinearRatiosAsWritten(100, 20, image, true, false).v == 1.0
      && IntCast(Round(LinearRatiosAsWritten(100, 20, image, true, false).v * 100.0)) == 100
      && LinearRatios(100, 20, image, true, false).v == 0.19
      && IntCast(Round(LinearRatios(100, 20, image, true, false).v * 100.0)) == 19
  {
    var image := Image(10, 100, (x, y) => 0);
    assert Round(100.0) == 100 by { assert (100.0 + 0.5).Floor == 100; }
    assert 0.19 * 100.0 == 19.0;
    assert Round(19.0) == 19 by { assert (19.0 + 0.5).Floor == 19; }
  }

  /**
   * As written, keeping the aspect ratio leaves the vertical ratio alone:
   * without the over-stretch cap, an 11 x 101 dot rectangle and a 10 x 10
   * image get ratios 1 and 10; the corrected ratios are both 1.
   */
  lemma LinearRatiosAsWrittenDistort()
    ensures var image := Image(10, 10, (x, y) => 0);
      && LinearRatiosAsWritten(11, 101, image, false, true) == Ratios(1.0, 10.0)
      && LinearRatios(11, 101, image, false, true) == Ratios(1.0, 1.0)
  {
  }

  /** `(int) round(ratio * (i + 1))`: the linear mapping of pixel index i to a dot index. */
  function LinearPosition(ratio: real, i: int): int
  {
    IntCast(Round(ratio * ((i + 1) as real)))
  }

  /**
   * With a ratio of at most (extent - 1) / pixels, every pixel index below
   * `pixels` is mapped to a dot index within [0, extent - 1].
   */
  lemma LinearPositionInArea(ratio: real, extent: nat, pixels: nat, i: int)
    requires 0 < extent <= IntMax && 0 <= i < pixels
    requires 0.0 <= ratio <= ((extent - 1) as real) / (pixels as real)
    ensures 0 <= LinearPosition(ratio, i) < extent
  {
    ScaledBelow(ratio, (i + 1) as real, pixels as real, (extent - 1) as real);
    RoundInRange(ratio, i, extent - 1);
  }

  /** A position in [0, top] rounds and casts to a dot index in [0, top]. */
  lemma RoundInRange(ratio: real, i: int, top: int)
    requires 0 <= top <= IntMax && 0.0 <= ratio * ((i + 1) as real) <= top as real
    ensures 0 <= LinearPosition(ratio, i) <= top
  {
    var p := ratio * ((i + 1) as real);
    assert 0 <= (p + 0.5).Floor <= top;
  }

  /** A ratio of at most bound / p, times a factor of at most p, is at most bound. */
  lemma ScaledBelow(ratio: real, k: real, p: real, bound: real)
    requires 0.0 < k <= p && 0.0 <= bound && 0.0 <= ratio <= bound / p
    ensures 0.0 <= ratio * k <= bound
  {
    assert ratio * k <= ratio * p;
    assert bound / p * p == bound;
    assert ratio * p <= bound / p * p;
  }

  /** The linear mapping's dot column for pixel column i, and dot row for pixel row i. */
  function LinearColumns(ratios: Ratios): int -> int
  {
    i => LinearPosition(ratios.h, i)
  }

  function LinearRows(ratios: Ratios): int -> int
  {
    i => LinearPosition(ratios.v, i)
  }

  /** Whether the linear mapping's dot rectangle fits on the canvas's page. */
  predicate LinearAreaFits(canvas: RasterCanvas)
  {
    0 < canvas.dotAreaWidth <= canvas.pageColumns && 0 < canvas.dotAreaHeight <= canvas.pageRows
    && canvas.pageColumns <= IntMax && canvas.pageRows <= IntMax
  }

  /**
   * `linearMapping`: a new page, with every dark pixel (x, y) setting dot
   * (round(v * (y + 1)), round(h * (x + 1))) for the (corrected) linear
   * ratios. When the dot rectangle fits on the page, no position is off the
   * page.
   */
  method LinearMapping(rasterizer: ImageRasterizer, image: Image, canvas: RasterCanvas) returns (page: MatrixData, ok: bool)
    requires image.width > 0 && image.height > 0
    modifies canvas
    ensures canvas.pages == old(canvas.pages) + [page] && fresh(page.cells)
    ensures page.RowCount() == canvas.pageRows && page.ColumnCount() == canvas.pageColumns
    ensures var ratios := LinearRatios(canvas.dotAreaWidth, canvas.dotAreaHeight, image, rasterizer.preventOverStretch, rasterizer.preserveAspectRatio);
      var column, row := LinearColumns(ratios), LinearRows(ratios);
      && (ok <==> OnPageBefore(image, rasterizer.lowThreshold, column, row, image.width, 0, canvas.pageRows, canvas.pageColumns))
      && (ok ==> forall r, c :: page.InRange(r, c) ==> page.cells[r, c] == Marked(image, rasterizer.lowThreshold, column, row, r, c))
    ensures LinearAreaFits(canvas) ==> ok
  {
    page := canvas.GetNewPage();
    var ratios := LinearRatios(canvas.dotAreaWidth, canvas.dotAreaHeight, image, rasterizer.preventOverStretch, rasterizer.preserveAspectRatio);
    var column, row := LinearColumns(ratios), LinearRows(ratios);
    ok := ScanPixels(page, image, rasterizer.lowThreshold, column, row);
    if LinearAreaFits(canvas) {
      forall x, y | Before(image, x, y, image.width, 0) && Dark(image, rasterizer.lowThreshold, x, y)
        ensures 0 <= row(y) < page.RowCount() && 0 <= column(x) < page.ColumnCount()
      {
        LinearPositionInArea(ratios.h, canvas.dotAreaWidth, image.width, x);
        LinearPositionInArea(ratios.v, canvas.dotAreaHeight, image.height, y);
      }
    }
  }

  /**
   * The ratios of the quantified mapping (millimetres per pixel): the
   * printable area over the image's extent, capped at the dot distances
   * against over-stretching, both set to the smaller one for the aspect ratio.
   */
  function QuantifiedRatios(canvas: RasterCanvas, image: Image, preventOverStretch: bool, preserveAspectRatio: bool): (ratios: Ratios)
    requires image.width > 0 && image.height > 0
    ensures preventOverStretch ==> ratios.h <= canvas.horizontalDotDistance && ratios.v <= canvas.verticalDotDistance
    ensures preserveAspectRatio ==> ratios.h == ratios.v
    ensures !preventOverStretch && !preserveAspectRatio ==>
      ratios == Ratios(canvas.printableWidth / (image.width as real), canvas.printableHeight / (image.height as real))
  {
    var h := canvas.printableWidth / (image.width as real);
    var v := canvas.printableHeight / (image.height as real);
    var r1 := if preventOverStretch then Ratios(Min(h, canvas.horizontalDotDistance), Min(v, canvas.verticalDotDistance)) else Ratios(h, v);
    if preserveAspectRatio then var h' := Min(r1.h, r1.v); Ratios(h', Min(h', r1.v)) else r1
  }

  /**
   * The quantified mapping's dot column for pixel column i, and dot row for
   * pixel row i: the canvas quantifies the millimetre position of the
   * pixel's far edge.
   */
  function QuantifiedColumns(canvas: RasterCanvas, ratios: Ratios): int -> int
  {
    i => canvas.quantifyX(ratios.h * ((i + 1) as real))
  }

  function QuantifiedRows(canvas: RasterCanvas, ratios: Ratios): int -> int
  {
    i => canvas.quantifyY(ratios.v * ((i + 1) as real))
  }

  /**
   * `quantifiedPositionMapping`: a new page, with every dark pixel (x, y)
   * setting the dot the canvas quantifies its millimetre position
   * (h * (x + 1), v * (y + 1)) to.
   */
  method QuantifiedPositionMapping(rasterizer: ImageRasterizer, image: Image, canvas: RasterCanvas) returns (page: MatrixData, ok: bool)
    requires image.width > 0 && image.height > 0
    modifies canvas
    ensures canvas.pages == old(canvas.pages) + [page] && fresh(page.cells)
    ensures page.RowCount() == canvas.pageRows && page.ColumnCount() == canvas.pageColumns
    ensures var ratios := QuantifiedRatios(canvas, image, rasterizer.preventOverStretch, rasterizer.preserveAspectRatio);
      var column, row := QuantifiedColumns(canvas, ratios), QuantifiedRows(canvas, ratios);
      && (ok <==> OnPageBefore(image, rasterizer.lowThreshold, column, row, image.width, 0, canvas.pageRows, canvas.pageColumns))
      && (ok ==> forall r, c :: page.InRange(r, c) ==> page.cells[r, c] == Marked(image, rasterizer.lowThreshold, column, row, r, c))
  {
    page := canvas.GetNewPage();
    var ratios := QuantifiedRatios(canvas, image, rasterizer.preventOverStretch, rasterizer.preserveAspectRatio);
    ok := ScanPixels(page, image, rasterizer.lowThreshold, QuantifiedColumns(canvas, ratios), QuantifiedRows(canvas, ratios));
  }

  /** The dot column the rasterizer's selected mapping gives each pixel column. */
  function MappedColumns(rasterizer: ImageRasterizer, image: Image, canvas: RasterCanvas): int -> int
    requires image.width > 0 && image.height > 0
  {
    if rasterizer.quantifiedPositions then
      QuantifiedColumns(canvas, QuantifiedRatios(canvas, image, rasterizer.preventOverStretch, rasterizer.preserveAspectRatio))
    else
      LinearColumns(LinearRatios(canvas.dotAreaWidth, canvas.dotAreaHeight, image, rasterizer.preventOverStretch, rasterizer.preserveAspectRatio))
  }

  /** The dot row the rasterizer's selected mapping gives each pixel row. */
  function MappedRows(rasterizer: ImageRasterizer, image: Image, canvas: RasterCanvas): int -> int
    requires image.width > 0 && image.height > 0
  {
    if rasterizer.quantifiedPositions then
      QuantifiedRows(canvas, QuantifiedRatios(canvas, image, rasterizer.preventOverStretch, rasterizer.preserveAspectRatio))
    else
      LinearRows(LinearRatios(canvas.dotAreaWidth, canvas.dotAreaHeight, image, rasterizer.preventOverStretch, rasterizer.preserveAspectRatio))
  }

  /**
   * `rasterize`: exactly one of the two mappings runs, selected by the
   * quantified-positions switch; it appends one page of the canvas's size
   * and writes only there. It succeeds exactly when every dark pixel lands
   * on the page, which the linear mapping guarantees whenever its dot
   * rectangle fits on the page.
   */
  method Rasterize(rasterizer: ImageRasterizer, image: Image, canvas: RasterCanvas) returns (page: MatrixData, ok: bool)
    requires image.width > 0 && image.height > 0
    modifies canvas
    ensures canvas.pages == old(canvas.pages) + [page] && fresh(page.cells)
    ensures page.RowCount() == canvas.pageRows && page.ColumnCount() == canvas.pageColumns
    ensures var column, row := MappedColumns(rasterizer, image, canvas), MappedRows(rasterizer, image, canvas);
      && (ok <==> OnPageBefore(image, rasterizer.lowThreshold, column, row, image.width, 0, canvas.pageRows, canvas.pageColumns))
      && (ok ==> forall r, c :: page.InRange(r, c) ==> page.cells[r, c] == Marked(image, rasterizer.lowThreshold, column, row, r, c))
    ensures !rasterizer.quantifiedPositions && LinearAreaFits(canvas) ==> ok
  {
    if rasterizer.quantifiedPositions {
      page, ok := QuantifiedPositionMapping(rasterizer, image, canvas);
    } else {
      page, ok := LinearMapping(rasterizer, image, canvas);
    }
  }

  // ---------------------------------------------------------------------
  // Whole images
  // ---------------------------------------------------------------------

  /** An image whose every pixel is the given colour. */
  function Uniform(width: nat, height: nat, rgb: int): Image
  {
    Image(width, height, (x, y) => rgb)
  }

  /** Some pixel of a width x height image is mapped to dot (r, c). */
  ghost predicate Reached(width: nat, height: nat, column: int -> int, row: int -> int, r: int, c: int)
  {
    exists x, y :: 0 <= x < width && 0 <= y < height && column(x) == c && row(y) == r
  }

  /** An image of one colour lighter than the threshold marks no dot and maps nothing, whatever the mapping. */
  lemma LightImageMarksNothing(width: nat, height: nat, rgb: int, threshold: int, column: int -> int, row: int -> int)
    requires ToGrayScaleValue(rgb) > threshold
    ensures forall r, c :: !Marked(Uniform(width, height, rgb), threshold, column, row, r, c)
    ensures OnPageBefore(Uniform(width, height, rgb), threshold, column, row, width, 0, 0, 0)
  {
    var image := Uniform(width, height, rgb);
    assert forall x, y :: !Dark(image, threshold, x, y);
  }

  /** An image of one colour no lighter than the threshold marks exactly the dots some pixel is mapped to. */
  lemma DarkImageMarksEveryPosition(width: nat, height: nat, rgb: int, threshold: int, column: int -> int, row: int -> int)
    requires ToGrayScaleValue(rgb) <= threshold
    ensures forall r, c ::
      Marked(Uniform(width, height, rgb), threshold, column, row, r, c)
      <==> Reached(width, height, column, row, r, c)
  {
    var image := Uniform(width, height, rgb);
    assert forall x, y :: Dark(image, threshold, x, y);
  }

  /** With the default threshold, a white image (of any alpha) sets no dot. */
  lemma WhiteImageMarksNothing(width: nat, height: nat, alpha: int, column: int -> int, row: int -> int)
    requires 0 <= alpha < 0x100
    ensures forall r, c :: !Marked(Uniform(width, height, Argb(alpha, 0xFF, 0xFF, 0xFF)), DefaultThreshold, column, row, r, c)
  {
    GrayOfArgb(alpha, 0xFF, 0xFF, 0xFF);
    LightImageMarksNothing(width, height, Argb(alpha, 0xFF, 0xFF, 0xFF), DefaultThreshold, column, row);
  }

  /** With the default threshold, a black image (of any alpha) sets every position a pixel is mapped to. */
  lemma BlackImageMarksEveryPosition(width: nat, height: nat, alpha: int, column: int -> int, row: int -> int)
    requires 0 <= alpha < 0x100
    ensures forall r, c ::
      Marked(Uniform(width, height, Argb(alpha, 0, 0, 0)), DefaultThreshold, column, row, r, c) <==> Reached(width, height, column, row, r, c)
  {
    GrayOfArgb(alpha, 0, 0, 0);
    DarkImageMarksEveryPosition(width, height, Argb(alpha, 0, 0, 0), DefaultThreshold, column, row);
  }
}
