/**
 * The uniform-texture bar chart rasterizer: horizontal category bars, filled
 * with alternating solid and dotted columns, laid out on a 6-dot or 8-dot
 * braille raster.
 *
 * The collaborators of the rasterizer are not part of this model and enter
 * as parameters: the canvas's cell/dot conversions (`Canvas`), the height of
 * the title strip in cells (measured by the Liblouis text rasterizer), and
 * the x-axis step width chosen by `findAxisScaling`. The title, the bar
 * captions, the bar outlines and both axes are drawn by unseen rasterizers;
 * only the x-axis label map handed to the axis rasterizer is modelled.
 */
module BarChartRasterizer {
  import opened Wrappers
  import opened JavaNumbers
  import opened MatrixPages

  // Algorithm constants of the rasterizer (all in dots unless said otherwise).
  const TextureUnitSize: int := 2
  const BarMinThickness: int := 5
  const BarMaxThickness: int := 9
  const BarDotPadding: int := 1
  const ExtraBarCellPadding: int := 0  // cells
  const BarInCellPadding: int := 2
  const LeftCaption: bool := true
  const CaptionLength: nat := 6  // cells
  const XAxisCells: nat := 2  // cells reserved for the x-axis at the bottom
  const YAxisCells: nat := 1  // cells reserved for the y-axis on the right

  /** Why a bar chart could not be rasterized. */
  datatype RenderError =
    | NotBrailleRaster
    | InsufficientLayoutArea
    | TooManyCategories(categories: int, requiredCells: int, availableCells: int)
      // A bar's texture would leave the page; the bars drawn before it, and its own columns up to that point, are kept.
    | DotOutsidePage(drawn: seq<BarPlacement>)

  /** The geometry of the raster canvas, with its cell/dot conversions left abstract. */
  datatype Canvas = Canvas(
    cellWidth: nat,
    cellHeight: nat,
    cellRect: Rect,
    cellXFromDotX: int -> int,
    cellYFromDotY: int -> int)

  /** The bar chart as the rasterizer reads it: the first value of every category, and the value range. */
  datatype BarChart = BarChart(values: seq<real>, minY: real, maxY: real)

  // ---------------------------------------------------------------------
  // Raster check and layout carving
  // ---------------------------------------------------------------------

  /** A 6-dot or 8-dot braille raster: cells two dots wide and three or four dots high. */
  predicate IsValidBrailleRaster(cellWidth: int, cellHeight: int)
  {
    cellWidth == 2 && 3 <= cellHeight <= 4
  }

  /** A rectangle of cells; the rasterizer carves strips off its sides. */
  datatype Rect = Rect(x: int, y: int, width: nat, height: nat) {
    /** The index of the bottommost cell row. */
    function Bottom(): int
    {
      y + height - 1
    }
  }

  /** Carving: the removed strip and what is left, or nothing when the strip is wider than the rectangle. */
  function RemoveFromTop(r: Rect, n: nat): Option<(Rect, Rect)>
  {
    if n > r.height then None
    else Some((Rect(r.x, r.y, r.width, n), Rect(r.x, r.y + n, r.width, r.height - n)))
  }

  function RemoveFromBottom(r: Rect, n: nat): Option<(Rect, Rect)>
  {
    if n > r.height then None
    else Some((Rect(r.x, r.y + r.height - n, r.width, n), Rect(r.x, r.y, r.width, r.height - n)))
  }

  function RemoveFromLeft(r: Rect, n: nat): Option<(Rect, Rect)>
  {
    if n > r.width then None
    else Some((Rect(r.x, r.y, n, r.height), Rect(r.x + n, r.y, r.width - n, r.height)))
  }

  function RemoveFromRight(r: Rect, n: nat): Option<(Rect, Rect)>
  {
    if n > r.width then None
    else Some((Rect(r.x + r.width - n, r.y, n, r.height), Rect(r.x, r.y, r.width - n, r.height)))
  }

  /** The areas of a chart: title strip on top, x-axis strip at the bottom, and the bars in between. */
  datatype ChartLayout = ChartLayout(titleArea: Rect, xAxisArea: Rect, barArea: Rect)

  /**
   * Carves, in this order, the title strip off the top, two cells off the
   * bottom, the caption column off the left and one y-axis cell off the
   * right. Any strip that does not fit makes the whole layout fail.
   */
  function CarveLayout(cellRect: Rect, titleCells: nat): (r: Result<ChartLayout, RenderError>)
    ensures r.Ok? <==> titleCells + XAxisCells <= cellRect.height && CaptionLength + YAxisCells <= cellRect.width
    ensures r.Err? ==> r.error == InsufficientLayoutArea
    ensures r.Ok? ==>
      var l := r.value;
      && l.titleArea == Rect(cellRect.x, cellRect.y, cellRect.width, titleCells)
      && l.xAxisArea == Rect(cellRect.x, cellRect.y + cellRect.height - XAxisCells, cellRect.width, XAxisCells)
      && l.barArea.x == cellRect.x + CaptionLength
      && l.barArea.y == l.titleArea.y + l.titleArea.height
      && l.barArea.y + l.barArea.height == l.xAxisArea.y
      && l.barArea.width + CaptionLength + YAxisCells == cellRect.width
  {
    match RemoveFromTop(cellRect, titleCells)
    case None => Err(InsufficientLayoutArea)
    case Some((titleArea, afterTitle)) =>
      match RemoveFromBottom(afterTitle, XAxisCells)
      case None => Err(InsufficientLayoutArea)
      case Some((xAxisArea, afterAxis)) =>
        var afterCaption :=
          if LeftCaption then RemoveFromLeft(afterAxis, CaptionLength)
          else RemoveFromRight(afterAxis, CaptionLength);
        match afterCaption
        case None => Err(InsufficientLayoutArea)
        case Some((_, withoutCaption)) =>
          match RemoveFromRight(withoutCaption, YAxisCells)
          case None => Err(InsufficientLayoutArea)
          case Some((_, barArea)) => Ok(ChartLayout(titleArea, xAxisArea, barArea))
  }

  // ---------------------------------------------------------------------
  // Horizontal units: the split between negative and positive values
  // ---------------------------------------------------------------------

  /** How many texture units fit across the bar area (the double-to-int cast saturates). */
  function AvailableUnits(barArea: Rect, cellWidth: nat): (units: nat)
    ensures units <= IntMax
    ensures barArea.width * cellWidth <= 2 * IntMax ==> units * TextureUnitSize <= barArea.width * cellWidth < (units + 1) * TextureUnitSize
  {
    var u := barArea.width * cellWidth / TextureUnitSize;
    if u > IntMax then IntMax else u
  }

  /** Magnitude of the negative part of the value range (zero when no value is negative). */
  function NegativeRange(minY: real): real
  {
    if minY < 0.0 then -minY else 0.0
  }

  /** Magnitude of the positive part of the value range (zero when no value is positive). */
  function PositiveRange(maxY: real): real
  {
    if maxY > 0.0 then maxY else 0.0
  }

  datatype UnitSplit = UnitSplit(negUnits: int, posUnits: int)

  /**
   * Splits the available units between the negative and the positive side in
   * proportion to the two parts of the value range, rounding the negative
   * share to the nearest unit and giving the rest to the positive side. An
   * empty value range is 0/0 in the source; rounding that NaN yields 0.
   */
  function SplitUnits(minY: real, maxY: real, availableUnits: nat): (s: UnitSplit)
    requires availableUnits <= IntMax
    ensures s.negUnits + s.posUnits == availableUnits
    ensures 0 <= s.negUnits <= availableUnits && 0 <= s.posUnits <= availableUnits
    ensures minY >= 0.0 ==> s.negUnits == 0
    ensures maxY <= 0.0 && minY < 0.0 ==> s.posUnits == 0
    ensures var neg, pos := NegativeRange(minY), PositiveRange(maxY);
      neg + pos > 0.0 ==>
        var share := neg / (neg + pos) * availableUnits as real;
        (s.negUnits as real) - 0.5 <= share < (s.negUnits as real) + 0.5
  {
    var neg, pos := NegativeRange(minY), PositiveRange(maxY);
    var valueRangeSize := neg + pos;
    var negUnits := if valueRangeSize == 0.0 then 0 else RoundedShare(neg, valueRangeSize, availableUnits);
    UnitSplit(negUnits, availableUnits - negUnits)
  }

  /** `(int) round(part / total * units)` for a part of a positive total. */
  function RoundedShare(part: real, total: real, units: nat): (r: int)
    requires 0.0 <= part <= total && total > 0.0 && units <= IntMax
    ensures 0 <= r <= units
    ensures (r as real) - 0.5 <= part / total * units as real < (r as real) + 0.5
    ensures part == 0.0 ==> r == 0
    ensures part == total ==> r == units
  {
    ShareInRange(part, total, units);
    RoundUnits(part / total * units as real, units)
  }

  /** `(int) Math.round(share)` for a share between 0 and units, where the cast cannot wrap. */
  function RoundUnits(share: real, units: nat): (r: int)
    requires 0.0 <= share <= units as real && units <= IntMax
    ensures 0 <= r <= units
    ensures (r as real) - 0.5 <= share < (r as real) + 0.5
    ensures share == 0.0 ==> r == 0
    ensures share == units as real ==> r == units
  {
    var rounded := Round(share);
    assert (rounded as real) - 0.5 <= share < (rounded as real) + 0.5;
    IntCast(rounded)
  }

  lemma ShareInRange(part: real, total: real, units: nat)
    requires 0.0 <= part <= total && total > 0.0
    ensures 0.0 <= part / total * units as real <= units as real
    ensures part == 0.0 ==> part / total * units as real == 0.0
    ensures part == total ==> part / total * units as real == units as real
  {
    assert part / total <= 1.0;
    if part == total {
      assert part / total == 1.0;
    }
  }

  /**
   * A bar's length in dots: the value measured in axis steps, rounded to the
   * nearest step and converted to texture units (two dots each), computed in
   * 32-bit arithmetic. A step of zero is a division by zero in doubles: the
   * quotient is +Infinity, -Infinity or NaN, which `Math.round` turns into
   * the largest long, the smallest long and 0.
   */
  function BarLength(value: real, step: real): (length: int)
    requires step >= 0.0
    ensures length % TextureUnitSize == 0
    ensures IntMin <= length <= IntMax
    ensures step > 0.0 && -0x4000_0000 as real <= value / step < 0x3FFF_FFFF as real ==>
      var steps := length / TextureUnitSize;
      (steps as real) - 0.5 <= value / step < (steps as real) + 0.5
    ensures step == 0.0 ==> length == (if value > 0.0 then -2 else 0)
  {
    var rounded :=
      if step > 0.0 then Round(value / step)
      else if value > 0.0 then LongMax
      else if value < 0.0 then LongMin
      else 0;
    var steps := IntCast(rounded);
    EvenCast(steps);
    IntCast(steps * TextureUnitSize)
  }

  lemma EvenCast(k: int)
    ensures IntCast(k * 2) % 2 == 0
  {
    var r := IntCast(k * 2);
    var q := (r - k * 2) / 0x1_0000_0000;
    assert r - k * 2 == q * 0x1_0000_0000;
    assert r == 2 * (k + q * 0x8000_0000);
  }

  // ---------------------------------------------------------------------
  // Bar thickness
  // ---------------------------------------------------------------------

  /**
   * Cells needed to stack `categories` bars of the given thickness: the first
   * bar takes its own cells, each further bar the cells of a bar plus padding
   * minus one cell shared with its neighbour.
   */
  function RequiredCells(thickness: int, cellHeight: nat, categories: nat): int
    requires cellHeight > 0
  {
    var barSize := BarInCellPadding + thickness;
    var sizeInclusive := barSize + ExtraBarCellPadding * cellHeight + BarDotPadding + 1;
    var barCells := CeilDiv(barSize, cellHeight);
    var cellsInclusive := CeilDiv(sizeInclusive, cellHeight);
    barCells + (cellsInclusive - 1) * (categories - 1)
  }

  /** With at least one category, thicker bars never need fewer cells. */
  lemma RequiredCellsMonotone(t1: int, t2: int, cellHeight: nat, categories: nat)
    requires cellHeight > 0 && categories >= 1 && t1 <= t2
    ensures RequiredCells(t1, cellHeight, categories) <= RequiredCells(t2, cellHeight, categories)
  {
    var inc1 := CeilDiv(BarInCellPadding + t1 + BarDotPadding + 1, cellHeight);
    var inc2 := CeilDiv(BarInCellPadding + t2 + BarDotPadding + 1, cellHeight);
    CeilDivMonotone(BarInCellPadding + t1, BarInCellPadding + t2, cellHeight);
    CeilDivMonotone(BarInCellPadding + t1 + BarDotPadding + 1, BarInCellPadding + t2 + BarDotPadding + 1, cellHeight);
    assert (inc1 - 1) * (categories - 1) <= (inc2 - 1) * (categories - 1) by {
      assert (inc2 - 1) * (categories - 1) - (inc1 - 1) * (categories - 1) == (inc2 - inc1) * (categories - 1);
    }
  }

  /**
   * The thickest odd bar, from the maximum down to the minimum, whose stack
   * fits the available cells; below the minimum, the error naming the
   * category count and the cells the minimum thickness needs.
   */
  function ThickestFit(availableCells: int, cellHeight: nat, categories: nat): (r: Result<int, RenderError>)
    requires cellHeight > 0
    ensures r.Ok? <==> exists t :: t in {5, 7, 9} && RequiredCells(t, cellHeight, categories) <= availableCells
    ensures r.Ok? ==>
      && r.value in {5, 7, 9}
      && RequiredCells(r.value, cellHeight, categories) <= availableCells
      && forall t :: r.value < t <= BarMaxThickness && t % 2 == 1 ==> RequiredCells(t, cellHeight, categories) > availableCells
    ensures r.Err? ==>
      r.error == TooManyCategories(categories, RequiredCells(BarMinThickness, cellHeight, categories), availableCells)
  {
    if RequiredCells(9, cellHeight, categories) <= availableCells then Ok(9)
    else if RequiredCells(7, cellHeight, categories) <= availableCells then Ok(7)
    else if RequiredCells(5, cellHeight, categories) <= availableCells then Ok(5)
    else Err(TooManyCategories(categories, RequiredCells(5, cellHeight, categories), availableCells))
  }

  /** With at least one category, the minimum thickness decides: the search succeeds iff the thinnest bars fit. */
  lemma MinimumThicknessDecides(availableCells: int, cellHeight: nat, categories: nat)
    requires cellHeight > 0 && categories >= 1
    ensures ThickestFit(availableCells, cellHeight, categories).Ok?
      <==> RequiredCells(BarMinThickness, cellHeight, categories) <= availableCells
  {
    RequiredCellsMonotone(5, 7, cellHeight, categories);
    RequiredCellsMonotone(7, 9, cellHeight, categories);
  }

  /**
   * `findBarThickness`: probes the thickest odd bar, from the maximum down
   * by two, whose stack fits the available cells.
   */
  method FindBarThickness(availableCells: int, cellHeight: nat, categories: nat) returns (r: Result<int, RenderError>)
    requires cellHeight > 0
    ensures r == ThickestFit(availableCells, cellHeight, categories)
  {
    var barThickness := BarMaxThickness;
    if barThickness % 2 == 0 {
      barThickness := barThickness + 1;
    }
    var requiredCells := RequiredCells(barThickness, cellHeight, categories);
    while availableCells < requiredCells
      invariant barThickness in {5, 7, 9}
      invariant requiredCells == RequiredCells(barThickness, cellHeight, categories)
      invariant forall t :: barThickness < t <= BarMaxThickness && t % 2 == 1 ==> RequiredCells(t, cellHeight, categories) > availableCells
      decreases barThickness
    {
      barThickness := barThickness - 2;
      if barThickness < BarMinThickness {
        return Err(TooManyCategories(categories, requiredCells, availableCells));
      }
      requiredCells := RequiredCells(barThickness, cellHeight, categories);
    }
    return Ok(barThickness);
  }

  // ---------------------------------------------------------------------
  // The uniform texture of one bar
  // ---------------------------------------------------------------------

  function Abs(n: int): nat
  {
    if n < 0 then -n else n
  }

  /**
   * Where a bar is drawn, in dots: its reference corner (lowerX, lowerY) at
   * the y-axis, its signed length and its thickness upwards from lowerY.
   */
  datatype BarPlacement = BarPlacement(lowerX: int, lowerY: int, length: int, thickness: int) {

    function UpperY(): int
    {
      lowerY - (thickness - 1)
    }

    /** The dot step from one texture column to the next: two dots towards the bar's end. */
    function Step(): int
    {
      if length > 0 then TextureUnitSize else -TextureUnitSize
    }

    /** The number of texture columns, one per texture unit of the bar. */
    function Columns(): nat
    {
      Abs(length) / TextureUnitSize
    }

    /** The index of the texture column at dot column `column`, or -1 where the texture does not reach. */
    function ColumnIndex(column: int): int
    {
      var offset := if length > 0 then column - lowerX else lowerX - column;
      if 0 <= offset && offset % TextureUnitSize == 0 && offset / TextureUnitSize < Columns()
      then offset / TextureUnitSize
      else -1
    }

    /** The dots the texture writes: solid columns span the whole thickness, dotted columns all but the top row. */
    predicate Covers(row: int, column: int)
    {
      var i := ColumnIndex(column);
      i >= 0 && row <= lowerY && (if i % 2 == 0 then UpperY() <= row else UpperY() < row)
    }

    /** The value the texture writes: true in a solid column, every second dot from lowerY in a dotted one. */
    predicate DotValue(row: int, column: int)
    {
      ColumnIndex(column) % 2 == 0 || (lowerY - row) % 2 == 0
    }

    /** The dot column of texture column i. */
    function ColumnX(i: int): int
    {
      lowerX + i * Step()
    }

    /**
     * Every dot texture column i writes lies on a page of the given size. A
     * solid (even) column spans the whole thickness, a dotted (odd) one all
     * but its top row, so the dotted columns of a one-dot bar write nothing.
     */
    predicate ColumnFits(i: int, rows: nat, columns: nat)
    {
      var top := if i % 2 == 0 then UpperY() else UpperY() + 1;
      top > lowerY || (0 <= top && lowerY < rows && 0 <= ColumnX(i) < columns)
    }

    /** Every dot the texture writes lies on a page of the given size. */
    predicate FitsOn(rows: nat, columns: nat)
    {
      forall i :: 0 <= i < Columns() ==> ColumnFits(i, rows, columns)
    }
  }

  /**
   * How many texture columns, from the first, lie wholly on the page: the
   * columns the texture loop draws before it reaches a dot off the page.
   */
  function FittingColumns(bar: BarPlacement, rows: nat, columns: nat): (k: nat)
    ensures k <= bar.Columns()
    ensures forall i :: 0 <= i < k ==> bar.ColumnFits(i, rows, columns)
    ensures k < bar.Columns() ==> !bar.ColumnFits(k, rows, columns)
    ensures k == bar.Columns() <==> bar.FitsOn(rows, columns)
  {
    FittingFrom(bar, rows, columns, 0)
  }

  function FittingFrom(bar: BarPlacement, rows: nat, columns: nat, i: nat): (k: nat)
    requires i <= bar.Columns()
    requires forall j :: 0 <= j < i ==> bar.ColumnFits(j, rows, columns)
    ensures i <= k <= bar.Columns()
    ensures forall j :: 0 <= j < k ==> bar.ColumnFits(j, rows, columns)
    ensures k < bar.Columns() ==> !bar.ColumnFits(k, rows, columns)
    decreases bar.Columns() - i
  {
    if i == bar.Columns() || !bar.ColumnFits(i, rows, columns) then i
    else FittingFrom(bar, rows, columns, i + 1)
  }

  /** A dot after one bar's texture has been drawn over `before`. */
  predicate Textured(before: bool, bar: BarPlacement, row: int, column: int)
  {
    if bar.Covers(row, column) then bar.DotValue(row, column) else before
  }

  /** A dot after the first k texture columns of a bar have been drawn over `before`. */
  predicate PartlyTextured(before: bool, bar: BarPlacement, k: int, row: int, column: int)
  {
    if bar.ColumnIndex(column) < k && bar.Covers(row, column) then bar.DotValue(row, column) else before
  }

  /** A dot after the textures of the given bars have been drawn in order over `before`. */
  predicate Painted(before: bool, bars: seq<BarPlacement>, row: int, column: int)
  {
    if bars == [] then before
    else Textured(Painted(before, bars[..|bars| - 1], row, column), bars[|bars| - 1], row, column)
  }

  /** Painting one more bar is texturing it over what the earlier bars painted. */
  lemma PaintedSnoc(bars: seq<BarPlacement>, bar: BarPlacement)
    ensures forall before, row, col :: Painted(before, bars + [bar], row, col) == Textured(Painted(before, bars, row, col), bar, row, col)
  {
    assert (bars + [bar])[..|bars|] == bars;
  }

  /** The texture columns are exactly lowerX, lowerX + Step(), ... : |length| / 2 of them. */
  lemma {:induction false} TextureColumns(bar: BarPlacement)
    requires bar.length % TextureUnitSize == 0
    ensures forall i :: 0 <= i < bar.Columns() ==> bar.ColumnIndex(bar.lowerX + i * bar.Step()) == i
    ensures forall c :: bar.ColumnIndex(c) >= 0 ==>
      bar.ColumnIndex(c) < bar.Columns() && c == bar.lowerX + bar.ColumnIndex(c) * bar.Step()
  {
    forall i | 0 <= i < bar.Columns()
      ensures bar.ColumnIndex(bar.lowerX + i * bar.Step()) == i
    {
      if bar.length > 0 {
        assert bar.lowerX + i * bar.Step() - bar.lowerX == 2 * i;
      } else {
        assert bar.lowerX - (bar.lowerX + i * bar.Step()) == 2 * i;
      }
    }
  }

  /**
   * In a dotted (odd) column the texture writes the thickness - 1 dots from
   * lowerY upwards, setting the j-th of them iff j is even, and nothing else.
   */
  lemma DottedColumn(bar: BarPlacement, column: int)
    requires bar.ColumnIndex(column) >= 0 && bar.ColumnIndex(column) % 2 == 1
    ensures forall row :: bar.UpperY() < row <= bar.lowerY ==>
      bar.Covers(row, column) && bar.DotValue(row, column) == ((bar.lowerY - row) % 2 == 0)
    ensures forall row :: bar.Covers(row, column) ==> 0 <= bar.lowerY - row < bar.thickness - 1
  {
  }

  /** Models `Rasterizer.fill` on a rectangle one dot wide: every dot from `top` to `bottom`, both included. */
  method FillColumn(page: MatrixData, column: int, top: int, bottom: int, value: bool)
    requires 0 <= column < page.ColumnCount() && 0 <= top && bottom < page.RowCount()
    modifies page.cells
    ensures forall r, c :: page.InRange(r, c) ==>
      page.cells[r, c] == if c == column && top <= r <= bottom then value else old(page.cells[r, c])
  {
    var row := top;
    while row <= bottom
      invariant top <= row <= (if top <= bottom then bottom + 1 else top)
      invariant forall r, c :: page.InRange(r, c) ==>
        page.cells[r, c] == if c == column && top <= r < row then value else old(page.cells[r, c])
    {
      page.SetValue(row, column, value);
      row := row + 1;
    }
  }

  /**
   * The dotted line of the texture: walking up from `bottom` while above
   * `top`, the j-th dot is set iff j is even. Dot `top` itself is not written.
   */
  method DotColumn(page: MatrixData, column: int, top: int, bottom: int)
    requires top >= bottom || (0 <= column < page.ColumnCount() && -1 <= top && bottom < page.RowCount())
    modifies page.cells
    ensures forall r, c :: page.InRange(r, c) ==>
      page.cells[r, c] == if c == column && top < r <= bottom then (bottom - r) % 2 == 0 else old(page.cells[r, c])
  {
    var j := 0;
    var dotY := bottom;
    while dotY > top
      invariant dotY == bottom - j && 0 <= j <= (if top <= bottom then bottom - top else 0)
      invariant forall r, c :: page.InRange(r, c) ==>
        page.cells[r, c] == if c == column && dotY < r <= bottom then (bottom - r) % 2 == 0 else old(page.cells[r, c])
    {
      page.SetValue(dotY, column, j % 2 == 0);
      j := j + 1;
      dotY := dotY - 1;
    }
  }

  /** Texture column i is the dot column lowerX + i * Step(); it is the only column with index i. */
  lemma TextureColumnStep(bar: BarPlacement, i: int, dotX: int)
    requires bar.length % TextureUnitSize == 0 && 0 <= i < bar.Columns() && dotX == bar.lowerX + i * bar.Step()
    ensures forall r, c ::
      (0 <= bar.ColumnIndex(c) < i + 1 && bar.Covers(r, c))
      == ((0 <= bar.ColumnIndex(c) < i && bar.Covers(r, c)) || (c == dotX && bar.Covers(r, c)))
  {
    TextureColumns(bar);
  }


  /**
   * Draws texture column i of a bar at dot column dotX: a solid line when i
   * is even, a dotted one when it is odd.
   */
  method DrawTextureColumn(page: MatrixData, bar: BarPlacement, i: int, dotX: int)
    requires bar.length % TextureUnitSize == 0 && bar.thickness >= 1
    requires 0 <= i < bar.Columns() && dotX == bar.ColumnX(i)
    requires bar.ColumnFits(i, page.RowCount(), page.ColumnCount())
    modifies page.cells
    ensures forall r, c :: page.InRange(r, c) ==>
      page.cells[r, c] == if c == dotX && bar.Covers(r, c) then bar.DotValue(r, c) else old(page.cells[r, c])
  {
    TextureColumns(bar);
    assert bar.ColumnIndex(dotX) == i;
    if i % 2 == 0 {
      // solid line
      FillColumn(page, dotX, bar.UpperY(), bar.lowerY, true);
    } else {
      // dotted line
      DotColumn(page, dotX, bar.UpperY(), bar.lowerY);
    }
  }

  /**
   * Fills a bar with the uniform texture: walking from lowerX towards the
   * bar's end two dots at a time, even-numbered columns are solid and
   * odd-numbered ones dotted. The walk ends because the length is even. A
   * column with a dot off the page stops the walk (there `setValue` throws);
   * the columns before it stay drawn.
   */
  method DrawBarTexture(page: MatrixData, bar: BarPlacement) returns (ok: bool)
    requires bar.length % TextureUnitSize == 0 && bar.thickness >= 1
    modifies page.cells
    ensures ok <==> bar.FitsOn(page.RowCount(), page.ColumnCount())
    ensures forall r, c :: page.InRange(r, c) ==>
      page.cells[r, c] == PartlyTextured(old(page.cells[r, c]), bar, FittingColumns(bar, page.RowCount(), page.ColumnCount()), r, c)
  {
    var lowerX := bar.lowerX;
    var upperX := lowerX + bar.length;
    var textureStep := if upperX > lowerX then TextureUnitSize else if upperX < lowerX then -TextureUnitSize else 0;
    var i := 0;
    var dotX := lowerX;
    while dotX != upperX
      invariant 0 <= i <= bar.Columns()
      invariant dotX == bar.ColumnX(i)
      invariant bar.length != 0 ==> textureStep == bar.Step()
      invariant forall j :: 0 <= j < i ==> bar.ColumnFits(j, page.RowCount(), page.ColumnCount())
      invariant forall r, c :: page.InRange(r, c) ==>
        page.cells[r, c] == PartlyTextured(old(page.cells[r, c]), bar, i, r, c)
      decreases Abs(upperX - dotX)
    {
      assert i < bar.Columns();
      if !bar.ColumnFits(i, page.RowCount(), page.ColumnCount()) {
        return false;
      }
      TextureColumnStep(bar, i, dotX);
      DrawTextureColumn(page, bar, i, dotX);
      i := i + 1;
      dotX := dotX + textureStep;
    }
    assert i == bar.Columns() by {
      if bar.length > 0 {
        assert i * 2 == bar.length;
      } else if bar.length < 0 {
        assert i * 2 == -bar.length;
      }
    }
    return true;
  }

  /** The dot placement of a bar whose reference cell is (cellX, cellY): its bottom-right dot, two dots up. */
  function PlaceBar(canvas: Canvas, cellX: int, cellY: int, length: int, thickness: int): BarPlacement
  {
    var bottomRightDotX := (cellX + 1) * canvas.cellWidth - 1;
    var bottomRightDotY := (cellY + 1) * canvas.cellHeight - 1;
    BarPlacement(bottomRightDotX, bottomRightDotY - BarInCellPadding, length, thickness)
  }

  /** The reference cell row of the next bar: the cell holding the dot two rows above this bar. */
  function NextCellY(canvas: Canvas, bar: BarPlacement): int
  {
    canvas.cellYFromDotY(bar.UpperY() - (BarDotPadding + 1)) - ExtraBarCellPadding
  }

  /**
   * Draws one category bar at reference cell (cellX, cellY) and answers the
   * reference cell row of the next bar, or nothing when the bar's texture
   * reaches a dot off the page; the texture columns before that one stay
   * drawn.
   */
  method DrawHorizontalBar(page: MatrixData, canvas: Canvas, cellX: int, cellY: int, length: int, thickness: int)
    returns (nextCellY: Option<int>)
    requires length % TextureUnitSize == 0 && thickness >= 1
    modifies page.cells
    ensures var bar := PlaceBar(canvas, cellX, cellY, length, thickness);
      && (nextCellY.Some? <==> bar.FitsOn(page.RowCount(), page.ColumnCount()))
      && (nextCellY.Some? ==> nextCellY.value == NextCellY(canvas, bar))
      && forall r, c :: page.InRange(r, c) ==>
           page.cells[r, c] == PartlyTextured(old(page.cells[r, c]), bar, FittingColumns(bar, page.RowCount(), page.ColumnCount()), r, c)
  {
    var bar := PlaceBar(canvas, cellX, cellY, length, thickness);
    var ok := DrawBarTexture(page, bar);
    if !ok {
      return None;
    }
    return Some(NextCellY(canvas, bar));
  }

  // ---------------------------------------------------------------------
  // X-axis labels
  // ---------------------------------------------------------------------

  /** The UTF-16 code unit of the k-th label letter: 'a', 'b', ... (a Java char wraps at 2^16). */
  function LabelLetter(k: int): int
  {
    ('a' as int + k) % 0x1_0000
  }

  /** One letter per x-axis tick, from -(negUnits / 2) to posUnits / 2, in order from 'a'. */
  method XAxisLabels(negUnits: int, posUnits: int) returns (labels: map<int, int>)
    requires 0 <= negUnits && 0 <= posUnits
    ensures forall t :: t in labels <==> -(negUnits / 2) <= t <= posUnits / 2
    ensures forall t :: t in labels ==> labels[t] == LabelLetter(t + negUnits / 2)
  {
    labels := map[];
    var labelLetter := 'a' as int;
    var axisTick := (negUnits / 2) * -1;
    while axisTick <= posUnits / 2
      invariant -(negUnits / 2) <= axisTick <= posUnits / 2 + 1
      invariant labelLetter == LabelLetter(axisTick + negUnits / 2)
      invariant forall t :: t in labels <==> -(negUnits / 2) <= t < axisTick
      invariant forall t :: t in labels ==> labels[t] == LabelLetter(t + negUnits / 2)
    {
      labels := labels[axisTick := labelLetter];
      labelLetter := (labelLetter + 1) % 0x1_0000;
      axisTick := axisTick + 1;
    }
  }

  /** The first 26 ticks are labelled 'a' to 'z'. */
  lemma FirstLabelsAreLetters(k: int)
    requires 0 <= k < 26
    ensures LabelLetter(k) == ('a' as int) + k && 'a' as int <= LabelLetter(k) <= 'z' as int
  {
  }

  // ---------------------------------------------------------------------
  // The whole chart
  // ---------------------------------------------------------------------

  /** The reference cell row of the bar after `bars`: the bottom row for the first bar, else the row the last bar answers. */
  function NextRow(canvas: Canvas, bars: seq<BarPlacement>, bottom: int): int
  {
    if bars == [] then bottom else NextCellY(canvas, bars[|bars| - 1])
  }

  /**
   * The placements of all the bars of a chart, one per value, whether or not
   * they fit on the page: the first at the bottom cell row of the bar area,
   * each further one at the row the previous one answers.
   */
  function Stack(values: seq<real>, canvas: Canvas, originCellX: int, bottom: int, thickness: int, step: real): (bars: seq<BarPlacement>)
    requires step >= 0.0
    ensures |bars| == |values|
    decreases |values|
  {
    if values == [] then []
    else
      var pre := Stack(values[..|values| - 1], canvas, originCellX, bottom, thickness, step);
      pre + [PlaceBar(canvas, originCellX, NextRow(canvas, pre, bottom), BarLength(values[|values| - 1], step), thickness)]
  }

  /** Bar k of the stack is the bar for value k, placed at the row the bars before it answer. */
  lemma {:induction false} StackAt(values: seq<real>, canvas: Canvas, originCellX: int, bottom: int, thickness: int, step: real, k: nat)
    requires step >= 0.0 && k < |values|
    ensures var bars := Stack(values, canvas, originCellX, bottom, thickness, step);
      bars[k] == PlaceBar(canvas, originCellX, NextRow(canvas, bars[..k], bottom), BarLength(values[k], step), thickness)
    decreases |values|
  {
    var n := |values| - 1;
    var bars := Stack(values, canvas, originCellX, bottom, thickness, step);
    var pre := Stack(values[..n], canvas, originCellX, bottom, thickness, step);
    assert bars == pre + [PlaceBar(canvas, originCellX, NextRow(canvas, pre, bottom), BarLength(values[n], step), thickness)];
    if k == n {
      assert bars[..k] == pre;
    } else {
      StackAt(values[..n], canvas, originCellX, bottom, thickness, step, k);
      assert bars[..k] == pre[..k] && bars[k] == pre[k];
      assert values[..n][k] == values[k];
    }
  }

  /** Painting a bar's every texture column is texturing it. */
  lemma FullyTextured(bar: BarPlacement)
    ensures forall before, row, col :: PartlyTextured(before, bar, bar.Columns(), row, col) == Textured(before, bar, row, col)
  {
  }

  /**
   * Draws one bar per value, bottom-up, each bar's reference cell row given by
   * the previous bar. Stops at the first bar that would leave the page; the
   * bars answered are the ones drawn whole, and `complete` says whether all were.
   */
  method DrawBars(page: MatrixData, canvas: Canvas, values: seq<real>, step: real, originCellX: int, bottom: int, thickness: int)
    returns (bars: seq<BarPlacement>, complete: bool)
    requires step >= 0.0 && thickness >= 1
    modifies page.cells
    ensures var all := Stack(values, canvas, originCellX, bottom, thickness, step);
      var rows, columns := page.RowCount(), page.ColumnCount();
      && |bars| <= |values| && bars == all[..|bars|]
      && (forall i :: 0 <= i < |bars| ==> bars[i].FitsOn(rows, columns))
      && (complete <==> |bars| == |values|)
      && (complete ==> forall row, col :: page.InRange(row, col) ==>
            page.cells[row, col] == Painted(old(page.cells[row, col]), bars, row, col))
      && (!complete ==>
            var next := all[|bars|];
            && !next.FitsOn(rows, columns)
            && forall row, col :: page.InRange(row, col) ==>
                 page.cells[row, col]
                 == PartlyTextured(Painted(old(page.cells[row, col]), bars, row, col), next, FittingColumns(next, rows, columns), row, col))
  {
    ghost var all := Stack(values, canvas, originCellX, bottom, thickness, step);
    var refCellY := bottom;
    bars := [];
    var k := 0;
    while k < |values|
      invariant 0 <= k <= |values| && |bars| == k
      invariant bars == all[..k]
      invariant forall i :: 0 <= i < k ==> bars[i].FitsOn(page.RowCount(), page.ColumnCount())
      invariant refCellY == NextRow(canvas, bars, bottom)
      invariant forall row, col :: page.InRange(row, col) ==>
        page.cells[row, col] == Painted(old(page.cells[row, col]), bars, row, col)
    {
      var length := BarLength(values[k], step);
      var bar := PlaceBar(canvas, originCellX, refCellY, length, thickness);
      StackAt(values, canvas, originCellX, bottom, thickness, step, k);
      var next := DrawHorizontalBar(page, canvas, originCellX, refCellY, length, thickness);
      if next.None? {
        return bars, false;
      }
      FullyTextured(bar);
      PaintedSnoc(bars, bar);
      bars := bars + [bar];
      refCellY := next.value;
      k := k + 1;
    }
    return bars, true;
  }

  /** The layout of a chart, computed before any dot is written, with the placement of every bar. */
  datatype ChartPlan = ChartPlan(
    areas: ChartLayout,
    availableUnits: nat,
    units: UnitSplit,
    originCellX: int,
    thickness: int,
    bars: seq<BarPlacement>)

  /**
   * The layout phase of `rasterize`: the raster check, the carved areas, the
   * unit split, the origin cell, the bar thickness and the placement of
   * every bar. It fails exactly at the raster check, the carving or the
   * thickness search.
   */
  function PlanChart(chart: BarChart, canvas: Canvas, titleCells: nat, axisStep: real): (r: Result<ChartPlan, RenderError>)
    requires axisStep >= 0.0
    ensures r == Err(NotBrailleRaster) <==> !IsValidBrailleRaster(canvas.cellWidth, canvas.cellHeight)
    ensures r == Err(InsufficientLayoutArea)
      <==> IsValidBrailleRaster(canvas.cellWidth, canvas.cellHeight) && CarveLayout(canvas.cellRect, titleCells).Err?
    ensures (r.Err? && r.error.TooManyCategories?)
      <==> && IsValidBrailleRaster(canvas.cellWidth, canvas.cellHeight)
           && CarveLayout(canvas.cellRect, titleCells).Ok?
           && ThickestFit(CarveLayout(canvas.cellRect, titleCells).value.barArea.height, canvas.cellHeight, |chart.values|).Err?
    ensures r.Err? ==> !r.error.DotOutsidePage?
    ensures r.Ok? ==>
      var p := r.value;
      && CarveLayout(canvas.cellRect, titleCells) == Ok(p.areas)
      && p.units.negUnits + p.units.posUnits == p.availableUnits
      && ThickestFit(p.areas.barArea.height, canvas.cellHeight, |chart.values|) == Ok(p.thickness)
      && p.bars == Stack(chart.values, canvas, p.originCellX, p.areas.barArea.Bottom(), p.thickness, axisStep)
  {
    if !IsValidBrailleRaster(canvas.cellWidth, canvas.cellHeight) then Err(NotBrailleRaster)
    else
      match CarveLayout(canvas.cellRect, titleCells)
      case Err(e) => Err(e)
      case Ok(areas) =>
        var availableUnits := AvailableUnits(areas.barArea, canvas.cellWidth);
        var units := SplitUnits(chart.minY, chart.maxY, availableUnits);
        var originCellX := areas.barArea.x + canvas.cellXFromDotX(units.negUnits * TextureUnitSize);
        match ThickestFit(areas.barArea.height, canvas.cellHeight, |chart.values|)
        case Err(e) => Err(e)
        case Ok(thickness) =>
          Ok(ChartPlan(areas, availableUnits, units, originCellX, thickness,
                       Stack(chart.values, canvas, originCellX, areas.barArea.Bottom(), thickness, axisStep)))
  }

  /** What a successful rasterization laid out and drew. */
  datatype BarChartLayout = BarChartLayout(
    areas: ChartLayout,
    availableUnits: nat,
    units: UnitSplit,
    originCellX: int,
    thickness: int,
    bars: seq<BarPlacement>,
    xAxisLabels: map<int, int>)

  /**
   * Rasterizes a bar chart onto the current page. The whole layout is
   * computed first, so every layout failure leaves the page as it was. The
   * bars are then drawn bottom-up; a bar whose texture leaves the page stops
   * the drawing with the bars before it, and that bar's columns on the page,
   * kept.
   */
  method Rasterize(chart: BarChart, canvas: Canvas, page: MatrixData, titleCells: nat, axisStep: real)
    returns (r: Result<BarChartLayout, RenderError>)
    requires axisStep >= 0.0
    modifies page.cells
    ensures var plan := PlanChart(chart, canvas, titleCells, axisStep);
      plan.Err? ==> r == Err(plan.error) && unchanged(page.cells)
    ensures var plan := PlanChart(chart, canvas, titleCells, axisStep);
      plan.Ok? ==> (r.Ok? <==> forall i :: 0 <= i < |plan.value.bars| ==> plan.value.bars[i].FitsOn(page.RowCount(), page.ColumnCount()))
    ensures var plan := PlanChart(chart, canvas, titleCells, axisStep);
      plan.Ok? && r.Ok? ==>
        var p, l := plan.value, r.value;
        && l == BarChartLayout(p.areas, p.availableUnits, p.units, p.originCellX, p.thickness, p.bars, l.xAxisLabels)
        && (forall t :: t in l.xAxisLabels <==> -(p.units.negUnits / 2) <= t <= p.units.posUnits / 2)
        && (forall t :: t in l.xAxisLabels ==> l.xAxisLabels[t] == LabelLetter(t + p.units.negUnits / 2))
        && forall row, col :: page.InRange(row, col) ==>
             page.cells[row, col] == Painted(old(page.cells[row, col]), p.bars, row, col)
    ensures var plan := PlanChart(chart, canvas, titleCells, axisStep);
      plan.Ok? && r.Err? ==>
        var p, rows, columns := plan.value, page.RowCount(), page.ColumnCount();
        && r.error.DotOutsidePage?
        && |r.error.drawn| < |p.bars|
        && r.error.drawn == p.bars[..|r.error.drawn|]
        && (forall i :: 0 <= i < |r.error.drawn| ==> r.error.drawn[i].FitsOn(rows, columns))
        && var next := p.bars[|r.error.drawn|];
        && !next.FitsOn(rows, columns)
        && forall row, col :: page.InRange(row, col) ==>
             page.cells[row, col]
             == PartlyTextured(Painted(old(page.cells[row, col]), r.error.drawn, row, col), next,
                               FittingColumns(next, rows, columns), row, col)
  {
    var plan := LayOut(chart, canvas, titleCells, axisStep);
    if plan.Err? {
      return Err(plan.error);
    }
    r := DrawChart(page, canvas, chart.values, plan.value, axisStep);
  }

  /**
   * The drawing steps of `rasterize` for a computed plan: the bars
   * bottom-up, then the x-axis labels once every bar is on the page.
   */
  method DrawChart(page: MatrixData, canvas: Canvas, values: seq<real>, p: ChartPlan, step: real)
    returns (r: Result<BarChartLayout, RenderError>)
    requires step >= 0.0 && p.thickness >= 1 && 0 <= p.units.negUnits && 0 <= p.units.posUnits
    requires p.bars == Stack(values, canvas, p.originCellX, p.areas.barArea.Bottom(), p.thickness, step)
    modifies page.cells
    ensures r.Ok? <==> forall i :: 0 <= i < |p.bars| ==> p.bars[i].FitsOn(page.RowCount(), page.ColumnCount())
    ensures r.Ok? ==>
      var l := r.value;
      && l == BarChartLayout(p.areas, p.availableUnits, p.units, p.originCellX, p.thickness, p.bars, l.xAxisLabels)
      && (forall t :: t in l.xAxisLabels <==> -(p.units.negUnits / 2) <= t <= p.units.posUnits / 2)
      && (forall t :: t in l.xAxisLabels ==> l.xAxisLabels[t] == LabelLetter(t + p.units.negUnits / 2))
      && forall row, col :: page.InRange(row, col) ==>
           page.cells[row, col] == Painted(old(page.cells[row, col]), p.bars, row, col)
    ensures r.Err? ==>
      var rows, columns := page.RowCount(), page.ColumnCount();
      && r.error.DotOutsidePage?
      && |r.error.drawn| < |p.bars|
      && r.error.drawn == p.bars[..|r.error.drawn|]
      && (forall i :: 0 <= i < |r.error.drawn| ==> r.error.drawn[i].FitsOn(rows, columns))
      && var next := p.bars[|r.error.drawn|];
      && !next.FitsOn(rows, columns)
      && forall row, col :: page.InRange(row, col) ==>
           page.cells[row, col]
           == PartlyTextured(Painted(old(page.cells[row, col]), r.error.drawn, row, col), next,
                             FittingColumns(next, rows, columns), row, col)
  {
    ghost var all := Stack(values, canvas, p.originCellX, p.areas.barArea.Bottom(), p.thickness, step);
    assert p.bars == all;
    var bars, complete := DrawBars(page, canvas, values, step, p.originCellX, p.areas.barArea.Bottom(), p.thickness);
    if !complete {
      return Err(DotOutsidePage(bars));
    }
    var labels := XAxisLabels(p.units.negUnits, p.units.posUnits);
    return Ok(BarChartLayout(p.areas, p.availableUnits, p.units, p.originCellX, p.thickness, bars, labels));
  }

  /**
   * The layout steps of `rasterize`, before any dot is written: the raster
   * check, the carving, the unit split, the origin and the thickness search.
   */
  method LayOut(chart: BarChart, canvas: Canvas, titleCells: nat, axisStep: real) returns (r: Result<ChartPlan, RenderError>)
    requires axisStep >= 0.0
    ensures r == PlanChart(chart, canvas, titleCells, axisStep)
  {
    if !IsValidBrailleRaster(canvas.cellWidth, canvas.cellHeight) {
      return Err(NotBrailleRaster);
    }
    var areas :- CarveLayout(canvas.cellRect, titleCells);
    var barArea := areas.barArea;

    var availableUnits := AvailableUnits(barArea, canvas.cellWidth);
    var units := SplitUnits(chart.minY, chart.maxY, availableUnits);
    var originCellX := barArea.x + canvas.cellXFromDotX(units.negUnits * TextureUnitSize);

    var thickness :- FindBarThickness(barArea.height, canvas.cellHeight, |chart.values|);
    return Ok(ChartPlan(areas, availableUnits, units, originCellX, thickness,
                        Stack(chart.values, canvas, originCellX, barArea.Bottom(), thickness, axisStep)));
  }
}
