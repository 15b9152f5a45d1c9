/**
 * The printable page of a raster canvas: a zero-indexed, mutable grid of
 * dots addressed by (row, column), and the braille-cell-major order in which
 * a dot iterator hands the dots to a printer back end.
 *
 * Only the Boolean instantiation (`MatrixData<Boolean>`) is modelled: every
 * rasterizer of the core writes Boolean pages.
 */
module MatrixPages {

  /** A page of dots. The grid has a fixed number of rows and columns. */
  class MatrixData {
    const cells: array2<bool>

    /** A fresh page of the given size with no dot set. */
    constructor (rows: nat, columns: nat)
      ensures cells.Length0 == rows && cells.Length1 == columns && fresh(cells)
      ensures forall r, c :: 0 <= r < rows && 0 <= c < columns ==> !cells[r, c]
    {
      cells := new bool[rows, columns]((r, c) => false);
    }

    function RowCount(): nat
    {
      cells.Length0
    }

    function ColumnCount(): nat
    {
      cells.Length1
    }

    /** Valid positions: indices start at 0 and stay below the dimensions. */
    predicate InRange(row: int, column: int)
    {
      0 <= row < RowCount() && 0 <= column < ColumnCount()
    }

    function GetValue(row: int, column: int): bool
      requires InRange(row, column)
      reads cells
    {
      cells[row, column]
    }

    /** Sets one dot; every other dot and both dimensions stay as they were. */
    method SetValue(row: int, column: int, value: bool)
      requires InRange(row, column)
      modifies cells
      ensures GetValue(row, column) == value
      ensures forall r, c :: InRange(r, c) && (r != row || c != column) ==> cells[r, c] == old(cells[r, c])
    {
      cells[row, column] := value;
    }

    /**
     * The values of all dots in the order of the dot iterator for braille
     * cells `width` dots wide and `height` dots high: the k-th value is the
     * dot at DotPosition(k).
     */
    method DotValues(width: nat, height: nat) returns (dots: seq<bool>)
      requires width > 0 && height > 0
      requires RowCount() % height == 0 && ColumnCount() % width == 0
      ensures |dots| == RowCount() * ColumnCount()
      ensures forall k :: 0 <= k < |dots| ==>
        var p := DotPosition(k, RowCount(), ColumnCount(), width, height);
        dots[k] == cells[p.0, p.1]
    {
      var rows, columns := RowCount(), ColumnCount();
      var cellColumns := columns / width;
      var cellCount := (rows / height) * cellColumns;
      var cellSize := width * height;
      CellGrid(rows, columns, width, height);
      dots := [];
      var cell := 0;
      while cell < cellCount
        invariant 0 <= cell <= cellCount
        invariant |dots| == cell * cellSize <= rows * columns
        invariant forall k :: 0 <= k < |dots| ==>
          var p := DotPosition(k, rows, columns, width, height);
          dots[k] == cells[p.0, p.1]
      {
        var d := 0;
        while d < cellSize
          invariant 0 <= d <= cellSize
          invariant |dots| == cell * cellSize + d <= rows * columns
          invariant forall k :: 0 <= k < |dots| ==>
            var p := DotPosition(k, rows, columns, width, height);
            dots[k] == cells[p.0, p.1]
        {
          PositionOfCellDot(cell, d, rows, columns, width, height);
          var row := (cell / cellColumns) * height + d / width;
          var column := (cell % cellColumns) * width + d % width;
          dots := dots + [cells[row, column]];
          d := d + 1;
        }
        MulSucc(cell, cellSize);
        cell := cell + 1;
      }
    }
  }

  // ---------------------------------------------------------------------
  // The dot iterator's order, as a bijection between positions and indices
  // ---------------------------------------------------------------------

  /** The shape every dot-iterator lemma needs: whole cells tile the page. */
  predicate TiledBy(rows: nat, columns: nat, width: nat, height: nat)
  {
    width > 0 && height > 0 && rows % height == 0 && columns % width == 0
  }

  /**
   * The position (row, column) of the k-th dot the iterator visits. Cells are
   * taken left to right, then cell rows top to bottom; inside a cell the dots
   * go left to right, then row by row.
   */
  function DotPosition(k: int, rows: nat, columns: nat, width: nat, height: nat): (p: (int, int))
    requires TiledBy(rows, columns, width, height)
    requires 0 <= k < rows * columns
    ensures 0 <= p.0 < rows && 0 <= p.1 < columns
  {
    var cellSize := width * height;
    var cellColumns := columns / width;
    CellGrid(rows, columns, width, height);
    var cell, d := k / cellSize, k % cellSize;
    CellOfIndex(k, rows / height * cellColumns, cellSize);
    CellPartsInRange(cell, rows / height, cellColumns);
    WithinCell(d, width, height);
    var row := (cell / cellColumns) * height + d / width;
    var column := (cell % cellColumns) * width + d % width;
    DigitBelow(cell / cellColumns, d / width, rows / height, height);
    DigitBelow(cell % cellColumns, d % width, cellColumns, width);
    (row, column)
  }

  /** The iterator's index of the dot at (row, column). */
  function DotIndex(row: int, column: int, rows: nat, columns: nat, width: nat, height: nat): (k: int)
    requires TiledBy(rows, columns, width, height)
    requires 0 <= row < rows && 0 <= column < columns
    ensures 0 <= k < rows * columns
  {
    IndexInPage(row, column, rows, columns, width, height);
    CellNumber(row, column, columns / width, width, height) * (width * height) + InCellNumber(row, column, width, height)
  }

  /** The number of the cell holding (row, column), counting cells row by row. */
  function CellNumber(row: int, column: int, cellColumns: int, width: nat, height: nat): int
    requires width > 0 && height > 0
  {
    (row / height) * cellColumns + column / width
  }

  /** The number of the dot (row, column) inside its cell, counting dots row by row. */
  function InCellNumber(row: int, column: int, width: nat, height: nat): int
    requires width > 0 && height > 0
  {
    (row % height) * width + column % width
  }

  lemma IndexInPage(row: int, column: int, rows: nat, columns: nat, width: nat, height: nat)
    requires TiledBy(rows, columns, width, height)
    requires 0 <= row < rows && 0 <= column < columns
    ensures 0 <= InCellNumber(row, column, width, height) < width * height
    ensures 0 <= CellNumber(row, column, columns / width, width, height) * (width * height) + InCellNumber(row, column, width, height) < rows * columns
  {
    var cellColumns := columns / width;
    CellGrid(rows, columns, width, height);
    QuotientBelow(row, rows, height);
    QuotientBelow(column, columns, width);
    DigitBelow(row / height, column / width, rows / height, cellColumns);
    DigitBelow(row % height, column % width, height, width);
    DigitBelow(CellNumber(row, column, cellColumns, width, height), InCellNumber(row, column, width, height), rows / height * cellColumns, width * height);
  }

  /** Every index is visited at the position that maps back to it. */
  lemma {:induction false} IndexOfPosition(k: int, rows: nat, columns: nat, width: nat, height: nat)
    requires TiledBy(rows, columns, width, height)
    requires 0 <= k < rows * columns
    ensures var p := DotPosition(k, rows, columns, width, height);
      DotIndex(p.0, p.1, rows, columns, width, height) == k
  {
    var cellSize := width * height;
    var cellColumns := columns / width;
    var cell, d := k / cellSize, k % cellSize;
    var p := DotPosition(k, rows, columns, width, height);
    CellGrid(rows, columns, width, height);
    CellOfIndex(k, rows / height * cellColumns, cellSize);
    SplitCell(cell, d, cellColumns, width, height);
    assert k == cell * cellSize + d;
  }

  /** Splitting a (cell, dot-in-cell) pair into a position and reading it back. */
  lemma SplitCell(cell: int, d: int, cellColumns: int, width: int, height: int)
    requires 0 < cellColumns && 0 < width && 0 < height && 0 <= cell && 0 <= d < width * height
    ensures var row := (cell / cellColumns) * height + d / width;
      var column := (cell % cellColumns) * width + d % width;
      (row / height) * cellColumns + column / width == cell && (row % height) * width + column % width == d
  {
    WithinCell(d, width, height);
    var row := (cell / cellColumns) * height + d / width;
    var column := (cell % cellColumns) * width + d % width;
    DivModUnique(row, height, cell / cellColumns, d / width);
    DivModUnique(column, width, cell % cellColumns, d % width);
  }

  /** The d-th dot of the cell-th cell is the dot the iterator visits at index cell * (width * height) + d. */
  lemma PositionOfCellDot(cell: int, d: int, rows: nat, columns: nat, width: nat, height: nat)
    requires TiledBy(rows, columns, width, height)
    requires 0 <= cell < (rows / height) * (columns / width) && 0 <= d < width * height
    ensures 0 <= cell * (width * height) + d < rows * columns
    ensures DotPosition(cell * (width * height) + d, rows, columns, width, height)
      == ((cell / (columns / width)) * height + d / width, (cell % (columns / width)) * width + d % width)
  {
    CellGrid(rows, columns, width, height);
    IndexBelowProduct(cell, d, (rows / height) * (columns / width), width * height);
    DivModUnique(cell * (width * height) + d, width * height, cell, d);
  }

  /** Every dot is visited at the index that maps back to it. */
  lemma {:induction false} PositionOfIndex(row: int, column: int, rows: nat, columns: nat, width: nat, height: nat)
    requires TiledBy(rows, columns, width, height)
    requires 0 <= row < rows && 0 <= column < columns
    ensures DotPosition(DotIndex(row, column, rows, columns, width, height), rows, columns, width, height) == (row, column)
  {
    var cellColumns := columns / width;
    CellGrid(rows, columns, width, height);
    var k := DotIndex(row, column, rows, columns, width, height);
    assert k == ((row / height) * cellColumns + column / width) * (width * height) + ((row % height) * width + column % width);
    QuotientBelow(column, columns, width);
    JoinSplit(row, column, cellColumns, width, height);
  }

  /**
   * Joining a position into (cell, dot-in-cell) and the index, then
   * splitting the index again, gives the position back.
   */
  lemma JoinSplit(row: int, column: int, cellColumns: int, width: int, height: int)
    requires 0 < width && 0 < height && 0 <= row && 0 <= column && column / width < cellColumns
    ensures var k := ((row / height) * cellColumns + column / width) * (width * height) + ((row % height) * width + column % width);
      && (k / (width * height) / cellColumns) * height + (k % (width * height)) / width == row
      && (k / (width * height) % cellColumns) * width + (k % (width * height)) % width == column
  {
    var cell := (row / height) * cellColumns + column / width;
    var d := (row % height) * width + column % width;
    JoinCell(row, column, cellColumns, width, height);
    SplitCellRow(row, column, cellColumns, width, height);
    SplitCellColumn(row, column, cellColumns, width, height);
  }

  /** The index of a position splits into its cell and its dot-in-cell. */
  lemma JoinCell(row: int, column: int, cellColumns: int, width: int, height: int)
    requires 0 < width && 0 < height && 0 <= row && 0 <= column && column / width < cellColumns
    ensures var cell := (row / height) * cellColumns + column / width;
      var d := (row % height) * width + column % width;
      var k := cell * (width * height) + d;
      k / (width * height) == cell && k % (width * height) == d
  {
    var cell := (row / height) * cellColumns + column / width;
    var d := (row % height) * width + column % width;
    DigitBelow(row % height, column % width, height, width);
    assert 0 <= cell by {
      assert 0 <= row / height && 0 <= column / width;
    }
    DivModUnique(cell * (width * height) + d, width * height, cell, d);
  }

  lemma SplitCellRow(row: int, column: int, cellColumns: int, width: int, height: int)
    requires 0 < width && 0 < height && 0 <= row && 0 <= column && column / width < cellColumns
    ensures var cell := (row / height) * cellColumns + column / width;
      var d := (row % height) * width + column % width;
      (cell / cellColumns) * height + d / width == row
  {
    var cell := (row / height) * cellColumns + column / width;
    var d := (row % height) * width + column % width;
    DivModUnique(cell, cellColumns, row / height, column / width);
    DivModUnique(d, width, row % height, column % width);
  }

  lemma SplitCellColumn(row: int, column: int, cellColumns: int, width: int, height: int)
    requires 0 < width && 0 < height && 0 <= row && 0 <= column && column / width < cellColumns
    ensures var cell := (row / height) * cellColumns + column / width;
      var d := (row % height) * width + column % width;
      (cell % cellColumns) * width + d % width == column
  {
    var cell := (row / height) * cellColumns + column / width;
    var d := (row % height) * width + column % width;
    DivModUnique(cell, cellColumns, row / height, column / width);
    DivModUnique(d, width, row % height, column % width);
  }

  /** The iterator visits every dot of the page exactly once. */
  lemma VisitsEveryDotOnce(rows: nat, columns: nat, width: nat, height: nat)
    requires TiledBy(rows, columns, width, height)
    ensures forall k :: 0 <= k < rows * columns ==>
      var p := DotPosition(k, rows, columns, width, height);
      DotIndex(p.0, p.1, rows, columns, width, height) == k
    ensures forall k1, k2 :: 0 <= k1 < k2 < rows * columns ==>
      DotPosition(k1, rows, columns, width, height) != DotPosition(k2, rows, columns, width, height)
    ensures forall r, c :: 0 <= r < rows && 0 <= c < columns ==>
      DotPosition(DotIndex(r, c, rows, columns, width, height), rows, columns, width, height) == (r, c)
  {
    forall k | 0 <= k < rows * columns
      ensures var p := DotPosition(k, rows, columns, width, height);
        DotIndex(p.0, p.1, rows, columns, width, height) == k
    {
      IndexOfPosition(k, rows, columns, width, height);
    }
    forall r, c | 0 <= r < rows && 0 <= c < columns
      ensures DotPosition(DotIndex(r, c, rows, columns, width, height), rows, columns, width, height) == (r, c)
    {
      PositionOfIndex(r, c, rows, columns, width, height);
    }
  }

  /**
   * The documented order: one dot comes before another iff its cell row is
   * higher up, or the cell rows agree and its cell is further left, or both
   * lie in one cell and it is in a higher row of the cell, or in the same row
   * of the cell and further left.
   */
  lemma {:induction false} DotOrder(r1: int, c1: int, r2: int, c2: int, rows: nat, columns: nat, width: nat, height: nat)
    requires TiledBy(rows, columns, width, height)
    requires 0 <= r1 < rows && 0 <= c1 < columns && 0 <= r2 < rows && 0 <= c2 < columns
    ensures DotIndex(r1, c1, rows, columns, width, height) < DotIndex(r2, c2, rows, columns, width, height)
      <==>
        r1 / height < r2 / height
        || (r1 / height == r2 / height && c1 / width < c2 / width)
        || (r1 / height == r2 / height && c1 / width == c2 / width && r1 % height < r2 % height)
        || (r1 / height == r2 / height && c1 / width == c2 / width && r1 % height == r2 % height && c1 % width < c2 % width)
  {
    IndexInPage(r1, c1, rows, columns, width, height);
    IndexInPage(r2, c2, rows, columns, width, height);
    MixedRadixLess(CellNumber(r1, c1, columns / width, width, height), InCellNumber(r1, c1, width, height),
      CellNumber(r2, c2, columns / width, width, height), InCellNumber(r2, c2, width, height), width * height);
    CellOrder(r1, c1, r2, c2, columns, width, height);
    InCellOrder(r1, c1, r2, c2, width, height);
  }

  /** Cells are numbered row by row, left to right. */
  lemma CellOrder(r1: int, c1: int, r2: int, c2: int, columns: nat, width: nat, height: nat)
    requires width > 0 && height > 0 && columns % width == 0
    requires 0 <= c1 < columns && 0 <= c2 < columns
    ensures var n1, n2 := CellNumber(r1, c1, columns / width, width, height), CellNumber(r2, c2, columns / width, width, height);
      && (n1 < n2 <==> r1 / height < r2 / height || (r1 / height == r2 / height && c1 / width < c2 / width))
      && (n1 == n2 <==> r1 / height == r2 / height && c1 / width == c2 / width)
  {
    QuotientBelow(c1, columns, width);
    QuotientBelow(c2, columns, width);
    MixedRadixLess(r1 / height, c1 / width, r2 / height, c2 / width, columns / width);
  }

  /** Inside a cell the dots are numbered row by row, left to right. */
  lemma InCellOrder(r1: int, c1: int, r2: int, c2: int, width: nat, height: nat)
    requires width > 0 && height > 0
    ensures var n1, n2 := InCellNumber(r1, c1, width, height), InCellNumber(r2, c2, width, height);
      n1 < n2 <==> r1 % height < r2 % height || (r1 % height == r2 % height && c1 % width < c2 % width)
  {
    MixedRadixLess(r1 % height, c1 % width, r2 % height, c2 % width, width);
  }

  /** The documented example: 2 x 3 cells on a page of 6 rows and 4 columns. */
  lemma DocumentedExample()
    ensures forall r, c :: 0 <= r < 6 && 0 <= c < 4 ==>
      DotIndex(r, c, 6, 4, 2, 3) + 1 == ExampleTable[r][c]
  {
    forall r, c | 0 <= r < 6 && 0 <= c < 4
      ensures DotIndex(r, c, 6, 4, 2, 3) + 1 == ExampleTable[r][c]
    {
      ExampleIndex(r, c);
    }
  }

  lemma ExampleIndex(r: int, c: int)
    requires 0 <= r < 6 && 0 <= c < 4
    ensures DotIndex(r, c, 6, 4, 2, 3) == (if r < 3 then 2 * r else 12 + 2 * (r - 3)) + (if c < 2 then c else 4 + c)
  {
    assert DotIndex(r, c, 6, 4, 2, 3) == ((r / 3) * 2 + c / 2) * 6 + (r % 3) * 2 + c % 2;
    assert r / 3 == (if r < 3 then 0 else 1) && r % 3 == (if r < 3 then r else r - 3);
    assert c / 2 == (if c < 2 then 0 else 1) && c % 2 == (if c < 2 then c else c - 2);
  }

  /** The visiting order written out for 2 x 3 cells on a 4 x 6 page (1-based). */
  const ExampleTable: seq<seq<int>> := [
    [ 1,  2,  7,  8],
    [ 3,  4,  9, 10],
    [ 5,  6, 11, 12],
    [13, 14, 19, 20],
    [15, 16, 21, 22],
    [17, 18, 23, 24]
  ]

  // ---------------------------------------------------------------------
  // Arithmetic helpers
  // ---------------------------------------------------------------------

  lemma CellGrid(rows: nat, columns: nat, width: nat, height: nat)
    requires TiledBy(rows, columns, width, height)
    ensures (rows / height) * height == rows && (columns / width) * width == columns
    ensures rows * columns == ((rows / height) * (columns / width)) * (width * height)
  {
    var a, b := rows / height, columns / width;
    assert rows == a * height;
    assert columns == b * width;
    calc {
      rows * columns;
      (a * height) * (b * width);
      { MulRearrange(a, height, b, width); }
      (a * b) * (width * height);
    }
  }

  lemma MulRearrange(a: int, h: int, b: int, w: int)
    ensures (a * h) * (b * w) == (a * b) * (w * h)
  {
  }

  /** On a page of whole cells, a position below the extent lies in a cell below the cell count. */
  lemma QuotientBelow(i: int, extent: nat, size: nat)
    requires 0 < size && extent % size == 0 && 0 <= i < extent
    ensures 0 <= i / size < extent / size
  {
    assert extent == (extent / size) * size;
    assert i == (i / size) * size + i % size;
    if i / size >= extent / size {
      MulMonotone(extent / size, i / size, size);
    }
  }

  lemma MulSucc(a: int, d: int)
    ensures (a + 1) * d == a * d + d
  {
  }

  /** A two-digit number a*d + b with digit b < d stays below m*d when a < m. */
  lemma DigitBelow(a: int, b: int, m: int, d: int)
    requires 0 <= a < m && 0 <= b < d
    ensures 0 <= a * d + b < m * d
  {
    assert a * d <= (m - 1) * d by {
      MulMonotone(a, m - 1, d);
    }
    assert (m - 1) * d == m * d - d;
  }

  lemma MulMonotone(a: int, b: int, d: int)
    requires a <= b && 0 <= d
    ensures a * d <= b * d
  {
    assert b * d - a * d == (b - a) * d;
  }

  lemma IndexBelowProduct(cell: int, d: int, cellCount: int, cellSize: int)
    requires 0 <= cell < cellCount && 0 <= d < cellSize
    ensures 0 <= cell * cellSize + d < cellCount * cellSize
  {
    DigitBelow(cell, d, cellCount, cellSize);
  }

  /** Division is determined by the quotient and remainder. */
  lemma DivModUnique(n: int, d: int, q: int, r: int)
    requires 0 < d && 0 <= r < d && n == q * d + r
    ensures n / d == q && n % d == r
  {
    var q', r' := n / d, n % d;
    assert n == q' * d + r';
    if q' < q {
      assert (q' + 1) * d == q' * d + d;
      MulMonotone(q' + 1, q, d);
    } else if q' > q {
      assert (q + 1) * d == q * d + d;
      MulMonotone(q + 1, q', d);
    }
  }

  lemma CellOfIndex(k: int, cellCount: int, cellSize: int)
    requires 0 < cellSize && 0 <= k < cellCount * cellSize
    ensures 0 <= k / cellSize < cellCount && 0 <= k % cellSize < cellSize
  {
    var q := k / cellSize;
    assert k == q * cellSize + k % cellSize;
    if q >= cellCount {
      MulMonotone(cellCount, q, cellSize);
    }
    if q < 0 {
      MulMonotone(q, -1, cellSize);
    }
  }

  lemma CellPartsInRange(cell: int, cellRows: int, cellColumns: int)
    requires 0 < cellColumns && 0 <= cell < cellRows * cellColumns
    ensures 0 <= cell / cellColumns < cellRows && 0 <= cell % cellColumns < cellColumns
  {
    assert cell < cellRows * cellColumns;
    CellOfIndex(cell, cellRows, cellColumns);
  }

  lemma WithinCell(d: int, width: int, height: int)
    requires 0 < width && 0 < height && 0 <= d < width * height
    ensures 0 <= d / width < height && 0 <= d % width < width
  {
    assert width * height == height * width;
    CellOfIndex(d, height, width);
  }

  /** Comparing two-digit numbers with digits below d: compare the high digits first. */
  lemma MixedRadixLess(a1: int, b1: int, a2: int, b2: int, d: int)
    requires 0 <= b1 < d && 0 <= b2 < d
    ensures a1 * d + b1 < a2 * d + b2 <==> a1 < a2 || (a1 == a2 && b1 < b2)
    ensures a1 * d + b1 == a2 * d + b2 <==> a1 == a2 && b1 == b2
  {
    if a1 < a2 {
      MulMonotone(a1 + 1, a2, d);
      assert (a1 + 1) * d == a1 * d + d;
    } else if a1 > a2 {
      MulMonotone(a2 + 1, a1, d);
      assert (a2 + 1) * d == a2 * d + d;
    }
  }
}
