/**
 * The (deprecated) braille text rasterizer: a cursor that writes one braille
 * cell pattern at a time onto the current page and wraps to the next cell
 * row, capital and number prefix cells, table entries that span several
 * cells, and the text-length and area calculations built on the same rules.
 *
 * The character-to-pattern table (the semantic braille table) is not part of
 * this model; it is the opaque function `table`. A pattern is a string of
 * '1'/'0' characters read column by column; an entry spanning several cells
 * holds the cell patterns separated by ','.
 */
module BrailleText {
  import opened MatrixPages
  import opened Wrappers
  import opened JavaNumbers

  // ---------------------------------------------------------------------
  // Characters and strings, as the rasterizer reads them
  // ---------------------------------------------------------------------

  /** Upper-case letters of Latin-1: A-Z, U+00C0-U+00D6 and U+00D8-U+00DE. */
  predicate IsUpperCase(c: char)
  {
    ('A' <= c <= 'Z') || (0xC0 <= c as int <= 0xDE && c as int != 0xD7)
  }

  /** The lower-case partner of a Latin-1 upper-case letter (32 code points on); other characters stay. */
  function ToLowerCase(c: char): (l: char)
    ensures IsUpperCase(c) ==> l as int == c as int + 32 && !IsUpperCase(l)
    ensures !IsUpperCase(c) ==> l == c
  {
    if IsUpperCase(c) then (c as int + 32) as char else c
  }

  /** `s.toLowerCase()` on Latin-1 text. */
  function LowerCaseString(s: string): (l: string)
    ensures |l| == |s| && forall i :: 0 <= i < |s| ==> l[i] == ToLowerCase(s[i])
  {
    if s == [] then [] else LowerCaseString(s[..|s| - 1]) + [ToLowerCase(s[|s| - 1])]
  }

  /** `s.matches("[0-9]")`: exactly one decimal digit. */
  predicate CheckForNumbers(s: string)
  {
    |s| == 1 && '0' <= s[0] <= '9'
  }

  /** `s.split("")`: the one-character strings of s, or the single empty string for an empty s. */
  function Characters(s: string): (parts: seq<string>)
    ensures s == [] ==> parts == [""]
    ensures s != [] ==> |parts| == |s| && forall i :: 0 <= i < |s| ==> parts[i] == [s[i]]
  {
    if s == [] then [""] else Singletons(s)
  }

  /** The one-character strings of s, in order. */
  function Singletons(s: string): (parts: seq<string>)
    ensures |parts| == |s| && forall i :: 0 <= i < |s| ==> parts[i] == [s[i]]
  {
    if s == [] then [] else Singletons(s[..|s| - 1]) + [[s[|s| - 1]]]
  }

  /** The comma-separated fields of s, empty fields included. */
  function Fields(s: string): (fields: seq<string>)
    ensures |fields| >= 1
    ensures forall i :: 0 <= i < |fields| ==> ',' !in fields[i]
    decreases |s|
  {
    if ',' !in s then [s]
    else
      var i := FirstComma(s);
      [s[..i]] + Fields(s[i + 1..])
  }

  function FirstComma(s: string): (i: nat)
    requires ',' in s
    ensures i < |s| && s[i] == ',' && ',' !in s[..i]
  {
    if s[0] == ',' then 0 else 1 + FirstComma(s[1..])
  }

  function DropTrailingEmpty(fields: seq<string>): (kept: seq<string>)
    ensures |kept| <= |fields| && kept == fields[..|kept|]
    ensures kept == [] || kept[|kept| - 1] != ""
    ensures forall i :: |kept| <= i < |fields| ==> fields[i] == ""
  {
    if fields == [] || fields[|fields| - 1] != "" then fields
    else DropTrailingEmpty(fields[..|fields| - 1])
  }

  /**
   * `s.split(",")`: a string without a comma is its own only part; otherwise
   * the comma-separated fields with trailing empty fields removed.
   */
  function SplitOnComma(s: string): (parts: seq<string>)
    ensures forall i :: 0 <= i < |parts| ==> ',' !in parts[i]
    ensures ',' !in s ==> parts == [s]
  {
    if ',' !in s then [s] else DropTrailingEmpty(Fields(s))
  }

  /** The fields joined with one comma between each two: the inverse of `Fields`. */
  function JoinFields(fields: seq<string>): string
  {
    if fields == [] then ""
    else if |fields| == 1 then fields[0]
    else fields[0] + "," + JoinFields(fields[1..])
  }

  /** n commas. */
  function Commas(n: nat): string
  {
    if n == 0 then "" else Commas(n - 1) + ","
  }

  /** The fields of s rejoined with commas are s itself. */
  lemma {:induction false} FieldsRejoin(s: string)
    ensures JoinFields(Fields(s)) == s
    decreases |s|
  {
    if ',' in s {
      var i := FirstComma(s);
      var first, rest := s[..i], Fields(s[i + 1..]);
      FieldsRejoin(s[i + 1..]);
      assert Fields(s) == [first] + rest;
      JoinCons(first, rest);
      assert s == first + "," + s[i + 1..];
    }
  }

  /** Joining a first field onto at least one more puts one comma between. */
  lemma JoinCons(first: string, rest: seq<string>)
    requires |rest| >= 1
    ensures JoinFields([first] + rest) == first + "," + JoinFields(rest)
  {
    assert ([first] + rest)[1..] == rest;
  }

  /** Comma-free fields joined with commas split back into the same fields. */
  lemma {:induction false} JoinSplits(fields: seq<string>)
    requires |fields| >= 1
    requires forall i :: 0 <= i < |fields| ==> ',' !in fields[i]
    ensures Fields(JoinFields(fields)) == fields
    decreases |fields|
  {
    if |fields| > 1 {
      var first, rest := fields[0], fields[1..];
      var s := JoinFields(fields);
      assert s == first + "," + JoinFields(rest);
      assert s[|first|] == ',';
      var i := FirstComma(s);
      assert s[..i] == first;
      assert s[i + 1..] == JoinFields(rest);
      JoinSplits(rest);
      assert fields == [first] + rest;
    }
  }

  /** Joining one more field appends a comma and that field. */
  lemma {:induction false} JoinSnoc(fields: seq<string>, last: string)
    requires |fields| >= 1
    ensures JoinFields(fields + [last]) == JoinFields(fields) + "," + last
    decreases |fields|
  {
    if |fields| > 1 {
      assert (fields + [last])[1..] == fields[1..] + [last];
      JoinSnoc(fields[1..], last);
    } else {
      assert (fields + [last])[1..] == [last];
    }
  }

  /** Empty fields after the first n are one trailing comma each. */
  lemma {:induction false} JoinTrailingEmpties(fields: seq<string>, n: nat)
    requires 1 <= n <= |fields|
    requires forall i :: n <= i < |fields| ==> fields[i] == ""
    ensures JoinFields(fields) == JoinFields(fields[..n]) + Commas(|fields| - n)
    decreases |fields| - n
  {
    if n < |fields| {
      var init := fields[..|fields| - 1];
      JoinTrailingEmpties(init, n);
      assert init[..n] == fields[..n];
      assert fields == init + [""];
      JoinSnoc(init, "");
    } else {
      assert fields[..n] == fields;
    }
  }

  /**
   * Java's limit-0 rule for `split(",")`: the parts are the comma-separated
   * fields up to the last non-empty one, so rejoined with commas they give s
   * without the trailing commas that separated the dropped (empty) fields; a
   * string made only of commas has no parts at all.
   */
  lemma SplitOnCommaRejoins(s: string)
    requires ',' in s
    ensures var parts, fields := SplitOnComma(s), Fields(s);
      && parts == fields[..|parts|]
      && (forall i :: |parts| <= i < |fields| ==> fields[i] == "")
      && (parts == [] || parts[|parts| - 1] != "")
      && (parts != [] ==> s == JoinFields(parts) + Commas(|fields| - |parts|))
      && (parts == [] ==> s == Commas(|fields| - 1))
  {
    FieldsRejoin(s);
    JoinDropped(Fields(s));
  }

  /** Joined fields are their kept fields joined, then one comma per dropped (empty) field. */
  lemma JoinDropped(fields: seq<string>)
    requires |fields| >= 1
    ensures var parts := DropTrailingEmpty(fields);
      && (parts != [] ==> JoinFields(fields) == JoinFields(parts) + Commas(|fields| - |parts|))
      && (parts == [] ==> JoinFields(fields) == Commas(|fields| - 1))
  {
    var parts := DropTrailingEmpty(fields);
    if parts != [] {
      JoinTrailingEmpties(fields, |parts|);
    } else {
      JoinTrailingEmpties(fields, 1);
      assert fields[..1] == [""];
    }
  }

  /** Two or more comma-free parts, the last one non-empty, are what `split(",")` makes of their join. */
  lemma SplitOnCommaOfJoin(parts: seq<string>)
    requires |parts| >= 2 && parts[|parts| - 1] != ""
    requires forall i :: 0 <= i < |parts| ==> ',' !in parts[i]
    ensures SplitOnComma(JoinFields(parts)) == parts
  {
    var s := JoinFields(parts);
    assert s[|parts[0]|] == ',';
    JoinSplits(parts);
  }

  // ---------------------------------------------------------------------
  // One braille cell
  // ---------------------------------------------------------------------

  /** How many pattern entries `pattern.split("")` yields: an empty pattern still yields one (empty) entry. */
  function PatternLength(pattern: string): nat
  {
    if pattern == [] then 1 else |pattern|
  }

  /** Whether entry t of the split pattern is "1". */
  predicate PatternDot(pattern: string, t: int)
  {
    0 <= t < |pattern| && pattern[t] == '1'
  }

  /**
   * A cell pattern written at (x, y) succeeds iff the pattern has an entry for
   * every dot of the cell and the whole cell lies on the page.
   */
  predicate CellFits(pattern: string, x: int, y: int, cellWidth: nat, cellHeight: nat, rows: nat, columns: nat)
  {
    cellWidth == 0 || cellHeight == 0 ||
    (cellWidth * cellHeight <= PatternLength(pattern) && 0 <= x && x + cellWidth <= columns && 0 <= y && y + cellHeight <= rows)
  }

  /**
   * A dot after a cell pattern has been written at (x, y): dot (j, k) of the
   * cell takes pattern entry j * cellHeight + k (column by column).
   */
  predicate Stamped(before: bool, pattern: string, x: int, y: int, cellWidth: nat, cellHeight: nat, row: int, column: int)
  {
    if x <= column < x + cellWidth && y <= row < y + cellHeight
    then PatternDot(pattern, (column - x) * cellHeight + (row - y))
    else before
  }

  // ---------------------------------------------------------------------
  // The cursor
  // ---------------------------------------------------------------------

  datatype Cursor = Cursor(x: int, y: int, origX: int, maxWidth: int)

  /**
   * `jumpToNextCell`: two dots to the right; once x reaches the width, one
   * cell row down and back to the starting column.
   */
  function Jump(c: Cursor, cellHeight: nat): (n: Cursor)
    ensures n.origX == c.origX && n.maxWidth == c.maxWidth
    ensures c.x + 2 < c.maxWidth ==> n == c.(x := c.x + 2)
    ensures c.x + 2 >= c.maxWidth ==> n == c.(x := c.origX, y := c.y + cellHeight)
  {
    var x := c.x + 2;
    if x >= c.maxWidth then c.(x := c.origX, y := c.y + cellHeight) else c.(x := x)
  }

  /** The cursor after n cells. */
  function CursorAfter(c: Cursor, n: nat, cellHeight: nat): Cursor
  {
    if n == 0 then c else Jump(CursorAfter(c, n - 1, cellHeight), cellHeight)
  }

  /**
   * A cursor that starts on its line stays on it: x stays within
   * [origX, maxWidth) and y moves down by whole cell rows only.
   */
  lemma {:induction false} CursorStaysOnLine(c: Cursor, n: nat, cellHeight: nat) returns (lines: nat)
    requires c.origX <= c.x < c.maxWidth
    ensures var d := CursorAfter(c, n, cellHeight);
      && d.origX == c.origX && d.maxWidth == c.maxWidth
      && c.origX <= d.x < c.maxWidth
      && d.y == c.y + lines * cellHeight
  {
    if n == 0 {
      lines := 0;
    } else {
      lines := CursorStaysOnLine(c, n - 1, cellHeight);
      var d := CursorAfter(c, n - 1, cellHeight);
      if d.x + 2 >= d.maxWidth {
        assert (lines + 1) * cellHeight == lines * cellHeight + cellHeight;
        lines := lines + 1;
      }
    }
  }

  lemma {:induction false} CursorAfterAppend(c: Cursor, m: nat, n: nat, cellHeight: nat)
    ensures CursorAfter(c, m + n, cellHeight) == CursorAfter(CursorAfter(c, m, cellHeight), n, cellHeight)
  {
    if n > 0 {
      CursorAfterAppend(c, m, n - 1, cellHeight);
    }
  }

  // ---------------------------------------------------------------------
  // A sequence of cells written from a cursor
  // ---------------------------------------------------------------------

  /** Every one of the patterns fits at the cursor position it is written to. */
  predicate AllFit(patterns: seq<string>, start: Cursor, cellWidth: nat, cellHeight: nat, rows: nat, columns: nat)
  {
    forall k :: 0 <= k < |patterns| ==>
      var c := CursorAfter(start, k, cellHeight);
      CellFits(patterns[k], c.x, c.y, cellWidth, cellHeight, rows, columns)
  }

  /** A dot after the patterns have been written in order, cell k at CursorAfter(start, k). */
  predicate Drawn(before: bool, patterns: seq<string>, start: Cursor, cellWidth: nat, cellHeight: nat, row: int, column: int)
  {
    if patterns == [] then before
    else
      var n := |patterns| - 1;
      var c := CursorAfter(start, n, cellHeight);
      Stamped(Drawn(before, patterns[..n], start, cellWidth, cellHeight, row, column), patterns[n], c.x, c.y, cellWidth, cellHeight, row, column)
  }

  lemma {:induction false} DrawnAppend(before: bool, a: seq<string>, b: seq<string>, start: Cursor, cellWidth: nat, cellHeight: nat, row: int, column: int)
    ensures Drawn(before, a + b, start, cellWidth, cellHeight, row, column)
         == Drawn(Drawn(before, a, start, cellWidth, cellHeight, row, column), b, CursorAfter(start, |a|, cellHeight), cellWidth, cellHeight, row, column)
  {
    if b != [] {
      var n := |b| - 1;
      assert (a + b)[..|a| + n] == a + b[..n];
      DrawnAppend(before, a, b[..n], start, cellWidth, cellHeight, row, column);
      CursorAfterAppend(start, |a|, n, cellHeight);
    } else {
      assert a + b == a;
    }
  }

  lemma AllFitAppend(a: seq<string>, b: seq<string>, start: Cursor, cellWidth: nat, cellHeight: nat, rows: nat, columns: nat)
    ensures AllFit(a + b, start, cellWidth, cellHeight, rows, columns)
        <==> AllFit(a, start, cellWidth, cellHeight, rows, columns)
             && AllFit(b, CursorAfter(start, |a|, cellHeight), cellWidth, cellHeight, rows, columns)
  {
    forall k | 0 <= k < |b|
      ensures CursorAfter(start, |a| + k, cellHeight) == CursorAfter(CursorAfter(start, |a|, cellHeight), k, cellHeight)
    {
      CursorAfterAppend(start, |a|, k, cellHeight);
    }
    assert forall k :: 0 <= k < |b| ==> (a + b)[|a| + k] == b[k];
    if AllFit(a, start, cellWidth, cellHeight, rows, columns) && AllFit(b, CursorAfter(start, |a|, cellHeight), cellWidth, cellHeight, rows, columns) {
      forall k | 0 <= k < |a + b|
        ensures var c := CursorAfter(start, k, cellHeight);
          CellFits((a + b)[k], c.x, c.y, cellWidth, cellHeight, rows, columns)
      {
        if k >= |a| {
          assert (a + b)[k] == b[k - |a|];
        }
      }
    }
  }

  // ---------------------------------------------------------------------
  // What the rasterizer writes for a text
  // ---------------------------------------------------------------------

  datatype Plan = Plan(cells: seq<string>, writeCharNormaly: bool)

  /**
   * The cell patterns written for one character, and the flag afterwards:
   * an upper-case letter gets a CAP cell and is then looked up in lower case;
   * otherwise an entry longer than one cell is written part by part and
   * switches normal writing off for good; otherwise a digit gets a NUM cell.
   * Finally the letter's own pattern is written while normal writing is on.
   */
  function CharPlan(table: string -> string, c: char, normal: bool, cellWidth: nat, cellHeight: nat): (p: Plan)
    ensures !IsUpperCase(c) && |table([c])| > cellWidth * cellHeight ==> p == Plan(SplitOnComma(table([c])), false)
    ensures p.writeCharNormaly ==> normal
  {
    if IsUpperCase(c) then
      Plan([table("CAP")] + (if normal then [table([ToLowerCase(c)])] else []), normal)
    else if |table([c])| > cellWidth * cellHeight then
      Plan(SplitOnComma(table([c])), false)
    else if CheckForNumbers([c]) then
      Plan([table("NUM")] + (if normal then [table([c])] else []), normal)
    else
      Plan(if normal then [table([c])] else [], normal)
  }

  /** The cell patterns written for a whole text, character by character. */
  function TextPlan(table: string -> string, text: string, normal: bool, cellWidth: nat, cellHeight: nat): (p: Plan)
    ensures p.writeCharNormaly ==> normal
  {
    if text == [] then Plan([], normal)
    else
      var pre := TextPlan(table, text[..|text| - 1], normal, cellWidth, cellHeight);
      var last := CharPlan(table, text[|text| - 1], pre.writeCharNormaly, cellWidth, cellHeight);
      Plan(pre.cells + last.cells, last.writeCharNormaly)
  }

  /** The cells written for a prefix of the text are a prefix of the cells for the whole text. */
  lemma {:induction false} TextPlanPrefix(table: string -> string, text: string, i: nat, normal: bool, cellWidth: nat, cellHeight: nat)
    requires i <= |text|
    ensures TextPlan(table, text[..i], normal, cellWidth, cellHeight).cells <= TextPlan(table, text, normal, cellWidth, cellHeight).cells
    decreases |text| - i
  {
    if i == |text| {
      assert text[..i] == text;
    } else {
      TextPlanPrefix(table, text, i + 1, normal, cellWidth, cellHeight);
      TextPlanStep(table, text, i, normal, cellWidth, cellHeight);
      var pre := TextPlan(table, text[..i], normal, cellWidth, cellHeight);
      var cp := CharPlan(table, text[i], pre.writeCharNormaly, cellWidth, cellHeight);
      PrefixOfExtension(pre.cells, cp.cells, TextPlan(table, text, normal, cellWidth, cellHeight).cells);
    }
  }

  /** A sequence is a prefix of anything its extension is a prefix of. */
  lemma PrefixOfExtension<T>(p: seq<T>, q: seq<T>, whole: seq<T>)
    requires p + q <= whole
    ensures p <= whole
  {
    assert whole[..|p|] == (p + q)[..|p|];
  }

  /**
   * Once normal writing is off (a multi-cell character has been written),
   * later characters contribute only their CAP and NUM prefix cells.
   */
  lemma {:induction false} OnlyPrefixesAfterMultiCell(table: string -> string, text: string, cellWidth: nat, cellHeight: nat)
    ensures var p := TextPlan(table, text, false, cellWidth, cellHeight);
      !p.writeCharNormaly && forall k :: 0 <= k < |p.cells| ==> p.cells[k] in {table("CAP"), table("NUM")} || exists i :: 0 <= i < |text| && p.cells[k] in SplitOnComma(table([text[i]]))
  {
    if text != [] {
      var n := |text| - 1;
      OnlyPrefixesAfterMultiCell(table, text[..n], cellWidth, cellHeight);
      var pre := TextPlan(table, text[..n], false, cellWidth, cellHeight);
      var p := TextPlan(table, text, false, cellWidth, cellHeight);
      forall k | 0 <= k < |p.cells|
        ensures p.cells[k] in {table("CAP"), table("NUM")} || exists i :: 0 <= i < |text| && p.cells[k] in SplitOnComma(table([text[i]]))
      {
        if k < |pre.cells| {
          assert p.cells[k] == pre.cells[k];
          if !(p.cells[k] in {table("CAP"), table("NUM")}) {
            var i :| 0 <= i < n && pre.cells[k] in SplitOnComma(table([text[..n][i]]));
            assert text[..n][i] == text[i];
          }
        } else {
          assert p.cells[k] in CharPlan(table, text[n], false, cellWidth, cellHeight).cells;
        }
      }
    }
  }

  // ---------------------------------------------------------------------
  // Length of a text in cells, and the area it needs
  // ---------------------------------------------------------------------

  /** The extra cells of the entries that span several cells: parts - 1 for each. */
  function ExtraCells(table: string -> string, entries: seq<string>): (n: nat)
  {
    if entries == [] then 0
    else
      var parts := |SplitOnComma(table(entries[|entries| - 1]))|;
      ExtraCells(table, entries[..|entries| - 1]) + (if parts > 1 then parts - 1 else 0)
  }

  /** `countMultipleCells`: the extra cells of the lower-cased text's characters. */
  function MultipleCells(table: string -> string, text: string): nat
  {
    ExtraCells(table, Characters(LowerCaseString(text)))
  }

  function CountWhere(text: string, lo: char, hi: char): (n: nat)
    ensures n <= |text|
  {
    if text == [] then 0
    else CountWhere(text[..|text| - 1], lo, hi) + (if lo <= text[|text| - 1] <= hi then 1 else 0)
  }

  /**
   * `getBrailleStringLengthInCells`: one cell per character (an empty text
   * still counts one), one more per capital A-Z and per digit, and the extra
   * cells of multi-cell entries.
   */
  function LengthInCells(table: string -> string, text: string): (n: int)
    ensures n >= |text| && n >= 1
  {
    |Characters(text)| + CountWhere(text, 'A', 'Z') + CountWhere(text, '0', '9') + MultipleCells(table, text)
  }

  /**
   * h is `(int) Math.ceil((double) len / width)`: for a positive width the
   * least h with len <= h * width; a zero width divides by zero in floating
   * point, which the cast turns into the largest int (or 0 for 0/0, or the
   * least int for a negative len).
   */
  predicate IsCeilQuotient(h: int, len: int, width: nat)
  {
    && (width > 0 ==> (h - 1) * width < len <= h * width)
    && (width == 0 ==> h == (if len > 0 then IntMax else if len == 0 then 0 else IntMin))
  }

  /** `(int) Math.ceil((double) len / width)`. */
  function CeilDivByWidth(len: int, width: nat): (h: int)
    ensures IsCeilQuotient(h, len, width)
  {
    if width == 0 then (if len > 0 then IntMax else if len == 0 then 0 else IntMin)
    else CeilDiv(len, width)
  }

  /**
   * `calculateRequiredHeight`: the cell rows the text needs at the given
   * width in cells (the width of the cell rectangle intersected with the
   * requested column span), computed from the length in cells cast to int.
   */
  function RequiredHeight(table: string -> string, text: string, availableWidth: nat): (h: int)
    ensures IsCeilQuotient(h, IntCast(LengthInCells(table, text)), availableWidth)
  {
    CeilDivByWidth(IntCast(LengthInCells(table, text)), availableWidth)
  }

  datatype WidthError = UnsupportedMode

  /**
   * `calculateRequiredWidth`: for the printer mode "normalprinter" the
   * smaller of the length in cells and the x coordinate of the cell
   * rectangle; every other mode is unsupported.
   */
  function RequiredWidth(table: string -> string, text: string, mode: string, cellRectX: int): (r: Result<int, WidthError>)
    ensures mode != "normalprinter" <==> r == Err(UnsupportedMode)
    ensures r.Ok? ==> var len := IntCast(LengthInCells(table, text));
      r.value <= len && r.value <= cellRectX && (r.value == len || r.value == cellRectX)
  {
    if mode == "normalprinter" then
      var len := IntCast(LengthInCells(table, text));
      Ok(if len < cellRectX then len else cellRectX)
    else Err(UnsupportedMode)
  }

  /**
   * For a text whose characters all fit one cell, carry no comma in their
   * lower-case entry and are capitals only in A-Z, the rasterizer with
   * normal writing on writes exactly as many cells as the length in cells
   * counts.
   */
  lemma {:induction false} LengthCountsPlannedCells(table: string -> string, text: string, cellWidth: nat, cellHeight: nat)
    requires text != []
    requires forall i :: 0 <= i < |text| ==>
      && (IsUpperCase(text[i]) ==> 'A' <= text[i] <= 'Z')
      && |table([text[i]])| <= cellWidth * cellHeight
      && ',' !in table([ToLowerCase(text[i])])
    ensures var p := TextPlan(table, text, true, cellWidth, cellHeight);
      p.writeCharNormaly && |p.cells| == LengthInCells(table, text)
  {
    PlanCount(table, text, cellWidth, cellHeight);
    MultipleCellsZero(table, text);
  }

  lemma {:induction false} PlanCount(table: string -> string, text: string, cellWidth: nat, cellHeight: nat)
    requires forall i :: 0 <= i < |text| ==>
      && (IsUpperCase(text[i]) ==> 'A' <= text[i] <= 'Z')
      && |table([text[i]])| <= cellWidth * cellHeight
    ensures var p := TextPlan(table, text, true, cellWidth, cellHeight);
      p.writeCharNormaly && |p.cells| == |text| + CountWhere(text, 'A', 'Z') + CountWhere(text, '0', '9')
  {
    if text != [] {
      var n := |text| - 1;
      PlanCount(table, text[..n], cellWidth, cellHeight);
    }
  }

  lemma {:induction false} MultipleCellsZero(table: string -> string, text: string)
    requires text != []
    requires forall i :: 0 <= i < |text| ==> ',' !in table([ToLowerCase(text[i])])
    ensures MultipleCells(table, text) == 0
  {
    var entries := Characters(LowerCaseString(text));
    assert forall i :: 0 <= i < |entries| ==> entries[i] == [ToLowerCase(text[i])];
    ExtraCellsZero(table, entries);
  }

  lemma {:induction false} ExtraCellsZero(table: string -> string, entries: seq<string>)
    requires forall i :: 0 <= i < |entries| ==> ',' !in table(entries[i])
    ensures ExtraCells(table, entries) == 0
  {
    if entries != [] {
      ExtraCellsZero(table, entries[..|entries| - 1]);
    }
  }

  // ---------------------------------------------------------------------
  // The rasterizer
  // ---------------------------------------------------------------------

  /** The part of the page a text is written into (the text area intersected with the page, in dots). */
  datatype TextArea = TextArea(x: int, y: int, width: int, height: int)

  class BrailleTextRasterizer {
    /** The semantic braille table: character (or "CAP", "NUM") to cell pattern. */
    const table: string -> string

    var x: int
    var y: int
    var origX: int
    var maxWidth: int
    var writeCharNormaly: bool

    constructor (table: string -> string)
      ensures this.table == table && writeCharNormaly
    {
      this.table := table;
      writeCharNormaly := true;
    }

    function Position(): Cursor
      reads this
    {
      Cursor(x, y, origX, maxWidth)
    }

    method JumpToNextCell(cellHeight: nat)
      modifies this
      ensures Position() == Jump(old(Position()), cellHeight)
      ensures writeCharNormaly == old(writeCharNormaly)
    {
      x := x + 2;
      if x >= maxWidth {
        y := y + cellHeight;
        x := origX;
      }
    }

    /**
     * Writes a cell pattern column by column with its top-left dot at
     * (offsetX, offsetY). It fails (the source throws) at the first dot with no
     * pattern entry or off the page; the dots before it stay written.
     */
    static method RasterizeBrailleCell(page: MatrixData, pattern: string, offsetX: int, offsetY: int, cellWidth: nat, cellHeight: nat)
      returns (ok: bool)
      modifies page.cells
      ensures ok <==> CellFits(pattern, offsetX, offsetY, cellWidth, cellHeight, page.RowCount(), page.ColumnCount())
      ensures ok ==> forall r, c :: page.InRange(r, c) ==>
        page.cells[r, c] == Stamped(old(page.cells[r, c]), pattern, offsetX, offsetY, cellWidth, cellHeight, r, c)
      ensures !ok ==> forall r, c :: page.InRange(r, c) ==>
        page.cells[r, c] == old(page.cells[r, c]) ||
        page.cells[r, c] == Stamped(old(page.cells[r, c]), pattern, offsetX, offsetY, cellWidth, cellHeight, r, c)
    {
      var rows, columns := page.RowCount(), page.ColumnCount();
      var j := 0;
      while j < cellWidth
        invariant 0 <= j <= cellWidth
        invariant j * cellHeight <= PatternLength(pattern)
        invariant j > 0 && cellHeight > 0 ==> 0 <= offsetX && offsetX + j <= columns && 0 <= offsetY && offsetY + cellHeight <= rows
        invariant forall r, c :: page.InRange(r, c) ==>
          page.cells[r, c] == if offsetX <= c < offsetX + j && offsetY <= r < offsetY + cellHeight
            then PatternDot(pattern, (c - offsetX) * cellHeight + (r - offsetY)) else old(page.cells[r, c])
      {
        ok := WriteCellColumn(page, pattern, offsetX, offsetY, j, cellHeight);
        if !ok {
          ColumnBelowCell(j, cellWidth, cellHeight);
          return;
        }
        assert (j + 1) * cellHeight == j * cellHeight + cellHeight;
        j := j + 1;
      }
      return true;
    }

    /** Column j of a cell, top to bottom: the inner loop of `rasterizeBrailleCell`. */
    static method WriteCellColumn(page: MatrixData, pattern: string, offsetX: int, offsetY: int, j: nat, cellHeight: nat)
      returns (ok: bool)
      modifies page.cells
      ensures ok <==> (cellHeight == 0 ||
        (j * cellHeight + cellHeight <= PatternLength(pattern) && 0 <= offsetX + j < page.ColumnCount() && 0 <= offsetY && offsetY + cellHeight <= page.RowCount()))
      ensures forall r, c :: page.InRange(r, c) ==>
        page.cells[r, c] == old(page.cells[r, c]) ||
        (c == offsetX + j && offsetY <= r < offsetY + cellHeight && page.cells[r, c] == PatternDot(pattern, j * cellHeight + (r - offsetY)))
      ensures ok ==> forall r, c :: page.InRange(r, c) ==>
        page.cells[r, c] == if c == offsetX + j && offsetY <= r < offsetY + cellHeight
          then PatternDot(pattern, j * cellHeight + (r - offsetY)) else old(page.cells[r, c])
    {
      var k := 0;
      while k < cellHeight
        invariant 0 <= k <= cellHeight
        invariant k > 0 ==> j * cellHeight + k <= PatternLength(pattern)
        invariant k > 0 ==> 0 <= offsetX + j < page.ColumnCount() && 0 <= offsetY && offsetY + k <= page.RowCount()
        invariant forall r, c :: page.InRange(r, c) ==>
          page.cells[r, c] == if c == offsetX + j && offsetY <= r < offsetY + k
            then PatternDot(pattern, j * cellHeight + (r - offsetY)) else old(page.cells[r, c])
      {
        var t := j * cellHeight + k;
        if t >= PatternLength(pattern) || !page.InRange(k + offsetY, j + offsetX) {
          return false;
        }
        page.SetValue(k + offsetY, j + offsetX, PatternDot(pattern, t));
        k := k + 1;
      }
      return true;
    }

    /** Writes one pattern at the cursor and, when that succeeds, advances the cursor. */
    method WritePattern(page: MatrixData, pattern: string, cellWidth: nat, cellHeight: nat) returns (ok: bool)
      modifies this, page.cells
      ensures ok <==> CellFits(pattern, old(x), old(y), cellWidth, cellHeight, page.RowCount(), page.ColumnCount())
      ensures ok ==> Position() == Jump(old(Position()), cellHeight)
      ensures ok ==> forall r, c :: page.InRange(r, c) ==>
        page.cells[r, c] == Stamped(old(page.cells[r, c]), pattern, old(x), old(y), cellWidth, cellHeight, r, c)
      ensures writeCharNormaly == old(writeCharNormaly)
    {
      ok := RasterizeBrailleCell(page, pattern, x, y, cellWidth, cellHeight);
      if ok {
        JumpToNextCell(cellHeight);
      }
    }

    /** `writeChar`: the table pattern of s, written at the cursor. */
    method WriteChar(page: MatrixData, s: string, cellWidth: nat, cellHeight: nat) returns (ok: bool)
      modifies this, page.cells
      ensures ok <==> AllFit([table(s)], old(Position()), cellWidth, cellHeight, page.RowCount(), page.ColumnCount())
      ensures ok ==> Position() == CursorAfter(old(Position()), 1, cellHeight)
      ensures ok ==> forall r, c :: page.InRange(r, c) ==>
        page.cells[r, c] == Drawn(old(page.cells[r, c]), [table(s)], old(Position()), cellWidth, cellHeight, r, c)
      ensures writeCharNormaly == old(writeCharNormaly)
    {
      ghost var start := Position();
      ok := WritePattern(page, table(s), cellWidth, cellHeight);
      OneCell(table(s), start, cellWidth, cellHeight, page.RowCount(), page.ColumnCount());
    }

    /** `checkAndWriteForUpperCase`: a capital gets the CAP pattern written before it. */
    method CheckAndWriteForUpperCase(page: MatrixData, c: char, cellWidth: nat, cellHeight: nat) returns (upper: bool, ok: bool)
      modifies this, page.cells
      ensures upper == IsUpperCase(c)
      ensures var written := if upper then [table("CAP")] else [];
        && (ok <==> AllFit(written, old(Position()), cellWidth, cellHeight, page.RowCount(), page.ColumnCount()))
        && (ok ==> Position() == CursorAfter(old(Position()), |written|, cellHeight))
        && (ok ==> forall r, c :: page.InRange(r, c) ==>
              page.cells[r, c] == Drawn(old(page.cells[r, c]), written, old(Position()), cellWidth, cellHeight, r, c))
      ensures writeCharNormaly == old(writeCharNormaly)
    {
      upper := IsUpperCase(c);
      if upper {
        ok := WriteChar(page, "CAP", cellWidth, cellHeight);
      } else {
        ok := true;
      }
    }

    /**
     * `checkForSpecialChars`: an entry longer than one cell is written part
     * by part (split on ','), advancing the cursor after each part.
     */
    method CheckForSpecialChars(page: MatrixData, s: string, cellWidth: nat, cellHeight: nat) returns (special: bool, ok: bool)
      modifies this, page.cells
      ensures special <==> |table(s)| > cellHeight * cellWidth
      ensures var written := if special then SplitOnComma(table(s)) else [];
        && (ok <==> AllFit(written, old(Position()), cellWidth, cellHeight, page.RowCount(), page.ColumnCount()))
        && (ok ==> Position() == CursorAfter(old(Position()), |written|, cellHeight))
        && (ok ==> forall r, c :: page.InRange(r, c) ==>
              page.cells[r, c] == Drawn(old(page.cells[r, c]), written, old(Position()), cellWidth, cellHeight, r, c))
      ensures writeCharNormaly == old(writeCharNormaly)
    {
      var possibleMultiString := table(s);
      if |possibleMultiString| > cellHeight * cellWidth {
        special := true;
        ok := WriteCells(page, SplitOnComma(possibleMultiString), cellWidth, cellHeight);
      } else {
        special, ok := false, true;
      }
    }

    /** Writes the patterns one after the other, advancing the cursor after each; stops at the first that does not fit. */
    method WriteCells(page: MatrixData, patterns: seq<string>, cellWidth: nat, cellHeight: nat) returns (ok: bool)
      modifies this, page.cells
      ensures ok <==> AllFit(patterns, old(Position()), cellWidth, cellHeight, page.RowCount(), page.ColumnCount())
      ensures ok ==> Position() == CursorAfter(old(Position()), |patterns|, cellHeight)
      ensures ok ==> forall r, c :: page.InRange(r, c) ==>
        page.cells[r, c] == Drawn(old(page.cells[r, c]), patterns, old(Position()), cellWidth, cellHeight, r, c)
      ensures writeCharNormaly == old(writeCharNormaly)
    {
      ghost var start := Position();
      ghost var rows, columns := page.RowCount(), page.ColumnCount();
      var i := 0;
      while i < |patterns|
        invariant 0 <= i <= |patterns|
        invariant AllFit(patterns[..i], start, cellWidth, cellHeight, rows, columns)
        invariant Position() == CursorAfter(start, i, cellHeight)
        invariant forall r, c :: page.InRange(r, c) ==>
          page.cells[r, c] == Drawn(old(page.cells[r, c]), patterns[..i], start, cellWidth, cellHeight, r, c)
        invariant writeCharNormaly == old(writeCharNormaly)
      {
        ghost var cursor := Position();
        ok := WritePattern(page, patterns[i], cellWidth, cellHeight);
        OneMoreCell(patterns, i, start, cellWidth, cellHeight, rows, columns);
        if !ok {
          AllFitPrefix(patterns, i + 1, start, cellWidth, cellHeight, rows, columns);
          return;
        }
        i := i + 1;
      }
      assert patterns[..i] == patterns;
      ok := true;
    }

    /**
     * `rasterize`: writes the text from the top-left corner of the area,
     * character by character, wrapping at the area's width. The flag for
     * normal writing carries over from earlier calls.
     */
    method Rasterize(page: MatrixData, text: string, area: TextArea, cellWidth: nat, cellHeight: nat) returns (ok: bool)
      modifies this, page.cells
      ensures var start := Cursor(area.x, area.y, area.x, area.width);
        var plan := TextPlan(table, text, old(writeCharNormaly), cellWidth, cellHeight);
        && (ok <==> AllFit(plan.cells, start, cellWidth, cellHeight, page.RowCount(), page.ColumnCount()))
        && (ok ==> Position() == CursorAfter(start, |plan.cells|, cellHeight))
        && (ok ==> writeCharNormaly == plan.writeCharNormaly)
        && (ok ==> forall r, c :: page.InRange(r, c) ==>
              page.cells[r, c] == Drawn(old(page.cells[r, c]), plan.cells, start, cellWidth, cellHeight, r, c))
    {
      x := area.x;
      origX := x;
      y := area.y;
      maxWidth := area.width;
      ghost var start := Position();
      ghost var normal := writeCharNormaly;
      ghost var rows, columns := page.RowCount(), page.ColumnCount();
      ghost var written: seq<string> := [];
      var i := 0;
      while i < |text|
        invariant 0 <= i <= |text|
        invariant Plan(written, writeCharNormaly) == TextPlan(table, text[..i], normal, cellWidth, cellHeight)
        invariant AllFit(written, start, cellWidth, cellHeight, rows, columns)
        invariant Position() == CursorAfter(start, |written|, cellHeight)
        invariant forall r, c :: page.InRange(r, c) ==>
          page.cells[r, c] == Drawn(old(page.cells[r, c]), written, start, cellWidth, cellHeight, r, c)
      {
        ghost var cp := CharPlan(table, text[i], writeCharNormaly, cellWidth, cellHeight);
        CharStep(table, text, i, normal, written, writeCharNormaly, start, cellWidth, cellHeight, rows, columns);
        ok := RasterizeChar(page, text[i], cellWidth, cellHeight);
        if !ok {
          return;
        }
        written := written + cp.cells;
        i := i + 1;
      }
      assert text[..i] == text;
      ok := true;
    }

    /** One pass of the character loop of `rasterize`: prefix cells, then the letter itself. */
    method RasterizeChar(page: MatrixData, ch: char, cellWidth: nat, cellHeight: nat) returns (ok: bool)
      modifies this, page.cells
      ensures var cp := CharPlan(table, ch, old(writeCharNormaly), cellWidth, cellHeight);
        && (ok <==> AllFit(cp.cells, old(Position()), cellWidth, cellHeight, page.RowCount(), page.ColumnCount()))
        && (ok ==> Position() == CursorAfter(old(Position()), |cp.cells|, cellHeight))
        && (ok ==> writeCharNormaly == cp.writeCharNormaly)
        && (ok ==> forall r, c :: page.InRange(r, c) ==>
              page.cells[r, c] == Drawn(old(page.cells[r, c]), cp.cells, old(Position()), cellWidth, cellHeight, r, c))
    {
      ghost var cp := CharPlan(table, ch, writeCharNormaly, cellWidth, cellHeight);
      ghost var start := Position();
      ghost var rows, columns := page.RowCount(), page.ColumnCount();
      var letter := [ch];
      var upper, special;
      ghost var prefix: seq<string>;
      upper, special, ok, prefix := WritePrefixCells(page, ch, cellWidth, cellHeight);
      if !ok {
        NotAllFitExtends(prefix, cp.cells, start, cellWidth, cellHeight, rows, columns);
        return;
      }
      if upper {
        letter := [ToLowerCase(ch)];
      }
      if writeCharNormaly {
        ghost var cursor := Position();
        ok := WriteChar(page, letter, cellWidth, cellHeight);
        AppendCells(prefix, [table(letter)], start, cellWidth, cellHeight, rows, columns);
        assert prefix + [table(letter)] == cp.cells;
        return;
      }
      assert prefix == cp.cells;
    }

    /**
     * The branches of the character loop before the letter itself: CAP for a
     * capital, else the parts of a multi-cell entry (normal writing then
     * switches off), else NUM for a digit.
     */
    method WritePrefixCells(page: MatrixData, ch: char, cellWidth: nat, cellHeight: nat)
      returns (upper: bool, special: bool, ok: bool, ghost prefix: seq<string>)
      modifies this, page.cells
      ensures upper == IsUpperCase(ch)
      ensures special <==> !upper && |table([ch])| > cellWidth * cellHeight
      ensures var cp := CharPlan(table, ch, old(writeCharNormaly), cellWidth, cellHeight);
        && prefix <= cp.cells
        && (ok <==> AllFit(prefix, old(Position()), cellWidth, cellHeight, page.RowCount(), page.ColumnCount()))
        && (ok ==> Position() == CursorAfter(old(Position()), |prefix|, cellHeight))
        && (ok ==> writeCharNormaly == cp.writeCharNormaly)
        && (ok ==> forall r, c :: page.InRange(r, c) ==>
              page.cells[r, c] == Drawn(old(page.cells[r, c]), prefix, old(Position()), cellWidth, cellHeight, r, c))
        && (ok ==> cp.cells == prefix + (if cp.writeCharNormaly then [table([if upper then ToLowerCase(ch) else ch])] else []))
    {
      var letter := [ch];
      upper, ok := CheckAndWriteForUpperCase(page, ch, cellWidth, cellHeight);
      prefix := if upper then [table("CAP")] else [];
      if !ok || upper {
        special := false;
        return;
      }
      special, ok := CheckForSpecialChars(page, letter, cellWidth, cellHeight);
      prefix := if special then SplitOnComma(table(letter)) else [];
      if !ok {
        return;
      }
      if special {
        writeCharNormaly := false;
      } else if CheckForNumbers(letter) {
        ok := WriteChar(page, "NUM", cellWidth, cellHeight);
        prefix := [table("NUM")];
      }
    }
  }

  // ---------------------------------------------------------------------
  // Proof helpers for the rasterizer
  // ---------------------------------------------------------------------

  /** Writing pattern i after the first i: fitting, the cursor and the dots extend by that one cell. */
  lemma OneMoreCell(patterns: seq<string>, i: nat, start: Cursor, cellWidth: nat, cellHeight: nat, rows: nat, columns: nat)
    requires i < |patterns|
    ensures var c := CursorAfter(start, i, cellHeight);
      && (AllFit(patterns[..i + 1], start, cellWidth, cellHeight, rows, columns)
          <==> AllFit(patterns[..i], start, cellWidth, cellHeight, rows, columns)
               && CellFits(patterns[i], c.x, c.y, cellWidth, cellHeight, rows, columns))
      && CursorAfter(start, i + 1, cellHeight) == Jump(c, cellHeight)
      && forall before, r, col ::
           Drawn(before, patterns[..i + 1], start, cellWidth, cellHeight, r, col)
           == Stamped(Drawn(before, patterns[..i], start, cellWidth, cellHeight, r, col), patterns[i], c.x, c.y, cellWidth, cellHeight, r, col)
  {
    assert patterns[..i + 1][..i] == patterns[..i];
    assert patterns[..i + 1] == patterns[..i] + [patterns[i]];
    AllFitAppend(patterns[..i], [patterns[i]], start, cellWidth, cellHeight, rows, columns);
    OneCell(patterns[i], CursorAfter(start, i, cellHeight), cellWidth, cellHeight, rows, columns);
  }

  /** Writing a single pattern: it fits, moves the cursor and draws as the one cell does. */
  lemma OneCell(pattern: string, start: Cursor, cellWidth: nat, cellHeight: nat, rows: nat, columns: nat)
    ensures AllFit([pattern], start, cellWidth, cellHeight, rows, columns)
        <==> CellFits(pattern, start.x, start.y, cellWidth, cellHeight, rows, columns)
    ensures CursorAfter(start, 1, cellHeight) == Jump(start, cellHeight)
    ensures forall before, r, c ::
      Drawn(before, [pattern], start, cellWidth, cellHeight, r, c) == Stamped(before, pattern, start.x, start.y, cellWidth, cellHeight, r, c)
  {
    assert [pattern][..0] == [];
    assert CursorAfter(start, 0, cellHeight) == start;
  }

  lemma ColumnBelowCell(j: int, cellWidth: nat, cellHeight: nat)
    requires 0 <= j < cellWidth
    ensures j * cellHeight + cellHeight <= cellWidth * cellHeight
  {
    assert j * cellHeight + cellHeight == (j + 1) * cellHeight;
  }

  lemma AllFitPrefix(patterns: seq<string>, n: nat, start: Cursor, cellWidth: nat, cellHeight: nat, rows: nat, columns: nat)
    requires n <= |patterns|
    requires !AllFit(patterns[..n], start, cellWidth, cellHeight, rows, columns)
    ensures !AllFit(patterns, start, cellWidth, cellHeight, rows, columns)
  {
    var k :| 0 <= k < n && var c := CursorAfter(start, k, cellHeight);
      !CellFits(patterns[..n][k], c.x, c.y, cellWidth, cellHeight, rows, columns);
    assert patterns[..n][k] == patterns[k];
  }

  /** The plan of one more character extends the plan of the text before it. */
  lemma TextPlanStep(table: string -> string, text: string, i: nat, normal: bool, cellWidth: nat, cellHeight: nat)
    requires i < |text|
    ensures var pre := TextPlan(table, text[..i], normal, cellWidth, cellHeight);
      var cp := CharPlan(table, text[i], pre.writeCharNormaly, cellWidth, cellHeight);
      TextPlan(table, text[..i + 1], normal, cellWidth, cellHeight) == Plan(pre.cells + cp.cells, cp.writeCharNormaly)
  {
    assert text[..i + 1][..i] == text[..i];
  }

  /** Writing a then b: fitting, the cursor and the dots compose. */
  lemma AppendCells(a: seq<string>, b: seq<string>, start: Cursor, cellWidth: nat, cellHeight: nat, rows: nat, columns: nat)
    ensures AllFit(a + b, start, cellWidth, cellHeight, rows, columns)
        <==> AllFit(a, start, cellWidth, cellHeight, rows, columns)
             && AllFit(b, CursorAfter(start, |a|, cellHeight), cellWidth, cellHeight, rows, columns)
    ensures CursorAfter(start, |a + b|, cellHeight) == CursorAfter(CursorAfter(start, |a|, cellHeight), |b|, cellHeight)
    ensures forall before, r, c ::
      Drawn(before, a + b, start, cellWidth, cellHeight, r, c) == Drawn(Drawn(before, a, start, cellWidth, cellHeight, r, c), b, CursorAfter(start, |a|, cellHeight), cellWidth, cellHeight, r, c)
  {
    AllFitAppend(a, b, start, cellWidth, cellHeight, rows, columns);
    CursorAfterAppend(start, |a|, |b|, cellHeight);
    forall before, r, c
      ensures Drawn(before, a + b, start, cellWidth, cellHeight, r, c)
        == Drawn(Drawn(before, a, start, cellWidth, cellHeight, r, c), b, CursorAfter(start, |a|, cellHeight), cellWidth, cellHeight, r, c)
    {
      DrawnAppend(before, a, b, start, cellWidth, cellHeight, r, c);
    }
  }

  /**
   * A cell that does not fit while character i is written means the plan
   * of the whole text does not fit.
   */
  lemma Abandon(table: string -> string, text: string, i: nat, written: seq<string>, done: seq<string>, more: seq<string>,
                normal: bool, start: Cursor, cellWidth: nat, cellHeight: nat, rows: nat, columns: nat)
    requires i < |text|
    requires var pre := TextPlan(table, text[..i], normal, cellWidth, cellHeight);
      && written == pre.cells + done
      && done + more <= CharPlan(table, text[i], pre.writeCharNormaly, cellWidth, cellHeight).cells
    requires !AllFit(written + more, start, cellWidth, cellHeight, rows, columns)
    ensures !AllFit(TextPlan(table, text, normal, cellWidth, cellHeight).cells, start, cellWidth, cellHeight, rows, columns)
  {
    WrittenInPlan(table, text, i, written, done, more, normal, cellWidth, cellHeight);
    NotAllFitExtends(written + more, TextPlan(table, text, normal, cellWidth, cellHeight).cells, start, cellWidth, cellHeight, rows, columns);
  }

  /** The cells written before character i, then part of its own cells, are a prefix of the whole plan. */
  lemma WrittenInPlan(table: string -> string, text: string, i: nat, written: seq<string>, done: seq<string>, more: seq<string>,
                      normal: bool, cellWidth: nat, cellHeight: nat)
    requires i < |text|
    requires var pre := TextPlan(table, text[..i], normal, cellWidth, cellHeight);
      && written == pre.cells + done
      && done + more <= CharPlan(table, text[i], pre.writeCharNormaly, cellWidth, cellHeight).cells
    ensures written + more <= TextPlan(table, text, normal, cellWidth, cellHeight).cells
  {
    var pre := TextPlan(table, text[..i], normal, cellWidth, cellHeight);
    var cp := CharPlan(table, text[i], pre.writeCharNormaly, cellWidth, cellHeight);
    PlanUpToChar(table, text, i, normal, cellWidth, cellHeight);
    PrefixOfPrefix(pre.cells, done, more, cp.cells, written, TextPlan(table, text, normal, cellWidth, cellHeight).cells);
  }

  /**
   * One character of the text: its cells extend the plan, the fitting, the
   * cursor and the dots of the text before it, and when they do not fit
   * where that text leaves the cursor, the whole plan does not fit.
   */
  lemma CharStep(table: string -> string, text: string, i: nat, normal: bool, written: seq<string>, flag: bool,
                 start: Cursor, cellWidth: nat, cellHeight: nat, rows: nat, columns: nat)
    requires i < |text|
    requires Plan(written, flag) == TextPlan(table, text[..i], normal, cellWidth, cellHeight)
    ensures var cp := CharPlan(table, text[i], flag, cellWidth, cellHeight);
      var after := CursorAfter(start, |written|, cellHeight);
      && TextPlan(table, text[..i + 1], normal, cellWidth, cellHeight) == Plan(written + cp.cells, cp.writeCharNormaly)
      && (AllFit(written + cp.cells, start, cellWidth, cellHeight, rows, columns)
          <==> AllFit(written, start, cellWidth, cellHeight, rows, columns) && AllFit(cp.cells, after, cellWidth, cellHeight, rows, columns))
      && CursorAfter(start, |written + cp.cells|, cellHeight) == CursorAfter(after, |cp.cells|, cellHeight)
      && (forall before, r, c ::
            Drawn(before, written + cp.cells, start, cellWidth, cellHeight, r, c)
            == Drawn(Drawn(before, written, start, cellWidth, cellHeight, r, c), cp.cells, after, cellWidth, cellHeight, r, c))
      && (!AllFit(cp.cells, after, cellWidth, cellHeight, rows, columns)
          ==> !AllFit(TextPlan(table, text, normal, cellWidth, cellHeight).cells, start, cellWidth, cellHeight, rows, columns))
  {
    TextPlanStep(table, text, i, normal, cellWidth, cellHeight);
    AppendCells(written, CharPlan(table, text[i], flag, cellWidth, cellHeight).cells, start, cellWidth, cellHeight, rows, columns);
    if !AllFit(CharPlan(table, text[i], flag, cellWidth, cellHeight).cells, CursorAfter(start, |written|, cellHeight), cellWidth, cellHeight, rows, columns) {
      AbandonChar(table, text, i, normal, start, cellWidth, cellHeight, rows, columns);
    }
  }

  /** A character whose cells do not fit where the plan before it leaves the cursor: the whole plan does not fit. */
  lemma AbandonChar(table: string -> string, text: string, i: nat, normal: bool, start: Cursor,
                    cellWidth: nat, cellHeight: nat, rows: nat, columns: nat)
    requires i < |text|
    requires var pre := TextPlan(table, text[..i], normal, cellWidth, cellHeight);
      var cp := CharPlan(table, text[i], pre.writeCharNormaly, cellWidth, cellHeight);
      !AllFit(cp.cells, CursorAfter(start, |pre.cells|, cellHeight), cellWidth, cellHeight, rows, columns)
    ensures !AllFit(TextPlan(table, text, normal, cellWidth, cellHeight).cells, start, cellWidth, cellHeight, rows, columns)
  {
    var pre := TextPlan(table, text[..i], normal, cellWidth, cellHeight);
    var cp := CharPlan(table, text[i], pre.writeCharNormaly, cellWidth, cellHeight);
    AppendCells(pre.cells, cp.cells, start, cellWidth, cellHeight, rows, columns);
    assert [] + cp.cells == cp.cells;
    assert pre.cells + [] == pre.cells;
    Abandon(table, text, i, pre.cells, [], cp.cells, normal, start, cellWidth, cellHeight, rows, columns);
  }

  /** The plan up to and including character i is a prefix of the whole plan. */
  lemma PlanUpToChar(table: string -> string, text: string, i: nat, normal: bool, cellWidth: nat, cellHeight: nat)
    requires i < |text|
    ensures var pre := TextPlan(table, text[..i], normal, cellWidth, cellHeight);
      var cp := CharPlan(table, text[i], pre.writeCharNormaly, cellWidth, cellHeight);
      pre.cells + cp.cells <= TextPlan(table, text, normal, cellWidth, cellHeight).cells
  {
    TextPlanStep(table, text, i, normal, cellWidth, cellHeight);
    TextPlanPrefix(table, text, i + 1, normal, cellWidth, cellHeight);
  }

  lemma NotAllFitExtends(prefix: seq<string>, patterns: seq<string>, start: Cursor, cellWidth: nat, cellHeight: nat, rows: nat, columns: nat)
    requires prefix <= patterns
    requires !AllFit(prefix, start, cellWidth, cellHeight, rows, columns)
    ensures !AllFit(patterns, start, cellWidth, cellHeight, rows, columns)
  {
    assert patterns[..|prefix|] == prefix;
    AllFitPrefix(patterns, |prefix|, start, cellWidth, cellHeight, rows, columns);
  }

  lemma PrefixOfPrefix<T>(a: seq<T>, done: seq<T>, more: seq<T>, c: seq<T>, written: seq<T>, w: seq<T>)
    requires written == a + done && done + more <= c && a + c <= w
    ensures written + more <= w
  {
    assert written + more == (a + c)[..|written + more|];
  }
}
