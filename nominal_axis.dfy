/**
 * The axis of a bar chart's categories: one unit interval per category, the
 * category labels looked up by rounding an axis value to a category number,
 * and the audio labels that name the categories on either side of a tick.
 *
 * Values on the axis are `double`s in the source; here they are exact
 * reals. The category number is `(int) Math.round(value)`, rounding half up,
 * saturating to `long` and then keeping the low 32 bits.
 */
module Nominal {
  import opened Wrappers
  import opened JavaNumbers

  /** `Constants.CHAR_WIDTH`: the width of one printed character, in millimetres. */
  const CharWidth: real := 6.5

  /** A closed interval of axis values. */
  datatype Range = Range(from: real, to: real)

  /**
   * A constructed nominal axis: the categories in axis order, the unit passed
   * in, and the interval and range fields the constructor sets.
   */
  datatype NominalAxis = NominalAxis(
    categories: seq<string>,
    unit: string,
    ticInterval: real,
    gridInterval: real,
    labelInterval: real,
    ticRange: Range,
    range: Range,
    labelRange: Range)

  // ---------------------------------------------------------------------
  // The constructor
  // ---------------------------------------------------------------------

  /** The length of the longest label, 0 for no labels. */
  function LongestLabel(categories: seq<string>): nat
  {
    if categories == [] then 0
    else
      var rest := LongestLabel(categories[..|categories| - 1]);
      var last := |categories[|categories| - 1]|;
      if last > rest then last else rest
  }

  /** The longest label is as long as some label and no label is longer. */
  lemma {:induction false} LongestLabelIsMaximum(categories: seq<string>)
    ensures forall i :: 0 <= i < |categories| ==> |categories[i]| <= LongestLabel(categories)
    ensures categories != [] ==> exists i :: 0 <= i < |categories| && |categories[i]| == LongestLabel(categories)
  {
    if categories != [] {
      var n := |categories| - 1;
      var front := categories[..n];
      LongestLabelIsMaximum(front);
      assert forall i :: 0 <= i < n ==> categories[i] == front[i];
      if |categories[n]| < LongestLabel(front) {
        var i :| 0 <= i < n && |front[i]| == LongestLabel(front);
        assert |categories[i]| == LongestLabel(categories);
      } else {
        assert |categories[n]| == LongestLabel(categories);
      }
    }
  }

  /** The constructor's loop over the labels, keeping the longest length seen. */
  method MaxLabelLength(categories: seq<string>) returns (maxLabelLength: nat)
    ensures maxLabelLength == LongestLabel(categories)
  {
    maxLabelLength := 0;
    var i := 0;
    while i < |categories|
      invariant 0 <= i <= |categories|
      invariant maxLabelLength == LongestLabel(categories[..i])
    {
      assert categories[..i + 1][..i] == categories[..i];
      if |categories[i]| > maxLabelLength {
        maxLabelLength := |categories[i]|;
      }
      i := i + 1;
    }
    assert categories[..i] == categories;
  }

  /**
   * Whether the constructor warns that the labels do not fit: the space per
   * category, `size / categories.size()`, is less than the width of the
   * longest label plus one character. With no categories the division is by
   * zero; the quotient is then -Infinity (warning) for a negative size and
   * +Infinity or NaN (no warning) otherwise.
   */
  predicate LabelsCrowded(categories: seq<string>, size: real)
  {
    if categories == [] then size < 0.0
    else size / (|categories| as real) < CharWidth * ((LongestLabel(categories) + 1) as real)
  }

  /**
   * `new NominalAxis(categories, size, unit)`: every interval is 1, the tick
   * range and the range are [0, n] and the label range is [0, n - 1] for n
   * categories. Crowded labels only produce a warning; construction never
   * fails.
   */
  method NewNominalAxis(categories: seq<string>, size: real, unit: string) returns (axis: NominalAxis, warned: bool)
    ensures axis.categories == categories && axis.unit == unit
    ensures axis.ticInterval == 1.0 && axis.gridInterval == 1.0 && axis.labelInterval == 1.0
    ensures axis.ticRange == Range(0.0, |categories| as real) && axis.range == axis.ticRange
    ensures axis.labelRange == Range(0.0, (|categories| - 1) as real)
    ensures warned <==> LabelsCrowded(categories, size)
  {
    var maxLabelLength := MaxLabelLength(categories);
    if categories == [] {
      warned := size < 0.0;
    } else {
      var categorySize := size / (|categories| as real);
      warned := categorySize < CharWidth * ((maxLabelLength + 1) as real);
    }
    var ticRange := Range(0.0, |categories| as real);
    axis := NominalAxis(categories, unit, 1.0, 1.0, 1.0, ticRange, ticRange, Range(0.0, (|categories| - 1) as real));
  }

  // ---------------------------------------------------------------------
  // Labels
  // ---------------------------------------------------------------------

  /** `(int) Math.round(value)`. */
  function CategoryNumber(value: real): (i: int)
    ensures IntMin <= i <= IntMax
  {
    IntCast(Round(value))
  }

  /** For a value within the int range, the category number is the nearest integer, halves rounded up. */
  lemma CategoryNumberNearest(value: real)
    requires (IntMin as real) <= value < (IntMax as real)
    ensures (CategoryNumber(value) as real) - 0.5 <= value < (CategoryNumber(value) as real) + 0.5
  {
    var l := Round(value);
    assert (l as real) - 0.5 <= value < (l as real) + 0.5;
    assert IntMin <= l <= IntMax;
  }

  /** `formatForAxisLabel`: the label of the category the value rounds to, or nothing (null) off the axis. */
  function FormatForAxisLabel(axis: NominalAxis, value: real): (name: Option<string>)
    ensures name.Some? <==> 0 <= CategoryNumber(value) < |axis.categories|
    ensures name.Some? ==> name.value in axis.categories
  {
    var categoryNumber := CategoryNumber(value);
    if |axis.categories| <= categoryNumber || categoryNumber < 0 then None
    else Some(axis.categories[categoryNumber])
  }

  /** Every value within half a unit of category k is labelled with category k. */
  lemma AxisLabelOfCategory(axis: NominalAxis, k: int, value: real)
    requires 0 <= k < |axis.categories| && k < IntMax
    requires (k as real) - 0.5 <= value < (k as real) + 0.5
    ensures FormatForAxisLabel(axis, value) == Some(axis.categories[k])
  {
    CategoryNumberNearest(value);
    RoundUnique(value, k, CategoryNumber(value));
  }

  /** A value that rounds to a point before the first category or after the last one has no label. */
  lemma NoAxisLabelOffAxis(axis: NominalAxis, value: real)
    requires (IntMin as real) <= value < (IntMax as real)
    requires value < -0.5 || value >= (|axis.categories| as real) - 0.5
    ensures FormatForAxisLabel(axis, value) == None
  {
    CategoryNumberNearest(value);
  }

  /**
   * The cast keeps only the low 32 bits of the rounded value: a value 2^32
   * beyond the first category is labelled as the first category.
   */
  lemma AxisLabelWrapsAround(axis: NominalAxis)
    requires |axis.categories| > 0
    ensures FormatForAxisLabel(axis, 4294967296.0) == Some(axis.categories[0])
  {
    assert Round(4294967296.0) == 4294967296 by {
      assert (4294967296.0 + 0.5).Floor == 4294967296;
    }
    assert IntCast(4294967296) == 0;
  }

  /** Two integers within half a unit of the same value are equal. */
  lemma RoundUnique(value: real, a: int, b: int)
    requires (a as real) - 0.5 <= value < (a as real) + 0.5
    requires (b as real) - 0.5 <= value < (b as real) + 0.5
    ensures a == b
  {
  }

  /** The source reads `categories.get(0)` of an empty list. */
  datatype LabelError = IndexOutOfBounds

  /**
   * `formatForAxisAudioLabel`: at category number 0, "|" and the first
   * label; at n, the last label and "|"; strictly between, the labels on
   * both sides of the tick joined by "|"; nothing (null) elsewhere. With no
   * categories, number 0 reads a label that does not exist and the source
   * throws.
   */
  function FormatForAxisAudioLabel(axis: NominalAxis, value: real): (r: Result<Option<string>, LabelError>)
    ensures r.Err? <==> CategoryNumber(value) == 0 && axis.categories == []
    ensures r.Ok? ==> (r.value.Some? <==> 0 <= CategoryNumber(value) <= |axis.categories|)
  {
    var categoryNumber := CategoryNumber(value);
    var n := |axis.categories|;
    if categoryNumber == 0 then
      if n == 0 then Err(IndexOutOfBounds) else Ok(Some("|" + axis.categories[categoryNumber]))
    else if categoryNumber == n then
      Ok(Some(axis.categories[categoryNumber - 1] + "|"))
    else if categoryNumber > 0 && categoryNumber < n then
      Ok(Some(axis.categories[categoryNumber - 1] + "|" + axis.categories[categoryNumber]))
    else
      Ok(None)
  }

  /**
   * Between two categories the audio label joins the axis label of the
   * category before the tick and of the category at it; at the two ends it
   * marks the missing side with a bare "|".
   */
  lemma AudioLabelJoinsNeighbours(axis: NominalAxis, value: real)
    requires (IntMin as real) + 1.0 <= value < (IntMax as real)
    requires |axis.categories| > 0
    ensures var i, n := CategoryNumber(value), |axis.categories|;
      && (0 < i < n ==>
            FormatForAxisAudioLabel(axis, value)
            == Ok(Some(FormatForAxisLabel(axis, value - 1.0).value + "|" + FormatForAxisLabel(axis, value).value)))
      && (i == 0 ==> FormatForAxisAudioLabel(axis, value) == Ok(Some("|" + FormatForAxisLabel(axis, value).value)))
      && (i == n ==> FormatForAxisAudioLabel(axis, value) == Ok(Some(FormatForAxisLabel(axis, value - 1.0).value + "|")))
  {
    var i := CategoryNumber(value);
    CategoryNumberNearest(value);
    CategoryNumberNearest(value - 1.0);
    RoundUnique(value - 1.0, i - 1, CategoryNumber(value - 1.0));
  }

  /** `formatForSymbolAudioLabel`: the same label as `formatForAxisLabel`. */
  function FormatForSymbolAudioLabel(axis: NominalAxis, value: real): (name: Option<string>)
    ensures name == FormatForAxisLabel(axis, value)
  {
    FormatForAxisLabel(axis, value)
  }
}
