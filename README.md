# BraillePlot core, modelled in Dafny

BraillePlot turns charts, images and text into braille graphics for embossers.
This project models the rendering core and the configuration checks around it:

- `matrix_data.dfy` (module `MatrixPages`): a page of dots (`MatrixData`), its
  setter and the order in which its dot iterator visits the dots, braille cell
  by braille cell.
- `bar_chart.dfy` (module `BarChartRasterizer`): the uniform-texture bar chart
  rasterizer. It checks for a 6-dot or 8-dot raster and carves the layout
  strips off the cell rectangle. It splits the texture units between the
  negative and the positive range, finds the bar thickness, draws the textured
  bars bottom-up and builds the x-axis label map.
- `braille_text.dfy` (module `BrailleText`): the braille text rasterizer. It has
  a cursor that wraps at the area's width, capital and number prefix cells,
  table entries that span several cells, and the length and area calculations.
- `nominal_axis.dfy` (module `Nominal`): the axis of a chart's categories, with
  its constructor and its label lookups.
- `image.dfy` (module `Images`): the image rasterizer. It computes gray values
  and maps pixels to dots, either linearly or through the canvas's millimetre
  quantification.
- `config_validator.dfy` (module `ConfigValidation`): the validator of
  properties files. It holds the table of printer and format properties, the
  value checks, the splitting of a key into prefix, format and name, and the
  completeness check.
- `setting_type.dfy` (module `Settings`): the command-line setting names.
- `general_resource.dfy` (module `Resources`): stripping the jar path from a
  resource path and converting separators to class-path form.
- `java_numbers.dfy` (module `JavaNumbers`): Java's `Math.round`, the `(int)`
  cast and ceiling division, written out exactly.
- `wrappers.dfy` (module `Wrappers`): `Option` and `Result`.

Java `double`s are exact reals here. `Math.round` is `floor(x + 1/2)`,
saturated to the `long` range. An `(int)` cast keeps the low 32 bits.
Collaborators outside the core become parameters or opaque function fields:

- the canvas's cell and dot conversions, and its millimetre quantification;
- the semantic braille table;
- the title height measured by Liblouis;
- the x-axis step chosen by `findAxisScaling`;
- `Double.parseDouble`, the file system and the printer lookups (an
  `Environment`);
- the platform's file separator.

A source path that throws becomes an error value (`Result`, `Option`, or an
`ok` flag next to the page state).

## Model

| member | source | states |
|---|---|---|
| MatrixPages.MatrixData.constructor | src/main/java/de/tudresden/inf/mci/brailleplot/printabledata/MatrixData.java:52-62 | A new page has the given row and column counts and no dot set. |
| MatrixPages.MatrixData.SetValue | src/main/java/de/tudresden/inf/mci/brailleplot/printabledata/MatrixData.java:43-50 | The dot at (row, column) reads back the value set; every other dot and both dimensions are unchanged. |
| MatrixPages.MatrixData.DotValues | src/main/java/de/tudresden/inf/mci/brailleplot/printabledata/MatrixData.java:24-41 | The iterator yields rows × columns values, and the k-th is the dot at the k-th iterator position. |
| MatrixPages.DotPosition | src/main/java/de/tudresden/inf/mci/brailleplot/printabledata/MatrixData.java:24-41 | The k-th visited position lies on the page: cells left to right and then cell rows top to bottom, and within a cell row by row. |
| MatrixPages.DotIndex | src/main/java/de/tudresden/inf/mci/brailleplot/printabledata/MatrixData.java:24-41 | Every dot of the page has an iterator index below rows × columns. |
| MatrixPages.IndexInPage | src/main/java/de/tudresden/inf/mci/brailleplot/printabledata/MatrixData.java:24-41 | A dot's number within its cell is below the cell size, and its index is within the page. |
| MatrixPages.IndexOfPosition | src/main/java/de/tudresden/inf/mci/brailleplot/printabledata/MatrixData.java:24-41 | The position visited at index k maps back to index k. |
| MatrixPages.PositionOfIndex | src/main/java/de/tudresden/inf/mci/brailleplot/printabledata/MatrixData.java:24-41 | Every dot is visited at the index that maps back to it. |
| MatrixPages.PositionOfCellDot | src/main/java/de/tudresden/inf/mci/brailleplot/printabledata/MatrixData.java:24-41 | The d-th dot of the cell-th cell is visited at index cell × cellSize + d. |
| MatrixPages.VisitsEveryDotOnce | src/main/java/de/tudresden/inf/mci/brailleplot/printabledata/MatrixData.java:24-41 | The iterator is a bijection between the indices 0 .. rows × columns - 1 and the page's dots: every dot is visited, and no dot is visited twice. |
| MatrixPages.DotOrder | src/main/java/de/tudresden/inf/mci/brailleplot/printabledata/MatrixData.java:24-41 | Dot A is visited before dot B iff A's cell row is higher; or the cell rows agree and A's cell is further left; or both are in one cell and A is in a higher row, or in the same row and further left. |
| MatrixPages.CellOrder | src/main/java/de/tudresden/inf/mci/brailleplot/printabledata/MatrixData.java:24-41 | Cells are numbered row by row and left to right, and two dots share a cell number iff they share a cell. |
| MatrixPages.InCellOrder | src/main/java/de/tudresden/inf/mci/brailleplot/printabledata/MatrixData.java:24-41 | Within a cell the dots are numbered row by row and left to right. |
| MatrixPages.DocumentedExample | src/main/java/de/tudresden/inf/mci/brailleplot/printabledata/MatrixData.java:28-35 | On a 6 × 4 page of 2 × 3 cells, every dot is visited at the documented number. |
| MatrixPages.ExampleIndex | src/main/java/de/tudresden/inf/mci/brailleplot/printabledata/MatrixData.java:28-35 | The closed form of the documented example's numbering. |
| JavaNumbers.Round | src/main/java/de/tudresden/inf/mci/brailleplot/rendering/UniformTextureBarChartRasterizer.java:133 | `Math.round` is within the long range; for a value in that range it is the nearest integer, with halves rounded up. |
| JavaNumbers.IntCast | src/main/java/de/tudresden/inf/mci/brailleplot/rendering/UniformTextureBarChartRasterizer.java:133 | The `(int)` cast lands in the int range, agrees with its argument modulo 2^32, and keeps every value already in the int range. |
| JavaNumbers.CeilDiv | src/main/java/de/tudresden/inf/mci/brailleplot/rendering/BrailleTextRasterizer.java:192 | For a positive divisor, the ceiling quotient is the least r with a ≤ r × b. |
| JavaNumbers.CeilDivMonotone | src/main/java/de/tudresden/inf/mci/brailleplot/rendering/UniformTextureBarChartRasterizer.java:240-241 | The ceiling quotient is monotone in the dividend. |
| BarChartRasterizer.CarveLayout | src/main/java/de/tudresden/inf/mci/brailleplot/rendering/UniformTextureBarChartRasterizer.java:82-109 | The layout succeeds iff the title and x-axis strips fit the height and the caption and y-axis cells fit the width; otherwise the error is insufficient area. The title strip is at the top and the x-axis strip at the bottom; the bar area lies between them, right of the caption and left of the y-axis cell. |
| BarChartRasterizer.AvailableUnits | src/main/java/de/tudresden/inf/mci/brailleplot/rendering/UniformTextureBarChartRasterizer.java:125 | The unit count is within the int range; without saturation it is the number of whole 2-dot texture units across the bar area. |
| BarChartRasterizer.SplitUnits | src/main/java/de/tudresden/inf/mci/brailleplot/rendering/UniformTextureBarChartRasterizer.java:118-134 | The negative and positive units add up to the available units. There are no negative units without negative values, and no positive units when all values are below zero. The negative units are the rounded share of the negative range. |
| BarChartRasterizer.RoundedShare | src/main/java/de/tudresden/inf/mci/brailleplot/rendering/UniformTextureBarChartRasterizer.java:133 | The rounded share of the units lies in [0, units], within half a unit of the exact share; share 0 gives 0 and the whole range gives all units. |
| BarChartRasterizer.RoundUnits | src/main/java/de/tudresden/inf/mci/brailleplot/rendering/UniformTextureBarChartRasterizer.java:133 | A share in [0, units] rounds to the nearest integer in [0, units]. |
| BarChartRasterizer.ShareInRange | src/main/java/de/tudresden/inf/mci/brailleplot/rendering/UniformTextureBarChartRasterizer.java:133 | A part of the range scaled to the units lies within [0, units]. |
| BarChartRasterizer.BarLength | src/main/java/de/tudresden/inf/mci/brailleplot/rendering/UniformTextureBarChartRasterizer.java:158 | A bar length is a whole number of texture units and an int. Within the int range it is twice the value's rounded step count. A zero step (a chart whose values are all zero) divides by zero: a positive value saturates through `Long.MAX_VALUE` to length -2, any other value gives 0. |
| BarChartRasterizer.EvenCast | src/main/java/de/tudresden/inf/mci/brailleplot/rendering/UniformTextureBarChartRasterizer.java:158 | An even number stays even through the `(int)` cast. |
| BarChartRasterizer.RequiredCellsMonotone | src/main/java/de/tudresden/inf/mci/brailleplot/rendering/UniformTextureBarChartRasterizer.java:233-244 | A thicker bar never needs fewer cells. |
| BarChartRasterizer.ThickestFit | src/main/java/de/tudresden/inf/mci/brailleplot/rendering/UniformTextureBarChartRasterizer.java:212-244 | There is a thickness iff one of 5, 7 or 9 fits the available cells; it is then the largest that fits. The error reports the categories, the cells the minimum thickness needs and the cells available. |
| BarChartRasterizer.MinimumThicknessDecides | src/main/java/de/tudresden/inf/mci/brailleplot/rendering/UniformTextureBarChartRasterizer.java:212-244 | With at least one category, some thickness fits iff the minimum thickness 5 fits. |
| BarChartRasterizer.FindBarThickness | src/main/java/de/tudresden/inf/mci/brailleplot/rendering/UniformTextureBarChartRasterizer.java:212-244 | The search loop answers exactly what `ThickestFit` describes. |
| BarChartRasterizer.PaintedSnoc | src/main/java/de/tudresden/inf/mci/brailleplot/rendering/UniformTextureBarChartRasterizer.java:153-162 | Painting one more bar textures the page on top of the bars before it. |
| BarChartRasterizer.TextureColumns | src/main/java/de/tudresden/inf/mci/brailleplot/rendering/UniformTextureBarChartRasterizer.java:281-297 | The texture loop's i-th dot column is column i of the bar; every column of the bar is visited once. |
| BarChartRasterizer.DottedColumn | src/main/java/de/tudresden/inf/mci/brailleplot/rendering/UniformTextureBarChartRasterizer.java:290-294 | An odd column is dotted: every other row, from the bar's bottom line up. |
| BarChartRasterizer.FillColumn | src/main/java/de/tudresden/inf/mci/brailleplot/rendering/UniformTextureBarChartRasterizer.java:287 | Rows top to bottom of the column get the value; no other dot changes. |
| BarChartRasterizer.DotColumn | src/main/java/de/tudresden/inf/mci/brailleplot/rendering/UniformTextureBarChartRasterizer.java:290-294 | Every second row from the bottom of the span is set; no other dot changes. |
| BarChartRasterizer.TextureColumnStep | src/main/java/de/tudresden/inf/mci/brailleplot/rendering/UniformTextureBarChartRasterizer.java:281-297 | Drawing column i textures exactly that column of the bar. |
| BarChartRasterizer.DrawTextureColumn | src/main/java/de/tudresden/inf/mci/brailleplot/rendering/UniformTextureBarChartRasterizer.java:284-296 | One pass of the texture loop: the even columns are filled, the odd ones dotted, and nothing outside the column changes. |
| BarChartRasterizer.DrawBarTexture | src/main/java/de/tudresden/inf/mci/brailleplot/rendering/UniformTextureBarChartRasterizer.java:281-297 | The loop completes iff every column of the bar fits on the page. The page is its old state with the bar's columns textured up to the first column that does not fit. |
| BarChartRasterizer.DrawHorizontalBar | src/main/java/de/tudresden/inf/mci/brailleplot/rendering/UniformTextureBarChartRasterizer.java:257-313 | It answers the next bar's reference cell row iff the bar fits on the page. The bar's texture columns before the first column off the page are drawn either way. |
| BarChartRasterizer.FittingColumns | src/main/java/de/tudresden/inf/mci/brailleplot/rendering/UniformTextureBarChartRasterizer.java:281-297 | The number of leading columns of the bar that lie on the page: each column before it fits, the one at it does not, and it is the column count iff the whole bar fits. |
| BarChartRasterizer.Stack | src/main/java/de/tudresden/inf/mci/brailleplot/rendering/UniformTextureBarChartRasterizer.java:153-162 | One bar per value, in the values' order. |
| BarChartRasterizer.StackAt | src/main/java/de/tudresden/inf/mci/brailleplot/rendering/UniformTextureBarChartRasterizer.java:153-162 | Bar k is placed at the row the bar before it answers (the bar area's bottom for the first), with the length of value k. |
| BarChartRasterizer.XAxisLabels | src/main/java/de/tudresden/inf/mci/brailleplot/rendering/UniformTextureBarChartRasterizer.java:183-189 | The map's keys are exactly the ticks -(negUnits/2) .. posUnits/2, each labelled with the next letter from 'a' (a 16-bit char). |
| BarChartRasterizer.FirstLabelsAreLetters | src/main/java/de/tudresden/inf/mci/brailleplot/rendering/UniformTextureBarChartRasterizer.java:184-187 | The first 26 ticks are labelled 'a' to 'z'. |
| BarChartRasterizer.DrawBars | src/main/java/de/tudresden/inf/mci/brailleplot/rendering/UniformTextureBarChartRasterizer.java:153-162 | The bars drawn are a prefix of the stacked bars, each on the page. All are drawn iff the loop completes, and the page is then painted with exactly them. Otherwise the next stacked bar does not fit, and its leading columns are textured over the bars drawn. |
| BarChartRasterizer.Rasterize | src/main/java/de/tudresden/inf/mci/brailleplot/rendering/UniformTextureBarChartRasterizer.java:67-194 | A layout failure is reported as `PlanChart` says and leaves the page unchanged. With a plan, it succeeds iff every planned bar fits on the page. The layout then holds the plan and the label map, whose keys are the ticks and whose values are the letters, and the page is painted with every bar. Otherwise the error names the bars drawn, a prefix of the plan's; the next bar does not fit, and its leading columns are textured. |
| BarChartRasterizer.PlanChart | src/main/java/de/tudresden/inf/mci/brailleplot/rendering/UniformTextureBarChartRasterizer.java:67-142 | The raster error iff the raster is not 6-dot or 8-dot; insufficient area iff the raster is valid and the carving fails; too many categories iff the carving succeeds and no thickness fits. No layout step reports a dot off the page. A plan holds the carved areas, units that add up to the available units, the thickness `ThickestFit` picks and the stacked bars. |
| BarChartRasterizer.LayOut | src/main/java/de/tudresden/inf/mci/brailleplot/rendering/UniformTextureBarChartRasterizer.java:67-142 | The layout steps compute exactly the plan `PlanChart` describes. |
| BarChartRasterizer.DrawChart | src/main/java/de/tudresden/inf/mci/brailleplot/rendering/UniformTextureBarChartRasterizer.java:152-189 | For a plan's stacked bars: success iff every bar fits on the page. On success the page is painted with all bars and the labels map each tick to its letter. Otherwise the error names a prefix of the bars, the next bar does not fit, and its leading columns are textured. |
| BrailleText.ToLowerCase | src/main/java/de/tudresden/inf/mci/brailleplot/rendering/BrailleTextRasterizer.java:76-78 | An upper-case Latin-1 letter maps to its lower-case partner, 32 code points on; every other character is unchanged. |
| BrailleText.LowerCaseString | src/main/java/de/tudresden/inf/mci/brailleplot/rendering/BrailleTextRasterizer.java:222 | Lower-casing a string lowers it character by character and keeps its length. |
| BrailleText.Characters | src/main/java/de/tudresden/inf/mci/brailleplot/rendering/BrailleTextRasterizer.java:61 | `split("")` gives the one-character strings in order, or one empty string for the empty text. |
| BrailleText.Singletons | src/main/java/de/tudresden/inf/mci/brailleplot/rendering/BrailleTextRasterizer.java:61 | The one-character strings of a text, in order. |
| BrailleText.Fields | src/main/java/de/tudresden/inf/mci/brailleplot/rendering/BrailleTextRasterizer.java:109 | The comma-separated fields: at least one, none holding a comma. |
| BrailleText.FirstComma | src/main/java/de/tudresden/inf/mci/brailleplot/rendering/BrailleTextRasterizer.java:109 | The index of the first comma. |
| BrailleText.DropTrailingEmpty | src/main/java/de/tudresden/inf/mci/brailleplot/rendering/BrailleTextRasterizer.java:109 | A prefix of the fields that ends in a non-empty field; every field dropped is empty. |
| BrailleText.SplitOnComma | src/main/java/de/tudresden/inf/mci/brailleplot/rendering/BrailleTextRasterizer.java:109 | `split(",")`: no part holds a comma, and a string without a comma is its only part. |
| BrailleText.FieldsRejoin | src/main/java/de/tudresden/inf/mci/brailleplot/rendering/BrailleTextRasterizer.java:109 | The comma-separated fields, rejoined with commas, give the string back. |
| BrailleText.JoinSplits | src/main/java/de/tudresden/inf/mci/brailleplot/rendering/BrailleTextRasterizer.java:109 | Comma-free fields joined with commas split back into the same fields. |
| BrailleText.JoinSnoc | src/main/java/de/tudresden/inf/mci/brailleplot/rendering/BrailleTextRasterizer.java:109 | Joining one more field appends a comma and that field. |
| BrailleText.JoinCons | src/main/java/de/tudresden/inf/mci/brailleplot/rendering/BrailleTextRasterizer.java:109 | Joining a first field onto at least one more puts one comma between. |
| BrailleText.JoinTrailingEmpties | src/main/java/de/tudresden/inf/mci/brailleplot/rendering/BrailleTextRasterizer.java:109 | Empty fields after the first n join as one trailing comma each. |
| BrailleText.JoinDropped | src/main/java/de/tudresden/inf/mci/brailleplot/rendering/BrailleTextRasterizer.java:109 | The fields joined are the kept fields joined, then one comma per dropped empty field; when no field is kept, only commas. |
| BrailleText.SplitOnCommaRejoins | src/main/java/de/tudresden/inf/mci/brailleplot/rendering/BrailleTextRasterizer.java:109 | Java's limit-0 rule: the fields are the parts followed by empty fields only, and the last part is not empty. The parts rejoined with commas give the string less its trailing commas; a string of commas only has no parts. |
| BrailleText.SplitOnCommaOfJoin | src/main/java/de/tudresden/inf/mci/brailleplot/rendering/BrailleTextRasterizer.java:109 | Two or more comma-free parts, the last non-empty, are what `split(",")` makes of their join. |
| BrailleText.Jump | src/main/java/de/tudresden/inf/mci/brailleplot/rendering/BrailleTextRasterizer.java:140-149 | The cursor moves two dots right, or to the line start one cell height down once it reaches the width. |
| BrailleText.CursorStaysOnLine | src/main/java/de/tudresden/inf/mci/brailleplot/rendering/BrailleTextRasterizer.java:140-149 | From a position on the line, the cursor stays between the line start and the width, and only moves down by whole cell heights. |
| BrailleText.CursorAfterAppend | src/main/java/de/tudresden/inf/mci/brailleplot/rendering/BrailleTextRasterizer.java:140-149 | Moving m cells and then n cells is moving m + n cells. |
| BrailleText.DrawnAppend | src/main/java/de/tudresden/inf/mci/brailleplot/rendering/BrailleTextRasterizer.java:69-90 | Drawing a and then b is drawing a + b. |
| BrailleText.AllFitAppend | src/main/java/de/tudresden/inf/mci/brailleplot/rendering/BrailleTextRasterizer.java:69-90 | a + b fits iff a fits and b fits where a leaves the cursor. |
| BrailleText.CharPlan | src/main/java/de/tudresden/inf/mci/brailleplot/rendering/BrailleTextRasterizer.java:69-90 | A multi-cell entry writes its parts and switches normal writing off; normal writing never switches back on. |
| BrailleText.TextPlan | src/main/java/de/tudresden/inf/mci/brailleplot/rendering/BrailleTextRasterizer.java:69-90 | Normal writing, once off, stays off over the whole text. |
| BrailleText.TextPlanPrefix | src/main/java/de/tudresden/inf/mci/brailleplot/rendering/BrailleTextRasterizer.java:69-90 | The cells written for a prefix of the text are a prefix of the cells for the whole text. |
| BrailleText.OnlyPrefixesAfterMultiCell | src/main/java/de/tudresden/inf/mci/brailleplot/rendering/BrailleTextRasterizer.java:80-88 | With normal writing off, only CAP and NUM cells and parts of multi-cell entries are written. |
| BrailleText.CountWhere | src/main/java/de/tudresden/inf/mci/brailleplot/rendering/BrailleTextRasterizer.java:213-214 | The count of characters in a range is at most the text's length. |
| BrailleText.LengthInCells | src/main/java/de/tudresden/inf/mci/brailleplot/rendering/BrailleTextRasterizer.java:210-218 | The length in cells is at least the text's length and at least 1. |
| BrailleText.CeilDivByWidth | src/main/java/de/tudresden/inf/mci/brailleplot/rendering/BrailleTextRasterizer.java:192 | For a positive width, the height is the least h with len ≤ h × width. A zero width gives the int saturation of ±Infinity, or 0 for 0/0. |
| BrailleText.RequiredHeight | src/main/java/de/tudresden/inf/mci/brailleplot/rendering/BrailleTextRasterizer.java:179-194 | The least number of rows of the available width that holds the text's length in cells, cast to int. |
| BrailleText.RequiredWidth | src/main/java/de/tudresden/inf/mci/brailleplot/rendering/BrailleTextRasterizer.java:197-207 | Every mode other than "normalprinter" is unsupported. Otherwise the width is the smaller of the length in cells and the cell rectangle's x. |
| BrailleText.LengthCountsPlannedCells | src/main/java/de/tudresden/inf/mci/brailleplot/rendering/BrailleTextRasterizer.java:210-218 | For text of one-cell entries whose capitals are A-Z, the rasterizer writes exactly as many cells as the length in cells counts. |
| BrailleText.PlanCount | src/main/java/de/tudresden/inf/mci/brailleplot/rendering/BrailleTextRasterizer.java:69-90 | With one-cell entries, the cells written are one per character plus one per capital and per digit. |
| BrailleText.MultipleCellsZero | src/main/java/de/tudresden/inf/mci/brailleplot/rendering/BrailleTextRasterizer.java:220-232 | Text without multi-cell entries has no extra cells. |
| BrailleText.ExtraCellsZero | src/main/java/de/tudresden/inf/mci/brailleplot/rendering/BrailleTextRasterizer.java:224-229 | Entries without commas add no extra cells. |
| BrailleText.BrailleTextRasterizer.constructor | src/main/java/de/tudresden/inf/mci/brailleplot/rendering/BrailleTextRasterizer.java:38-44 | The rasterizer holds the table, with normal writing on. |
| BrailleText.BrailleTextRasterizer.JumpToNextCell | src/main/java/de/tudresden/inf/mci/brailleplot/rendering/BrailleTextRasterizer.java:140-149 | The cursor moves to the next cell position, wrapping at the width. |
| BrailleText.BrailleTextRasterizer.RasterizeBrailleCell | src/main/java/de/tudresden/inf/mci/brailleplot/rendering/BrailleTextRasterizer.java:158-169 | It succeeds iff every dot of the cell has a pattern entry and lies on the page; then the cell is stamped with the pattern. On failure no dot other than the cell's is touched. |
| BrailleText.BrailleTextRasterizer.WriteCellColumn | src/main/java/de/tudresden/inf/mci/brailleplot/rendering/BrailleTextRasterizer.java:160-168 | Column j of the cell, top to bottom: it succeeds iff its dots fit, and then those dots are stamped. |
| BrailleText.BrailleTextRasterizer.WritePattern | src/main/java/de/tudresden/inf/mci/brailleplot/rendering/BrailleTextRasterizer.java:123-127 | One pattern is written at the cursor iff it fits; then the cursor jumps to the next cell. |
| BrailleText.BrailleTextRasterizer.WriteChar | src/main/java/de/tudresden/inf/mci/brailleplot/rendering/BrailleTextRasterizer.java:123-127 | The table's pattern for s is drawn at the cursor, which moves one cell. |
| BrailleText.BrailleTextRasterizer.CheckAndWriteForUpperCase | src/main/java/de/tudresden/inf/mci/brailleplot/rendering/BrailleTextRasterizer.java:129-138 | It answers whether the character is upper case, and then writes exactly the CAP cell. |
| BrailleText.BrailleTextRasterizer.CheckForSpecialChars | src/main/java/de/tudresden/inf/mci/brailleplot/rendering/BrailleTextRasterizer.java:106-117 | An entry longer than one cell is special, and all its comma-separated parts are written in order. |
| BrailleText.BrailleTextRasterizer.WriteCells | src/main/java/de/tudresden/inf/mci/brailleplot/rendering/BrailleTextRasterizer.java:110-113 | It succeeds iff all patterns fit in turn; then the cursor has moved one cell per pattern and the page holds them drawn. |
| BrailleText.BrailleTextRasterizer.Rasterize | src/main/java/de/tudresden/inf/mci/brailleplot/rendering/BrailleTextRasterizer.java:56-91 | It succeeds iff every cell of the text's plan fits from the area's corner. Then the page is its old state with exactly those cells drawn, the cursor is after them, and the normal-writing flag is the plan's. |
| BrailleText.BrailleTextRasterizer.RasterizeChar | src/main/java/de/tudresden/inf/mci/brailleplot/rendering/BrailleTextRasterizer.java:72-88 | One character's cells are written as its plan says. |
| BrailleText.BrailleTextRasterizer.WritePrefixCells | src/main/java/de/tudresden/inf/mci/brailleplot/rendering/BrailleTextRasterizer.java:76-84 | Upper case and special are decided as the source does (special only when not upper case), and the prefix cells are written. |
| BrailleText.AppendCells | src/main/java/de/tudresden/inf/mci/brailleplot/rendering/BrailleTextRasterizer.java:69-90 | Writing a then b composes: fitting, cursor and dots. |
| BrailleText.AllFitPrefix | src/main/java/de/tudresden/inf/mci/brailleplot/rendering/BrailleTextRasterizer.java:69-90 | If a prefix of the cells does not fit, neither do all of them. |
| BrailleText.Abandon | src/main/java/de/tudresden/inf/mci/brailleplot/rendering/BrailleTextRasterizer.java:69-90 | A character's cells that stop part-way mean the whole text's plan does not fit. |
| Nominal.LongestLabelIsMaximum | src/main/java/de/tudresden/inf/mci/brailleplot/csvparser/NominalAxis.java:37-40 | The longest label length is some label's length, and no label is longer. |
| Nominal.MaxLabelLength | src/main/java/de/tudresden/inf/mci/brailleplot/csvparser/NominalAxis.java:37-40 | The loop answers the longest label length. |
| Nominal.NewNominalAxis | src/main/java/de/tudresden/inf/mci/brailleplot/csvparser/NominalAxis.java:29-56 | Every interval is 1, the tick range and the range are [0, n], and the label range is [0, n-1]. It warns iff the space per category is below the longest label plus one character, with the floating-point results of dividing by zero categories. |
| Nominal.CategoryNumber | src/main/java/de/tudresden/inf/mci/brailleplot/csvparser/NominalAxis.java:60 | The category number is an int. |
| Nominal.CategoryNumberNearest | src/main/java/de/tudresden/inf/mci/brailleplot/csvparser/NominalAxis.java:60 | Within the int range, the category number is the nearest integer, with halves rounded up. |
| Nominal.FormatForAxisLabel | src/main/java/de/tudresden/inf/mci/brailleplot/csvparser/NominalAxis.java:58-66 | There is a label iff the category number is a category's index, and then it is one of the categories. |
| Nominal.AxisLabelOfCategory | src/main/java/de/tudresden/inf/mci/brailleplot/csvparser/NominalAxis.java:58-66 | Every value within half a unit of category k is labelled with category k. |
| Nominal.NoAxisLabelOffAxis | src/main/java/de/tudresden/inf/mci/brailleplot/csvparser/NominalAxis.java:61-62 | Values that round before the first or after the last category have no label. |
| Nominal.AxisLabelWrapsAround | src/main/java/de/tudresden/inf/mci/brailleplot/csvparser/NominalAxis.java:60 | The value 2^32 is labelled as the first category, because the cast keeps only 32 bits. |
| Nominal.RoundUnique | src/main/java/de/tudresden/inf/mci/brailleplot/csvparser/NominalAxis.java:60 | At most one integer lies within half a unit of a value. |
| Nominal.FormatForAxisAudioLabel | src/main/java/de/tudresden/inf/mci/brailleplot/csvparser/NominalAxis.java:68-81 | It fails iff category 0 is asked of an empty axis. Otherwise there is a label iff the number is in [0, n]. |
| Nominal.AudioLabelJoinsNeighbours | src/main/java/de/tudresden/inf/mci/brailleplot/csvparser/NominalAxis.java:68-81 | Between categories, the audio label is the axis labels of the values one before and at the tick, joined by "\|". At the ends the missing side is a bare "\|". |
| Nominal.FormatForSymbolAudioLabel | src/main/java/de/tudresden/inf/mci/brailleplot/csvparser/NominalAxis.java:83-86 | The symbol audio label equals the axis label. |
| Images.ToGrayScaleValue | src/main/java/de/tudresden/inf/mci/brailleplot/rendering/ImageRasterizer.java:221-229 | The gray value is in [0, 255]. |
| Images.GrayOfArgb | src/main/java/de/tudresden/inf/mci/brailleplot/rendering/ImageRasterizer.java:221-229 | The gray value of a packed ARGB colour is the floored mean of red, green and blue; alpha plays no part. |
| Images.ByteOf | src/main/java/de/tudresden/inf/mci/brailleplot/rendering/ImageRasterizer.java:225-227 | Shifting and masking extracts exactly one byte of the packed int. |
| Images.RasterCanvas.constructor | src/main/java/de/tudresden/inf/mci/brailleplot/rendering/ImageRasterizer.java:114 | The canvas holds the given geometry and no pages. |
| Images.RasterCanvas.GetNewPage | src/main/java/de/tudresden/inf/mci/brailleplot/rendering/ImageRasterizer.java:114 | One fresh empty page of the canvas's size is appended and answered. |
| Images.DefaultImageRasterizer | src/main/java/de/tudresden/inf/mci/brailleplot/rendering/ImageRasterizer.java:36-44 | All three switches are on, and the threshold is 80. |
| Images.ScanPixels | src/main/java/de/tudresden/inf/mci/brailleplot/rendering/ImageRasterizer.java:150-163 | It succeeds iff every dark pixel is mapped onto the page; then each dot is its old value or marked by a dark pixel. Dots are only ever set, and only where a dark pixel is mapped. |
| Images.NextPixel | src/main/java/de/tudresden/inf/mci/brailleplot/rendering/ImageRasterizer.java:154-162 | Scanning one more pixel adds exactly that pixel to the marks. |
| Images.NextPixelColumn | src/main/java/de/tudresden/inf/mci/brailleplot/rendering/ImageRasterizer.java:150-163 | Finishing a column of pixels is starting the next. |
| Images.MarkedAtEnd | src/main/java/de/tudresden/inf/mci/brailleplot/rendering/ImageRasterizer.java:150-163 | Once every column is scanned, the marks are the whole image's. |
| Images.MarkedBeforeEnd | src/main/java/de/tudresden/inf/mci/brailleplot/rendering/ImageRasterizer.java:150-163 | A mark made by the pixels scanned so far is a mark of the whole image. |
| Images.ScanStopped | src/main/java/de/tudresden/inf/mci/brailleplot/rendering/ImageRasterizer.java:159-160 | A dark pixel mapped off the page means the image is not mapped onto it. |
| Images.LinearRatios | src/main/java/de/tudresden/inf/mci/brailleplot/rendering/ImageRasterizer.java:124-142 | Each ratio is at most (extent - 1) / pixels. Against over-stretching both are at most 1; to keep the aspect ratio they are equal. |
| Images.LinearRatiosAsWrittenOverrun | src/main/java/de/tudresden/inf/mci/brailleplot/rendering/ImageRasterizer.java:136 | As written, a 10 × 100 image on a 100 × 20 dot area maps its last row to dot row 100, off the area. The corrected ratio maps it to row 19. |
| Images.LinearRatiosAsWrittenDistort | src/main/java/de/tudresden/inf/mci/brailleplot/rendering/ImageRasterizer.java:141 | As written, keeping the aspect ratio leaves ratios 1 and 10 unequal; the corrected ones are both 1. |
| Images.LinearPositionInArea | src/main/java/de/tudresden/inf/mci/brailleplot/rendering/ImageRasterizer.java:153-156 | With a ratio of at most (extent - 1) / pixels, every pixel index maps into [0, extent - 1]. |
| Images.RoundInRange | src/main/java/de/tudresden/inf/mci/brailleplot/rendering/ImageRasterizer.java:153-156 | A position in [0, top] rounds and casts to an index in [0, top]. |
| Images.LinearMapping | src/main/java/de/tudresden/inf/mci/brailleplot/rendering/ImageRasterizer.java:108-165 | A new page of the canvas's size is appended. Each dark pixel sets the dot its linear ratios give; these are the corrected `LinearRatios`, not the ratios as written. It succeeds iff every dark pixel lands on the page, and it cannot fail when the dot area fits on the page. |
| Images.QuantifiedRatios | src/main/java/de/tudresden/inf/mci/brailleplot/rendering/ImageRasterizer.java:175-191 | Against over-stretching the ratios are capped at the dot distances; to keep the aspect ratio they are equal. With neither switch they are the printable extent over the pixel count. |
| Images.QuantifiedPositionMapping | src/main/java/de/tudresden/inf/mci/brailleplot/rendering/ImageRasterizer.java:167-218 | A new page is appended. It succeeds iff every dark pixel's quantified position lies on the page, and then those dots are exactly the ones set. |
| Images.Rasterize | src/main/java/de/tudresden/inf/mci/brailleplot/rendering/ImageRasterizer.java:76-106 | The switch selects one mapping, and exactly one page of the canvas's size is appended. It succeeds iff every dark pixel lands on the page under that mapping, and the page then holds exactly that mapping's dots. The linear mapping cannot fail when its dot area fits on the page. |
| Images.LightImageMarksNothing | src/main/java/de/tudresden/inf/mci/brailleplot/rendering/ImageRasterizer.java:158-161 | An image lighter than the threshold sets no dot and cannot fail, whatever the mapping. |
| Images.DarkImageMarksEveryPosition | src/main/java/de/tudresden/inf/mci/brailleplot/rendering/ImageRasterizer.java:158-161 | An image no lighter than the threshold marks exactly the dots some pixel maps to. |
| Images.WhiteImageMarksNothing | src/main/java/de/tudresden/inf/mci/brailleplot/rendering/ImageRasterizer.java:36 | With the default threshold, a white image of any alpha sets no dot. |
| Images.BlackImageMarksEveryPosition | src/main/java/de/tudresden/inf/mci/brailleplot/rendering/ImageRasterizer.java:36 | With the default threshold, a black image sets every dot a pixel maps to. |
| ConfigValidation.DecimalDigits | src/main/java/de/tudresden/inf/mci/brailleplot/configparser/JavaPropertiesConfigurationValidator.java:222-232 | A natural number's decimal notation is a non-empty string of digits. |
| ConfigValidation.DigitsOfDecimal | src/main/java/de/tudresden/inf/mci/brailleplot/configparser/JavaPropertiesConfigurationValidator.java:222-232 | Reading a number's decimal digits gives the number back. |
| ConfigValidation.IntegerRoundTrip | src/main/java/de/tudresden/inf/mci/brailleplot/configparser/JavaPropertiesConfigurationValidator.java:222-232 | Every integer in decimal matches `-?[0-9]+` and denotes itself, and it passes `checkIfInteger` iff it is in the int range. |
| ConfigValidation.IntegerExamples | src/main/java/de/tudresden/inf/mci/brailleplot/configparser/JavaPropertiesConfigurationValidator.java:222-232 | "", "-", "+1" and "1.0" are not integers. |
| ConfigValidation.LowerCase | src/main/java/de/tudresden/inf/mci/brailleplot/configparser/JavaPropertiesConfigurationValidator.java:246-248 | Lowering ASCII letters keeps the length. |
| ConfigValidation.LowerCaseAt | src/main/java/de/tudresden/inf/mci/brailleplot/configparser/JavaPropertiesConfigurationValidator.java:246-248 | Lowering a string lowers each of its characters. |
| ConfigValidation.LowerCaseEquals | src/main/java/de/tudresden/inf/mci/brailleplot/configparser/JavaPropertiesConfigurationValidator.java:246-248 | Against lower-case text, comparing ignoring case is comparing the lowered value. |
| ConfigValidation.BooleanByLowerCase | src/main/java/de/tudresden/inf/mci/brailleplot/configparser/JavaPropertiesConfigurationValidator.java:246-248 | A value passes `checkIfBoolean` iff, lowered, it is "true" or "false". |
| ConfigValidation.BooleanExamples | src/main/java/de/tudresden/inf/mci/brailleplot/configparser/JavaPropertiesConfigurationValidator.java:246-248 | "true", "FALSE" and "True" pass; "", "yes", "1" and " true" do not. |
| ConfigValidation.PositiveAcceptsZero | src/main/java/de/tudresden/inf/mci/brailleplot/configparser/JavaPropertiesConfigurationValidator.java:250-256 | Zero passes `checkIfPositive`; a negative number and an unparsable value do not. |
| ConfigValidation.Validator.DefineProperty | src/main/java/de/tudresden/inf/mci/brailleplot/configparser/JavaPropertiesConfigurationValidator.java:101-137 | The name's check replaces any earlier one in its kind's table. A required name is appended to its kind's list. The other kind is unchanged. |
| ConfigValidation.Validator.constructor | src/main/java/de/tudresden/inf/mci/brailleplot/configparser/JavaPropertiesConfigurationValidator.java:33-91 | The tables and required lists are exactly the nineteen printer and six format definitions; every required name is defined, and listed once. |
| ConfigValidation.Validator.DefineDeviceProperties | src/main/java/de/tudresden/inf/mci/brailleplot/configparser/JavaPropertiesConfigurationValidator.java:64-68 | The name, mode, braille table and floating-dot properties are defined with their checks. |
| ConfigValidation.Validator.DefineConstraintProperties | src/main/java/de/tudresden/inf/mci/brailleplot/configparser/JavaPropertiesConfigurationValidator.java:69-72 | The four millimetre constraint properties are defined; width and height are optional. |
| ConfigValidation.Validator.DefineRasterProperties | src/main/java/de/tudresden/inf/mci/brailleplot/configparser/JavaPropertiesConfigurationValidator.java:73-82 | The raster constraint, type, distance and diameter properties are defined. |
| ConfigValidation.Validator.DefineFormatProperties | src/main/java/de/tudresden/inf/mci/brailleplot/configparser/JavaPropertiesConfigurationValidator.java:86-91 | The six page and margin format properties are defined, all required. |
| ConfigValidation.Validator.ValidationLookup | src/main/java/de/tudresden/inf/mci/brailleplot/configparser/JavaPropertiesConfigurationValidator.java:203-218 | It accepts iff the name is defined and the value passes its check. An unknown name and a bad value are reported as such. |
| ConfigValidation.Validator.Validate | src/main/java/de/tudresden/inf/mci/brailleplot/configparser/JavaPropertiesConfigurationValidator.java:148-179 | An accepted property carries the value, and its name is defined for its kind. |
| ConfigValidation.Validator.ValidatePrinterKey | src/main/java/de/tudresden/inf/mci/brailleplot/configparser/JavaPropertiesConfigurationValidator.java:157-166 | "printer.<name>" is accepted iff <name> (dots and all) is defined and its value passes, giving that printer property. Otherwise it fails with the lookup's error. |
| ConfigValidation.Validator.ValidateFormatKey | src/main/java/de/tudresden/inf/mci/brailleplot/configparser/JavaPropertiesConfigurationValidator.java:167-175 | "format.<f>.<name>" is accepted iff <name> is defined and its value passes, giving property <name> of format <f>. |
| ConfigValidation.Validator.ValidateKeyWithoutDot | src/main/java/de/tudresden/inf/mci/brailleplot/configparser/JavaPropertiesConfigurationValidator.java:157-178 | A dotless key is a bare prefix: an invalid printer key, an invalid format key, or an invalid prefix. |
| ConfigValidation.Validator.ValidateFormatWithoutName | src/main/java/de/tudresden/inf/mci/brailleplot/configparser/JavaPropertiesConfigurationValidator.java:168-170 | "format.<f>" without a property name is an invalid format key. |
| ConfigValidation.Validator.ValidateOtherPrefix | src/main/java/de/tudresden/inf/mci/brailleplot/configparser/JavaPropertiesConfigurationValidator.java:176-178 | A key with any other part before its first dot fails with that prefix. |
| ConfigValidation.Validator.CheckConfigComplete | src/main/java/de/tudresden/inf/mci/brailleplot/configparser/JavaPropertiesConfigurationValidator.java:181-201 | A config is complete iff it has every required name of its kind. |
| ConfigValidation.RequiredListsAppended | src/main/java/de/tudresden/inf/mci/brailleplot/configparser/JavaPropertiesConfigurationValidator.java:64-91 | The required lists are the required names in definition order. |
| ConfigValidation.TablesHoldRequired | src/main/java/de/tudresden/inf/mci/brailleplot/configparser/JavaPropertiesConfigurationValidator.java:64-91 | Every required name is defined in its kind's table, and each list has no repeats. |
| ConfigValidation.TableKeys | src/main/java/de/tudresden/inf/mci/brailleplot/configparser/JavaPropertiesConfigurationValidator.java:64-91 | The printer table defines exactly the required and the optional names; every format property is a positive integer. |
| ConfigValidation.PrinterChecks | src/main/java/de/tudresden/inf/mci/brailleplot/configparser/JavaPropertiesConfigurationValidator.java:64-77 | The checks of the non-numeric printer properties (name, mode, braille table, floating-dot support, raster type). |
| ConfigValidation.OptionalNotRequired | src/main/java/de/tudresden/inf/mci/brailleplot/configparser/JavaPropertiesConfigurationValidator.java:64-91 | The optional names are disjoint from the required ones: 14 required printer properties, 5 optional, and 6 format properties. |
| ConfigValidation.DotIndex | src/main/java/de/tudresden/inf/mci/brailleplot/configparser/JavaPropertiesConfigurationValidator.java:153 | The first dot's index, or the length when there is none. |
| ConfigValidation.NoDotMeans | src/main/java/de/tudresden/inf/mci/brailleplot/configparser/JavaPropertiesConfigurationValidator.java:153 | No dot is found iff the string holds no '.'. |
| ConfigValidation.DotIndexFirst | src/main/java/de/tudresden/inf/mci/brailleplot/configparser/JavaPropertiesConfigurationValidator.java:153 | No dot comes before the one found. |
| ConfigValidation.DotIndexAfter | src/main/java/de/tudresden/inf/mci/brailleplot/configparser/JavaPropertiesConfigurationValidator.java:153 | After a dotless first part, the first dot is the one that follows it. |
| ConfigValidation.Split | src/main/java/de/tudresden/inf/mci/brailleplot/configparser/JavaPropertiesConfigurationValidator.java:152-153 | `split("\\.", limit)` gives between 1 and limit parts. |
| ConfigValidation.SplitRejoins | src/main/java/de/tudresden/inf/mci/brailleplot/configparser/JavaPropertiesConfigurationValidator.java:152-153 | Rejoining the parts with dots gives the key back. No part but the last holds a dot, and the last holds one only when it is the limit-th. |
| ConfigValidation.SplitJoins | src/main/java/de/tudresden/inf/mci/brailleplot/configparser/JavaPropertiesConfigurationValidator.java:152-153 | Rejoining the parts with dots gives the key back. |
| ConfigValidation.SplitDotFree | src/main/java/de/tudresden/inf/mci/brailleplot/configparser/JavaPropertiesConfigurationValidator.java:152-153 | No part but the last holds a dot, and the last holds one only when it is the limit-th. |
| ConfigValidation.JoinCons | src/main/java/de/tudresden/inf/mci/brailleplot/configparser/JavaPropertiesConfigurationValidator.java:163 | Joining a first part onto the rest puts one dot between. |
| ConfigValidation.SplitFirst | src/main/java/de/tudresden/inf/mci/brailleplot/configparser/JavaPropertiesConfigurationValidator.java:153 | A dotless first part is split off, and the rest is split with one part fewer. |
| ConfigValidation.SplitPrinterKey | src/main/java/de/tudresden/inf/mci/brailleplot/configparser/JavaPropertiesConfigurationValidator.java:153-164 | A printer key splits into the prefix and parts that rejoin to the name. |
| ConfigValidation.SplitFormatKey | src/main/java/de/tudresden/inf/mci/brailleplot/configparser/JavaPropertiesConfigurationValidator.java:153-173 | "format.<f>.<name>" with a dotless <f> splits into exactly the prefix, <f> and <name>. |
| ConfigValidation.SplitWhole | src/main/java/de/tudresden/inf/mci/brailleplot/configparser/JavaPropertiesConfigurationValidator.java:153 | A dotless string, or a split into one part, stays whole. |
| ConfigValidation.RemoveFirst | src/main/java/de/tudresden/inf/mci/brailleplot/configparser/JavaPropertiesConfigurationValidator.java:195 | `ArrayList.remove` takes one occurrence of the name away, if there is one. |
| ConfigValidation.CheckCompleteness | src/main/java/de/tudresden/inf/mci/brailleplot/configparser/JavaPropertiesConfigurationValidator.java:191-201 | It succeeds iff the names cover the checklist as a multiset. The missing list is the checklist less the names, and it is non-empty on failure. |
| ConfigValidation.NothingMissing | src/main/java/de/tudresden/inf/mci/brailleplot/configparser/JavaPropertiesConfigurationValidator.java:197 | Nothing remains iff the names cover the checklist. |
| ConfigValidation.TickOff | src/main/java/de/tudresden/inf/mci/brailleplot/configparser/JavaPropertiesConfigurationValidator.java:193-196 | Ticking off one more name leaves the checklist less the names up to it. |
| ConfigValidation.DistinctCovered | src/main/java/de/tudresden/inf/mci/brailleplot/configparser/JavaPropertiesConfigurationValidator.java:191-201 | For a repeat-free checklist, multiset cover means every name is present. |
| ConfigValidation.DistinctCount | src/main/java/de/tudresden/inf/mci/brailleplot/configparser/JavaPropertiesConfigurationValidator.java:191-201 | A name occurs at most once in a repeat-free list. |
| Settings.FromString | src/main/java/de/tudresden/inf/mci/brailleplot/commandline/SettingType.java:32-65 | It succeeds iff the string is one of the fourteen names, and then the setting's name is that string. |
| Settings.FromStringOfName | src/main/java/de/tudresden/inf/mci/brailleplot/commandline/SettingType.java:10-69 | Parsing a setting's name gives the setting back. |
| Settings.NamesAreNames | src/main/java/de/tudresden/inf/mci/brailleplot/commandline/SettingType.java:10-23 | The name set is exactly the settings' names. |
| Settings.NameInjective | src/main/java/de/tudresden/inf/mci/brailleplot/commandline/SettingType.java:10-23 | No two settings share a name. |
| Settings.FromStringCaseSensitive | src/main/java/de/tudresden/inf/mci/brailleplot/commandline/SettingType.java:33-63 | Parsing is exact: "Help", "HELP", "xlabel", "XLabel", " help" and "" are not available. |
| Resources.LastIndexOf | src/main/java/de/tudresden/inf/mci/brailleplot/util/GeneralResource.java:215 | The last occurrence of the character, or -1: no occurrence comes after it. |
| Resources.LastIndexOfAbsent | src/main/java/de/tudresden/inf/mci/brailleplot/util/GeneralResource.java:215 | An absent character has index -1. |
| Resources.StripJarPath | src/main/java/de/tudresden/inf/mci/brailleplot/util/GeneralResource.java:214-220 | The result is a suffix of the path and holds no '!'. |
| Resources.StripJarPathAfterBang | src/main/java/de/tudresden/inf/mci/brailleplot/util/GeneralResource.java:206-220 | Behind the last '!', the inner path is kept, less one leading '/'; it changes iff it starts with '/'. |
| Resources.StripJarPathWithoutBang | src/main/java/de/tudresden/inf/mci/brailleplot/util/GeneralResource.java:214-220 | A path without '!' is kept, less one leading '/'. |
| Resources.StripJarPathExample | src/main/java/de/tudresden/inf/mci/brailleplot/util/GeneralResource.java:208 | The documented example strips to "config/example.properties". |
| Resources.ReplaceSeparator | src/main/java/de/tudresden/inf/mci/brailleplot/util/GeneralResource.java:78 | Every separator becomes '/', every other character stays, and the length is kept. |
| Resources.ReplaceSeparatorClears | src/main/java/de/tudresden/inf/mci/brailleplot/util/GeneralResource.java:88 | No separator other than '/' survives, and replacing twice is replacing once. |
| Resources.ClassPath | src/main/java/de/tudresden/inf/mci/brailleplot/util/GeneralResource.java:77-78 | The class path holds no '!' and no separator other than '/', and it is no longer than the resource path. |

## Left out

- `findAxisScaling` (UniformTextureBarChartRasterizer.java:199-210) uses floating-point `log10`/`pow`, so the step it answers is a parameter of `BarChartRasterizer.Rasterize`. The step may be zero, which it answers for a chart whose values are all zero; `BarChartRasterizer.BarLength` then divides by zero as Java does. A NaN or infinite step, from a bar area with no unit, is not modelled.
- `BarChartRasterizer.DrawHorizontalBar`: the bar outline drawn through `Rasterizer.rectangle` (UniformTextureBarChartRasterizer.java:268) is not modelled. For the texture column that leaves the page the model writes none of its dots. The source writes that column's dots up to the first one off the page before it throws: a dotted column from the bottom up, a solid one in the order of `Rasterizer.fill`, which is not part of this model.
- The title, the bar captions, the bar outlines and both axes are drawn by rasterizers that are not part of this model. Only the x-axis label map is modelled.
- `Rectangle` and `RasterCanvas` are not part of this model. Their cell/dot conversions are function parameters, and strip removal is specified minimally.
- Doubles are exact reals, so rounding error, NaN ratios from a zero-sized area and ±Infinity are not modelled, except where stated (the unit split at 0/0, the nominal axis with no categories, the required height at zero width).
- `Images.LinearMapping`: the dot rectangle's offset is ignored, exactly as the source ignores it; an image of zero width or height is excluded by a requires, because an empty `BufferedImage` cannot be constructed.
- The canvas's `quantifyX`/`quantifyY` are opaque functions.
- `BrailleText.BrailleTextRasterizer.RasterizeBrailleCell`: on failure the contract only says no dot outside the cell changed, not which of the cell's dots were written before the throw.
- `Images.ScanPixels`: on failure the contract only bounds the dots (set only, and only where mapped), not exactly which pixels were scanned before the throw.
- `BrailleText.IsUpperCase` and `BrailleText.ToLowerCase` cover Latin-1 only. Unicode case mapping beyond it is not modelled.
- The dead `getValue(k, j)` read at BrailleTextRasterizer.java:164 is not modelled. It can throw when (k, j) is off the page, which this model does not reflect.
- `getBrailleStringLength` (BrailleTextRasterizer.java:173-175) is the text's length, so it has no member of its own. Java counts that length in UTF-16 code units, and the model counts characters.
- `BrailleText.Characters`, `BrailleText.LengthInCells` and `BrailleText.BrailleTextRasterizer.Rasterize`: a Dafny string is a sequence of Unicode scalar values, while Java's `length()` and `split("")` work on UTF-16 code units. The two agree for text in the Basic Multilingual Plane; a character outside it is one character here and two code units in the source.
- Int overflow of the cursor and of the cell counts in the braille text rasterizer is not modelled (unbounded integers). The final length is cast to int as the source does.
- The semantic braille table and Liblouis are not part of this model. The table is an opaque function from strings to patterns.
- NominalAxis: the logging, and the arguments to the `Axis` super-constructor (line 32), are not modelled. `Axis` is not part of this model.
- `MatrixPages.MatrixData.DotValues` requires a page tiled by whole cells (row and column counts divisible by the cell's height and width). The dot iterator on a page with a partial cell at its edge is not modelled.
- `MatrixData` is an interface, and its implementation is not part of this model. The model is a `bool` grid with the interface's contract.
- The validator's `checkIfDouble`, `checkIfFileExists`, `checkIfEnum` and `checkIfPrinterExists` depend on `Double.parseDouble`, the file system and the print services. They are functions of an `Environment`. The `RuntimeException` thrown by `checkIfFileExists`/`checkIfEnum` is modelled as the check failing.
- The validator's definitions are maps and sequences, and the `HashMap` of completeness checklists (line 29, never used) is left out.
- GeneralResource's constructor probes the file system and class loader, and its jar export does I/O. Only `stripJarPath` and the separator conversion are modelled, with `File.separator` as a parameter.
- Path normalisation at GeneralResource.java:87 is not modelled.

## Findings

| source | as written | input that shows it | evidently intended | confidence | as-written member | corrected member |
|---|---|---|---|---|---|---|
| src/main/java/de/tudresden/inf/mci/brailleplot/rendering/ImageRasterizer.java:136 | `vRatio = min(hRatio, 1)`: the vertical ratio is taken from the horizontal one | dot area 100 × 20, image 10 × 100, over-stretch prevention only: vRatio = 1, so the last pixel row lands on dot row 100, below the area's last row 19 | `vRatio = min(vRatio, 1)`, as for the horizontal ratio; the last row then lands on row 19 | not executed | Images.LinearRatiosAsWrittenOverrun | Images.LinearRatios |
| src/main/java/de/tudresden/inf/mci/brailleplot/rendering/ImageRasterizer.java:141 | `vRatio = min(vRatio, vRatio)`: the vertical ratio is left alone when keeping the aspect ratio | dot area 11 × 101, image 10 × 10, aspect ratio only: ratios 1 and 10, so the image is stretched tenfold vertically | both ratios set to the smaller one, as in `quantifiedPositionMapping` (lines 189-190): ratios 1 and 1 | not executed | Images.LinearRatiosAsWrittenDistort | Images.LinearRatios |

`Images.LinearRatiosAsWritten` is the linear mapping's ratios as written. `Images.LinearRatios` is the corrected definition, and `Images.LinearMapping` uses it.
