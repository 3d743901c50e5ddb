# DataExplorer chart chain, in Dafny

DataExplorer is a browser tool for exploring a CSV file. It draws a chain of
linked charts: a scatterplot, heatmap or barchart, plus a barchart overview
and a timeline for time series. Brushing a rectangle over a chart selects
nodes, and the selected rows become the data of the next chart in the
chain. In time-series mode a left column holds one timeline panel per
category of a chosen column, and clicking a panel starts a new chain over
its rows.

This project models the core of the tool:
- the chart state (`svgObj`) and its color, size and shape encoders, with
  the rule that a refused column sends a selector back to its previous key;
- heatmap binning;
- brush selection and how it rebuilds the chain;
- the attribute and chart-type dropdowns;
- legend edits: color and shape choosers and the `rgb(...)` conversion;
- the timeline grouping, y-domain, search and autocomplete;
- the configuration constants.

Modules:

| module | file | models |
|---|---|---|
| `Base` | base.dfy | values, rows, chart and key types, constants, the file chooser (js/initialize.js) |
| `Scales` | scales.dfy | `getCategories`, `getMinMax`, `createAxisScale`, `formatTick`, `calculateXCoord`/`calculateYCoord` |
| `Encoders` | encoders.dfy | the encoder part of `createScales`; fill, size and shape choices and the bar width check of `updateGraph` |
| `Heatmap` | heatmap.dfy | `getHeatmapSquareAttributes`, `getHeatmapSquareCoordinate`, `getHeatmapSquareLength`, the heatmap branch of `createNodes` |
| `Selection` | selection.dfy | the drag handlers, `getHeatmapValues`, `getIndexBound`, the three `determine...Selection` functions, the gathering of `selectedData` |
| `Chain` | chain.dfy | `svgObj` as class `Link`; `svgData`/`svgCount` as class `Chain`; `createSVG`, `startSVGChain`, `createGraph`'s redraw, `dragend` |
| `Dropdowns` | dropdowns.dfy | `svgChainAttributeSelectorClick`, the chart-type menu, `createAttributeSelector`'s items, `changeDropDownMenusAvalable` |
| `Legend` | legend.dfy | `createGraphLegend`'s sections, `changeColor`, the chooser Ok buttons, `getRGBColor`, `listClick` |
| `Timeseries` | timeseries.dfy | `createTimelines`, `getTimelineYScale`, `placeTimelineNodes`, `getTimelineYCoordinate`, `searchForTimeline`, `addTimelineSearchAutocomplete` |

How the model represents the program:
- A cell is `Num`, `Str` or `Absent`. `Absent` is the `undefined` read from
  a row that lacks the key, such as "--None--". `IsNumeric` stands for
  `!isNaN`.
- JavaScript objects used as dictionaries (`selectedColors`, `shapeDict`)
  are association lists. These keep the insertion order that `Object.keys`
  reports, which positional colour reuse depends on.
- The d3 palettes are function parameters: `category10`, `category20`, and
  the `colors` of the timeline panels. So is anything else the model cannot
  see, such as a scale's `invert`, the pixel position of a date column, and
  JavaScript's text conversion of a cell.
- A `confirm` answer is a boolean input. An `alert` is recorded in the
  outcome: the refused selector, a `NotCsv` outcome, or the search's alert
  text.
- The pure parts are functions with lemmas. The state changes are methods
  on the classes `Link`, `Chain` and `Timelines`. Each method is proved
  against those functions: `Link.CreateScales` against `EncodeScales`,
  `Chain.DragEnd` against `SelectionOf`, and so on.

## Model

| member | source | states |
|---|---|---|
| Base.GraphTypes | js/initialize.js:186-209 | time-series layouts offer five chart types, the others three; overview and timeline exactly in time-series mode |
| Base.DefaultGraph | js/initialize.js:213 | the default chart is the first offered type, the scatterplot, in both layouts |
| Base.ChooseFile | js/initialize.js:55-112 | no file does nothing; a name ending in ".csv" is loaded, and the Yes/No answer sets time-series mode and whether timelines are drawn; any other name is refused with an alert |
| Base.CsvAccepted | js/initialize.js:65-67 | every stem + ".csv" is loaded, and every loaded name ends in ".csv" |
| Base.ShapesDistinct | js/initialize.js:31-33 | six distinct shapes, "circle" first |
| Scales.IndexOf | js/svgChain.js:521-525 | `indexOf`: -1 iff absent, otherwise the first position holding the value |
| Scales.DistinctSpec | js/svgChain.js:514-530 | the category list has no duplicates, holds exactly the column's values, ordered by first occurrence |
| Scales.GetCategories | js/svgChain.js:514-530 | the loop returns the distinct column values in first-seen order |
| Scales.ExtentOf | js/svgChain.js:534-552 | NaN iff some cell is not a number; otherwise lo <= every value <= hi |
| Scales.ExtentAttained | js/svgChain.js:534-552 | both ends of a numeric extent are values of the column |
| Scales.GetMinMax | js/svgChain.js:534-552 | the one-pass loop computes that extent; NaN iff some row's cell is not numeric |
| Scales.AxisScale | js/svgChain.js:467-511 | the first row decides: categorical axes get the domain ["", categories..., " "], numeric ones the padded extent, a NaN extent a NaN domain |
| Scales.AxisDomainContains | js/svgChain.js:487-508 | a non-constant or positive constant column lies strictly inside its padded domain; a negative constant column gets a reversed domain |
| Scales.OrdinalAxisCovers | js/svgChain.js:471-482 | every value of a categorical column is on its axis |
| Scales.FormatTick | js/svgChain.js:840-855 | text longer than 7 becomes "..." + its last 7 characters; anything else is unchanged |
| Scales.FormatTickIdempotent | js/svgChain.js:840-855 | shortening twice equals shortening once |
| Scales.CoordsInPlotArea | js/svgChain.js:1090-1112 | in-range scaled values are drawn inside the plot area; NaN is drawn at 0 |
| Encoders.Lookup | js/svgChain.js:914-915 | `dict[k]` is undefined iff k is not a key; otherwise it is the value stored under k |
| Encoders.ColorEncode | js/svgChain.js:268-374 | refused iff the column is categorical with more than 20 categories, and then only the color key rolls back; otherwise only the two color encodings change: an accepted categorical column gets the dictionary `CategoricalColors` builds over its categories and no scale, a numeric column a scale over its extent with the previous range (or white to the preferred color) and no dictionary, and no color key leaves the encoding as it was |
| Encoders.SizeEncode | js/svgChain.js:383-407 | refused iff the column is not numeric and a key is chosen, and then the size key rolls back; otherwise only the size scale changes: an accepted key gets a scale over its column's extent, and no key leaves the encoding as it was |
| Encoders.ShapeEncode | js/svgChain.js:410-448 | refused iff a key is chosen and has more than six categories, and then the shape key rolls back; otherwise only the shape dictionary changes |
| Encoders.EncodeScales | js/svgChain.js:254-463 | the color column is refused iff the chart has encoders and the column is categorical with more than 20 categories, and then only the color key rolls back; a refused size column rolls back the size key and leaves the size scale and the shape fields alone; a refused shape column rolls back the shape key and leaves the dictionary and the size key; an accepted pass keeps all three keys; shadows never written; no encoders on heatmaps or time-series charts; barcharts never touch size or shape |
| Encoders.EncodeScalesStages | js/svgChain.js:268-447 | the size column is refused iff the chart is a scatterplot, the color column was accepted, a size key is chosen and its first cell is not numeric; the shape column iff also the size column was accepted and a chosen shape key has more than six categories; each key rolls back only on its own refusal; past an accepted color column the color key, dictionary and scale are `ColorEncode`'s, the size scale is `SizeEncode`'s, and on full acceptance the shape dictionary is `ShapeEncode`'s |
| Encoders.AcceptedSizeScale | js/svgChain.js:377-407 | a scatterplot pass that accepts a chosen size column keeps that key and leaves a size scale over the column's extent |
| Encoders.AcceptedColorDictionary | js/svgChain.js:268-331 | a pass that accepts a categorical color column keeps that key and leaves the dictionary `CategoricalColors` builds over its categories |
| Encoders.EncodeScalesSettled | js/svgChain.js:335-447 | if every key equals its shadow before the pass, it still does after it, refused or not |
| Encoders.CategoricalColorsSpec | js/svgChain.js:284-331 | keys are the categories in first-seen order; category i gets palette color i (10-color palette up to 10 categories), or the color of the previous dictionary's i-th key when it has as many keys |
| Encoders.EveryCategoryColored | js/svgChain.js:275-331 | after an accepted categorical pass every row's category has a color |
| Encoders.ContinuousColorRange | js/svgChain.js:350-373 | a continuous scale spans the column's extent; its range is the previous one, or white to the preferred color |
| Encoders.ShapeRebuildRule | js/svgChain.js:418-432 | the dictionary is rebuilt exactly when an accepted key differs from its shadow, with category i mapped to `SHAPES[i]` |
| Encoders.NodeFill | js/svgChain.js:907-924 | heat color exactly on heatmaps; otherwise the category's stored color, the continuous scale, or the preferred color when no key is chosen |
| Encoders.NodeSize | js/svgChain.js:933-940 | 75 exactly when no size key; otherwise the size scale of the node's value |
| Encoders.NodeShape | js/svgChain.js:941-948 | "circle" without a shape key; otherwise the dictionary entry of the node's category (undefined when missing) |
| Encoders.ShapesSupported | js/svgChain.js:410-448 | after a rebuild every node's shape is one of the six supported shapes |
| Encoders.BarLayoutBounds | js/svgChain.js:959-986 | the barchart is refused iff more than 112 x values; bars are 60 px iff at most 8; drawn bars are 1.5 to 60 px wide |
| Heatmap.HeatSideIsRoot | js/svgChain.js:790 | 20 squares per side is the square root of `numHeatSquares` |
| Heatmap.SquareAttributes | js/svgChain.js:763-810 | a continuous axis starts at the domain's low end with step abs(hi - lo)/20; a categorical one has step floor(n/20), raised to 1 when zero |
| Heatmap.CategoricalSquares | js/svgChain.js:795-804 | a categorical axis has at most 39 squares, one per category when there are fewer than 40 |
| Heatmap.SquareFits | js/svgChain.js:815-823 | every categorical square starts on a category label |
| Heatmap.CategoricalLengthsCover | js/svgChain.js:825-837 | the categorical square lengths, the last holding the remainder, add up to the number of categories |
| Heatmap.GridCellAt | js/svgChain.js:598-630 | square row*numCols + col has that row's and that column's edges and lengths |
| Heatmap.GridEmpty | js/svgChain.js:620-621 | every laid-out square starts with count 0 and no rows |
| Heatmap.PlaceAllTotals | js/svgChain.js:635-656 | counting the rows adds their number to the total, their multiset to the members, and keeps each count equal to its square's rows |
| Heatmap.LayOutSquares | js/svgChain.js:596-630 | the nested loops push the grid of empty squares row by row |
| Heatmap.CountRows | js/svgChain.js:635-656 | the `forEach` places every row in the square its bins name |
| Heatmap.CreateHeatData | js/svgChain.js:585-656 | rows*cols squares; the squares hold every row exactly once; each count is its square's number of rows, all of which bin there |
| Heatmap.ContinuousBinInRange | js/svgChain.js:637-648 | a value strictly inside a non-degenerate continuous domain bins into one of the 20 squares |
| Heatmap.CategoricalBinInRange | js/svgChain.js:637-648 | a category on the axis bins into one of its squares |
| Selection.DragStart | js/graphInteractions.js:103-121 | an empty rectangle at the mouse, which records its start point |
| Selection.DragLeavesStaleCorner | js/graphInteractions.js:124-154 | the handler as written, going left then right of the start, draws [80,100] instead of [100,120] |
| Selection.Drag | js/graphInteractions.js:124-154 | (corrected) the rectangle spans the start point and the mouse, with non-negative size |
| Selection.DragPathSpans | js/graphInteractions.js:103-154 | after any sequence of moves the rectangle spans the start and the last mouse position |
| Selection.DragEndBox | js/graphInteractions.js:161-183 | a box exists iff width and height are at least 3; its corners are ordered |
| Selection.BarSelectionWider | js/graphInteractions.js:194-206 | any point a scatterplot would select is selected as a bar, and so are bars reaching up through the box |
| Selection.IndexBoundLeast | js/graphInteractions.js:339-355 | the bound is the first index the value does not pass |
| Selection.GetIndexBound | js/graphInteractions.js:339-355 | the loop returns the number of leading entries the value passes, stopping at the first it does not |
| Selection.HeatmapValues | js/graphInteractions.js:309-335 | categorical axes convert the box edges to domain indices with `getIndexBound`; continuous ones invert the pixels |
| Selection.HeatSelectionOverlap | js/graphInteractions.js:360-413 | squares wholly left or right of the box are not selected; a box inside a square selects it |
| Selection.SelectHeatCells | js/graphInteractions.js:211-229 | the box is converted once, at the first square, and every square is judged against that converted box |
| Selection.OverviewSelected | js/graphInteractions.js:418-460 | a node is selected iff every date bar of its overview lies in the box |
| Selection.TimelineSelected | js/graphInteractions.js:464-518 | a node is selected iff every segment of its timeline lies in the box |
| Selection.TimelineOneSegmentOutside | js/graphInteractions.js:464-518 | one segment outside the box excludes the node |
| Selection.ChosenSpec | js/graphInteractions.js:262-274 | the selection is a sub-multiset of the rows, and it is empty iff nothing is selected |
| Selection.ChosenMembership | js/graphInteractions.js:262-274 | a row is in the selection iff some selected node carries it |
| Selection.GatherRows | js/graphInteractions.js:263-274 | `selectedData` is the selected rows in node order |
| Selection.GatherCellRows | js/graphInteractions.js:263-270 | on a heatmap `selectedData` is the rows of the selected squares, within the heatmap's rows |
| Selection.ChosenMembersWithin | js/graphInteractions.js:268-270 | squares only contribute rows the heatmap holds, each no more often than it holds it |
| Chain.Redraw | js/svgChain.js:959-983 | the x key stays, or goes back to its shadow exactly when a barchart's new x key has bars too narrow; with the key kept the encoders ran once |
| Chain.RedrawSettles | js/svgChain.js:970-983 | a redraw whose key equals its shadow keeps the key, and a key rolled back to its shadow redraws to itself |
| Chain.RedrawSettled | js/svgChain.js:222-251 | a chart whose keys all equal their shadows keeps them equal through a redraw |
| Chain.Inherited | js/svgChain.js:81-115 | a new chart takes the given keys and encodings, every shadow equal to its key, no size scale |
| Chain.InheritedShapesKept | js/svgChain.js:81-115 | a chart that inherits a shape key keeps the parent's shape dictionary through its first drawing |
| Chain.Link.constructor | js/svgChain.js:96-115 | the new `svgObj` with every shadow equal to its key and no selection |
| Chain.Link.BuildColors | js/svgChain.js:313-317 | category i gets palette color i |
| Chain.Link.CopyColors | js/svgChain.js:326-330 | category i gets the color of the previous dictionary's i-th key |
| Chain.Link.BuildShapes | js/svgChain.js:424-431 | category i gets `SHAPES[i]` |
| Chain.Link.EncodeColor | js/svgChain.js:268-374 | the fields change as `ColorEncode` says; everything else is untouched |
| Chain.Link.EncodeSize | js/svgChain.js:377-407 | the fields change as `SizeEncode` says |
| Chain.Link.EncodeShape | js/svgChain.js:410-448 | the fields change as `ShapeEncode` says |
| Chain.Link.CreateScales | js/svgChain.js:254-463 | the encoders change the fields as `EncodeScales` says and return the refused selector |
| Chain.Link.CreateGraph | js/svgChain.js:222-251 | x key and encoding become `Redraw`'s; graph type, y key and selection are unchanged |
| Chain.Verdicts | js/graphInteractions.js:186-257 | one verdict per node: per square on heatmaps, per row elsewhere |
| Chain.SelectionWithinData | js/graphInteractions.js:262-274 | a brush selects only rows of its chart, no more often than the chart holds them |
| Chain.ScatterSelectionExact | js/graphInteractions.js:194-196 | on a scatterplot a row is selected iff it is a row of the chart drawn strictly inside the box |
| Chain.Chain.constructor | js/initialize.js:8-12 | an empty chain with `svgCount` 0 |
| Chain.Chain.CreateSvg | js/svgChain.js:41-219 | appends chart `svg-<count>` and increments the count; the first chart gets the default type and the first two value (or date) columns; a later one inherits type, keys, encodings and preferred color from the chart before it |
| Chain.Chain.StartSvgChain | js/svgChain.js:7-37 | a panel click leaves exactly one chart, over the panel's rows, in its color |
| Chain.Chain.FilterNodes | js/graphInteractions.js:186-257 | the filter computes `Verdicts` node by node |
| Chain.Chain.Clear | js/svgChain.js:25-30 | the chain is emptied and the count reset |
| Chain.Chain.RemoveAfter | js/graphInteractions.js:285-296 | charts after k are removed and the count becomes k + 1 |
| Chain.Chain.SelectRows | js/graphInteractions.js:186-274 | the filter and gathering give `SelectionOf` |
| Chain.Chain.Branch | js/graphInteractions.js:278-302 | a non-empty selection on chart k leaves charts 0..k and one new chart over the selection, with chart k's graph type, axes and columns, its preferred color (or the first palette color), and the encoding `EncodeScales` gives from chart k's keys and encodings |
| Chain.Chain.DragEnd | js/graphInteractions.js:157-304 | a click changes nothing; otherwise `selectedData` is the selection; an empty one leaves the chain alone, a non-empty one replaces every later chart by one over it that inherits chart k's graph type, axes, preferred color and encodings as in `Branch` |
| Dropdowns.Choose | js/dropDowns.js:200-240 | the selector gets the chosen value; the current value changes nothing; a new one moves the old value to the shadow |
| Dropdowns.ChooseLeavesOthers | js/dropDowns.js:206-240 | the other selectors and shadows are untouched |
| Dropdowns.ChooseIdempotent | js/dropDowns.js:200-240 | choosing a value twice equals choosing it once |
| Dropdowns.ChooseBack | js/dropDowns.js:200-240 | choosing a value and then the old one back restores the key, with the in-between value in the shadow |
| Dropdowns.MenuItemsAsWritten | js/dropDowns.js:167-181 | the loop builds only the first `dataKeys.length` entries of the list |
| Dropdowns.LastColumnMissing | js/dropDowns.js:170-181 | with "--None--" in front, the color, size and shape menus never offer the last column |
| Dropdowns.MenuItems | js/dropDowns.js:167-181 | (corrected) one item per entry of the list |
| Dropdowns.EntriesOfferEveryColumn | js/dropDowns.js:170-174 | every column is offered, and "--None--" exactly by the color, size and shape selectors |
| Dropdowns.ApplyChoice | js/dropDowns.js:204-240 | keys and shadows become `Choose`'s; `keyChanged` iff the value differs; encodings, data and selection untouched |
| Dropdowns.AttributeClick | js/dropDowns.js:200-249 | a new value updates key and shadow and redraws through `createGraph`; the current value changes nothing |
| Dropdowns.SwitchGraph | js/dropDowns.js:52-106 | a different type is adopted, after confirmation for the heatmap; the shape shadow is set to the shape key and the chart redrawn |
| Dropdowns.SwitchKeepsShapes | js/dropDowns.js:81-84 | after a switch the shape dictionary is never rebuilt |
| Dropdowns.EnabledNested | js/dropDowns.js:260-297 | the enabled selectors shrink from scatterplot to barchart to heatmap to the time-series charts, where all are disabled |
| Dropdowns.DisabledSelectorsInert | js/dropDowns.js:260-297 | a disabled selector's key and encoding are left alone by every redraw |
| Legend.Recolor | js/graphLegend.js:356-365 | the keys stay in order; entries under the value get the new color, others keep theirs |
| Legend.RecolorLookup | js/graphLegend.js:356-365 | the value now looks up to the new color; every other key looks up as before |
| Legend.ChangeCategoricalColor | js/graphLegend.js:353-365 | `selectedColors` becomes `Recolor`'s and nothing else changes |
| Legend.RecolorEnds | js/graphLegend.js:370-387 | the first end is replaced if it shows the color, else the last end, else nothing; the middle is kept |
| Legend.ChangeContinuousColor | js/graphLegend.js:366-387 | the color scale's range becomes `RecolorEnds`'s and nothing else changes |
| Legend.ChooseColor | js/graphLegend.js:306-338 | `changeColor` runs exactly when the chosen color differs from the sample's color in rgb form |
| Legend.ParseHex | js/graphLegend.js:402-403 | `parseInt("0x" + s)` is NaN iff s does not start with a hex digit |
| Legend.RGB | js/graphLegend.js:395-411 | non-"#" strings are returned as they are; "#..." becomes "rgb(...)" |
| Legend.RGBIdempotent | js/graphLegend.js:395-411 | converting twice equals converting once |
| Legend.RGBOfHexTriple | js/graphLegend.js:395-411 | "#rrggbb" becomes "rgb(r, g, b)" with the byte values in decimal |
| Legend.GetRGBColor | js/graphLegend.js:395-411 | the pairwise loop computes `RGB` |
| Legend.ColorLegend | js/graphLegend.js:14-118 | a color section iff a key is chosen or it is a heatmap; categorical entries exactly for a categorical non-heatmap chart; otherwise samples of the heat or color scale's domain |
| Legend.ColorLegendAfterEncoding | js/graphLegend.js:14-118 | after an accepted color pass with a key, the color section is never empty |
| Legend.LegendSamples | js/graphLegend.js:55-74 | five evenly spaced samples from low to high, or one when the domain is a point |
| Legend.CategoricalLegendButtons | js/graphLegend.js:80-116 | after a pass that accepts a categorical color column, the color section lists categorical entries, every value of the column has a row, and that row has a chooser button |
| Legend.SizeLegend | js/graphLegend.js:120-149 | a size section iff the chart is a scatterplot with a size key; it samples the size scale's domain, and reading the domain of a missing scale is the only other outcome |
| Legend.SizeLegendAfterEncoding | js/graphLegend.js:120-149 | after a scatterplot pass that accepts a chosen size column, the size section samples that column's extent, so the scale `sizeScale.domain()` reads exists |
| Legend.ShapeLegend | js/graphLegend.js:151-165 | a shape section iff the chart is a scatterplot with a shape key; its rows are the shape dictionary's entries in order, none without a dictionary |
| Legend.ShapeLegendAfterEncoding | js/graphLegend.js:151-165 | after a pass that accepts a newly chosen shape column, the shape section has one row per category of the column in first-seen order, row i drawn with `SHAPES[i]` |
| Legend.ShapeButtonKeysAsWritten | js/graphLegend.js:157-163 | every handler shares the loop variable, so every button opens the last key |
| Legend.ShapeButtonOpensWrongKey | js/graphLegend.js:157-163 | with categories a and b, a's button opens b's chooser |
| Legend.ShapeButtonKeys | js/graphLegend.js:157-163 | (corrected) each button opens its own row's key |
| Legend.ShapeButtonsDistinct | js/graphLegend.js:157-163 | distinct categories get distinct choosers, and button i's chooser shows row i's shape |
| Legend.Reshape | js/graphLegend.js:454-455 | the keys stay in order; only the entry under the key gets the new shape, and a key the dictionary lacks is added at the end with it |
| Legend.ChooseShape | js/graphLegend.js:441-457 | the dictionary changes exactly when the chosen shape differs from the stored one |
| Legend.ChooseShapeEffect | js/graphLegend.js:454-455 | afterwards the key is drawn with the chosen shape, whether or not the dictionary held it, and the keys stay distinct |
| Legend.ListClick | js/graphLegend.js:477-514 | the item with the clicked id is checked, all others unchecked |
| Legend.ListClickExclusive | js/graphLegend.js:477-514 | with distinct ids exactly one item ends up checked |
| Timeseries.Group | js/timeseries.js:45-57 | a group is no longer than the data |
| Timeseries.GroupMembers | js/timeseries.js:45-57 | a group holds exactly the rows carrying its category |
| Timeseries.GroupOfCategory | js/timeseries.js:40-59 | every category's group is non-empty |
| Timeseries.GroupsPartition | js/timeseries.js:40-59 | the groups together hold every row exactly once |
| Timeseries.CollectGroup | js/timeseries.js:45-58 | the inner loop adds exactly the category's group, and no entry when it has no rows |
| Timeseries.GroupRows | js/timeseries.js:40-59 | `dataGroups` has one entry per category, holding that category's rows in data order |
| Timeseries.RowValues | js/timeseries.js:235-243 | one value per date column |
| Timeseries.ValueListed | js/timeseries.js:232-244 | every date cell (non-numbers as 0) is among the values |
| Timeseries.DomainOf | js/timeseries.js:247-248 | no domain iff no values; otherwise the domain is attained and contains every value |
| Timeseries.GetTimelineYScale | js/timeseries.js:229-255 | the loop gathers the values and takes their minimum and maximum |
| Timeseries.DomainCoversTimeline | js/timeseries.js:229-255 | a panel's y domain spans every date cell of its rows |
| Timeseries.YCoordinate | js/timeseries.js:389-398 | non-numbers are drawn on the bottom edge; numbers in the domain inside the plot |
| Timeseries.YCoordinateMonotone | js/timeseries.js:389-398 | larger values are drawn higher |
| Timeseries.TimelineSegments | js/timeseries.js:363-384 | one segment per consecutive pair of date columns, forming one connected line |
| Timeseries.SegmentInsidePanel | js/timeseries.js:363-384 | every segment of every row stays inside its panel |
| Timeseries.PanelNonEmpty | js/timeseries.js:65-78 | with data, every panel shows at least one row |
| Timeseries.BuildPanels | js/timeseries.js:61-106 | categories + 1 panels: panel 0 all rows, panel k the (k-1)-th category's group, colored `colors(k%10)` |
| Timeseries.FillPanels | js/timeseries.js:65-78 | given `dataGroups` holding each category's group, panel k is `PanelFor(k)`: all rows under "All Data" for k = 0, else the (k-1)-th category's group under its header |
| Timeseries.SearchForTimeline | js/timeseries.js:402-455 | not found iff no row has that name, then the alert is shown and the box emptied; otherwise the first such row and its category's panel |
| Timeseries.SearchPanelHoldsRow | js/timeseries.js:428-437 | the panel at category index + 1 is headed by the row's category and shows the row |
| Timeseries.Insert | js/timeseries.js:120 | inserting into a sorted list keeps it sorted and adds exactly that name |
| Timeseries.SortNames | js/timeseries.js:120 | `dataNames.sort()` gives a sorted permutation |
| Timeseries.Filter | js/timeseries.js:123 | exactly the names containing the term, ignoring case |
| Timeseries.Suggestions | js/timeseries.js:122-124 | at most ten matches, a prefix of all matches, and all of them when there are at most ten |
| Timeseries.AddTimelineSearchAutocomplete | js/timeseries.js:111-128 | the names of all rows, sorted |
| Timeseries.Timelines.constructor | js/timeseries.js:10-106 | the panels are grouped by the chosen column |
| Timeseries.Timelines.SelectCategory | js/timeseries.js:143-166 | a different column empties the chart chain and regroups by it; the current one changes nothing |
| Timeseries.Timelines.Search | js/timeseries.js:402-455 | the highlighted panel shows the found row under its category's header |
| Timeseries.Timelines.ClickPanel | js/timeseries.js:90-93 | a click restarts the chain with the panel's rows in color `colors(k%10)` |

## Left out

- Drawing: the DOM, SVG elements, transitions, tooltips, node dialogs, highlight classes, scrolling, z-index and page layout are not modelled. Nor is the heatmap's re-highlighting after a chart-type switch.
- d3 scales are parameters. This covers `invert`, `range()`, the date x-scale and the heat color scale. The continuous axis's `nice()` rounding is not modelled.
- Palettes (`category10`, `category20`) are parameters, and so is the colors offered by the color chooser.
- File reading, CSV parsing and JavaScript's text-to-number coercion are not modelled. Cells arrive already classified as `Num`, `Str` or `Absent`.
- JavaScript's loose `==` between a number and its text is not modelled. Nor is the ordering `Object.keys` gives integer-like keys: dictionaries keep insertion order.
- A child chart shares its parent's `shapeDict` and `selectedColors` object, so the source aliases them. The model copies them, so an edit on one chart does not reach the other.
- `Chain.Link.CreateGraph` models only the scale step and the barchart width check of `createGraph`. The misspelt `carDrawGraph` at js/svgChain.js:971 assigns an unused global and changes nothing.
- `Chain.Chain.CreateSvg` requires that the first chart's columns exist, because the source reads `dataKeys[1]`, `dataKeys[2]` or the date columns of the first row.
- `Chain.Chain.DragEnd` takes the drawing under the brush as a parameter. A heatmap's squares are the ones `Heatmap.CreateHeatData` builds.
- Heatmap: a zero continuous step divides by zero in the source. The model gives such a row the index -1, and `Heatmap.CountRows` requires every row to have a square. The source would throw on `undefined.count`.
- Heatmap: a continuous axis whose first cell is numeric but a later cell is not has a NaN domain. `Heatmap.HeatDomain` excludes it. The source would compute NaN bins for every row and throw on `heatData[NaN].count`.
- `Legend.ChooseColor` requires a chosen color. The source passes `undefined` when the user pressed Ok with nothing selected.
- `Legend.LegendSamples` gives the sample values only. The samples are keyed through `Object.keys` in the source, which can merge equal values.
- `Legend.LegendSamples`, `Heatmap.Bin`, `Heatmap.CellIndex`, `Heatmap.SquareCoordinate` and `Timeseries.YScale` use exact real arithmetic, not IEEE doubles. The last legend sample can then differ from the source's by one unit in the last place, and a value on a bin boundary can land one column or row over. `Heatmap.SquareCoordinate` computes `min + k*delta`, where the source adds `delta` k times; the rounding of the two can differ.
- `Encoders.NodeShape` gives `None` for a shape key without a dictionary, and `Legend.ColorLegend` an empty section for a color key with neither a dictionary nor a scale. The source throws a TypeError reading a property of `null` in both cases.
- `Timeseries.DomainOf`: an empty list gives `NoValues`. The source computes `[Infinity, -Infinity]`.
- `Timeseries.SearchForTimeline` and `Timeseries.Timelines.Search` compare the name cell with `Str(target)`. The source uses loose `==`, which also matches a numeric cell against its text.
- `Timeseries.Filter` folds ASCII letters only. jQuery UI escapes the term and matches case-insensitively over all of Unicode.
- `Timeseries.SortNames` orders strings by Unicode scalar values. JavaScript's `sort()` compares UTF-16 code units, which differs only for characters outside the Basic Multilingual Plane.
- `Timeseries.AddTimelineSearchAutocomplete` takes JavaScript's cell-to-text conversion as the parameter `text`. It does not model `sort` placing `undefined` last.
- `Timeseries.Panel` does not store its y-scale. The y-scale is `Timeseries.GetTimelineYScale` of its rows.
- `hideTimelineTicks`, `getDateList`, `dateCreator` and the category menu's widgets are not modelled.
- `Timeseries.Timelines.SelectCategory` models `dataKeys.indexOf(selected)`. The category menu text comparison is not modelled.
- The barchart overview and timeline y-scales of a chart are not modelled. Nor is `createScales`' time-series branch, which `Timeseries.GetTimelineYScale` covers.

## Findings

| source | as written | input that shows it | evidently intended | confidence | as-written member | corrected member |
|---|---|---|---|---|---|---|
| js/graphInteractions.js:135-148 | the rectangle's corner moves only while the mouse is left of (or above) the start point | start at x = 100, drag to 80, then to 120: the rectangle covers [80, 100] | the rectangle spans the start point and the mouse, [100, 120] | not executed | Selection.DragLeavesStaleCorner | Selection.DragPathSpans |
| js/dropDowns.js:170-181 | the loop runs `dataKeys.length` times over a list that has "--None--" added in front | color menu over columns [a, b]: the items are "--None--", a, and b is missing | one item per entry of the list | not executed | Dropdowns.LastColumnMissing | Dropdowns.EntriesOfferEveryColumn |
| js/graphLegend.js:157-163 | the click handlers close over the shared loop variable `key` | shape dictionary {a: circle, b: cross}: the button on row a opens the chooser for b | each button opens the chooser for its own row | not executed | Legend.ShapeButtonOpensWrongKey | Legend.ShapeButtonsDistinct |
