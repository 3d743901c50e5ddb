// Color, size and shape encoders of a chart with their cardinality checks and
// key rollback (js/svgChain.js: createScales), and the per-node encoding
// choices and bar-width check of updateGraph.

module Encoders {
  import opened Base
  import opened Scales

  const MaxColorCategories: nat := 20
  const SmallPaletteSize: nat := 10
  const White: string := "rgb(255, 255, 255)"
  const SizeRangeMin: real := 20.0
  const SizeRangeMax: real := 200.0
  const DefaultNodeSize: real := 75.0
  const DefaultShape: string := "circle"

  /** One entry of a JavaScript object used as a dictionary; a list of them
    * keeps the insertion order that `Object.keys` reports. */
  datatype Assoc = Assoc(key: Value, val: string)

  function KeysOf(d: seq<Assoc>): (ks: seq<Value>)
    ensures |ks| == |d|
    ensures forall i :: 0 <= i < |d| ==> ks[i] == d[i].key
  {
    if d == [] then [] else [d[0].key] + KeysOf(d[1..])
  }

  /** `dict[k]`: the value stored under `k`, or `undefined`. */
  function Lookup(d: seq<Assoc>, k: Value): (r: Option<string>)
    ensures r.None? <==> k !in KeysOf(d)
    ensures r.Some? ==> exists i :: 0 <= i < |d| && d[i] == Assoc(k, r.value)
  {
    if d == [] then None
    else if d[0].key == k then Some(d[0].val)
    else
      var r := Lookup(d[1..], k);
      assert KeysOf(d) == [d[0].key] + KeysOf(d[1..]);
      assert r.Some? ==> exists i :: 0 <= i < |d[1..]| && d[1..][i] == Assoc(k, r.value);
      r
  }

  /** In a dictionary without repeated keys, entry `i` is found under its key. */
  lemma {:induction false} LookupAt(d: seq<Assoc>, i: nat)
    requires i < |d| && NoDuplicates(KeysOf(d))
    ensures Lookup(d, d[i].key) == Some(d[i].val)
  {
    if i > 0 {
      var ks := KeysOf(d);
      assert ks[0] != ks[i];
      assert KeysOf(d[1..]) == ks[1..];
      LookupAt(d[1..], i - 1);
    }
  }

  /** A continuous color scale: the extent of the column as domain and the
    * colors it interpolates between. */
  datatype ColorScale = ColorScale(domain: Extent, range: seq<string>)

  /** A size scale maps the column's extent onto [20, 200]. */
  datatype SizeScale = SizeScale(domain: Extent)

  /** The fields of a chart that `createScales` reads and writes besides the
    * axis scales. */
  datatype Encoding = Encoding(
    colorKey: string, prevColorKey: string,
    sizeKey: string, prevSizeKey: string,
    shapeKey: string, prevShapeKey: string,
    selectedColors: Option<seq<Assoc>>,
    colorScale: Option<ColorScale>,
    sizeScale: Option<SizeScale>,
    shapeDict: Option<seq<Assoc>>)

  /** Category i gets palette color i. */
  function PaletteColors(cats: seq<Value>, palette: nat -> string): seq<Assoc>
  {
    seq(|cats|, i requires 0 <= i < |cats| => Assoc(cats[i], palette(i)))
  }

  /** Category i gets the color stored under the i-th key of `prior`. */
  function ReusedColors(cats: seq<Value>, prior: seq<Assoc>): seq<Assoc>
    requires |prior| == |cats|
  {
    seq(|cats|, i requires 0 <= i < |cats| => Assoc(cats[i], prior[i].val))
  }

  /** Category i gets `SHAPES[i]`. */
  function ShapeAssignment(cats: seq<Value>): seq<Assoc>
    requires |cats| <= |Shapes|
  {
    seq(|cats|, i requires 0 <= i < |cats| => Assoc(cats[i], Shapes[i]))
  }

  /** The categorical color dictionary built for `cats` (at most 20 of them):
    * a fresh palette unless the prior dictionary has exactly as many keys. */
  function CategoricalColors(cats: seq<Value>, prior: Option<seq<Assoc>>,
                             category10: nat -> string, category20: nat -> string): seq<Assoc>
  {
    if prior.None? || |prior.value| != |cats| then
      PaletteColors(cats, if |cats| <= SmallPaletteSize then category10 else category20)
    else ReusedColors(cats, prior.value)
  }

  /** The outcome of `createScales`: the new encoding and the selector whose
    * column was refused, if any (`None` when it ran to its end). */
  datatype ScalesOutcome = ScalesOutcome(enc: Encoding, rejected: Option<KeyType>)

  predicate CategoricalColorColumn(data: seq<Row>, e: Encoding)
    requires |data| > 0
  {
    !IsNumeric(Cell(data[0], e.colorKey)) && e.colorKey != NoSelection
  }

  /** The color encoder of scatterplots and barcharts. */
  function ColorEncode(data: seq<Row>, e: Encoding, preferredColor: string,
                       category10: nat -> string, category20: nat -> string): (r: ScalesOutcome)
    requires |data| > 0
    ensures r.rejected.Some? <==>
              CategoricalColorColumn(data, e) && |Distinct(Column(data, e.colorKey))| > MaxColorCategories
    ensures r.rejected.Some? ==> r.rejected == Some(ColorKey) && r.enc == e.(colorKey := e.prevColorKey)
    // Otherwise only the two color encodings may change, and a chosen
    // column ends up with exactly one of them.
    ensures r.rejected.None? ==>
              r.enc == e.(selectedColors := r.enc.selectedColors, colorScale := r.enc.colorScale)
    ensures r.rejected.None? && e.colorKey != NoSelection ==>
              (r.enc.selectedColors.Some? <==> r.enc.colorScale.None?)
    // An accepted categorical column gets the dictionary of its categories,
    // a numeric one a scale over its extent, and no column leaves both alone.
    ensures r.rejected.None? && CategoricalColorColumn(data, e) ==>
              && r.enc.colorScale.None?
              && r.enc.selectedColors ==
                 Some(CategoricalColors(Distinct(Column(data, e.colorKey)), e.selectedColors, category10, category20))
    ensures !CategoricalColorColumn(data, e) && e.colorKey != NoSelection ==>
              && r.enc.selectedColors.None?
              && r.enc.colorScale ==
                 Some(ColorScale(ExtentOf(Column(data, e.colorKey)),
                                 if e.colorScale.Some? then e.colorScale.value.range else [White, preferredColor]))
    ensures e.colorKey == NoSelection ==> r == ScalesOutcome(e, None)
  {
    if CategoricalColorColumn(data, e) then
      var cats := Distinct(Column(data, e.colorKey));
      if |cats| <= MaxColorCategories then
        ScalesOutcome(e.(colorScale := None,
                         selectedColors := Some(CategoricalColors(cats, e.selectedColors, category10, category20))),
                      None)
      else ScalesOutcome(e.(colorKey := e.prevColorKey), Some(ColorKey))
    else if e.colorKey != NoSelection then
      var range := if e.colorScale.Some? then e.colorScale.value.range else [White, preferredColor];
      ScalesOutcome(e.(selectedColors := None,
                       colorScale := Some(ColorScale(ExtentOf(Column(data, e.colorKey)), range))),
                    None)
    else ScalesOutcome(e, None)
  }

  /** The size encoder of scatterplots: only a numeric column is accepted. */
  function SizeEncode(data: seq<Row>, e: Encoding): (r: ScalesOutcome)
    requires |data| > 0
    ensures r.rejected.Some? <==> !IsNumeric(Cell(data[0], e.sizeKey)) && e.sizeKey != NoSelection
    ensures r.rejected.Some? ==> r.rejected == Some(SizeKey) && r.enc == e.(sizeKey := e.prevSizeKey)
    ensures r.rejected.None? ==> r.enc == e.(sizeScale := r.enc.sizeScale)
    // An accepted column gets a scale over its extent; no column changes nothing.
    ensures r.rejected.None? && e.sizeKey != NoSelection ==>
              r.enc.sizeScale == Some(SizeScale(ExtentOf(Column(data, e.sizeKey))))
    ensures e.sizeKey == NoSelection ==> r == ScalesOutcome(e, None)
  {
    if IsNumeric(Cell(data[0], e.sizeKey)) && e.sizeKey != NoSelection then
      ScalesOutcome(e.(sizeScale := Some(SizeScale(ExtentOf(Column(data, e.sizeKey))))), None)
    else if e.sizeKey != NoSelection then
      ScalesOutcome(e.(sizeKey := e.prevSizeKey), Some(SizeKey))
    else ScalesOutcome(e, None)
  }

  /** The shape encoder of scatterplots: at most six categories, and the
    * dictionary is rebuilt only when the shape key has just changed. */
  function ShapeEncode(data: seq<Row>, e: Encoding): (r: ScalesOutcome)
    ensures r.rejected.Some? <==> e.shapeKey != NoSelection && |Distinct(Column(data, e.shapeKey))| > |Shapes|
    ensures r.rejected.Some? ==> r.rejected == Some(ShapeKey) && r.enc == e.(shapeKey := e.prevShapeKey)
    ensures r.rejected.None? ==> r.enc == e.(shapeDict := r.enc.shapeDict)
  {
    if e.shapeKey != NoSelection then
      var cats := Distinct(Column(data, e.shapeKey));
      if |cats| <= |Shapes| then
        if e.shapeKey != e.prevShapeKey then
          ScalesOutcome(e.(shapeDict := Some(ShapeAssignment(cats))), None)
        else ScalesOutcome(e, None)
      else ScalesOutcome(e.(shapeKey := e.prevShapeKey), Some(ShapeKey))
    else ScalesOutcome(e, None)
  }

  /** The encoder part of `createScales`: color for scatterplots and
    * barcharts, then size and shape for scatterplots, stopping at the first
    * refused column. */
  function EncodeScales(graph: GraphType, data: seq<Row>, e: Encoding, preferredColor: string,
                        category10: nat -> string, category20: nat -> string): (r: ScalesOutcome)
    requires |data| > 0
    // Nothing but the color key is touched when the color column is refused.
    ensures r.rejected == Some(ColorKey) <==>
              && HasEncoders(graph) && CategoricalColorColumn(data, e)
              && |Distinct(Column(data, e.colorKey))| > MaxColorCategories
    ensures r.rejected == Some(ColorKey) ==> r.enc == e.(colorKey := e.prevColorKey)
    // A refused size column restores the size key; shapes are not reached.
    ensures r.rejected == Some(SizeKey) ==>
              && graph == Scatterplot && r.enc.sizeKey == e.prevSizeKey
              && r.enc.sizeScale == e.sizeScale
              && r.enc.shapeKey == e.shapeKey && r.enc.shapeDict == e.shapeDict
    ensures r.rejected == Some(ShapeKey) ==>
              && graph == Scatterplot && r.enc.shapeKey == e.prevShapeKey
              && r.enc.shapeDict == e.shapeDict && r.enc.sizeKey == e.sizeKey
    ensures r.rejected.None? ==>
              && r.enc.colorKey == e.colorKey && r.enc.sizeKey == e.sizeKey
              && r.enc.shapeKey == e.shapeKey
    // The shadows are never written.
    ensures && r.enc.prevColorKey == e.prevColorKey && r.enc.prevSizeKey == e.prevSizeKey
            && r.enc.prevShapeKey == e.prevShapeKey
    // Heatmaps and the time-series charts have no encoders.
    ensures !HasEncoders(graph) ==> r == ScalesOutcome(e, None)
    // Barcharts never touch size or shape.
    ensures graph == Barchart ==> && r.enc.sizeKey == e.sizeKey && r.enc.sizeScale == e.sizeScale
                                  && r.enc.shapeKey == e.shapeKey && r.enc.shapeDict == e.shapeDict
    // A successful color pass with a key leaves exactly one color encoding.
    ensures HasEncoders(graph) && e.colorKey != NoSelection && r.rejected != Some(ColorKey) ==>
              (r.enc.selectedColors.Some? <==> r.enc.colorScale.None?)
    ensures r.rejected.Some? ==> r.rejected.value != XKey && r.rejected.value != YKey
  {
    if HasEncoders(graph) then
      var c := ColorEncode(data, e, preferredColor, category10, category20);
      if c.rejected.Some? || graph == Barchart then c
      else
        var s := SizeEncode(data, c.enc);
        if s.rejected.Some? then s
        else ShapeEncode(data, s.enc)
    else ScalesOutcome(e, None)
  }

  /** What each encoder contributes to `createScales`: the size column is
    * refused when it is not numeric and the shape column when it has more
    * than six categories, each only on a scatterplot whose earlier columns
    * were accepted; a key is rolled back only by its own refusal; once the color
    * encoder accepts, the color fields are its result, and the size scale
    * and (on full acceptance) the shape dictionary are what the size and
    * shape encoders make of the caller's keys. */
  lemma EncodeScalesStages(graph: GraphType, data: seq<Row>, e: Encoding, preferredColor: string,
                           category10: nat -> string, category20: nat -> string)
    requires |data| > 0
    ensures var r := EncodeScales(graph, data, e, preferredColor, category10, category20);
      var c := ColorEncode(data, e, preferredColor, category10, category20).enc;
      && (r.rejected == Some(SizeKey) <==>
            && graph == Scatterplot && r.rejected != Some(ColorKey)
            && !IsNumeric(Cell(data[0], e.sizeKey)) && e.sizeKey != NoSelection)
      && (r.rejected == Some(ShapeKey) <==>
            && graph == Scatterplot && r.rejected != Some(ColorKey) && r.rejected != Some(SizeKey)
            && e.shapeKey != NoSelection && |Distinct(Column(data, e.shapeKey))| > |Shapes|)
      && (r.rejected != Some(ColorKey) ==> r.enc.colorKey == e.colorKey)
      && (r.rejected != Some(SizeKey) ==> r.enc.sizeKey == e.sizeKey)
      && (r.rejected != Some(ShapeKey) ==> r.enc.shapeKey == e.shapeKey)
      && (HasEncoders(graph) && r.rejected != Some(ColorKey) ==>
            && r.enc.colorKey == c.colorKey && r.enc.selectedColors == c.selectedColors
            && r.enc.colorScale == c.colorScale)
      && (graph == Scatterplot && r.rejected != Some(ColorKey) ==>
            r.enc.sizeScale == SizeEncode(data, e).enc.sizeScale)
      && (graph == Scatterplot && r.rejected.None? ==>
            r.enc.shapeDict == ShapeEncode(data, e).enc.shapeDict)
  {
  }

  /** A scatterplot pass with a size key that neither the color encoder nor
    * the size encoder refuses. */
  predicate SizeAccepted(data: seq<Row>, e: Encoding, preferredColor: string,
                         category10: nat -> string, category20: nat -> string)
  {
    && |data| > 0 && e.sizeKey != NoSelection
    && var r := EncodeScales(Scatterplot, data, e, preferredColor, category10, category20);
       r.rejected != Some(ColorKey) && r.rejected != Some(SizeKey)
  }

  /** Such a pass keeps the size key and leaves a size scale over the
    * column's extent. */
  lemma AcceptedSizeScale(data: seq<Row>, e: Encoding, preferredColor: string,
                          category10: nat -> string, category20: nat -> string)
    requires SizeAccepted(data, e, preferredColor, category10, category20)
    ensures var r := EncodeScales(Scatterplot, data, e, preferredColor, category10, category20).enc;
      r.sizeKey == e.sizeKey && r.sizeScale == Some(SizeScale(ExtentOf(Column(data, e.sizeKey))))
  {
    EncodeScalesStages(Scatterplot, data, e, preferredColor, category10, category20);
  }

  /** A pass with encoders over a categorical color column that the color
    * encoder does not refuse. */
  predicate CategoricalColorAccepted(graph: GraphType, data: seq<Row>, e: Encoding, preferredColor: string,
                                     category10: nat -> string, category20: nat -> string)
  {
    && |data| > 0 && HasEncoders(graph) && CategoricalColorColumn(data, e)
    && EncodeScales(graph, data, e, preferredColor, category10, category20).rejected != Some(ColorKey)
  }

  /** Such a pass keeps the color key and leaves the dictionary of the
    * column's categories. */
  lemma AcceptedColorDictionary(graph: GraphType, data: seq<Row>, e: Encoding, preferredColor: string,
                                category10: nat -> string, category20: nat -> string)
    requires CategoricalColorAccepted(graph, data, e, preferredColor, category10, category20)
    ensures var r := EncodeScales(graph, data, e, preferredColor, category10, category20).enc;
      && r.colorKey == e.colorKey
      && r.selectedColors == Some(CategoricalColors(Distinct(Column(data, e.colorKey)), e.selectedColors,
                                                    category10, category20))
  {
    EncodeScalesStages(graph, data, e, preferredColor, category10, category20);
  }

  /** Every key equals its shadow. */
  predicate Settled(e: Encoding)
  {
    e.prevColorKey == e.colorKey && e.prevSizeKey == e.sizeKey && e.prevShapeKey == e.shapeKey
  }

  /** Starting with every key equal to its shadow, the encoders end that
    * way too: a refused column goes back to its shadow. */
  lemma EncodeScalesSettled(graph: GraphType, data: seq<Row>, e: Encoding, preferredColor: string,
                            category10: nat -> string, category20: nat -> string)
    requires |data| > 0 && Settled(e)
    ensures Settled(EncodeScales(graph, data, e, preferredColor, category10, category20).enc)
  {
    if HasEncoders(graph) {
      var c := ColorEncode(data, e, preferredColor, category10, category20);
      assert Settled(c.enc);
      if c.rejected.None? && graph == Scatterplot {
        var s := SizeEncode(data, c.enc);
        assert Settled(s.enc);
        if s.rejected.None? {
          assert Settled(ShapeEncode(data, s.enc).enc);
        }
      }
    }
  }

  /** Categorical colors: with no usable previous dictionary category i gets
    * palette color i (from the 10-color palette up to 10 categories), else it
    * takes, position by position, the color of the previous dictionary's i-th
    * key. Either way the keys are the categories in first-seen order. */
  lemma CategoricalColorsSpec(cats: seq<Value>, prior: Option<seq<Assoc>>,
                              category10: nat -> string, category20: nat -> string, i: nat)
    requires i < |cats|
    ensures var d := CategoricalColors(cats, prior, category10, category20);
      && KeysOf(d) == cats
      && (prior.None? || |prior.value| != |cats| ==>
            d[i].val == if |cats| <= SmallPaletteSize then category10(i) else category20(i))
      && (prior.Some? && |prior.value| == |cats| ==> d[i].val == prior.value[i].val)
  {
  }

  /** Every value of a column is the key of some entry of the dictionary
    * built over its categories. */
  lemma CategoryEntry(col: seq<Value>, prior: Option<seq<Assoc>>,
                      category10: nat -> string, category20: nat -> string, v: Value) returns (i: nat)
    requires v in col
    ensures var d := CategoricalColors(Distinct(col), prior, category10, category20);
      i < |d| && d[i].key == v
  {
    var cats := Distinct(col);
    DistinctSpec(col);
    i :| i < |cats| && cats[i] == v;
    CategoricalColorsSpec(cats, prior, category10, category20, i);
  }

  /** After a successful categorical pass, every row's category has a color. */
  lemma EveryCategoryColored(data: seq<Row>, e: Encoding, preferredColor: string,
                             category10: nat -> string, category20: nat -> string, row: nat)
    requires |data| > 0 && row < |data| && CategoricalColorColumn(data, e)
    requires ColorEncode(data, e, preferredColor, category10, category20).rejected.None?
    ensures var d := ColorEncode(data, e, preferredColor, category10, category20).enc.selectedColors;
      d.Some? && Lookup(d.value, Cell(data[row], e.colorKey)).Some?
  {
    var col := Column(data, e.colorKey);
    var cats := Distinct(col);
    DistinctSpec(col);
    assert col[row] == Cell(data[row], e.colorKey);
    CategoricalColorsSpec(cats, e.selectedColors, category10, category20, 0);
  }

  /** A continuous color pass keeps the previous range when there was a
    * scale, and otherwise runs from white to the chart's preferred color. */
  lemma ContinuousColorRange(data: seq<Row>, e: Encoding, preferredColor: string,
                             category10: nat -> string, category20: nat -> string)
    requires |data| > 0 && IsNumeric(Cell(data[0], e.colorKey)) && e.colorKey != NoSelection
    ensures var r := ColorEncode(data, e, preferredColor, category10, category20);
      && r.rejected.None? && r.enc.selectedColors.None?
      && r.enc.colorScale.Some?
      && r.enc.colorScale.value.domain == ExtentOf(Column(data, e.colorKey))
      && r.enc.colorScale.value.range ==
           if e.colorScale.Some? then e.colorScale.value.range else [White, preferredColor]
  {
  }

  /** The shape dictionary is replaced exactly when an accepted shape key
    * differs from its shadow, and then maps category i to `SHAPES[i]`. */
  lemma ShapeRebuildRule(data: seq<Row>, e: Encoding)
    ensures var r := ShapeEncode(data, e);
      var cats := Distinct(Column(data, e.shapeKey));
      && (r.enc.shapeDict != e.shapeDict ==> e.shapeKey != e.prevShapeKey)
      && (e.shapeKey != NoSelection && |cats| <= |Shapes| && e.shapeKey != e.prevShapeKey ==>
            r.enc.shapeDict == Some(ShapeAssignment(cats)) && KeysOf(ShapeAssignment(cats)) == cats)
      && (r.enc.shapeDict.Some? && r.enc.shapeDict != e.shapeDict ==>
            forall i :: 0 <= i < |r.enc.shapeDict.value| ==> r.enc.shapeDict.value[i].val == Shapes[i])
  {
  }

  /** What fills a node: the heat color of a heatmap cell's count, the color
    * stored for the node's category, the continuous scale applied to its
    * value, or the chart's preferred color. */
  datatype Fill =
    | HeatColor(count: nat)
    | CategoryColor(entry: Option<string>)
    | ScaledColor(scale: ColorScale, v: Value)
    | PreferredColor(color: string)

  function NodeFill(graph: GraphType, e: Encoding, preferredColor: string, d: Row, count: nat): (f: Fill)
    ensures graph == Heatmap <==> f.HeatColor?
    ensures f.CategoryColor? ==> e.selectedColors.Some? && f.entry == Lookup(e.selectedColors.value, Cell(d, e.colorKey))
    ensures (f.CategoryColor? || f.ScaledColor?) ==> e.colorKey != NoSelection
    ensures f.ScaledColor? ==> e.selectedColors.None? && Some(f.scale) == e.colorScale
    ensures graph != Heatmap && e.colorKey == NoSelection ==> f == PreferredColor(preferredColor)
  {
    if graph == Heatmap then HeatColor(count)
    else if e.colorKey != NoSelection && e.selectedColors.Some? then
      CategoryColor(Lookup(e.selectedColors.value, Cell(d, e.colorKey)))
    else if e.colorKey != NoSelection && e.colorScale.Some? then
      ScaledColor(e.colorScale.value, Cell(d, e.colorKey))
    else PreferredColor(preferredColor)
  }

  /** A scatterplot node's size: the size scale applied to its value, or 75. */
  datatype NodeSizing = Scaled(scale: Option<SizeScale>, v: Value) | FixedSize(size: real)

  function NodeSize(e: Encoding, d: Row): (s: NodeSizing)
    ensures s.FixedSize? <==> e.sizeKey == NoSelection
    ensures s.FixedSize? ==> s.size == DefaultNodeSize
    ensures s.Scaled? ==> s.scale == e.sizeScale && s.v == Cell(d, e.sizeKey)
  {
    if e.sizeKey != NoSelection then Scaled(e.sizeScale, Cell(d, e.sizeKey)) else FixedSize(DefaultNodeSize)
  }

  /** A scatterplot node's shape: the dictionary entry of its category, or a
    * circle. `None` is the `undefined` of a missing entry. */
  function NodeShape(e: Encoding, d: Row): (s: Option<string>)
    ensures e.shapeKey == NoSelection ==> s == Some(DefaultShape)
    ensures e.shapeKey != NoSelection && e.shapeDict.Some? ==> s == Lookup(e.shapeDict.value, Cell(d, e.shapeKey))
    ensures e.shapeKey != NoSelection && e.shapeDict.None? ==> s.None?
  {
    if e.shapeKey != NoSelection then
      if e.shapeDict.Some? then Lookup(e.shapeDict.value, Cell(d, e.shapeKey)) else None
    else Some(DefaultShape)
  }

  /** After an accepted shape pass with a fresh dictionary, every node's
    * shape is one of the six supported shapes. */
  lemma ShapesSupported(data: seq<Row>, e: Encoding, row: nat)
    requires row < |data| && e.shapeKey != NoSelection && e.shapeKey != e.prevShapeKey
    requires ShapeEncode(data, e).rejected.None?
    ensures var s := NodeShape(ShapeEncode(data, e).enc, data[row]);
      s.Some? && s.value in Shapes
  {
    var col := Column(data, e.shapeKey);
    var cats := Distinct(col);
    DistinctSpec(col);
    assert col[row] == Cell(data[row], e.shapeKey);
    var d := ShapeAssignment(cats);
    assert KeysOf(d) == cats;
    var k := IndexOf(cats, Cell(data[row], e.shapeKey));
    LookupAt(d, k);
  }

  const MaxBarWidth: real := 60.0
  const MinBarWidth: real := 1.5

  /** Barchart layout: too many x categories leave bars narrower than 1.5 px
    * and the chart is refused; wide bars are capped at 60 px. */
  datatype BarLayout = TooNarrow | Bars(width: real)

  function BarLayoutFor(numXValues: nat): (b: BarLayout)
    requires numXValues > 0
  {
    var w := XRangeMax * (1.0 - ScalePadding * 2.0) / numXValues as real - 3.0;
    if w < MinBarWidth then TooNarrow
    else if w > MaxBarWidth then Bars(MaxBarWidth)
    else Bars(w)
  }

  /** The barchart is refused exactly when there are more than 112 x values,
    * bars are 60 px wide exactly when there are at most 8, and every
    * drawn bar is between 1.5 and 60 px wide. */
  lemma BarLayoutBounds(n: nat)
    requires n > 0
    ensures BarLayoutFor(n).TooNarrow? <==> n > 112
    ensures BarLayoutFor(n) == Bars(MaxBarWidth) <==> n <= 8
    ensures BarLayoutFor(n).Bars? ==> MinBarWidth <= BarLayoutFor(n).width <= MaxBarWidth
  {
    var q := 504.0 / n as real;
    assert XRangeMax * (1.0 - ScalePadding * 2.0) == 504.0;
    assert q * n as real == 504.0;
    if n > 112 {
      assert q < 4.5;
    } else {
      assert q >= 4.5;
    }
    if n <= 8 {
      assert q >= 63.0;
    } else {
      assert q < 63.0;
    }
  }
}
