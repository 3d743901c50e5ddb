// The chain of linked charts (js/svgChain.js: startSVGChain, createSVG,
// createGraph's scale and bar-width steps, createScales; and the part of
// js/graphInteractions.js's `dragend` handler that rebuilds the chain).

module Chain {
  import opened Base
  import opened Scales
  import opened Encoders
  import opened Selection
  import Heatmap

  /** The x key a chart ends up with after `createGraph`, and its encoding:
    * the encoders run once, and a barchart whose bars would be too narrow
    * for the new x key goes back to the previous x key and runs them again. */
  function Redraw(graph: GraphType, data: seq<Row>, xKey: string, prevXKey: string, e: Encoding,
                  preferredColor: string, category10: nat -> string, category20: nat -> string): (r: (string, Encoding))
    requires |data| > 0
    ensures r.0 == xKey || r.0 == prevXKey
    ensures r.0 != xKey <==> graph == Barchart && xKey != prevXKey && TooNarrowFor(data, xKey)
    ensures r.0 == xKey ==> r.1 == EncodeScales(graph, data, e, preferredColor, category10, category20).enc
  {
    var first := EncodeScales(graph, data, e, preferredColor, category10, category20).enc;
    if graph == Barchart && TooNarrowFor(data, xKey) && xKey != prevXKey then
      (prevXKey, EncodeScales(graph, data, first, preferredColor, category10, category20).enc)
    else (xKey, first)
  }

  /** Too many distinct x values to draw bars at least 1.5 pixels wide. */
  predicate TooNarrowFor(data: seq<Row>, xKey: string)
    requires |data| > 0
  {
    DistinctSpec(Column(data, xKey));
    assert Column(data, xKey)[0] in Distinct(Column(data, xKey));
    BarLayoutFor(|Distinct(Column(data, xKey))|).TooNarrow?
  }

  /** A second pass never changes the x key again: a redraw whose key equals
    * its shadow keeps the key, and a key rolled back to its shadow redraws
    * to itself. */
  lemma RedrawSettles(graph: GraphType, data: seq<Row>, xKey: string, prevXKey: string, e: Encoding,
                      preferredColor: string, category10: nat -> string, category20: nat -> string)
    requires |data| > 0
    ensures Redraw(graph, data, prevXKey, prevXKey, e, preferredColor, category10, category20).0 == prevXKey
    ensures var r := Redraw(graph, data, xKey, prevXKey, e, preferredColor, category10, category20);
      r.0 != xKey ==> Redraw(graph, data, r.0, prevXKey, r.1, preferredColor, category10, category20).0 == r.0
  {
  }

  /** A chart drawn with every key equal to its shadow keeps them equal. */
  lemma RedrawSettled(graph: GraphType, data: seq<Row>, xKey: string, prevXKey: string, e: Encoding,
                      preferredColor: string, category10: nat -> string, category20: nat -> string)
    requires |data| > 0 && Settled(e)
    ensures Settled(Redraw(graph, data, xKey, prevXKey, e, preferredColor, category10, category20).1)
  {
    EncodeScalesSettled(graph, data, e, preferredColor, category10, category20);
    var first := EncodeScales(graph, data, e, preferredColor, category10, category20).enc;
    EncodeScalesSettled(graph, data, first, preferredColor, category10, category20);
  }

  /** The encoding a new chart starts from: the given keys and encodings,
    * each shadow equal to its key, and no size scale yet. */
  function Inherited(colorKey: string, selectedColors: Option<seq<Assoc>>, colorScale: Option<ColorScale>,
                     sizeKey: string, shapeKey: string, shapeDict: Option<seq<Assoc>>): (e: Encoding)
    ensures e.prevColorKey == e.colorKey == colorKey && e.prevSizeKey == e.sizeKey == sizeKey
    ensures e.prevShapeKey == e.shapeKey == shapeKey && e.sizeScale.None?
    ensures e.selectedColors == selectedColors && e.colorScale == colorScale && e.shapeDict == shapeDict
  {
    Encoding(colorKey, colorKey, sizeKey, sizeKey, shapeKey, shapeKey, selectedColors, colorScale, None, shapeDict)
  }

  /** A chart starting a chain inherits nothing. */
  const Fresh: Encoding := Inherited(NoSelection, None, None, NoSelection, NoSelection, None)

  /** A chain link whose inherited shape key equals its shadow keeps the
    * parent's shape dictionary through its first drawing. */
  lemma InheritedShapesKept(graph: GraphType, data: seq<Row>, colorKey: string, selectedColors: Option<seq<Assoc>>,
                            colorScale: Option<ColorScale>, sizeKey: string, shapeKey: string,
                            shapeDict: Option<seq<Assoc>>, preferredColor: string,
                            category10: nat -> string, category20: nat -> string)
    requires |data| > 0
    ensures var r := EncodeScales(graph, data, Inherited(colorKey, selectedColors, colorScale, sizeKey, shapeKey, shapeDict),
                                  preferredColor, category10, category20);
      r.enc.shapeDict == shapeDict && r.enc.shapeKey == shapeKey
  {
    var e := Inherited(colorKey, selectedColors, colorScale, sizeKey, shapeKey, shapeDict);
    if HasEncoders(graph) {
      var c := ColorEncode(data, e, preferredColor, category10, category20);
      assert c.enc.shapeDict == shapeDict && c.enc.shapeKey == shapeKey && c.enc.prevShapeKey == shapeKey;
      if c.rejected.None? && graph == Scatterplot {
        var s := SizeEncode(data, c.enc);
        assert s.enc.shapeDict == shapeDict && s.enc.shapeKey == shapeKey && s.enc.prevShapeKey == shapeKey;
      }
    }
  }

  /** One chart of the chain (`svgObj`). */
  class Link {
    /** The number in the chart's name `svg-<name>`. */
    const name: nat
    const data: seq<Row>
    /** The column names of the first row, in order. */
    const dataKeys: seq<string>
    var graph: GraphType
    var xKey: string
    var prevXKey: string
    var yKey: string
    var prevYKey: string
    var colorKey: string
    var prevColorKey: string
    var sizeKey: string
    var prevSizeKey: string
    var shapeKey: string
    var prevShapeKey: string
    var selectedColors: Option<seq<Assoc>>
    var colorScale: Option<ColorScale>
    var sizeScale: Option<SizeScale>
    var shapeDict: Option<seq<Assoc>>
    var preferredColor: string
    /** The rows picked by the latest brush. */
    var selectedData: seq<Row>

    /** The fields `createScales` works on. */
    function Enc(): Encoding
      reads this
    {
      Encoding(colorKey, prevColorKey, sizeKey, prevSizeKey, shapeKey, prevShapeKey,
               selectedColors, colorScale, sizeScale, shapeDict)
    }

    /** The fields the encoders leave alone. */
    function Frame(): (GraphType, string, string, string, string, string, seq<Row>)
      reads this
    {
      (graph, xKey, prevXKey, yKey, prevYKey, preferredColor, selectedData)
    }

    /** `createSVG`'s new `svgObj`: every shadow starts equal to its key. */
    constructor (name: nat, data: seq<Row>, dataKeys: seq<string>, graph: GraphType, xKey: string, yKey: string,
                 e: Encoding, preferredColor: string)
      requires e.prevColorKey == e.colorKey && e.prevSizeKey == e.sizeKey && e.prevShapeKey == e.shapeKey
      ensures this.name == name && this.data == data && this.dataKeys == dataKeys && this.graph == graph
      ensures this.xKey == xKey && prevXKey == xKey && this.yKey == yKey && prevYKey == yKey
      ensures Enc() == e && this.preferredColor == preferredColor && selectedData == []
    {
      this.name := name;
      this.data := data;
      this.dataKeys := dataKeys;
      this.graph := graph;
      this.xKey := xKey;
      prevXKey := xKey;
      this.yKey := yKey;
      prevYKey := yKey;
      colorKey := e.colorKey;
      prevColorKey := e.prevColorKey;
      sizeKey := e.sizeKey;
      prevSizeKey := e.prevSizeKey;
      shapeKey := e.shapeKey;
      prevShapeKey := e.prevShapeKey;
      selectedColors := e.selectedColors;
      colorScale := e.colorScale;
      sizeScale := e.sizeScale;
      shapeDict := e.shapeDict;
      this.preferredColor := preferredColor;
      selectedData := [];
    }

    /** A fresh color dictionary: category i gets palette color i. */
    static method BuildColors(cats: seq<Value>, colors: nat -> string) returns (d: seq<Assoc>)
      ensures d == PaletteColors(cats, colors)
    {
      d := [];
      for i := 0 to |cats|
        invariant |d| == i
        invariant forall j :: 0 <= j < i ==> d[j] == Assoc(cats[j], colors(j))
      {
        d := d + [Assoc(cats[i], colors(i))];
      }
    }

    /** A color dictionary over new categories reusing the prior colors in
      * key order. */
    static method CopyColors(cats: seq<Value>, prior: seq<Assoc>) returns (d: seq<Assoc>)
      requires |prior| == |cats|
      ensures d == ReusedColors(cats, prior)
    {
      d := [];
      for i := 0 to |cats|
        invariant |d| == i
        invariant forall j :: 0 <= j < i ==> d[j] == Assoc(cats[j], prior[j].val)
      {
        d := d + [Assoc(cats[i], prior[i].val)];
      }
    }

    /** A shape dictionary: category i gets `SHAPES[i]`. */
    static method BuildShapes(cats: seq<Value>) returns (d: seq<Assoc>)
      requires |cats| <= |Shapes|
      ensures d == ShapeAssignment(cats)
    {
      d := [];
      for i := 0 to |cats|
        invariant |d| == i
        invariant forall j :: 0 <= j < i ==> d[j] == Assoc(cats[j], Shapes[j])
      {
        d := d + [Assoc(cats[i], Shapes[i])];
      }
    }

    /** The color part of `createScales`. */
    method EncodeColor(category10: nat -> string, category20: nat -> string) returns (rejected: Option<KeyType>)
      requires |data| > 0
      modifies this
      ensures Enc() == ColorEncode(data, old(Enc()), preferredColor, category10, category20).enc
      ensures rejected == ColorEncode(data, old(Enc()), preferredColor, category10, category20).rejected
      ensures Frame() == old(Frame())
    {
      ghost var out := ColorEncode(data, Enc(), preferredColor, category10, category20);
      rejected := None;
      if !IsNumeric(Cell(data[0], colorKey)) && colorKey != NoSelection {
        var cats := GetCategories(data, colorKey);
        if |cats| <= MaxColorCategories {
          var prior := selectedColors;
          colorScale := None;
          var d: seq<Assoc>;
          if prior.None? || |prior.value| != |cats| {
            d := BuildColors(cats, if |cats| <= SmallPaletteSize then category10 else category20);
          } else {
            d := CopyColors(cats, prior.value);
          }
          selectedColors := Some(d);
        } else {
          colorKey := prevColorKey;
          rejected := Some(ColorKey);
        }
      } else if colorKey != NoSelection {
        selectedColors := None;
        var extent := GetMinMax(data, colorKey);
        var range := if colorScale.Some? then colorScale.value.range else [White, preferredColor];
        colorScale := Some(ColorScale(extent, range));
      }
    }

    /** The size part of `createScales`. */
    method EncodeSize() returns (rejected: Option<KeyType>)
      requires |data| > 0
      modifies this
      ensures Enc() == SizeEncode(data, old(Enc())).enc
      ensures rejected == SizeEncode(data, old(Enc())).rejected
      ensures Frame() == old(Frame())
    {
      rejected := None;
      if IsNumeric(Cell(data[0], sizeKey)) && sizeKey != NoSelection {
        var extent := GetMinMax(data, sizeKey);
        sizeScale := Some(SizeScale(extent));
      } else if sizeKey != NoSelection {
        sizeKey := prevSizeKey;
        rejected := Some(SizeKey);
      }
    }

    /** The shape part of `createScales`. */
    method EncodeShape() returns (rejected: Option<KeyType>)
      modifies this
      ensures Enc() == ShapeEncode(data, old(Enc())).enc
      ensures rejected == ShapeEncode(data, old(Enc())).rejected
      ensures Frame() == old(Frame())
    {
      rejected := None;
      if shapeKey != NoSelection {
        var cats := GetCategories(data, shapeKey);
        if |cats| <= |Shapes| {
          if shapeKey != prevShapeKey {
            var d := BuildShapes(cats);
            shapeDict := Some(d);
          }
        } else {
          shapeKey := prevShapeKey;
          rejected := Some(ShapeKey);
        }
      }
    }

    /** `createScales`' encoders: color for scatterplots and barcharts, then
      * size and shape for scatterplots; a refused column ends the pass. */
    method CreateScales(category10: nat -> string, category20: nat -> string) returns (rejected: Option<KeyType>)
      requires |data| > 0
      modifies this
      ensures Enc() == EncodeScales(graph, data, old(Enc()), preferredColor, category10, category20).enc
      ensures rejected == EncodeScales(graph, data, old(Enc()), preferredColor, category10, category20).rejected
      ensures Frame() == old(Frame())
    {
      rejected := None;
      if graph == Scatterplot || graph == Barchart {
        rejected := EncodeColor(category10, category20);
        if rejected.Some? || graph == Barchart {
          return;
        }
        rejected := EncodeSize();
        if rejected.Some? {
          return;
        }
        rejected := EncodeShape();
      }
    }

    /** `createGraph`'s scale step and barchart width check: too narrow bars
      * send the x key back to its shadow and the chart is drawn again. */
    method CreateGraph(category10: nat -> string, category20: nat -> string)
      requires |data| > 0
      modifies this
      ensures (xKey, Enc()) == Redraw(graph, data, old(xKey), prevXKey, old(Enc()), preferredColor, category10, category20)
      ensures graph == old(graph) && prevXKey == old(prevXKey) && yKey == old(yKey) && prevYKey == old(prevYKey)
      ensures preferredColor == old(preferredColor) && selectedData == old(selectedData)
      decreases if xKey != prevXKey then 1 else 0
    {
      var _ := CreateScales(category10, category20);
      if graph == Barchart {
        var cats := GetCategories(data, xKey);
        assert Column(data, xKey)[0] in cats;
        if BarLayoutFor(|cats|).TooNarrow? {
          if xKey != prevXKey {
            xKey := prevXKey;
            CreateGraph(category10, category20);
          }
          return;
        }
      }
    }
  }

  /** What the chart under the brush draws, with the scales that place it. */
  datatype Drawing =
    | Points(position: Row -> (real, real))   // scatterplot dots or barchart bars, at (x, y) pixels
    | Squares(cells: seq<Heatmap.HeatCell>, xa: Heatmap.HeatAxis, ya: Heatmap.HeatAxis,
              xc: AxisConversion, yc: AxisConversion)
    | Series(scales: TimeScales)               // barchart overviews and timelines

  /** The drawing matches the chart type, and a heatmap's squares hold the
    * chart's rows. */
  predicate Fits(graph: GraphType, drawing: Drawing, data: seq<Row>)
  {
    match graph
    case Scatterplot => drawing.Points?
    case Barchart => drawing.Points?
    case Heatmap => drawing.Squares? && multiset(Heatmap.Members(drawing.cells)) == multiset(data)
    case BarchartOverview => drawing.Series?
    case Timeline => drawing.Series?
  }

  /** Whether the brush picks one node: a row of the chart, or a square of a
    * heatmap. */
  function Verdicts(graph: GraphType, b: Box, drawing: Drawing, keys: seq<string>, data: seq<Row>): (v: seq<bool>)
    requires Fits(graph, drawing, data)
    ensures |v| == if graph == Heatmap then |drawing.cells| else |data|
  {
    match graph
    case Scatterplot =>
      seq(|data|, i requires 0 <= i < |data| =>
        ScatterSelects(b, drawing.position(data[i]).0, drawing.position(data[i]).1))
    case Barchart =>
      seq(|data|, i requires 0 <= i < |data| =>
        BarSelects(b, drawing.position(data[i]).0, drawing.position(data[i]).1))
    case Heatmap =>
      seq(|drawing.cells|, i requires 0 <= i < |drawing.cells| =>
        HeatCellSelected(ConvertBox(b, drawing.xc, drawing.yc), drawing.cells[i], drawing.xa, drawing.ya))
    case BarchartOverview =>
      seq(|data|, i requires 0 <= i < |data| => OverviewInside(b, drawing.scales, keys, data[i]))
    case Timeline =>
      seq(|data|, i requires 0 <= i < |data| => TimelineInside(b, drawing.scales, keys, data[i]))
  }

  predicate OverviewInside(b: Box, s: TimeScales, keys: seq<string>, d: Row)
  {
    forall i :: TimelineKeyStartIndex <= i < |keys| ==> OverviewBarInside(b, s, keys, d, i)
  }

  predicate TimelineInside(b: Box, s: TimeScales, keys: seq<string>, d: Row)
  {
    forall i :: TimelineKeyStartIndex <= i && i + 1 < |keys| ==> SegmentInside(b, s, keys, d, i)
  }

  /** The new `selectedData`: the picked rows, or the rows of the picked
    * squares. */
  function SelectionOf(graph: GraphType, b: Box, drawing: Drawing, keys: seq<string>, data: seq<Row>): seq<Row>
    requires Fits(graph, drawing, data)
  {
    var v := Verdicts(graph, b, drawing, keys, data);
    if graph == Heatmap then ChosenMembers(drawing.cells, v) else Chosen(data, v)
  }

  /** A brush only ever selects rows of the chart it is drawn on, each at
    * most as often as the chart holds it, and never more rows than that. */
  lemma SelectionWithinData(graph: GraphType, b: Box, drawing: Drawing, keys: seq<string>, data: seq<Row>)
    requires Fits(graph, drawing, data)
    ensures multiset(SelectionOf(graph, b, drawing, keys, data)) <= multiset(data)
    ensures |SelectionOf(graph, b, drawing, keys, data)| <= |data|
  {
    var v := Verdicts(graph, b, drawing, keys, data);
    var sel := SelectionOf(graph, b, drawing, keys, data);
    if graph == Heatmap {
      ChosenMembersWithin(drawing.cells, v);
      assert multiset(sel) <= multiset(Heatmap.Members(drawing.cells));
    } else {
      ChosenSpec(data, v);
    }
    SubMultisetSize(sel, data);
  }

  lemma SubMultisetSize(a: seq<Row>, b: seq<Row>)
    requires multiset(a) <= multiset(b)
    ensures |a| <= |b|
  {
    var rest := multiset(b) - multiset(a);
    assert multiset(b) == multiset(a) + rest;
    assert |multiset(b)| == |multiset(a)| + |rest|;
  }

  /** On a scatterplot the selection is exactly the rows drawn strictly inside
    * the box. */
  lemma ScatterSelectionExact(b: Box, position: Row -> (real, real), keys: seq<string>, data: seq<Row>, d: Row)
    ensures d in SelectionOf(Scatterplot, b, Points(position), keys, data) <==>
              d in data && ScatterSelects(b, position(d).0, position(d).1)
  {
    var v := Verdicts(Scatterplot, b, Points(position), keys, data);
    ChosenMembership(data, v);
    if d in SelectionOf(Scatterplot, b, Points(position), keys, data) {
      var i :| 0 <= i < |data| && v[i] && data[i] == d;
    }
    if d in data {
      var i :| 0 <= i < |data| && data[i] == d;
      assert v[i] == ScatterSelects(b, position(d).0, position(d).1);
    }
  }

  /** The charts on the page (`svgData` and `svgCount`). */
  class Chain {
    const isTimeseries: bool
    var links: seq<Link>
    var svgCount: nat

    /** `svgCount` counts the charts, chart i is named `svg-i` and every chart
      * has rows. */
    predicate Valid()
      reads this
    {
      svgCount == |links| && forall i :: 0 <= i < |links| ==> links[i].name == i && |links[i].data| > 0
    }

    constructor (isTimeseries: bool)
      ensures Valid() && links == [] && this.isTimeseries == isTimeseries
    {
      this.isTimeseries := isTimeseries;
      links := [];
      svgCount := 0;
    }

    /** The columns a first chart plots: the first two value columns, or the
      * first two date columns of a time series. */
    function FirstAxes(dataKeys: seq<string>): (string, string)
      requires |dataKeys| > (if isTimeseries then TimelineKeyStartIndex + 1 else 2)
    {
      if isTimeseries then (dataKeys[TimelineKeyStartIndex], dataKeys[TimelineKeyStartIndex + 1])
      else (dataKeys[1], dataKeys[2])
    }

    /** `createSVG`: appends a chart over `data`; a chart after the first
      * takes the graph type, keys and encodings of the one before it. */
    method CreateSvg(data: seq<Row>, dataKeys: seq<string>, preferredColor: string,
                     category10: nat -> string, category20: nat -> string)
      requires Valid() && |data| > 0
      requires svgCount == 0 ==> |dataKeys| > (if isTimeseries then TimelineKeyStartIndex + 1 else 2)
      modifies this
      ensures Valid() && svgCount == old(svgCount) + 1
      ensures links[..|links| - 1] == old(links) && fresh(links[|links| - 1])
      ensures var l := links[|links| - 1];
        && l.data == data && l.dataKeys == dataKeys && l.selectedData == []
        && l.xKey == l.prevXKey && l.yKey == l.prevYKey
        && l.prevColorKey == l.colorKey && l.prevSizeKey == l.sizeKey && l.prevShapeKey == l.shapeKey
      ensures old(svgCount) == 0 ==> var l := links[|links| - 1];
        && l.graph == DefaultGraph(isTimeseries) && (l.xKey, l.yKey) == FirstAxes(dataKeys)
        && l.preferredColor == preferredColor
        && l.Enc() == EncodeScales(l.graph, data, Fresh, preferredColor, category10, category20).enc
      ensures old(svgCount) > 0 ==> var l, p := links[|links| - 1], links[|links| - 2];
        && l.graph == old(p.graph) && l.xKey == old(p.xKey) && l.yKey == old(p.yKey)
        && l.preferredColor == (if old(p.preferredColor) == "" then preferredColor else old(p.preferredColor))
        && l.Enc() == EncodeScales(l.graph, data,
                        Inherited(old(p.colorKey), old(p.selectedColors), old(p.colorScale),
                                  old(p.sizeKey), old(p.shapeKey), old(p.shapeDict)),
                        l.preferredColor, category10, category20).enc
    {
      var graph := DefaultGraph(isTimeseries);
      var xKey, yKey := "", "";
      var pc := preferredColor;
      var e := Fresh;
      if svgCount > 0 {
        var prev := links[svgCount - 1];
        graph := prev.graph;
        xKey, yKey := prev.xKey, prev.yKey;
        pc := if prev.preferredColor == "" then preferredColor else prev.preferredColor;
        e := Inherited(prev.colorKey, prev.selectedColors, prev.colorScale, prev.sizeKey, prev.shapeKey, prev.shapeDict);
      } else {
        xKey, yKey := FirstAxes(dataKeys).0, FirstAxes(dataKeys).1;
      }
      var link := new Link(svgCount, data, dataKeys, graph, xKey, yKey, e, pc);
      link.CreateGraph(category10, category20);
      RedrawSettled(graph, data, xKey, xKey, e, pc, category10, category20);
      links := links + [link];
      svgCount := svgCount + 1;
    }

    /** `startSVGChain`: clears the page and starts a chain over `data`. */
    method StartSvgChain(data: seq<Row>, dataKeys: seq<string>, preferredColor: string,
                         category10: nat -> string, category20: nat -> string)
      requires |data| > 0 && |dataKeys| > (if isTimeseries then TimelineKeyStartIndex + 1 else 2)
      modifies this
      ensures Valid() && svgCount == 1 && fresh(links[0])
      ensures links[0].data == data && links[0].graph == DefaultGraph(isTimeseries)
      ensures links[0].preferredColor == preferredColor
      ensures (links[0].xKey, links[0].yKey) == FirstAxes(dataKeys)
      ensures links[0].Enc() == EncodeScales(links[0].graph, data, Fresh, preferredColor, category10, category20).enc
    {
      links := [];
      svgCount := 0;
      CreateSvg(data, dataKeys, preferredColor, category10, category20);
    }

    /** The verdict for every node under the brush, computed as the filter
      * does: the heatmap box is converted at the first square. */
    static method FilterNodes(graph: GraphType, b: Box, drawing: Drawing, keys: seq<string>, data: seq<Row>)
      returns (v: seq<bool>)
      requires Fits(graph, drawing, data)
      ensures v == Verdicts(graph, b, drawing, keys, data)
    {
      match graph
      case Heatmap =>
        v := SelectHeatCells(b, drawing.cells, drawing.xa, drawing.ya, drawing.xc, drawing.yc);
      case BarchartOverview =>
        v := [];
        for i := 0 to |data|
          invariant |v| == i
          invariant forall j :: 0 <= j < i ==> v[j] == OverviewInside(b, drawing.scales, keys, data[j])
        {
          var inside := OverviewSelected(b, drawing.scales, keys, data[i]);
          v := v + [inside];
        }
      case Timeline =>
        v := [];
        for i := 0 to |data|
          invariant |v| == i
          invariant forall j :: 0 <= j < i ==> v[j] == TimelineInside(b, drawing.scales, keys, data[j])
        {
          var inside := TimelineSelected(b, drawing.scales, keys, data[i]);
          v := v + [inside];
        }
      case _ =>
        v := Verdicts(graph, b, drawing, keys, data);
    }

    /** Emptying the main container and resetting `svgCount` restarts the
      * chain with no chart. */
    method Clear()
      modifies this
      ensures Valid() && links == [] && svgCount == 0
    {
      links := [];
      svgCount := 0;
    }

    /** Removes every chart after chart `k`, one at a time. */
    method RemoveAfter(k: nat)
      requires Valid() && k < |links|
      modifies this
      ensures Valid() && links == old(links[..k + 1]) && svgCount == k + 1
    {
      while |links| > k + 1
        invariant k + 1 <= |links| <= old(|links|) && links == old(links)[..|links|]
        decreases |links|
      {
        links := links[..|links| - 1];
      }
      svgCount := k + 1;
    }

    /** The filter and the gathering of `selectedData`. */
    static method SelectRows(graph: GraphType, b: Box, drawing: Drawing, keys: seq<string>, data: seq<Row>)
      returns (selected: seq<Row>)
      requires Fits(graph, drawing, data)
      ensures selected == SelectionOf(graph, b, drawing, keys, data)
    {
      var v := FilterNodes(graph, b, drawing, keys, data);
      if graph == Heatmap {
        selected := GatherCellRows(drawing.cells, v);
      } else {
        selected := GatherRows(data, v);
      }
    }

    /** A non-empty selection on chart `k` replaces every later chart by one
      * new chart over the selection. */
    method Branch(k: nat, selected: seq<Row>, category10: nat -> string, category20: nat -> string)
      requires Valid() && k < |links| && |selected| > 0
      modifies this
      ensures Valid() && |links| == k + 2 && svgCount == k + 2 && links[..k + 1] == old(links[..k + 1])
      ensures fresh(links[k + 1]) && links[k + 1].data == selected
      ensures var l, p := links[k + 1], links[k];
        && l.graph == p.graph && l.xKey == p.xKey && l.yKey == p.yKey && l.dataKeys == p.dataKeys
        && l.preferredColor == (if p.preferredColor == "" then category10(0) else p.preferredColor)
        && l.Enc() == EncodeScales(p.graph, selected,
                        Inherited(p.colorKey, p.selectedColors, p.colorScale, p.sizeKey, p.shapeKey, p.shapeDict),
                        l.preferredColor, category10, category20).enc
    {
      RemoveAfter(k);
      CreateSvg(selected, links[k].dataKeys, category10(0), category10, category20);
    }

    /** `dragend` on chart `k`: a click does nothing; otherwise the chart's
      * `selectedData` is rebuilt, and when it is not empty every chart after
      * `k` is removed and a chart over the selection is appended. */
    method DragEnd(k: nat, r: Rect, drawing: Drawing, category10: nat -> string, category20: nat -> string)
      requires Valid() && k < |links| && Fits(links[k].graph, drawing, links[k].data)
      modifies this, links[k]
      ensures Valid() && k < |links| && links[k] == old(links[k])
      ensures links[k].Enc() == old(links[k].Enc()) && links[k].graph == old(links[k].graph)
      ensures DragEndBox(r).None? ==> links == old(links) && svgCount == old(svgCount) && unchanged(links[k])
      ensures DragEndBox(r).Some? ==>
        links[k].selectedData == SelectionOf(links[k].graph, DragEndBox(r).value, drawing, links[k].dataKeys, links[k].data)
      ensures DragEndBox(r).Some? && links[k].selectedData == [] ==> links == old(links) && svgCount == old(svgCount)
      ensures DragEndBox(r).Some? && links[k].selectedData != [] ==>
        && |links| == k + 2 && svgCount == k + 2 && links[..k + 1] == old(links[..k + 1])
        && fresh(links[k + 1]) && links[k + 1].data == links[k].selectedData
        && var l, p := links[k + 1], links[k];
        && l.graph == p.graph && l.xKey == p.xKey && l.yKey == p.yKey && l.dataKeys == p.dataKeys
        && l.preferredColor == (if p.preferredColor == "" then category10(0) else p.preferredColor)
        && l.Enc() == EncodeScales(p.graph, p.selectedData,
                        Inherited(p.colorKey, p.selectedColors, p.colorScale, p.sizeKey, p.shapeKey, p.shapeDict),
                        l.preferredColor, category10, category20).enc
    {
      var box := DragEndBox(r);
      if box.None? {
        return;
      }
      var link := links[k];
      var selected := SelectRows(link.graph, box.value, drawing, link.dataKeys, link.data);
      link.selectedData := selected;
      if |selected| > 0 {
        Branch(k, selected, category10, category20);
      }
    }
  }
}
