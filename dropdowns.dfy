// The dropdown menus above a chart (js/dropDowns.js): the attribute
// selectors' entries and click handler, the chart-type switch, and which
// selectors are enabled for each chart type.

module Dropdowns {
  import opened Base
  import opened Encoders
  import opened Chain

  /** The five selector keys of a chart with their shadows. */
  datatype Keys = Keys(x: string, prevX: string, y: string, prevY: string,
                       color: string, prevColor: string, size: string, prevSize: string,
                       shape: string, prevShape: string)

  function Current(k: Keys, t: KeyType): string
  {
    match t
    case XKey => k.x
    case YKey => k.y
    case ColorKey => k.color
    case SizeKey => k.size
    case ShapeKey => k.shape
  }

  function Shadow(k: Keys, t: KeyType): string
  {
    match t
    case XKey => k.prevX
    case YKey => k.prevY
    case ColorKey => k.prevColor
    case SizeKey => k.prevSize
    case ShapeKey => k.prevShape
  }

  function KeysOf(link: Link): Keys
    reads link
  {
    Keys(link.xKey, link.prevXKey, link.yKey, link.prevYKey, link.colorKey, link.prevColorKey,
         link.sizeKey, link.prevSizeKey, link.shapeKey, link.prevShapeKey)
  }

  /** The encoding `e` with its keys and shadows taken from `k`. */
  function WithKeys(e: Encoding, k: Keys): Encoding
  {
    e.(colorKey := k.color, prevColorKey := k.prevColor, sizeKey := k.size, prevSizeKey := k.prevSize,
       shapeKey := k.shape, prevShapeKey := k.prevShape)
  }

  /** The key update of `svgChainAttributeSelectorClick`: choosing a new
    * value for one selector moves its old value to that selector's shadow;
    * choosing the current value changes nothing; the other selectors and
    * their shadows are never touched. */
  function Choose(k: Keys, t: KeyType, selected: string): (r: Keys)
    ensures Current(r, t) == selected
    ensures Current(k, t) == selected ==> r == k
    ensures Current(k, t) != selected ==> Shadow(r, t) == Current(k, t)
  {
    if Current(k, t) == selected then k
    else match t
      case XKey => k.(prevX := k.x, x := selected)
      case YKey => k.(prevY := k.y, y := selected)
      case ColorKey => k.(prevColor := k.color, color := selected)
      case SizeKey => k.(prevSize := k.size, size := selected)
      case ShapeKey => k.(prevShape := k.shape, shape := selected)
  }

  /** The other selectors and their shadows are never touched. */
  lemma ChooseLeavesOthers(k: Keys, t: KeyType, selected: string)
    ensures forall u: KeyType :: u != t ==>
              Current(Choose(k, t, selected), u) == Current(k, u) && Shadow(Choose(k, t, selected), u) == Shadow(k, u)
  {
  }

  /** Choosing the same value twice is the same as choosing it once. */
  lemma ChooseIdempotent(k: Keys, t: KeyType, selected: string)
    ensures Choose(Choose(k, t, selected), t, selected) == Choose(k, t, selected)
  {
  }

  /** Choosing a value and then the previous one back restores the key, and
    * the shadow then holds the value chosen in between. */
  lemma ChooseBack(k: Keys, t: KeyType, selected: string)
    requires Current(k, t) != selected
    ensures var r := Choose(Choose(k, t, selected), t, Current(k, t));
      Current(r, t) == Current(k, t) && Shadow(r, t) == selected
  {
  }

  /** The selectors whose menu offers "--None--". */
  predicate Optional(t: KeyType)
  {
    t == ColorKey || t == SizeKey || t == ShapeKey
  }

  /** The entries of a selector: the column names, preceded by "--None--"
    * for the color, size and shape selectors. */
  function Entries(t: KeyType, dataKeys: seq<string>): seq<string>
  {
    if Optional(t) then [NoSelection] + dataKeys else dataKeys
  }

  /** The menu as built: one item per column name, read from the list that
    * may have "--None--" in front. */
  method MenuItemsAsWritten(t: KeyType, dataKeys: seq<string>) returns (items: seq<string>)
    ensures items == Entries(t, dataKeys)[..|dataKeys|]
  {
    var list := Entries(t, dataKeys);
    items := [];
    var i := 0;
    while i < |dataKeys|
      invariant 0 <= i <= |dataKeys| && items == list[..i]
    {
      items := items + [list[i]];
      i := i + 1;
    }
  }

  /** With "--None--" in front, the loop bound stops one entry short: the
    * last column is never offered to the color, size and shape selectors. */
  lemma LastColumnMissing(t: KeyType, dataKeys: seq<string>)
    requires Optional(t) && |dataKeys| > 0
    requires NoSelection !in dataKeys && forall i :: 0 <= i < |dataKeys| - 1 ==> dataKeys[i] != dataKeys[|dataKeys| - 1]
    ensures dataKeys[|dataKeys| - 1] !in Entries(t, dataKeys)[..|dataKeys|]
  {
    var last := dataKeys[|dataKeys| - 1];
    var items := Entries(t, dataKeys)[..|dataKeys|];
    assert items == [NoSelection] + dataKeys[..|dataKeys| - 1];
    assert last != NoSelection;
  }

  /** The menu as intended: one item per entry. */
  method MenuItems(t: KeyType, dataKeys: seq<string>) returns (items: seq<string>)
    ensures items == Entries(t, dataKeys)
  {
    var list := Entries(t, dataKeys);
    items := [];
    var i := 0;
    while i < |list|
      invariant 0 <= i <= |list| && items == list[..i]
    {
      items := items + [list[i]];
      i := i + 1;
    }
  }

  /** Every column is offered by every selector, and "--None--" by exactly
    * the encoding selectors. */
  lemma EntriesOfferEveryColumn(t: KeyType, dataKeys: seq<string>, key: string)
    requires NoSelection !in dataKeys
    ensures key in dataKeys ==> key in Entries(t, dataKeys)
    ensures NoSelection in Entries(t, dataKeys) <==> Optional(t)
    ensures |Entries(t, dataKeys)| == |dataKeys| + (if Optional(t) then 1 else 0)
  {
  }

  /** The key update of the click handler, done in place. */
  method ApplyChoice(link: Link, t: KeyType, selected: string) returns (keyChanged: bool)
    modifies link
    // Only keys and shadows are written.
    ensures && link.selectedColors == old(link.selectedColors) && link.colorScale == old(link.colorScale)
            && link.sizeScale == old(link.sizeScale) && link.shapeDict == old(link.shapeDict)
    ensures link.graph == old(link.graph) && link.selectedData == old(link.selectedData)
    ensures link.preferredColor == old(link.preferredColor)
    ensures !keyChanged ==> unchanged(link)
    ensures keyChanged <==> Current(old(KeysOf(link)), t) != selected
    ensures KeysOf(link) == Choose(old(KeysOf(link)), t, selected)
  {
    keyChanged := false;
    match t
    case XKey =>
      if link.xKey != selected {
        link.prevXKey := link.xKey;
        link.xKey := selected;
        keyChanged := true;
      }
    case YKey =>
      if link.yKey != selected {
        link.prevYKey := link.yKey;
        link.yKey := selected;
        keyChanged := true;
      }
    case ColorKey =>
      if link.colorKey != selected {
        link.prevColorKey := link.colorKey;
        link.colorKey := selected;
        keyChanged := true;
      }
    case SizeKey =>
      if link.sizeKey != selected {
        link.prevSizeKey := link.sizeKey;
        link.sizeKey := selected;
        keyChanged := true;
      }
    case ShapeKey =>
      if link.shapeKey != selected {
        link.prevShapeKey := link.shapeKey;
        link.shapeKey := selected;
        keyChanged := true;
      }
  }

  /** `svgChainAttributeSelectorClick`: a different value for the selector
    * updates that key and its shadow and redraws the chart; the current
    * value does nothing. */
  method AttributeClick(link: Link, t: KeyType, selected: string,
                        category10: nat -> string, category20: nat -> string) returns (keyChanged: bool)
    requires |link.data| > 0 && selected in Entries(t, link.dataKeys)
    modifies link
    ensures keyChanged <==> Current(old(KeysOf(link)), t) != selected
    ensures !keyChanged ==> unchanged(link)
    ensures keyChanged ==> var k := Choose(old(KeysOf(link)), t, selected);
      && link.prevXKey == k.prevX && link.yKey == k.y && link.prevYKey == k.prevY
      && link.graph == old(link.graph) && link.selectedData == old(link.selectedData)
      && (link.xKey, link.Enc()) == Redraw(link.graph, link.data, k.x, k.prevX, WithKeys(old(link.Enc()), k),
                                           link.preferredColor, category10, category20)
  {
    keyChanged := ApplyChoice(link, t, selected);
    assert link.Enc() == WithKeys(old(link.Enc()), KeysOf(link));
    if keyChanged {
      link.CreateGraph(category10, category20);
    }
  }

  /** The chart-type menu's handler: a different type is adopted, after a
    * confirmation when it is the heatmap; the shape key's shadow is set to
    * the shape key so the shape dictionary survives the redraw. */
  method SwitchGraph(link: Link, graph: GraphType, confirmed: bool,
                     category10: nat -> string, category20: nat -> string) returns (switched: bool)
    requires |link.data| > 0
    modifies link
    ensures switched <==> old(link.graph) != graph && (graph == Heatmap ==> confirmed)
    ensures !switched ==> unchanged(link)
    ensures switched ==>
      && link.graph == graph && link.prevShapeKey == old(link.shapeKey)
      && link.prevXKey == old(link.prevXKey) && link.yKey == old(link.yKey)
      && link.selectedData == old(link.selectedData)
      && (link.xKey, link.Enc()) == Redraw(graph, link.data, old(link.xKey), link.prevXKey,
                                           old(link.Enc()).(prevShapeKey := old(link.shapeKey)),
                                           link.preferredColor, category10, category20)
  {
    switched := false;
    if link.graph != graph {
      var shouldSwitch := true;
      if graph == Heatmap {
        shouldSwitch := confirmed;
      }
      if shouldSwitch {
        link.graph := graph;
        link.prevShapeKey := link.shapeKey;
        link.CreateGraph(category10, category20);
        switched := true;
      }
    }
  }

  /** After a switch the shape dictionary is never rebuilt: the chart keeps
    * its shape key and dictionary whatever type it switches to. */
  lemma SwitchKeepsShapes(graph: GraphType, data: seq<Row>, e: Encoding, preferredColor: string,
                          category10: nat -> string, category20: nat -> string)
    requires |data| > 0
    ensures var r := EncodeScales(graph, data, e.(prevShapeKey := e.shapeKey), preferredColor, category10, category20);
      r.enc.shapeDict == e.shapeDict && r.enc.shapeKey == e.shapeKey
  {
    var e1 := e.(prevShapeKey := e.shapeKey);
    if HasEncoders(graph) {
      var c := ColorEncode(data, e1, preferredColor, category10, category20);
      assert c.enc.shapeDict == e.shapeDict && c.enc.shapeKey == e.shapeKey && c.enc.prevShapeKey == e.shapeKey;
      if c.rejected.None? && graph == Scatterplot {
        var s := SizeEncode(data, c.enc);
        assert s.enc.shapeDict == e.shapeDict && s.enc.shapeKey == e.shapeKey && s.enc.prevShapeKey == e.shapeKey;
      }
    }
  }

  /** `changeDropDownMenusAvalable`: whether a selector's button is enabled
    * on a chart type. */
  function Enabled(graph: GraphType, t: KeyType): bool
  {
    match graph
    case Scatterplot => true
    case Barchart => t == XKey || t == YKey || t == ColorKey
    case Heatmap => t == XKey || t == YKey
    case BarchartOverview => false
    case Timeline => false
  }

  /** The enabled selectors shrink from scatterplot to barchart to heatmap to
    * the time-series charts, and the axes are enabled wherever any selector
    * is. */
  lemma EnabledNested(t: KeyType)
    ensures Enabled(Scatterplot, t)
    ensures Enabled(Heatmap, t) ==> Enabled(Barchart, t)
    ensures Enabled(Barchart, t) ==> Enabled(Scatterplot, t)
    ensures !Enabled(BarchartOverview, t) && !Enabled(Timeline, t)
    ensures forall g: GraphType :: Enabled(g, t) ==> Enabled(g, XKey) && Enabled(g, YKey)
  {
  }

  /** A selector is disabled exactly where its encoder does not run: a
    * disabled selector's key and encoding are left as they are by every
    * redraw. */
  lemma DisabledSelectorsInert(graph: GraphType, data: seq<Row>, e: Encoding, preferredColor: string,
                               category10: nat -> string, category20: nat -> string)
    requires |data| > 0
    ensures var r := EncodeScales(graph, data, e, preferredColor, category10, category20).enc;
      && (!Enabled(graph, ColorKey) ==> r.colorKey == e.colorKey && r.selectedColors == e.selectedColors
                                        && r.colorScale == e.colorScale)
      && (!Enabled(graph, SizeKey) ==> r.sizeKey == e.sizeKey && r.sizeScale == e.sizeScale)
      && (!Enabled(graph, ShapeKey) ==> r.shapeKey == e.shapeKey && r.shapeDict == e.shapeDict)
  {
  }
}
