// The legend beside each chart (js/graphLegend.js): which sections, samples
// and buttons it shows, the color and shape choosers, `changeColor`,
// `getRGBColor` and `listClick`.

module Legend {
  import opened Base
  import opened Scales
  import opened Encoders
  import opened Chain

  // ---- Color edits ----

  /** The categorical dictionary with the entry under `value` recolored. */
  function Recolor(d: seq<Assoc>, value: Value, color: string): (r: seq<Assoc>)
    ensures |r| == |d| && KeysOf(r) == KeysOf(d)
    ensures forall i :: 0 <= i < |d| ==> r[i].val == (if d[i].key == value then color else d[i].val)
  {
    var r := seq(|d|, i requires 0 <= i < |d| => if d[i].key == value then Assoc(value, color) else d[i]);
    assert forall i :: 0 <= i < |d| ==> KeysOf(r)[i] == KeysOf(d)[i];
    r
  }

  /** In a dictionary without repeated keys, recoloring `value` changes what
    * `value` is looked up to and nothing else. */
  lemma RecolorLookup(d: seq<Assoc>, value: Value, color: string, k: Value)
    requires NoDuplicates(KeysOf(d))
    ensures Lookup(Recolor(d, value, color), k) ==
            (if k == value && k in KeysOf(d) then Some(color) else Lookup(d, k))
  {
    var r := Recolor(d, value, color);
    if k in KeysOf(d) {
      var i :| 0 <= i < |d| && KeysOf(d)[i] == k;
      LookupAt(d, i);
      LookupAt(r, i);
    }
  }

  /** `changeColor` on a categorical legend: every key equal to `value` gets
    * the chosen color. */
  method ChangeCategoricalColor(link: Link, value: Value, selectedColor: string)
    requires link.selectedColors.Some?
    modifies link
    ensures link.Enc() == old(link.Enc()).(selectedColors := Some(Recolor(old(link.selectedColors.value), value, selectedColor)))
    ensures link.Frame() == old(link.Frame())
  {
    var d := link.selectedColors.value;
    ghost var d0 := d;
    var i := 0;
    while i < |d|
      invariant 0 <= i <= |d| && |d| == |d0|
      invariant forall j :: 0 <= j < i ==> d[j] == (if d0[j].key == value then Assoc(value, selectedColor) else d0[j])
      invariant forall j :: i <= j < |d| ==> d[j] == d0[j]
    {
      if d[i].key == value {
        d := d[i := Assoc(d[i].key, selectedColor)];
      }
      i := i + 1;
    }
    assert d == Recolor(d0, value, selectedColor);
    link.selectedColors := Some(d);
  }

  /** The continuous range with the endpoint showing `color` replaced: the
    * first one if it matches, else the last one, else none. */
  function RecolorEnds(range: seq<string>, color: string, selectedColor: string): (r: seq<string>)
    requires |range| > 0
    ensures |r| == |range|
    ensures forall i :: 0 < i < |range| - 1 ==> r[i] == range[i]
    ensures RGB(range[0]) == color ==> r[0] == selectedColor && r[1..] == range[1..]
    ensures RGB(range[0]) != color && RGB(range[|range| - 1]) == color ==>
              r[|r| - 1] == selectedColor && r[..|r| - 1] == range[..|range| - 1]
    ensures RGB(range[0]) != color && RGB(range[|range| - 1]) != color ==> r == range
  {
    if RGB(range[0]) == color then range[0 := selectedColor]
    else if RGB(range[|range| - 1]) == color then range[|range| - 1 := selectedColor]
    else range
  }

  /** `changeColor` on a continuous legend. */
  method ChangeContinuousColor(link: Link, color: string, selectedColor: string)
    requires link.colorScale.Some? && |link.colorScale.value.range| > 0
    modifies link
    ensures link.Enc() == old(link.Enc()).(colorScale :=
              Some(old(link.colorScale.value).(range := RecolorEnds(old(link.colorScale.value.range), color, selectedColor))))
    ensures link.Frame() == old(link.Frame())
  {
    var range := link.colorScale.value.range;
    var first := GetRGBColor(range[0]);
    var last := GetRGBColor(range[|range| - 1]);
    if color == first {
      range := range[0 := selectedColor];
    } else if color == last {
      range := range[|range| - 1 := selectedColor];
    }
    link.colorScale := Some(link.colorScale.value.(range := range));
  }

  /** The color chooser's Ok button: `changeColor` runs only when the chosen
    * color differs from the sample's color in `rgb(...)` form. */
  method ChooseColor(link: Link, isCategorical: bool, color: string, value: Value, selectedColor: string)
    returns (changed: bool)
    requires isCategorical ==> link.selectedColors.Some?
    requires !isCategorical ==> link.colorScale.Some? && |link.colorScale.value.range| > 0
    modifies link
    ensures changed <==> RGB(color) != selectedColor
    ensures !changed ==> unchanged(link)
    ensures changed && isCategorical ==>
      link.selectedColors == Some(Recolor(old(link.selectedColors.value), value, selectedColor))
    ensures changed && !isCategorical ==>
      link.colorScale == Some(old(link.colorScale.value).(range := RecolorEnds(old(link.colorScale.value.range), RGB(color), selectedColor)))
    ensures link.Frame() == old(link.Frame())
  {
    var shown := GetRGBColor(color);
    changed := shown != selectedColor;
    if changed {
      if isCategorical {
        ChangeCategoricalColor(link, value, selectedColor);
      } else {
        ChangeContinuousColor(link, shown, selectedColor);
      }
    }
  }

  // ---- getRGBColor ----

  function HexDigit(c: char): (r: Option<nat>)
    ensures r.Some? ==> r.value < 16
  {
    if '0' <= c <= '9' then Some(c as nat - '0' as nat)
    else if 'a' <= c <= 'f' then Some(c as nat - 'a' as nat + 10)
    else if 'A' <= c <= 'F' then Some(c as nat - 'A' as nat + 10)
    else None
  }

  /** `parseInt("0x" + s)`: the value of the longest prefix of hex digits,
    * `NaN` (here `None`) when there is none. */
  function ParseHex(s: string): (r: Option<nat>)
    ensures r.None? <==> s == [] || HexDigit(s[0]).None?
  {
    if s == [] || HexDigit(s[0]).None? then None
    else Some(ParseHexFrom(HexDigit(s[0]).value, s[1..]))
  }

  function ParseHexFrom(acc: nat, s: string): nat
    decreases |s|
  {
    if s == [] || HexDigit(s[0]).None? then acc
    else ParseHexFrom(acc * 16 + HexDigit(s[0]).value, s[1..])
  }

  function DigitChar(d: nat): char
    requires d < 10
  {
    ('0' as nat + d) as char
  }

  /** The decimal numeral of `n`, as string concatenation prints it. */
  function Decimal(n: nat): (s: string)
    ensures |s| > 0 && forall i :: 0 <= i < |s| ==> '0' <= s[i] <= '9'
  {
    if n < 10 then [DigitChar(n)] else Decimal(n / 10) + [DigitChar(n % 10)]
  }

  /** One component of the converted color. */
  function Component(pair: string): string
  {
    match ParseHex(pair)
    case None => "NaN"
    case Some(v) => Decimal(v)
  }

  /** The components of the hex digits from position `i` on, two digits
    * each, every one followed by ", ". */
  function ComponentsFrom(hex: string, i: nat): string
    decreases |hex| - i
  {
    if i >= |hex| then ""
    else Component(hex[i..if i + 2 <= |hex| then i + 2 else |hex|]) + ", " + ComponentsFrom(hex, i + 2)
  }

  /** `getRGBColor`: a color starting with "#" becomes "rgb(" followed by
    * its components, with the last ", " replaced by ")"; any other string is
    * returned as it is. */
  function RGB(color: string): (r: string)
    ensures |color| == 0 || color[0] != '#' ==> r == color
    ensures |color| > 0 && color[0] == '#' ==> |r| >= 3 && r[0] == 'r' && r[|r| - 1] == ')'
  {
    if |color| > 0 && color[0] == '#' then
      var s := "rgb(" + ComponentsFrom(color[1..], 0);
      s[..|s| - 2] + ")"
    else color
  }

  /** Converting an already converted color changes nothing. */
  lemma RGBIdempotent(color: string)
    ensures RGB(RGB(color)) == RGB(color)
  {
  }

  /** Six hex digits after "#" give the three byte values in decimal. */
  lemma RGBOfHexTriple(color: string)
    requires |color| == 7 && color[0] == '#'
    requires HexDigit(color[1]).Some? && HexDigit(color[2]).Some? && HexDigit(color[3]).Some?
    requires HexDigit(color[4]).Some? && HexDigit(color[5]).Some? && HexDigit(color[6]).Some?
    ensures RGB(color) == "rgb(" + Decimal(HexPair(color[1], color[2])) + ", " + Decimal(HexPair(color[3], color[4]))
                          + ", " + Decimal(HexPair(color[5], color[6])) + ")"
    ensures HexPair(color[1], color[2]) < 256 && HexPair(color[3], color[4]) < 256 && HexPair(color[5], color[6]) < 256
  {
    var hex := color[1..];
    var c1, c2, c3 := Decimal(HexPair(color[1], color[2])), Decimal(HexPair(color[3], color[4])),
                      Decimal(HexPair(color[5], color[6]));
    var pre, sep := "rgb(", ", ";
    assert ComponentsFrom(hex, 6) == "";
    ComponentStep(hex, 4, c3);
    var A := c3 + sep;
    assert ComponentsFrom(hex, 4) == A;
    ComponentStep(hex, 2, c2);
    var B := c2 + sep;
    ComponentStep(hex, 0, c1);
    var C := c1 + sep;
    assert ComponentsFrom(hex, 0) == C + (B + A);
    Associate(pre, C, B + A);
    Associate(pre + C, B, A);
    Associate(pre, c1, sep);
    Associate(pre + C, c2, sep);
    Associate(pre + C + B, c3, sep);
    var p := pre + c1 + sep + c2 + sep + c3;
    assert pre + ComponentsFrom(hex, 0) == p + sep;
    DropSeparator(p);
  }

  /** The digit pair at `i` contributes its byte value. */
  lemma ComponentStep(hex: string, i: nat, c: string)
    requires i + 2 <= |hex| && HexDigit(hex[i]).Some? && HexDigit(hex[i + 1]).Some?
    requires c == Decimal(HexPair(hex[i], hex[i + 1]))
    ensures ComponentsFrom(hex, i) == c + ", " + ComponentsFrom(hex, i + 2)
    ensures HexPair(hex[i], hex[i + 1]) < 256
  {
    PairComponent(hex[i..i + 2]);
  }

  lemma Associate(a: string, b: string, c: string)
    ensures a + (b + c) == a + b + c
  {
  }

  lemma DropSeparator(p: string)
    ensures var s := p + ", "; s[..|s| - 2] + ")" == p + ")"
  {
    var s := p + ", ";
    assert s[..|s| - 2] == p;
  }

  function HexPair(a: char, b: char): nat
    requires HexDigit(a).Some? && HexDigit(b).Some?
  {
    HexDigit(a).value * 16 + HexDigit(b).value
  }

  lemma PairComponent(pair: string)
    requires |pair| == 2 && HexDigit(pair[0]).Some? && HexDigit(pair[1]).Some?
    ensures Component(pair) == Decimal(HexPair(pair[0], pair[1])) && HexPair(pair[0], pair[1]) < 256
  {
    var d0, d1 := HexDigit(pair[0]).value, HexDigit(pair[1]).value;
    assert pair[1..][1..] == [];
    assert ParseHexFrom(d0 * 16 + d1, pair[1..][1..]) == d0 * 16 + d1;
    assert ParseHexFrom(d0, pair[1..]) == d0 * 16 + d1;
    assert ParseHex(pair) == Some(d0 * 16 + d1);
  }

  /** `getRGBColor` as the source computes it: a loop over the digit pairs
    * appending each component and ", ". */
  method GetRGBColor(color: string) returns (r: string)
    ensures r == RGB(color)
  {
    if |color| > 0 && color[0] == '#' {
      var hex := color[1..];
      var colorRGB := "rgb(";
      var i := 0;
      while i < |hex|
        invariant |colorRGB| >= 4
        invariant colorRGB + ComponentsFrom(hex, i) == "rgb(" + ComponentsFrom(hex, 0)
        decreases |hex| - i
      {
        var pair := hex[i..if i + 2 <= |hex| then i + 2 else |hex|];
        ghost var before := colorRGB;
        var c := Component(pair);
        ghost var rest := ComponentsFrom(hex, i + 2);
        assert ComponentsFrom(hex, i) == c + ", " + rest;
        Associate(before, c, ", ");
        Associate(before + c, ", ", rest);
        Associate(before, c, ", " + rest);
        Associate(c, ", ", rest);
        colorRGB := colorRGB + c + ", ";
        assert colorRGB + ComponentsFrom(hex, i + 2) == before + ComponentsFrom(hex, i);
        i := i + 2;
      }
      assert ComponentsFrom(hex, i) == "";
      assert colorRGB == "rgb(" + ComponentsFrom(hex, 0);
      r := colorRGB[..|colorRGB| - 2] + ")";
    } else {
      r := color;
    }
  }

  // ---- Legend sections, samples and buttons ----

  /** What the color section of a legend shows. */
  datatype ColorSection =
    | NoColorSection
    | CategoricalEntries(entries: seq<Assoc>)   // one sample per category
    | ContinuousSamples(domain: Extent)         // samples over the scale's domain
    | EmptySection                              // neither encoding exists

  /** The color section of `createGraphLegend`; `heatDomain` is the domain of
    * the heatmap's count scale. */
  function ColorLegend(graph: GraphType, colorKey: string, selectedColors: Option<seq<Assoc>>,
                       colorScale: Option<ColorScale>, heatDomain: Extent): (s: ColorSection)
    ensures s != NoColorSection <==>
              (HasEncoders(graph) || graph == Heatmap) && (colorKey != NoSelection || graph == Heatmap)
    ensures s.CategoricalEntries? <==> s != NoColorSection && selectedColors.Some? && graph != Heatmap
    ensures s.CategoricalEntries? ==> s.entries == selectedColors.value
    ensures graph == Heatmap ==> s == ContinuousSamples(heatDomain)
    ensures s.ContinuousSamples? && graph != Heatmap ==> colorScale.Some? && s.domain == colorScale.value.domain
  {
    if (HasEncoders(graph) || graph == Heatmap) && (colorKey != NoSelection || graph == Heatmap) then
      if selectedColors.Some? && graph != Heatmap then CategoricalEntries(selectedColors.value)
      else if graph == Heatmap then ContinuousSamples(heatDomain)
      else if colorScale.Some? then ContinuousSamples(colorScale.value.domain)
      else EmptySection
    else NoColorSection
  }

  /** After a successful color pass on a scatterplot or barchart with a
    * color key, the legend's color section is never empty. */
  lemma ColorLegendAfterEncoding(graph: GraphType, data: seq<Row>, e: Encoding, preferredColor: string,
                                 category10: nat -> string, category20: nat -> string, heatDomain: Extent)
    requires |data| > 0 && HasEncoders(graph) && e.colorKey != NoSelection
    requires EncodeScales(graph, data, e, preferredColor, category10, category20).rejected != Some(ColorKey)
    ensures var r := EncodeScales(graph, data, e, preferredColor, category10, category20).enc;
      var section := ColorLegend(graph, r.colorKey, r.selectedColors, r.colorScale, heatDomain);
      !section.NoColorSection? && !section.EmptySection?
  {
    var c := ColorEncode(data, e, preferredColor, category10, category20);
    assert c.rejected.None? && c.enc.colorKey == e.colorKey;
    assert c.enc.selectedColors.Some? || c.enc.colorScale.Some?;
    var r := EncodeScales(graph, data, e, preferredColor, category10, category20).enc;
    assert r.colorKey == e.colorKey && (r.selectedColors.Some? || r.colorScale.Some?);
  }

  const LegendSteps: nat := 4

  /** The sample values of a continuous legend, taken as the source's loop
    * does: from the low end in quarter steps, stopping after the first when
    * the domain is a single point. */
  method LegendSamples(lo: real, hi: real) returns (values: seq<real>)
    ensures |values| == if hi == lo then 1 else LegendSteps + 1
    ensures forall i :: 0 <= i < |values| ==> values[i] == lo + (hi - lo) / LegendSteps as real * i as real
    ensures values[0] == lo && values[|values| - 1] == hi
  {
    var step := (hi - lo) / LegendSteps as real;
    assert step == 0.0 <==> hi == lo;
    values := [];
    var i := 0;
    // The loop stops after its first sample when the step is zero.
    while i < LegendSteps + 1 && !(i > 0 && step == 0.0)
      invariant 0 <= i <= LegendSteps + 1 && |values| == i
      invariant step == 0.0 ==> i <= 1
      invariant forall j :: 0 <= j < i ==> values[j] == lo + step * j as real
    {
      values := values + [lo + step * i as real];
      i := i + 1;
    }
    assert step * LegendSteps as real == hi - lo;
  }

  /** Whether legend row `i` of `n` gets a chooser button. */
  function HasButton(graph: GraphType, isCategorical: bool, i: nat, n: nat): bool
  {
    (isCategorical || i == 0 || i == n - 1) && graph != Heatmap
  }

  /** After an accepted categorical color pass, every category of the color
    * column has a row of the legend, and that row has a chooser button. */
  lemma CategoricalLegendButtons(graph: GraphType, data: seq<Row>, e: Encoding, preferredColor: string,
                                 category10: nat -> string, category20: nat -> string,
                                 heatDomain: Extent, v: Value)
    requires CategoricalColorAccepted(graph, data, e, preferredColor, category10, category20)
    requires v in Column(data, e.colorKey)
    ensures var r := EncodeScales(graph, data, e, preferredColor, category10, category20).enc;
      var section := ColorLegend(graph, r.colorKey, r.selectedColors, r.colorScale, heatDomain);
      && section.CategoricalEntries?
      && exists i :: 0 <= i < |section.entries| && section.entries[i].key == v
                     && HasButton(graph, true, i, |section.entries|)
  {
    AcceptedColorDictionary(graph, data, e, preferredColor, category10, category20);
    var i := CategoryEntry(Column(data, e.colorKey), e.selectedColors, category10, category20, v);
  }

  /** The size section of `createGraphLegend`: on a scatterplot with a size
    * key, samples over the size scale's domain; reading the domain of a
    * missing scale throws in the source. */
  datatype SizeSection = NoSizeSection | SizeSamples(domain: Extent) | SizeScaleMissing

  function SizeLegend(graph: GraphType, sizeKey: string, sizeScale: Option<SizeScale>): (s: SizeSection)
    ensures s != NoSizeSection <==> graph == Scatterplot && sizeKey != NoSelection
    ensures s.SizeSamples? <==> s != NoSizeSection && sizeScale.Some?
    ensures s.SizeSamples? ==> sizeScale == Some(SizeScale(s.domain))
  {
    if graph == Scatterplot && sizeKey != NoSelection then
      if sizeScale.Some? then SizeSamples(sizeScale.value.domain) else SizeScaleMissing
    else NoSizeSection
  }

  /** After a scatterplot pass that accepts the size column, the size section
    * samples the column's extent: the scale it reads always exists. */
  lemma SizeLegendAfterEncoding(data: seq<Row>, e: Encoding, preferredColor: string,
                                category10: nat -> string, category20: nat -> string)
    requires SizeAccepted(data, e, preferredColor, category10, category20)
    ensures var r := EncodeScales(Scatterplot, data, e, preferredColor, category10, category20).enc;
      SizeLegend(Scatterplot, r.sizeKey, r.sizeScale) == SizeSamples(ExtentOf(Column(data, e.sizeKey)))
  {
    AcceptedSizeScale(data, e, preferredColor, category10, category20);
  }

  /** The shape section: on a scatterplot with a shape key, one row per entry
    * of the shape dictionary, in its order; `for ... in` over a missing
    * dictionary makes no rows. */
  datatype ShapeSection = NoShapeSection | ShapeRows(rows: seq<Assoc>)

  function ShapeLegend(graph: GraphType, shapeKey: string, shapeDict: Option<seq<Assoc>>): (s: ShapeSection)
    ensures s != NoShapeSection <==> graph == Scatterplot && shapeKey != NoSelection
    ensures s.ShapeRows? && shapeDict.Some? ==> s.rows == shapeDict.value
    ensures s.ShapeRows? && shapeDict.None? ==> s.rows == []
  {
    if graph == Scatterplot && shapeKey != NoSelection then
      ShapeRows(if shapeDict.Some? then shapeDict.value else [])
    else NoShapeSection
  }

  /** After a scatterplot pass that accepts a newly chosen shape column, the
    * shape section has one row per category of the column, in first-seen
    * order, drawn with `SHAPES[i]`. */
  lemma ShapeLegendAfterEncoding(data: seq<Row>, e: Encoding, preferredColor: string,
                                 category10: nat -> string, category20: nat -> string)
    requires |data| > 0 && e.shapeKey != NoSelection && e.shapeKey != e.prevShapeKey
    requires EncodeScales(Scatterplot, data, e, preferredColor, category10, category20).rejected.None?
    ensures var r := EncodeScales(Scatterplot, data, e, preferredColor, category10, category20).enc;
      var section := ShapeLegend(Scatterplot, r.shapeKey, r.shapeDict);
      && section.ShapeRows?
      && KeysOf(section.rows) == Distinct(Column(data, e.shapeKey))
      && forall i :: 0 <= i < |section.rows| ==> section.rows[i].val == Shapes[i]
  {
    var c := ColorEncode(data, e, preferredColor, category10, category20);
    var sz := SizeEncode(data, c.enc);
    assert sz.enc.shapeKey == e.shapeKey && sz.enc.prevShapeKey == e.prevShapeKey;
    ShapeRebuildRule(data, sz.enc);
  }

  /** The key whose chooser each shape-legend button opens, as written: the
    * handlers share the loop variable, so every button opens the chooser for
    * the last key. */
  function ShapeButtonKeysAsWritten(shapeDict: seq<Assoc>): (r: seq<Value>)
    ensures |r| == |shapeDict|
  {
    seq(|shapeDict|, i requires 0 <= i < |shapeDict| => shapeDict[|shapeDict| - 1].key)
  }

  /** With two categories, the first category's button opens the chooser for
    * the second category. */
  lemma ShapeButtonOpensWrongKey()
    ensures var d := [Assoc(Str("a"), "circle"), Assoc(Str("b"), "cross")];
      ShapeButtonKeysAsWritten(d)[0] == Str("b") != d[0].key
  {
  }

  /** The key whose chooser each shape-legend button opens, as intended: its
    * own row's key. */
  function ShapeButtonKeys(shapeDict: seq<Assoc>): (r: seq<Value>)
    ensures r == KeysOf(shapeDict)
  {
    var r := seq(|shapeDict|, i requires 0 <= i < |shapeDict| => shapeDict[i].key);
    assert forall i :: 0 <= i < |shapeDict| ==> r[i] == KeysOf(shapeDict)[i];
    r
  }

  /** With distinct categories every shape button opens a different chooser,
    * and the chooser of button i shows the shape of row i. */
  lemma ShapeButtonsDistinct(shapeDict: seq<Assoc>, i: nat)
    requires NoDuplicates(KeysOf(shapeDict)) && i < |shapeDict|
    ensures Lookup(shapeDict, ShapeButtonKeys(shapeDict)[i]) == Some(shapeDict[i].val)
    ensures forall j :: 0 <= j < |shapeDict| && j != i ==> ShapeButtonKeys(shapeDict)[j] != ShapeButtonKeys(shapeDict)[i]
  {
    LookupAt(shapeDict, i);
  }

  /** The shape dictionary with `key` set to `shape`: the entry under `key`
    * takes the new shape, and a key the dictionary lacks is added at the end,
    * as assigning a new property of an object does. */
  function Reshape(d: seq<Assoc>, key: Value, shape: string): (r: seq<Assoc>)
    ensures |r| == |d| + (if key in KeysOf(d) then 0 else 1) && KeysOf(r)[..|d|] == KeysOf(d)
    ensures forall i :: 0 <= i < |d| ==> r[i].val == (if d[i].key == key then shape else d[i].val)
    ensures key !in KeysOf(d) ==> r[|d|] == Assoc(key, shape)
  {
    if key in KeysOf(d) then Recolor(d, key, shape)
    else
      var r := d + [Assoc(key, shape)];
      assert forall i :: 0 <= i < |d| ==> KeysOf(r)[i] == KeysOf(d)[i];
      r
  }

  /** The shape chooser's Ok button: the dictionary is changed only when the
    * chosen shape differs from the one stored under the key. */
  method ChooseShape(link: Link, key: Value, selectedShape: string) returns (changed: bool)
    requires link.shapeDict.Some? && NoDuplicates(KeysOf(link.shapeDict.value))
    modifies link
    ensures changed <==> Lookup(old(link.shapeDict.value), key) != Some(selectedShape)
    ensures !changed ==> unchanged(link)
    ensures changed ==> link.Enc() == old(link.Enc()).(shapeDict := Some(Reshape(old(link.shapeDict.value), key, selectedShape)))
    ensures link.Frame() == old(link.Frame())
  {
    changed := Lookup(link.shapeDict.value, key) != Some(selectedShape);
    if changed {
      link.shapeDict := Some(Reshape(link.shapeDict.value, key, selectedShape));
    }
  }

  /** After a shape change the key is drawn with the chosen shape, whether or
    * not the dictionary held it, and the keys stay distinct. */
  lemma ChooseShapeEffect(d: seq<Assoc>, key: Value, shape: string)
    requires NoDuplicates(KeysOf(d))
    ensures Lookup(Reshape(d, key, shape), key) == Some(shape)
    ensures NoDuplicates(KeysOf(Reshape(d, key, shape)))
  {
    if key in KeysOf(d) {
      RecolorLookup(d, key, shape, key);
    } else {
      AppendedKey(d, Assoc(key, shape));
    }
  }

  /** A key appended to a dictionary without it is looked up to its value,
    * and the keys stay distinct. */
  lemma AppendedKey(d: seq<Assoc>, a: Assoc)
    requires NoDuplicates(KeysOf(d)) && a.key !in KeysOf(d)
    ensures Lookup(d + [a], a.key) == Some(a.val)
    ensures NoDuplicates(KeysOf(d + [a]))
  {
    var r := d + [a];
    KeysOfAppend(d, a);
    var i :| 0 <= i < |r| && r[i] == Assoc(a.key, Lookup(r, a.key).value);
    assert KeysOf(r)[i] == a.key;
    assert forall i, j :: 0 <= i < j < |r| ==> KeysOf(r)[i] != KeysOf(r)[j];
  }

  lemma KeysOfAppend(d: seq<Assoc>, a: Assoc)
    ensures KeysOf(d + [a]) == KeysOf(d) + [a.key]
  {
    assert forall i :: 0 <= i < |d| ==> KeysOf(d + [a])[i] == KeysOf(d)[i];
  }

  /** `listClick`: the clicked item is checked and every other item of the
    * list unchecked. */
  method ListClick(ids: seq<string>, clicked: string) returns (checked: seq<bool>)
    ensures |checked| == |ids|
    ensures forall i :: 0 <= i < |ids| ==> (checked[i] <==> ids[i] == clicked)
  {
    checked := [];
    for i := 0 to |ids|
      invariant |checked| == i
      invariant forall j :: 0 <= j < i ==> (checked[j] <==> ids[j] == clicked)
    {
      checked := checked + [ids[i] == clicked];
    }
  }

  /** With distinct ids, a click leaves exactly one item checked. */
  lemma ListClickExclusive(ids: seq<string>, clicked: string, checked: seq<bool>, i: nat)
    requires NoDuplicates(ids) && |checked| == |ids| && i < |ids| && ids[i] == clicked
    requires forall j :: 0 <= j < |ids| ==> (checked[j] <==> ids[j] == clicked)
    ensures checked[i] && forall j :: 0 <= j < |ids| && j != i ==> !checked[j]
  {
  }
}
