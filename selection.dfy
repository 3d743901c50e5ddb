// Brush selection (js/graphInteractions.js: the drag handlers of
// enableNodeSelection, getHeatmapValues, getIndexBound,
// determineHeatmapSelection, determineBarchartOverviewSelection,
// determineTimelineSelection and the gathering of selectedData).

module Selection {
  import opened Base
  import opened Scales
  import opened Heatmap

  const MinDragSize: real := 3.0

  /** The selection rectangle's attributes: its corner, the point where the
    * drag started, and its size. */
  datatype Rect = Rect(x: real, y: real, initX: real, initY: real, width: real, height: real)

  /** `dragstart`: an empty rectangle at the mouse. */
  function DragStart(mx: real, my: real): (r: Rect)
    ensures r.x == r.initX == mx && r.y == r.initY == my && r.width == 0.0 && r.height == 0.0
  {
    Rect(mx, my, mx, my, 0.0, 0.0)
  }

  /** `drag` as written: the corner moves to the mouse only while the mouse is
    * left of (or above) the start point; otherwise it stays where it was. */
  function DragAsWritten(r: Rect, mx: real, my: real): Rect
  {
    var w := mx - r.initX;
    var h := my - r.initY;
    r.(x := if w < 0.0 then mx else r.x, width := if w < 0.0 then -w else w,
       y := if h < 0.0 then my else r.y, height := if h < 0.0 then -h else h)
  }

  /** Dragging left past the start point and back to its right leaves the
    * rectangle's corner behind: from a start at x = 100, moving the mouse to
    * 80 and then to 120 draws [80, 100] instead of [100, 120]. */
  lemma DragLeavesStaleCorner()
    ensures var r := DragAsWritten(DragAsWritten(DragStart(100.0, 0.0), 80.0, 10.0), 120.0, 10.0);
      r.x == 80.0 && r.width == 20.0 && r.x + r.width != 120.0
  {
  }

  /** `drag` as evidently intended: the rectangle spans the start point and
    * the mouse, whichever side the mouse is on. */
  function Drag(r: Rect, mx: real, my: real): (s: Rect)
    ensures s.initX == r.initX && s.initY == r.initY
    ensures s.x == Scales.Min(r.initX, mx) && s.x + s.width == Scales.Max(r.initX, mx)
    ensures s.y == Scales.Min(r.initY, my) && s.y + s.height == Scales.Max(r.initY, my)
    ensures s.width >= 0.0 && s.height >= 0.0
  {
    var w := mx - r.initX;
    var h := my - r.initY;
    r.(x := if w < 0.0 then mx else r.initX, width := if w < 0.0 then -w else w,
       y := if h < 0.0 then my else r.initY, height := if h < 0.0 then -h else h)
  }

  /** A whole drag gesture: start, then the mouse positions in order. */
  function DragPath(start: (real, real), moves: seq<(real, real)>): Rect
  {
    if moves == [] then DragStart(start.0, start.1)
    else Drag(DragPath(start, moves[..|moves| - 1]), moves[|moves| - 1].0, moves[|moves| - 1].1)
  }

  /** Whatever path the mouse took, the rectangle spans the start point and
    * the last mouse position. */
  lemma {:induction false} DragPathSpans(start: (real, real), moves: seq<(real, real)>)
    requires moves != []
    ensures var r := DragPath(start, moves);
      var last := moves[|moves| - 1];
      && r.x == Scales.Min(start.0, last.0) && r.x + r.width == Scales.Max(start.0, last.0)
      && r.y == Scales.Min(start.1, last.1) && r.y + r.height == Scales.Max(start.1, last.1)
  {
    if |moves| > 1 {
      DragPathSpans(start, moves[..|moves| - 1]);
    }
  }

  /** The selection box in pixels: `x1 <= x2` and `y1 <= y2`. */
  datatype Box = Box(x1: real, x2: real, y1: real, y2: real)

  /** `dragend`'s box: a rectangle narrower or lower than 3 pixels is a click
    * and selects nothing. */
  function DragEndBox(r: Rect): (b: Option<Box>)
    ensures b.Some? <==> r.width >= MinDragSize && r.height >= MinDragSize
    ensures b.Some? ==> && b.value.x1 <= b.value.x2 && b.value.y1 <= b.value.y2
                        && b.value.x2 - b.value.x1 == r.width && b.value.y2 - b.value.y1 == r.height
                        && b.value.x1 == r.x && b.value.y1 == r.y
  {
    if r.width >= MinDragSize && r.height >= MinDragSize then
      var x1, y1 := r.x, r.y;
      var x2, y2 := x1 + r.width, y1 + r.height;
      var (lx, hx) := if x1 > x2 then (x2, x1) else (x1, x2);
      var (ly, hy) := if y1 > y2 then (y2, y1) else (y1, y2);
      Some(Box(lx, hx, ly, hy))
    else None
  }

  /** A scatterplot point is selected when it lies strictly inside the box. */
  predicate ScatterSelects(b: Box, x: real, y: real)
  {
    b.x1 < x < b.x2 && b.y1 < y < b.y2
  }

  /** A bar is selected when its x lies strictly inside the box and its top
    * is above the box's bottom edge. */
  predicate BarSelects(b: Box, x: real, y: real)
  {
    b.x1 < x < b.x2 && y < b.y2
  }

  /** A bar reaches into the box from below: every bar a box selects as a
    * point is selected as a bar, and so is every bar whose top lies above the
    * box's top edge. */
  lemma BarSelectionWider(b: Box, x: real, y: real)
    ensures ScatterSelects(b, x, y) ==> BarSelects(b, x, y)
    ensures b.x1 < x < b.x2 && y <= b.y1 && b.y1 < b.y2 ==> BarSelects(b, x, y) && !ScatterSelects(b, x, y)
  {
  }

  /** `getIndexBound` as a specification: the first index at which the
    * comparison stops holding, `a.length` when it never does. */
  function IndexBoundFrom(value: real, a: seq<real>, increasing: bool, i: nat): (r: nat)
    requires i <= |a|
    decreases |a| - i
  {
    if i < |a| && (if increasing then value > a[i] else value < a[i]) then
      IndexBoundFrom(value, a, increasing, i + 1)
    else i
  }

  predicate Passes(value: real, bound: real, increasing: bool)
  {
    if increasing then value > bound else value < bound
  }

  lemma {:induction false} IndexBoundLeast(value: real, a: seq<real>, increasing: bool, i: nat)
    requires i <= |a|
    requires forall j :: 0 <= j < i ==> Passes(value, a[j], increasing)
    ensures var r := IndexBoundFrom(value, a, increasing, i);
      && i <= r <= |a|
      && (forall j :: 0 <= j < r ==> Passes(value, a[j], increasing))
      && (r < |a| ==> !Passes(value, a[r], increasing))
    decreases |a| - i
  {
    if i < |a| && Passes(value, a[i], increasing) {
      IndexBoundLeast(value, a, increasing, i + 1);
    }
  }

  /** `getIndexBound`: counts the leading entries the value passes (is
    * greater than on an increasing range, less than on a decreasing one). */
  method GetIndexBound(value: real, a: seq<real>, increasing: bool) returns (i: nat)
    ensures i == IndexBoundFrom(value, a, increasing, 0)
    ensures i <= |a|
    ensures forall j :: 0 <= j < i ==> Passes(value, a[j], increasing)
    ensures i < |a| ==> !Passes(value, a[i], increasing)
  {
    i := 0;
    while i < |a| && (if increasing then value > a[i] else value < a[i])
      invariant i <= |a|
      invariant forall j :: 0 <= j < i ==> Passes(value, a[j], increasing)
      invariant IndexBoundFrom(value, a, increasing, i) == IndexBoundFrom(value, a, increasing, 0)
    {
      i := i + 1;
    }
  }

  /** How a heatmap axis maps pixels back to data: a continuous scale's
    * `invert`, or the pixel positions (`range()`) of a categorical one. */
  datatype AxisConversion = Inverted(invert: real -> real) | Banded(range: seq<real>)

  /** `getHeatmapValues`: both box edges of one axis in data units, or as
    * domain indices on a categorical axis. */
  function HeatmapValues(v1: real, v2: real, conv: AxisConversion, isX: bool, offset: real): (r: (real, real))
    ensures conv.Banded? ==>
      && r.0 == IndexBoundFrom(v1 + offset, conv.range, isX, 0) as real
      && r.1 == IndexBoundFrom(v2 + offset, conv.range, isX, 0) as real
      && 0.0 <= r.0 <= |conv.range| as real && 0.0 <= r.1 <= |conv.range| as real
  {
    match conv
    case Inverted(invert) => (invert(v1 + offset), invert(v2 + offset))
    case Banded(range) =>
      IndexBoundLeast(v1 + offset, range, isX, 0);
      IndexBoundLeast(v2 + offset, range, isX, 0);
      (IndexBoundFrom(v1 + offset, range, isX, 0) as real, IndexBoundFrom(v2 + offset, range, isX, 0) as real)
  }

  /** The box in the heatmap's data units: x shifted by the y-axis gutter,
    * y by the top padding. */
  function ConvertBox(b: Box, xc: AxisConversion, yc: AxisConversion): Box
  {
    var xs := HeatmapValues(b.x1, b.x2, xc, true, -(SvgPadding + ChartPadding) as real);
    var ys := HeatmapValues(b.y1, b.y2, yc, false, -SvgPadding as real);
    Box(xs.0, xs.1, ys.0, ys.1)
  }

  /** The left and right edges of a square along x, in data units or
    * categorical indices. */
  function CellXEdges(cell: HeatCell, xa: HeatAxis): (real, real)
  {
    var dx1 := if xa.ContinuousAxis? then NumericValue(cell.x) else IndexOf(xa.domain, cell.x) as real;
    (dx1, dx1 + cell.width)
  }

  /** The upper and lower edges of a square along y. */
  function CellYEdges(cell: HeatCell, ya: HeatAxis): (real, real)
  {
    if ya.ContinuousAxis? then (NumericValue(cell.y) + cell.height, NumericValue(cell.y))
    else
      var dy1 := IndexOf(ya.domain, cell.y) as real + cell.height;
      (dy1, dy1 - cell.height)
  }

  /** `determineHeatmapSelection`: per axis, the square's first edge lies
    * inside the box or one of the box's edges lies inside the square. */
  predicate HeatCellSelected(b: Box, cell: HeatCell, xa: HeatAxis, ya: HeatAxis)
  {
    var (dx1, dx2) := CellXEdges(cell, xa);
    var (dy1, dy2) := CellYEdges(cell, ya);
    var xIn := b.x1 < dx1 && dx1 < b.x2;
    var boxXIn := (dx1 <= b.x1 && b.x1 < dx2) || (dx1 < b.x2 && b.x2 <= dx2);
    var yIn := b.y2 < dy1 && dy1 < b.y1;
    var boxYIn := (dy2 < b.y1 && b.y1 <= dy1) || (dy2 <= b.y2 && b.y2 < dy1);
    (xIn && yIn) || (xIn && boxYIn) || (boxXIn && yIn) || (boxXIn && boxYIn)
  }

  /** A square lying wholly left or wholly right of the box is never
    * selected, and a box that lies inside a square selects it. */
  lemma HeatSelectionOverlap(b: Box, cell: HeatCell, xa: HeatAxis, ya: HeatAxis)
    requires b.x1 <= b.x2 && cell.width >= 0.0 && cell.height >= 0.0
    ensures var (dx1, dx2) := CellXEdges(cell, xa);
      dx2 < b.x1 || b.x2 < dx1 ==> !HeatCellSelected(b, cell, xa, ya)
    ensures var (dx1, dx2) := CellXEdges(cell, xa);
      var (dy1, dy2) := CellYEdges(cell, ya);
      dx1 <= b.x1 < dx2 && dy2 < b.y1 <= dy1 ==> HeatCellSelected(b, cell, xa, ya)
  {
  }

  /** The filter over heatmap squares: the box is converted to data units at
    * the first square and the converted box is kept for all later ones. */
  method SelectHeatCells(b: Box, cells: seq<HeatCell>, xa: HeatAxis, ya: HeatAxis,
                         xc: AxisConversion, yc: AxisConversion) returns (selected: seq<bool>)
    ensures |selected| == |cells|
    ensures forall i :: 0 <= i < |cells| ==> selected[i] == HeatCellSelected(ConvertBox(b, xc, yc), cells[i], xa, ya)
  {
    var x1, x2, y1, y2 := b.x1, b.x2, b.y1, b.y2;
    selected := [];
    var i := 0;
    while i < |cells|
      invariant 0 <= i <= |cells| && |selected| == i
      invariant i == 0 ==> Box(x1, x2, y1, y2) == b
      invariant i > 0 ==> Box(x1, x2, y1, y2) == ConvertBox(b, xc, yc)
      invariant forall j :: 0 <= j < i ==> selected[j] == HeatCellSelected(ConvertBox(b, xc, yc), cells[j], xa, ya)
    {
      if i == 0 {
        var xs := HeatmapValues(x1, x2, xc, true, -(SvgPadding + ChartPadding) as real);
        x1, x2 := xs.0, xs.1;
        var ys := HeatmapValues(y1, y2, yc, false, -SvgPadding as real);
        y1, y2 := ys.0, ys.1;
      }
      selected := selected + [HeatCellSelected(Box(x1, x2, y1, y2), cells[i], xa, ya)];
      i := i + 1;
    }
  }

  /** The pixel position of one bar of a barchart overview, or of one end of
    * a timeline segment, given the chart's scales: `xAt` maps a date column
    * to its pixel, `yAt` maps a value to its pixel, `yFloor` is the lower end
    * of the y domain (where non-numeric values are drawn). */
  datatype TimeScales = TimeScales(xAt: string -> real, yAt: real -> real, yFloor: real)

  function ValueY(s: TimeScales, v: Value): real
  {
    if IsNumeric(v) then s.yAt(v.n) else s.yAt(s.yFloor)
  }

  function OverviewBarWidth(numKeys: nat): real
    requires numKeys > 0
  {
    XRangeMax * (1.0 - ScalePadding * 2.0) / numKeys as real - 5.0
  }

  /** The bar of date column `i` in a node's barchart overview. */
  predicate OverviewBarInside(b: Box, s: TimeScales, keys: seq<string>, d: Row, i: nat)
    requires i < |keys|
  {
    var x := s.xAt(keys[i]) + (SvgPadding + ChartPadding) as real - OverviewBarWidth(|keys|) / 2.0;
    var y := ValueY(s, Cell(d, keys[i])) + 5.0 - 1.0;
    b.x1 < x < b.x2 && b.y1 < y < b.y2
  }

  /** `determineBarchartOverviewSelection`: a node is selected only if every
    * one of its date bars lies inside the box; the scan stops at the first
    * bar outside. */
  method OverviewSelected(b: Box, s: TimeScales, keys: seq<string>, d: Row) returns (inSelection: bool)
    ensures inSelection <==> forall i :: TimelineKeyStartIndex <= i < |keys| ==> OverviewBarInside(b, s, keys, d, i)
  {
    inSelection := true;
    var i := TimelineKeyStartIndex;
    while inSelection && i < |keys|
      invariant inSelection ==> forall j :: TimelineKeyStartIndex <= j < i && j < |keys| ==> OverviewBarInside(b, s, keys, d, j)
      invariant !inSelection ==> exists j :: TimelineKeyStartIndex <= j < |keys| && !OverviewBarInside(b, s, keys, d, j)
      decreases |keys| - i, inSelection
    {
      if !OverviewBarInside(b, s, keys, d, i) {
        inSelection := false;
      }
      i := i + 1;
    }
  }

  /** The segment of a node's timeline between date columns `i` and `i+1`. */
  predicate SegmentInside(b: Box, s: TimeScales, keys: seq<string>, d: Row, i: nat)
    requires i + 1 < |keys|
  {
    var dx1 := s.xAt(keys[i]) + (SvgPadding + ChartPadding) as real;
    var dx2 := s.xAt(keys[i + 1]) + (SvgPadding + ChartPadding) as real;
    var dy1 := ValueY(s, Cell(d, keys[i])) + SvgPadding as real;
    var dy2 := ValueY(s, Cell(d, keys[i + 1])) + SvgPadding as real;
    b.x1 < dx1 < b.x2 && b.x1 < dx2 < b.x2 && b.y1 < dy1 < b.y2 && b.y1 < dy2 < b.y2
  }

  /** `determineTimelineSelection`: a node is selected only if every segment
    * between consecutive date columns lies inside the box. */
  method TimelineSelected(b: Box, s: TimeScales, keys: seq<string>, d: Row) returns (inSelection: bool)
    ensures inSelection <==> forall i :: TimelineKeyStartIndex <= i && i + 1 < |keys| ==> SegmentInside(b, s, keys, d, i)
  {
    inSelection := true;
    var i := TimelineKeyStartIndex;
    while inSelection && i + 1 < |keys|
      invariant inSelection ==> forall j :: TimelineKeyStartIndex <= j < i && j + 1 < |keys| ==> SegmentInside(b, s, keys, d, j)
      invariant !inSelection ==> exists j :: TimelineKeyStartIndex <= j && j + 1 < |keys| && !SegmentInside(b, s, keys, d, j)
      decreases |keys| - i, inSelection
    {
      if !SegmentInside(b, s, keys, d, i) {
        inSelection := false;
      }
      i := i + 1;
    }
  }

  /** A node whose timeline has a segment outside the box is not selected,
    * whatever its other segments do. */
  lemma TimelineOneSegmentOutside(b: Box, s: TimeScales, keys: seq<string>, d: Row, i: nat)
    requires TimelineKeyStartIndex <= i && i + 1 < |keys| && !SegmentInside(b, s, keys, d, i)
    ensures !(forall j :: TimelineKeyStartIndex <= j && j + 1 < |keys| ==> SegmentInside(b, s, keys, d, j))
  {
  }

  /** The rows of the selected nodes, in node order. */
  function Chosen(rows: seq<Row>, selected: seq<bool>): (r: seq<Row>)
    requires |selected| == |rows|
  {
    if rows == [] then []
    else Chosen(rows[..|rows| - 1], selected[..|rows| - 1]) + (if selected[|rows| - 1] then [rows[|rows| - 1]] else [])
  }

  /** The member rows of the selected squares, square after square. */
  function ChosenMembers(cells: seq<HeatCell>, selected: seq<bool>): (r: seq<Row>)
    requires |selected| == |cells|
  {
    if cells == [] then []
    else ChosenMembers(cells[..|cells| - 1], selected[..|cells| - 1])
         + (if selected[|cells| - 1] then cells[|cells| - 1].data else [])
  }

  lemma {:induction false} ChosenSpec(rows: seq<Row>, selected: seq<bool>)
    requires |selected| == |rows|
    ensures |Chosen(rows, selected)| <= |rows|
    ensures multiset(Chosen(rows, selected)) <= multiset(rows)
    ensures (forall i :: 0 <= i < |rows| ==> !selected[i]) <==> Chosen(rows, selected) == []
  {
    if rows != [] {
      var n := |rows| - 1;
      ChosenSpec(rows[..n], selected[..n]);
      assert rows == rows[..n] + [rows[n]];
      if !selected[n] && Chosen(rows[..n], selected[..n]) == [] {
        assert forall i :: 0 <= i < n ==> !selected[..n][i];
      }
    }
  }

  /** A row is among the chosen ones exactly when some selected node carries it. */
  lemma {:induction false} ChosenMembership(rows: seq<Row>, selected: seq<bool>)
    requires |selected| == |rows|
    ensures forall r :: r in Chosen(rows, selected) <==> exists i :: 0 <= i < |rows| && selected[i] && rows[i] == r
  {
    if rows != [] {
      var n := |rows| - 1;
      ChosenMembership(rows[..n], selected[..n]);
      forall r | r in Chosen(rows, selected)
        ensures exists i :: 0 <= i < |rows| && selected[i] && rows[i] == r
      {
        if r in Chosen(rows[..n], selected[..n]) {
          var i :| 0 <= i < n && selected[..n][i] && rows[..n][i] == r;
          assert selected[i] && rows[i] == r;
        } else {
          assert selected[n] && rows[n] == r;
        }
      }
      forall r, i | 0 <= i < |rows| && selected[i] && rows[i] == r
        ensures r in Chosen(rows, selected)
      {
        if i < n {
          assert selected[..n][i] && rows[..n][i] == r;
        }
      }
    }
  }

  /** Gathering `selectedData` from scratch: each selected node's row, or for
    * a heatmap each selected square's rows, pushed in node order. */
  method GatherRows(rows: seq<Row>, selected: seq<bool>) returns (selectedData: seq<Row>)
    requires |selected| == |rows|
    ensures selectedData == Chosen(rows, selected)
    ensures multiset(selectedData) <= multiset(rows)
  {
    selectedData := [];
    var i := 0;
    while i < |rows|
      invariant 0 <= i <= |rows|
      invariant selectedData == Chosen(rows[..i], selected[..i])
    {
      assert rows[..i + 1][..i] == rows[..i] && selected[..i + 1][..i] == selected[..i];
      if selected[i] {
        selectedData := selectedData + [rows[i]];
      }
      i := i + 1;
    }
    assert rows[..|rows|] == rows && selected[..|rows|] == selected;
    ChosenSpec(rows, selected);
  }

  method GatherCellRows(cells: seq<HeatCell>, selected: seq<bool>) returns (selectedData: seq<Row>)
    requires |selected| == |cells|
    ensures selectedData == ChosenMembers(cells, selected)
    ensures multiset(selectedData) <= multiset(Members(cells))
  {
    selectedData := [];
    var i := 0;
    while i < |cells|
      invariant 0 <= i <= |cells|
      invariant selectedData == ChosenMembers(cells[..i], selected[..i])
    {
      assert cells[..i + 1][..i] == cells[..i] && selected[..i + 1][..i] == selected[..i];
      if selected[i] {
        selectedData := selectedData + cells[i].data;
      }
      i := i + 1;
    }
    assert cells[..|cells|] == cells && selected[..|cells|] == selected;
    ChosenMembersWithin(cells, selected);
  }

  /** Selected squares contribute only rows the heatmap holds, each at most
    * as often as the heatmap holds it. */
  lemma {:induction false} ChosenMembersWithin(cells: seq<HeatCell>, selected: seq<bool>)
    requires |selected| == |cells|
    ensures multiset(ChosenMembers(cells, selected)) <= multiset(Members(cells))
  {
    if cells != [] {
      var n := |cells| - 1;
      ChosenMembersWithin(cells[..n], selected[..n]);
      MembersSnoc(cells[..n], cells[n]);
      assert cells == cells[..n] + [cells[n]];
    }
  }

  lemma {:induction false} MembersSnoc(cells: seq<HeatCell>, c: HeatCell)
    ensures Members(cells + [c]) == Members(cells) + c.data
  {
    if cells == [] {
      assert [c][1..] == [];
    } else {
      assert (cells + [c])[1..] == cells[1..] + [c];
      MembersSnoc(cells[1..], c);
    }
  }
}
