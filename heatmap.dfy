// Heatmap binning (js/svgChain.js: getHeatmapSquareAttributes,
// getHeatmapSquareCoordinate, getHeatmapSquareLength and the heatmap branch of
// createNodes).

module Heatmap {
  import opened Base
  import opened Scales

  /** `Math.floor(Math.sqrt(numHeatSquares))`: squares per side of a
    * continuous axis, and the number of rows or columns a categorical axis
    * aims for. */
  const HeatSide: nat := 20

  lemma HeatSideIsRoot()
    ensures HeatSide * HeatSide == NumHeatSquares
  {
  }

  /** The attributes of one heatmap axis. A continuous axis starts at the
    * domain's lower end and has 20 equal steps; a categorical axis walks the
    * domain `["", c1, ..., cn, " "]` from index 1 in whole steps. */
  datatype HeatAxis =
    | ContinuousAxis(min: real, delta: real)
    | CategoricalAxis(domain: seq<Value>, step: nat)

  /** The number of categories of a categorical axis. */
  function NumCategories(a: HeatAxis): nat
    requires a.CategoricalAxis?
  {
    if |a.domain| >= 2 then |a.domain| - 2 else 0
  }

  /** `Math.ceil(n / step)` for a positive step. */
  function CeilDiv(n: nat, step: nat): nat
    requires step > 0
  {
    if n % step == 0 then n / step else n / step + 1
  }

  /** `numRowsOrCols` of an axis. */
  function Squares(a: HeatAxis): nat
  {
    if a.ContinuousAxis? then HeatSide
    else if a.step == 0 then 0
    else CeilDiv(NumCategories(a), a.step)
  }

  function MinOf(a: HeatAxis): real
  {
    if a.ContinuousAxis? then a.min else 1.0
  }

  function StepOf(a: HeatAxis): real
  {
    if a.ContinuousAxis? then a.delta else a.step as real
  }

  function Abs(x: real): real { if x < 0.0 then -x else x }

  /** The axis domains a heatmap can be binned over: a categorical domain
    * with its two padding labels, or a continuous one. */
  predicate HeatDomain(d: AxisDomain)
  {
    (d.Ordinal? && |d.labels| >= 2) || d.Linear?
  }

  /** `getHeatmapSquareAttributes`. */
  function SquareAttributes(d: AxisDomain): (a: HeatAxis)
    requires HeatDomain(d)
    ensures a.ContinuousAxis? <==> d.Linear?
    ensures a.ContinuousAxis? ==> a.min == d.lo && a.delta * HeatSide as real == Abs(d.hi - d.lo)
    ensures a.CategoricalAxis? ==>
              && a.domain == d.labels && a.step >= 1
              && (NumCategories(a) >= HeatSide ==> a.step == NumCategories(a) / HeatSide)
              && (NumCategories(a) < HeatSide ==> a.step == 1)
  {
    match d
    case Linear(lo, hi) => ContinuousAxis(lo, Abs(hi - lo) / HeatSide as real)
    case Ordinal(labels) =>
      var step := (|labels| - 2) / HeatSide;
      CategoricalAxis(labels, if step == 0 then 1 else step)
  }

  /** A categorical axis never has more than 39 squares, and has one per
    * category when there are at most 39 categories. */
  lemma CategoricalSquares(d: AxisDomain)
    requires HeatDomain(d) && d.Ordinal?
    ensures var a := SquareAttributes(d);
      && Squares(a) <= 2 * HeatSide - 1
      && (NumCategories(a) < 2 * HeatSide ==> Squares(a) == NumCategories(a))
  {
    var a := SquareAttributes(d);
    var n := NumCategories(a);
    if n >= 2 * HeatSide {
      var s := a.step;
      assert s == n / HeatSide && s >= 2;
      assert n < HeatSide * (s + 1);
      assert n / s < 2 * HeatSide;
    }
  }

  lemma MulMono(a: nat, b: nat, c: nat)
    ensures a <= b ==> a * c <= b * c
  {
  }

  /** `getHeatmapSquareCoordinate` of square `k`: the data value at the
    * square's lower edge, which for a categorical axis is the label at
    * index `1 + k*step`. */
  function SquareCoordinate(a: HeatAxis, k: nat): Value
    requires k < Squares(a)
  {
    if a.ContinuousAxis? then Num(a.min + k as real * a.delta)
    else
      SquareFits(a, k);
      a.domain[1 + k * a.step]
  }

  /** Every categorical square starts on a category label. */
  lemma SquareFits(a: HeatAxis, k: nat)
    requires a.CategoricalAxis? && k < Squares(a)
    ensures 1 + k * a.step <= NumCategories(a)
  {
    var n, s := NumCategories(a), a.step;
    assert s > 0;
    var q := n / s;
    assert n == q * s + n % s;
    if n % s == 0 {
      assert k <= q - 1;
      MulMono(k, q - 1, s);
    } else {
      assert k <= q;
      MulMono(k, q, s);
    }
  }

  /** `getHeatmapSquareLength` of a categorical axis: the last square covers
    * what is left when the categories do not divide evenly. */
  function CategoricalLength(a: HeatAxis, k: nat): nat
    requires a.CategoricalAxis? && a.step > 0
  {
    var rem := NumCategories(a) % a.step;
    if k == Squares(a) - 1 && rem != 0 then rem else a.step
  }

  /** `getHeatmapSquareLength`. */
  function SquareLength(a: HeatAxis, k: nat): real
  {
    if a.ContinuousAxis? then a.delta
    else if a.step == 0 then 0.0
    else CategoricalLength(a, k) as real
  }

  function SumLengths(a: HeatAxis, k: nat): nat
    requires a.CategoricalAxis? && a.step > 0
  {
    if k == 0 then 0 else SumLengths(a, k - 1) + CategoricalLength(a, k - 1)
  }

  lemma {:induction false} SumLengthsFull(a: HeatAxis, k: nat)
    requires a.CategoricalAxis? && a.step > 0 && k < Squares(a)
    ensures SumLengths(a, k) == k * a.step
  {
    if k > 0 {
      SumLengthsFull(a, k - 1);
    }
  }

  /** The squares of a categorical axis cover its categories exactly: their
    * lengths add up to the number of categories. */
  lemma CategoricalLengthsCover(a: HeatAxis)
    requires a.CategoricalAxis? && a.step > 0
    ensures SumLengths(a, Squares(a)) == NumCategories(a)
  {
    var n, s := NumCategories(a), a.step;
    var c := Squares(a);
    var q := n / s;
    assert n == q * s + n % s;
    if c > 0 {
      SumLengthsFull(a, c - 1);
      if n % s == 0 {
        assert c == q;
        assert (q - 1) * s + s == q * s;
      } else {
        assert c == q + 1;
      }
    }
  }

  /** The data behind one heatmap square: how many rows fall in it, its lower
    * edges, its extent in data units and the rows themselves. */
  datatype HeatCell = HeatCell(count: nat, x: Value, y: Value, width: real, height: real, data: seq<Row>)

  /** The square of row `i` (along y) and column `j` (along x), still empty. */
  function EmptyCell(xa: HeatAxis, ya: HeatAxis, i: nat, j: nat): HeatCell
    requires i < Squares(ya) && j < Squares(xa)
  {
    HeatCell(0, SquareCoordinate(xa, j), SquareCoordinate(ya, i), SquareLength(xa, j), SquareLength(ya, i), [])
  }

  /** Row `i` of empty squares, left to right. */
  function GridRow(xa: HeatAxis, ya: HeatAxis, i: nat): (r: seq<HeatCell>)
    requires i < Squares(ya)
    ensures |r| == Squares(xa)
  {
    seq(Squares(xa), j requires 0 <= j < Squares(xa) => EmptyCell(xa, ya, i, j))
  }

  /** The first `i` rows of empty squares, one row after the other. */
  function GridUpTo(xa: HeatAxis, ya: HeatAxis, i: nat): (g: seq<HeatCell>)
    requires i <= Squares(ya)
    ensures |g| == i * Squares(xa)
  {
    if i == 0 then [] else GridUpTo(xa, ya, i - 1) + GridRow(xa, ya, i - 1)
  }

  /** The empty grid. */
  function Grid(xa: HeatAxis, ya: HeatAxis): (g: seq<HeatCell>)
    ensures |g| == Squares(ya) * Squares(xa)
  {
    GridUpTo(xa, ya, Squares(ya))
  }

  /** Square `row*numCols + col` of the grid is the one at row `row` and
    * column `col`: its edges and lengths are that row's and that column's. */
  lemma {:induction false} GridCellAt(xa: HeatAxis, ya: HeatAxis, rows: nat, i: nat, j: nat)
    requires i < rows <= Squares(ya) && j < Squares(xa)
    ensures i * Squares(xa) + j < |GridUpTo(xa, ya, rows)|
    ensures GridUpTo(xa, ya, rows)[i * Squares(xa) + j] == EmptyCell(xa, ya, i, j)
  {
    var cols := Squares(xa);
    var prefix := GridUpTo(xa, ya, rows - 1);
    assert GridUpTo(xa, ya, rows) == prefix + GridRow(xa, ya, rows - 1);
    if i < rows - 1 {
      MulMono(i + 1, rows - 1, cols);
      GridCellAt(xa, ya, rows - 1, i, j);
    }
  }

  predicate AllEmpty(cells: seq<HeatCell>)
  {
    forall k :: 0 <= k < |cells| ==> cells[k].count == 0 && cells[k].data == []
  }

  lemma {:induction false} GridEmpty(xa: HeatAxis, ya: HeatAxis, i: nat)
    requires i <= Squares(ya)
    ensures AllEmpty(GridUpTo(xa, ya, i))
  {
    if i > 0 {
      GridEmpty(xa, ya, i - 1);
    }
  }

  /** Where a value sits along an axis: its number, or its index in the
    * categorical domain when it is not a number. */
  function Position(a: HeatAxis, v: Value): real
  {
    if IsNumeric(v) then v.n
    else if a.CategoricalAxis? then IndexOf(a.domain, v) as real
    else -1.0
  }

  /** A continuous step of 0 makes the source divide by zero. */
  predicate Binnable(a: HeatAxis)
  {
    StepOf(a) != 0.0
  }

  /** `Math.floor((value - min) / step)`. */
  function Bin(a: HeatAxis, v: Value): int
    requires Binnable(a)
  {
    ((Position(a, v) - MinOf(a)) / StepOf(a)).Floor
  }

  /** `row*numCols + col` for row `d`; with a zero step it is NaN, which names
    * no square and stands here as -1. */
  function CellIndex(xa: HeatAxis, ya: HeatAxis, xKey: string, yKey: string, d: Row): int
  {
    if Binnable(xa) && Binnable(ya) then Bin(ya, Cell(d, yKey)) * Squares(xa) + Bin(xa, Cell(d, xKey))
    else -1
  }

  function Indexer(xa: HeatAxis, ya: HeatAxis, xKey: string, yKey: string): Row -> int
  {
    d => CellIndex(xa, ya, xKey, yKey, d)
  }

  /** `heatData[index]` exists for every row; otherwise the source fails on
    * `undefined.count`. */
  predicate AllIndexed(data: seq<Row>, index: Row -> int, size: int)
  {
    forall d :: d in data ==> 0 <= index(d) < size
  }

  /** Counting one row in square `k`. */
  function PlaceRow(cells: seq<HeatCell>, k: nat, d: Row): seq<HeatCell>
    requires k < |cells|
  {
    cells[k := cells[k].(count := cells[k].count + 1, data := cells[k].data + [d])]
  }

  /** Counting the rows in order. */
  function PlaceAll(cells: seq<HeatCell>, data: seq<Row>, index: Row -> int): (r: seq<HeatCell>)
    requires AllIndexed(data, index, |cells|)
    ensures |r| == |cells|
  {
    if data == [] then cells
    else
      var init := data[..|data| - 1];
      var d := data[|data| - 1];
      assert forall x :: x in init ==> x in data;
      PlaceRow(PlaceAll(cells, init, index), index(d), d)
  }

  function TotalCount(cells: seq<HeatCell>): nat
  {
    if cells == [] then 0 else cells[0].count + TotalCount(cells[1..])
  }

  function Members(cells: seq<HeatCell>): seq<Row>
  {
    if cells == [] then [] else cells[0].data + Members(cells[1..])
  }

  /** Each square's count is the number of rows it holds, and each row it
    * holds belongs there. */
  predicate Consistent(cells: seq<HeatCell>, index: Row -> int)
  {
    forall k :: 0 <= k < |cells| ==>
      && cells[k].count == |cells[k].data|
      && forall d :: d in cells[k].data ==> index(d) == k
  }

  /** One placed row adds one to the total count and one row to the members. */
  lemma {:induction false} PlaceRowTotals(cells: seq<HeatCell>, k: nat, d: Row)
    requires k < |cells|
    ensures TotalCount(PlaceRow(cells, k, d)) == TotalCount(cells) + 1
    ensures multiset(Members(PlaceRow(cells, k, d))) == multiset(Members(cells)) + multiset{d}
  {
    var p := PlaceRow(cells, k, d);
    if k == 0 {
      assert p[1..] == cells[1..];
    } else {
      assert p[1..] == PlaceRow(cells[1..], k - 1, d);
      PlaceRowTotals(cells[1..], k - 1, d);
    }
  }

  lemma PlaceRowConsistent(cells: seq<HeatCell>, index: Row -> int, d: Row)
    requires 0 <= index(d) < |cells| && Consistent(cells, index)
    ensures Consistent(PlaceRow(cells, index(d), d), index)
  {
    var k := index(d);
    var r := PlaceRow(cells, k, d);
    assert r[k].data == cells[k].data + [d];
  }

  /** Counting all rows adds their number to the total and their multiset to
    * the members, and keeps every square consistent. */
  lemma {:induction false} PlaceAllTotals(cells: seq<HeatCell>, data: seq<Row>, index: Row -> int)
    requires AllIndexed(data, index, |cells|) && Consistent(cells, index)
    ensures var r := PlaceAll(cells, data, index);
      && TotalCount(r) == TotalCount(cells) + |data|
      && multiset(Members(r)) == multiset(Members(cells)) + multiset(data)
      && Consistent(r, index)
  {
    if data != [] {
      var init := data[..|data| - 1];
      var d := data[|data| - 1];
      assert data == init + [d];
      assert forall x :: x in init ==> x in data;
      PlaceAllTotals(cells, init, index);
      var r0 := PlaceAll(cells, init, index);
      PlaceRowTotals(r0, index(d), d);
      PlaceRowConsistent(r0, index, d);
    }
  }

  lemma {:induction false} EmptyTotals(cells: seq<HeatCell>)
    requires AllEmpty(cells)
    ensures TotalCount(cells) == 0 && Members(cells) == []
  {
    if cells != [] {
      EmptyTotals(cells[1..]);
    }
  }

  /** The nested loops of the heatmap branch of `createNodes` that push one
    * empty square per row and column. */
  method LayOutSquares(xa: HeatAxis, ya: HeatAxis) returns (heatData: seq<HeatCell>)
    ensures heatData == Grid(xa, ya)
    ensures AllEmpty(heatData)
  {
    var rows, cols := Squares(ya), Squares(xa);
    heatData := [];
    var i := 0;
    while i < rows
      invariant 0 <= i <= rows
      invariant heatData == GridUpTo(xa, ya, i)
    {
      var j := 0;
      while j < cols
        invariant 0 <= j <= cols
        invariant heatData == GridUpTo(xa, ya, i) + GridRow(xa, ya, i)[..j]
      {
        heatData := heatData + [EmptyCell(xa, ya, i, j)];
        j := j + 1;
      }
      assert GridRow(xa, ya, i)[..cols] == GridRow(xa, ya, i);
      i := i + 1;
    }
    GridEmpty(xa, ya, rows);
  }

  /** The `forEach` of the heatmap branch of `createNodes`: each row adds one
    * to the count of the square it falls in and joins that square's rows. */
  method CountRows(cells: seq<HeatCell>, data: seq<Row>, index: Row -> int) returns (heatData: seq<HeatCell>)
    requires AllIndexed(data, index, |cells|)
    ensures heatData == PlaceAll(cells, data, index)
  {
    heatData := cells;
    var n := 0;
    while n < |data|
      invariant 0 <= n <= |data|
      invariant AllIndexed(data[..n], index, |cells|)
      invariant heatData == PlaceAll(cells, data[..n], index)
    {
      var d := data[n];
      var k := index(d);
      assert d in data;
      assert data[..n + 1][..n] == data[..n] && data[..n + 1][n] == d;
      heatData := heatData[k := heatData[k].(count := heatData[k].count + 1, data := heatData[k].data + [d])];
      n := n + 1;
    }
    assert data[..|data|] == data;
  }

  /** The heatmap branch of `createNodes`: lay out the empty squares row by
    * row, then count every row in the square its bins name. The squares
    * together hold every row exactly once, and each square's count is the
    * number of rows it holds. */
  method CreateHeatData(data: seq<Row>, xKey: string, yKey: string, xDomain: AxisDomain, yDomain: AxisDomain)
    returns (heatData: seq<HeatCell>)
    requires HeatDomain(xDomain) && HeatDomain(yDomain)
    requires var xa, ya := SquareAttributes(xDomain), SquareAttributes(yDomain);
      AllIndexed(data, Indexer(xa, ya, xKey, yKey), Squares(ya) * Squares(xa))
    ensures var xa, ya := SquareAttributes(xDomain), SquareAttributes(yDomain);
      heatData == PlaceAll(Grid(xa, ya), data, Indexer(xa, ya, xKey, yKey))
    ensures |heatData| == Squares(SquareAttributes(yDomain)) * Squares(SquareAttributes(xDomain))
    ensures TotalCount(heatData) == |data|
    ensures multiset(Members(heatData)) == multiset(data)
    ensures Consistent(heatData, Indexer(SquareAttributes(xDomain), SquareAttributes(yDomain), xKey, yKey))
  {
    var xa := SquareAttributes(xDomain);
    var ya := SquareAttributes(yDomain);
    var grid := LayOutSquares(xa, ya);
    EmptyTotals(grid);
    var index := Indexer(xa, ya, xKey, yKey);
    heatData := CountRows(grid, data, index);
    PlaceAllTotals(grid, data, index);
  }

  /** A continuous axis over a non-constant column puts every value strictly
    * inside the padded domain into one of the 20 squares. */
  lemma ContinuousBinInRange(lo: real, hi: real, v: real)
    requires lo < v < hi
    ensures var a := SquareAttributes(Linear(lo, hi));
      Binnable(a) && 0 <= Bin(a, Num(v)) < HeatSide
  {
    var a := SquareAttributes(Linear(lo, hi));
    var q := (v - lo) / a.delta;
    assert a.delta > 0.0;
    assert q * a.delta == v - lo;
    assert 20.0 * a.delta == hi - lo;
    ScaleBelow(q, 20.0, a.delta);
  }

  lemma ScaleBelow(x: real, y: real, c: real)
    requires c > 0.0 && x * c < y * c
    ensures x < y
  {
  }

  /** A categorical value found in the domain lands in one of the axis's
    * squares. */
  lemma CategoricalBinInRange(labels: seq<Value>, v: Value)
    requires |labels| >= 2 && !IsNumeric(v) && v in labels[1..|labels| - 1] && v != labels[0]
    ensures var a := SquareAttributes(Ordinal(labels));
      Binnable(a) && 0 <= Bin(a, v) < Squares(a)
  {
    var a := SquareAttributes(Ordinal(labels));
    var i :| 0 <= i < |labels| - 2 && labels[1..|labels| - 1][i] == v;
    assert labels[i + 1] == v;
    CategoryBin(a, v);
  }

  /** A category at position p >= 1 of the domain falls in square
    * `(p - 1) / step`, one of the axis's squares. */
  lemma CategoryBin(a: HeatAxis, v: Value)
    requires a.CategoricalAxis? && a.step > 0 && !IsNumeric(v)
    requires 1 <= IndexOf(a.domain, v) <= |a.domain| - 2
    ensures Binnable(a) && 0 <= Bin(a, v) < Squares(a)
  {
    var x := IndexOf(a.domain, v) - 1;
    assert Position(a, v) - MinOf(a) == x as real;
    FloorOfQuotient(x, a.step);
    SquareOfIndex(a, x);
  }

  /** `Math.floor(x / s)` of two whole numbers is integer division. */
  lemma FloorOfQuotient(x: nat, s: nat)
    requires s > 0
    ensures ((x as real) / (s as real)).Floor == x / s
  {
    var q, r := x / s, x % s;
    assert x == q * s + r;
    assert (x as real) == (q as real) * (s as real) + (r as real);
    var f := (x as real) / (s as real);
    assert f * (s as real) == x as real;
    assert f == (q as real) + (r as real) / (s as real);
    assert 0.0 <= (r as real) / (s as real) < 1.0;
  }

  lemma SquareOfIndex(a: HeatAxis, x: nat)
    requires a.CategoricalAxis? && a.step > 0 && x < NumCategories(a)
    ensures x / a.step < Squares(a)
  {
    var n, s := NumCategories(a), a.step;
    assert n == (n / s) * s + n % s;
    assert x == (x / s) * s + x % s;
    MulMono(n / s + 1, x / s, s);
  }
}
