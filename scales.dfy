// Column-kind inference and axis domains (js/svgChain.js: createAxisScale,
// getCategories, getMinMax, formatTick, calculateXCoord, calculateYCoord).

module Scales {
  import opened Base

  /** `Array.prototype.indexOf`: the first position of `v`, or -1. */
  function IndexOf<T(==)>(s: seq<T>, v: T): (r: int)
    ensures -1 <= r < |s|
    ensures r == -1 <==> v !in s
    ensures 0 <= r ==> s[r] == v && v !in s[..r]
  {
    if s == [] then -1
    else if s[0] == v then 0
    else
      var k := IndexOf(s[1..], v);
      assert k >= 0 ==> s[..k + 1] == [s[0]] + s[1..][..k];
      if k < 0 then -1 else k + 1
  }

  /** The position characterised by `IndexOf`'s contract is the only one. */
  lemma IndexOfUnique<T>(s: seq<T>, v: T, r: nat)
    requires r < |s| && s[r] == v && v !in s[..r]
    ensures IndexOf(s, v) == r
  {
  }

  lemma IndexOfSnoc<T>(s: seq<T>, x: T, v: T)
    requires v in s
    ensures IndexOf(s + [x], v) == IndexOf(s, v)
  {
    var r := IndexOf(s, v);
    assert (s + [x])[..r] == s[..r];
    IndexOfUnique(s + [x], v, r);
  }

  predicate NoDuplicates<T(==)>(s: seq<T>)
  {
    forall i, j :: 0 <= i < j < |s| ==> s[i] != s[j]
  }

  /** The distinct values of `s`, each kept where it is first seen. */
  function Distinct<T(==)>(s: seq<T>): seq<T>
  {
    if s == [] then []
    else
      var d := Distinct(s[..|s| - 1]);
      if s[|s| - 1] in d then d else d + [s[|s| - 1]]
  }

  /** Every value of `s` appears in `Distinct(s)` exactly once, nothing else
    * does, and the values are ordered by where `s` first shows them. */
  lemma {:induction false} DistinctSpec<T>(s: seq<T>)
    ensures NoDuplicates(Distinct(s))
    ensures forall v :: v in Distinct(s) <==> v in s
    ensures forall i, j :: 0 <= i < j < |Distinct(s)| ==>
              IndexOf(s, Distinct(s)[i]) < IndexOf(s, Distinct(s)[j])
  {
    if s != [] {
      var p, x := s[..|s| - 1], s[|s| - 1];
      assert s == p + [x];
      DistinctSpec(p);
      var d := Distinct(p);
      forall v | v in p
        ensures IndexOf(s, v) == IndexOf(p, v)
      {
        IndexOfSnoc(p, x, v);
      }
      if x !in d {
        IndexOfUnique(s, x, |p|);
        forall i | 0 <= i < |d|
          ensures IndexOf(s, d[i]) < IndexOf(s, x)
        {
          assert d[i] in d;
        }
      }
    }
  }

  /** `getCategories`: the distinct values of the column, in first-seen order. */
  method GetCategories(data: seq<Row>, key: string) returns (cats: seq<Value>)
    ensures cats == Distinct(Column(data, key))
    ensures NoDuplicates(cats)
    ensures forall v :: v in cats <==> v in Column(data, key)
  {
    ghost var col := Column(data, key);
    cats := [];
    var i := 0;
    while i < |data|
      invariant 0 <= i <= |data|
      invariant cats == Distinct(col[..i])
    {
      var value := Cell(data[i], key);
      assert col[..i + 1][..i] == col[..i] && col[..i + 1][i] == value;
      if IndexOf(cats, value) < 0 {
        cats := cats + [value];
      }
      i := i + 1;
    }
    assert col[..|data|] == col;
    DistinctSpec(col);
  }

  /** The `{min, max}` of `getMinMax`. `Math.min`/`Math.max` give NaN as soon
    * as one value is not a number: that is `NotANumber`. */
  datatype Extent = Extent(lo: real, hi: real) | NotANumber

  function Min(a: real, b: real): real { if a <= b then a else b }
  function Max(a: real, b: real): real { if a <= b then b else a }

  function ExtentOf(col: seq<Value>): (e: Extent)
    requires |col| > 0
    ensures e.NotANumber? <==> exists i :: 0 <= i < |col| && !IsNumeric(col[i])
    ensures e.Extent? ==> e.lo <= e.hi
    ensures e.Extent? ==> forall i :: 0 <= i < |col| ==> e.lo <= col[i].n <= e.hi
  {
    var last := col[|col| - 1];
    if |col| == 1 then
      if last.Num? then Extent(last.n, last.n) else NotANumber
    else
      var init := col[..|col| - 1];
      assert forall i :: 0 <= i < |init| ==> init[i] == col[i];
      match ExtentOf(init)
      case NotANumber => NotANumber
      case Extent(lo, hi) =>
        if last.Num? then Extent(Min(lo, last.n), Max(hi, last.n)) else NotANumber
  }

  /** Both ends of a numeric extent are values of the column. */
  lemma {:induction false} ExtentAttained(col: seq<Value>)
    requires |col| > 0 && ExtentOf(col).Extent?
    ensures exists i :: 0 <= i < |col| && col[i] == Num(ExtentOf(col).lo)
    ensures exists j :: 0 <= j < |col| && col[j] == Num(ExtentOf(col).hi)
  {
    var n := |col|;
    if n > 1 {
      var init := col[..n - 1];
      ExtentAttained(init);
      var i :| 0 <= i < |init| && init[i] == Num(ExtentOf(init).lo);
      var j :| 0 <= j < |init| && init[j] == Num(ExtentOf(init).hi);
      assert init[i] == col[i] && init[j] == col[j];
    }
  }

  /** `getMinMax`: one pass over the rows. */
  method GetMinMax(data: seq<Row>, key: string) returns (e: Extent)
    requires |data| > 0
    ensures e == ExtentOf(Column(data, key))
    ensures e.NotANumber? <==> exists i :: 0 <= i < |data| && !IsNumeric(Cell(data[i], key))
  {
    ghost var col := Column(data, key);
    var first := Cell(data[0], key);
    e := if first.Num? then Extent(first.n, first.n) else NotANumber;
    var i := 1;
    assert col[..1] == [first];
    while i < |data|
      invariant 1 <= i <= |data|
      invariant e == ExtentOf(col[..i])
    {
      var v := Cell(data[i], key);
      assert col[..i + 1][..i] == col[..i] && col[..i + 1][i] == v;
      if e.Extent? {
        e := if v.Num? then Extent(Min(e.lo, v.n), Max(e.hi, v.n)) else NotANumber;
      }
      i := i + 1;
    }
    assert col[..|data|] == col;
    if e.NotANumber? {
      ghost var k :| 0 <= k < |col| && !IsNumeric(col[k]);
      assert !IsNumeric(Cell(data[k], key));
    } else {
      assert forall k :: 0 <= k < |data| ==> col[k] == Cell(data[k], key) && IsNumeric(col[k]);
    }
  }

  const ScalePadding: real := 0.05

  /** The domain an axis scale is given. `Dates` is the ordinal date axis of
    * overview and timeline charts, listed by column name. */
  datatype AxisDomain =
    | Ordinal(labels: seq<Value>)
    | Linear(lo: real, hi: real)
    | NaNDomain
    | Dates(columns: seq<string>)

  function AxisPadding(lo: real, hi: real): real
  {
    if lo == hi then 0.1 * hi else (hi - lo) * ScalePadding
  }

  /** `createAxisScale`: the first row decides between a categorical and a
    * continuous axis. */
  function AxisScale(data: seq<Row>, key: string): (d: AxisDomain)
    requires |data| > 0
    ensures d.Ordinal? <==> !IsNumeric(Cell(data[0], key))
    ensures d.Ordinal? ==>
              && |d.labels| == |Distinct(Column(data, key))| + 2
              && d.labels[0] == Str("") && d.labels[|d.labels| - 1] == Str(" ")
              && d.labels[1..|d.labels| - 1] == Distinct(Column(data, key))
    ensures d.NaNDomain? <==> IsNumeric(Cell(data[0], key)) && ExtentOf(Column(data, key)).NotANumber?
    ensures !d.Dates?
  {
    if !IsNumeric(Cell(data[0], key)) then
      Ordinal([Str("")] + Distinct(Column(data, key)) + [Str(" ")])
    else
      match ExtentOf(Column(data, key))
      case NotANumber => NaNDomain
      case Extent(lo, hi) =>
        var p := AxisPadding(lo, hi);
        Linear(lo - p, hi + p)
  }

  /** A continuous axis whose column is not constant, or is a positive
    * constant, places every value strictly inside its domain. A constant 0
    * column gets the empty domain [0, 0], and a negative constant one a
    * reversed domain. */
  lemma AxisDomainContains(data: seq<Row>, key: string)
    requires |data| > 0
    requires AxisScale(data, key).Linear?
    ensures var e := ExtentOf(Column(data, key));
      e.Extent? && (e.lo < e.hi || 0.0 < e.lo) ==>
        forall i :: 0 <= i < |data| ==>
          AxisScale(data, key).lo < Cell(data[i], key).n < AxisScale(data, key).hi
    ensures var e := ExtentOf(Column(data, key));
      e.Extent? && e.lo == e.hi && e.hi < 0.0 ==> AxisScale(data, key).hi < AxisScale(data, key).lo
  {
    var col := Column(data, key);
    assert forall i :: 0 <= i < |data| ==> col[i] == Cell(data[i], key);
  }

  /** Every value of a categorical column has a place on its axis. */
  lemma OrdinalAxisCovers(data: seq<Row>, key: string, i: nat)
    requires i < |data| && !IsNumeric(Cell(data[0], key))
    ensures Cell(data[i], key) in AxisScale(data, key).labels
  {
    var col := Column(data, key);
    DistinctSpec(col);
    assert col[i] == Cell(data[i], key);
    var labels := AxisScale(data, key).labels;
    assert labels == [Str("")] + Distinct(col) + [Str(" ")];
  }

  /** `formatTick`: long text labels keep their last `MaxLabelLength`
    * characters behind "...". Reading `.length` of `undefined` throws, so an
    * absent tick is excluded. */
  function FormatTick(tick: Value): (r: Value)
    requires !tick.Absent?
    ensures r.Str? <==> tick.Str?
    ensures tick.Str? && |tick.s| > MaxLabelLength ==>
      |r.s| == MaxLabelLength + 3 && r.s[..3] == "..." && r.s[3..] == tick.s[|tick.s| - MaxLabelLength..]
    ensures !(tick.Str? && |tick.s| > MaxLabelLength) ==> r == tick
  {
    if tick.Str? && |tick.s| > MaxLabelLength then
      Str("..." + tick.s[|tick.s| - MaxLabelLength..])
    else tick
  }

  /** Shortening a tick a second time changes nothing. */
  lemma FormatTickIdempotent(tick: Value)
    requires !tick.Absent?
    ensures FormatTick(FormatTick(tick)) == FormatTick(tick)
  {
    var r := FormatTick(tick);
    if tick.Str? && |tick.s| > MaxLabelLength {
      assert r.s[|r.s| - MaxLabelLength..] == r.s[3..];
    }
  }

  // Pixel extents of the axis ranges.
  const XRangeMax: real := (Width - SvgPadding * 2 - ChartPadding * 2) as real
  const YRangeMax: real := (Height - SvgPadding * 2 - ChartPadding) as real

  /** `calculateXCoord`: a scaled value that is NaN (`None`) is drawn at 0,
    * anything else is shifted right by the two paddings. */
  function XCoord(scaled: Option<real>): (r: real)
  {
    if scaled.None? then 0.0 else (SvgPadding + ChartPadding) as real + scaled.value
  }

  /** `calculateYCoord`: NaN is drawn at 0, anything else below the top
    * padding. */
  function YCoord(scaled: Option<real>): (r: real)
  {
    if scaled.None? then 0.0 else SvgPadding as real + scaled.value
  }

  /** A point whose scaled values lie in the axis ranges is drawn inside the
    * plot area, clear of the y-axis gutter and of the bottom padding. */
  lemma CoordsInPlotArea(sx: real, sy: real)
    requires 0.0 <= sx <= XRangeMax && 0.0 <= sy <= YRangeMax
    ensures 45.0 <= XCoord(Some(sx)) <= (Width - SvgPadding - ChartPadding) as real
    ensures 5.0 <= YCoord(Some(sy)) <= (Height - SvgPadding - ChartPadding) as real
    ensures XCoord(None) == 0.0 && YCoord(None) == 0.0
  {
  }
}
