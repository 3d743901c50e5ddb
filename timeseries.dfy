// The timeline panels of time-series mode (js/timeseries.js): grouping the
// rows by a category column, the panel list, the y-domain of a panel, the
// line segments of one timeline, the search for a named timeline and the
// search box's autocomplete list.

module Timeseries {
  import opened Base
  import opened Scales
  import opened Chain

  // ---------------------------------------------------------------------
  // Grouping
  // ---------------------------------------------------------------------

  /** The rows of `data` whose `key` cell is `c`, in data order. */
  function Group(data: seq<Row>, key: string, c: Value): (g: seq<Row>)
    ensures |g| <= |data|
  {
    if data == [] then []
    else
      var init := Group(data[..|data| - 1], key, c);
      if Cell(data[|data| - 1], key) == c then init + [data[|data| - 1]] else init
  }

  /** A group holds exactly the rows carrying its category. */
  lemma {:induction false} GroupMembers(data: seq<Row>, key: string, c: Value)
    ensures forall r :: r in Group(data, key, c) <==> r in data && Cell(r, key) == c
  {
    if data != [] {
      var init := data[..|data| - 1];
      GroupMembers(init, key, c);
      assert data == init + [data[|data| - 1]];
    }
  }

  /** The group of a category that occurs in the column is not empty. */
  lemma GroupOfCategory(data: seq<Row>, key: string, c: Value)
    requires c in Column(data, key)
    ensures |Group(data, key, c)| > 0
  {
    var i :| 0 <= i < |data| && Column(data, key)[i] == c;
    GroupMembers(data, key, c);
    assert data[i] in Group(data, key, c);
  }

  /** All rows of the groups of `cats`, counted with multiplicity. */
  function Gathered(data: seq<Row>, key: string, cats: seq<Value>): multiset<Row>
  {
    if cats == [] then multiset{}
    else Gathered(data, key, cats[..|cats| - 1]) + multiset(Group(data, key, cats[|cats| - 1]))
  }

  /** One more row lands in the group of its own category, if that category
    * is listed, and in no other. */
  lemma {:induction false} GatheredSnoc(data: seq<Row>, x: Row, key: string, cats: seq<Value>)
    requires NoDuplicates(cats)
    ensures Gathered(data + [x], key, cats) ==
            Gathered(data, key, cats) + (if Cell(x, key) in cats then multiset{x} else multiset{})
  {
    if cats != [] {
      var init, c := cats[..|cats| - 1], cats[|cats| - 1];
      assert cats == init + [c];
      assert NoDuplicates(init) by {
        forall i, j | 0 <= i < j < |init| ensures init[i] != init[j] {
          assert init[i] == cats[i] && init[j] == cats[j];
        }
      }
      GatheredSnoc(data, x, key, init);
      assert (data + [x])[..|data|] == data;
      if Cell(x, key) == c {
        assert c !in init by {
          forall i | 0 <= i < |init| ensures init[i] != c {
            assert cats[i] == init[i];
          }
        }
      }
    }
  }

  /** The categories after one more row: the same, or one more at the end. */
  lemma DistinctSnoc(init: seq<Row>, x: Row, key: string)
    ensures Distinct(Column(init + [x], key)) ==
            var cats := Distinct(Column(init, key));
            if Cell(x, key) in cats then cats else cats + [Cell(x, key)]
  {
    var col := Column(init + [x], key);
    assert col == Column(init, key) + [Cell(x, key)];
    assert col[..|col| - 1] == Column(init, key);
  }

  /** One more row adds exactly that row to the groups. */
  lemma PartitionStep(init: seq<Row>, x: Row, key: string)
    ensures Gathered(init + [x], key, Distinct(Column(init + [x], key))) ==
            Gathered(init, key, Distinct(Column(init, key))) + multiset{x}
  {
    var cats := Distinct(Column(init, key));
    var c := Cell(x, key);
    DistinctSnoc(init, x, key);
    DistinctBasics(Column(init, key));
    GatheredSnoc(init, x, key, cats);
    if c !in cats {
      NewCategory(init, x, key, cats);
    }
  }

  /** A row with a category not seen before opens a group of its own. */
  lemma NewCategory(init: seq<Row>, x: Row, key: string, cats: seq<Value>)
    requires Cell(x, key) !in Column(init, key)
    ensures Gathered(init + [x], key, cats + [Cell(x, key)]) ==
            Gathered(init + [x], key, cats) + multiset{x}
  {
    var c := Cell(x, key);
    assert (cats + [c])[..|cats|] == cats;
    GroupMembers(init, key, c);
    assert Group(init, key, c) == [] by {
      if Group(init, key, c) != [] {
        assert Group(init, key, c)[0] in Group(init, key, c);
      }
    }
    assert (init + [x])[..|init|] == init;
  }

  lemma DistinctBasics<T>(s: seq<T>)
    ensures NoDuplicates(Distinct(s))
    ensures forall v :: v in Distinct(s) <==> v in s
  {
    DistinctSpec(s);
  }

  /** Every row is in exactly one group: together the groups of all
    * categories hold the rows of `data` once each. */
  lemma {:induction false} GroupsPartition(data: seq<Row>, key: string)
    ensures Gathered(data, key, Distinct(Column(data, key))) == multiset(data)
  {
    if data != [] {
      var init, x := data[..|data| - 1], data[|data| - 1];
      assert data == init + [x];
      GroupsPartition(init, key);
      PartitionStep(init, x, key);
    }
  }

  /** The inner loop of the grouping: the rows of category `c` are added
    * to the dictionary one by one, creating its entry at the first one. */
  method CollectGroup(data: seq<Row>, key: string, c: Value, groups: map<Value, seq<Row>>)
    returns (g: map<Value, seq<Row>>)
    requires c !in groups
    ensures Group(data, key, c) == [] ==> g == groups
    ensures Group(data, key, c) != [] ==> g == groups[c := Group(data, key, c)]
  {
    g := groups;
    var j := 0;
    ghost var acc: seq<Row> := [];
    while j < |data|
      invariant 0 <= j <= |data| && acc == Group(data[..j], key, c)
      invariant forall k :: k in g <==> k in groups || (k == c && acc != [])
      invariant forall k :: k in groups ==> g[k] == groups[k]
      invariant c in g ==> g[c] == acc
    {
      GroupStep(data, key, c, j);
      if Cell(data[j], key) == c {
        if c !in g {
          g := g[c := [data[j]]];
        } else {
          g := g[c := g[c] + [data[j]]];
        }
        acc := acc + [data[j]];
      }
      j := j + 1;
    }
    assert data[..|data|] == data;
    if acc == [] {
      assert g == groups;
    } else {
      assert g == groups[c := acc];
    }
  }

  /** One more row of the prefix extends its group by that row when it
    * carries the category. */
  lemma GroupStep(data: seq<Row>, key: string, c: Value, j: nat)
    requires j < |data|
    ensures Group(data[..j + 1], key, c) ==
            if Cell(data[j], key) == c then Group(data[..j], key, c) + [data[j]] else Group(data[..j], key, c)
  {
    assert data[..j + 1][..j] == data[..j];
  }

  /** The nested loops that fill `dataGroups`: one group per category of the
    * column, holding that category's rows in data order. */
  method GroupRows(data: seq<Row>, key: string) returns (categories: seq<Value>, groups: map<Value, seq<Row>>)
    ensures categories == Distinct(Column(data, key))
    ensures forall c :: c in groups <==> c in categories
    ensures forall c :: c in groups ==> groups[c] == Group(data, key, c) && |groups[c]| > 0
  {
    categories := GetCategories(data, key);
    groups := map[];
    var i := 0;
    while i < |categories|
      invariant 0 <= i <= |categories|
      invariant forall c :: c in groups <==> c in categories[..i]
      invariant forall c :: c in groups ==> groups[c] == Group(data, key, c) && |groups[c]| > 0
    {
      var c := categories[i];
      assert categories[..i + 1] == categories[..i] + [c];
      assert c !in categories[..i] by {
        assert forall t :: 0 <= t < i ==> categories[t] != c;
      }
      assert c in Column(data, key);
      GroupOfCategory(data, key, c);
      var g := CollectGroup(data, key, c, groups);
      groups := g;
      i := i + 1;
    }
    assert categories[..|categories|] == categories;
  }

  // ---------------------------------------------------------------------
  // The y-domain of a panel
  // ---------------------------------------------------------------------

  /** The value a date cell contributes to the y-domain: a cell that is not
    * a number counts as 0. */
  function Plotted(v: Value): real
  {
    if IsNumeric(v) then v.n else 0.0
  }

  /** The number of date columns, which start at `TimelineKeyStartIndex`. */
  function DateCount(dataKeys: seq<string>): nat
  {
    if |dataKeys| > TimelineKeyStartIndex then |dataKeys| - TimelineKeyStartIndex else 0
  }

  /** The values one row contributes, date column by date column. */
  function RowValues(row: Row, dataKeys: seq<string>): (vs: seq<real>)
    ensures |vs| == DateCount(dataKeys)
  {
    seq(DateCount(dataKeys), t requires 0 <= t < DateCount(dataKeys) =>
      Plotted(Cell(row, dataKeys[TimelineKeyStartIndex + t])))
  }

  /** The values of every date column of every row, row after row. */
  function TimelineValues(data: seq<Row>, dataKeys: seq<string>): seq<real>
  {
    if data == [] then []
    else TimelineValues(data[..|data| - 1], dataKeys) + RowValues(data[|data| - 1], dataKeys)
  }

  /** Each date cell of each row is among the values. */
  lemma {:induction false} ValueListed(data: seq<Row>, dataKeys: seq<string>, i: nat, j: nat)
    requires i < |data| && TimelineKeyStartIndex <= j < |dataKeys|
    ensures Plotted(Cell(data[i], dataKeys[j])) in TimelineValues(data, dataKeys)
  {
    var init := data[..|data| - 1];
    var t := j - TimelineKeyStartIndex;
    if i == |data| - 1 {
      var rv := RowValues(data[i], dataKeys);
      assert rv[t] == Plotted(Cell(data[i], dataKeys[j]));
      assert TimelineValues(data, dataKeys)[|TimelineValues(init, dataKeys)| + t] == rv[t];
    } else {
      assert init[i] == data[i];
      ValueListed(init, dataKeys, i, j);
    }
  }

  /** `[Math.min(values), Math.max(values)]`; an empty list has no domain. */
  datatype YDomain = YDomain(lo: real, hi: real) | NoValues

  function DomainOf(values: seq<real>): (d: YDomain)
    ensures d.NoValues? <==> values == []
    ensures d.YDomain? ==> d.lo <= d.hi
    ensures d.YDomain? ==> forall v :: v in values ==> d.lo <= v <= d.hi
    ensures d.YDomain? ==> d.lo in values && d.hi in values
  {
    if values == [] then NoValues
    else
      var last := values[|values| - 1];
      var init := values[..|values| - 1];
      assert values == init + [last];
      match DomainOf(init)
      case NoValues => YDomain(last, last)
      case YDomain(lo, hi) => YDomain(Min(lo, last), Max(hi, last))
  }

  /** `getTimelineYScale`: gathers the values in a loop and takes their
    * minimum and maximum. */
  method GetTimelineYScale(data: seq<Row>, dataKeys: seq<string>) returns (d: YDomain)
    ensures d == DomainOf(TimelineValues(data, dataKeys))
  {
    var values: seq<real> := [];
    var i := 0;
    while i < |data|
      invariant 0 <= i <= |data|
      invariant values == TimelineValues(data[..i], dataKeys)
    {
      var j := TimelineKeyStartIndex;
      while j < |dataKeys|
        invariant TimelineKeyStartIndex <= j && j - TimelineKeyStartIndex <= DateCount(dataKeys)
        invariant values == TimelineValues(data[..i], dataKeys) +
                            RowValues(data[i], dataKeys)[..j - TimelineKeyStartIndex]
      {
        var value := Cell(data[i], dataKeys[j]);
        if !IsNumeric(value) {
          values := values + [0.0];
        } else {
          values := values + [value.n];
        }
        assert RowValues(data[i], dataKeys)[..j + 1 - TimelineKeyStartIndex] ==
               RowValues(data[i], dataKeys)[..j - TimelineKeyStartIndex] + [Plotted(value)];
        j := j + 1;
      }
      assert RowValues(data[i], dataKeys)[..DateCount(dataKeys)] == RowValues(data[i], dataKeys);
      assert data[..i + 1][..i] == data[..i];
      assert TimelineValues(data[..i + 1], dataKeys) ==
             TimelineValues(data[..i + 1][..i], dataKeys) + RowValues(data[..i + 1][i], dataKeys);
      i := i + 1;
    }
    assert data[..|data|] == data;
    d := DomainOf(values);
  }

  /** The domain of a panel with date columns spans every date cell of every
    * row it shows, a non-numeric cell counting as 0. */
  lemma DomainCoversTimeline(data: seq<Row>, dataKeys: seq<string>, i: nat, j: nat)
    requires i < |data| && TimelineKeyStartIndex <= j < |dataKeys|
    ensures var d := DomainOf(TimelineValues(data, dataKeys));
      d.YDomain? && d.lo <= Plotted(Cell(data[i], dataKeys[j])) <= d.hi
  {
    ValueListed(data, dataKeys, i, j);
  }

  // ---------------------------------------------------------------------
  // Drawing one timeline
  // ---------------------------------------------------------------------

  const TimelineWidth: int := 200
  const TimelineHeight: int := 200
  const TimelineXPadding: real := 35.0
  const TimelineYPadding: real := (SvgPadding * 3) as real
  /** The y-range of a panel is `[TimelineYBottom, 0]`, i.e. [149, 0]. */
  const TimelineYBottom: real := (TimelineHeight - SvgPadding * 2 - ChartPadding - 1) as real

  /** A linear scale from `[lo, hi]` onto `[TimelineYBottom, 0]`; a domain
    * of one point sends everything to the start of the range. */
  function YScale(lo: real, hi: real, x: real): real
  {
    if hi == lo then TimelineYBottom
    else TimelineYBottom - (x - lo) / (hi - lo) * TimelineYBottom
  }

  /** `getTimelineYCoordinate`: a value that is not a number is drawn at the
    * domain's minimum, i.e. on the bottom edge; a number inside the domain
    * lands inside the plot area. */
  function YCoordinate(v: Value, d: YDomain): (y: real)
    requires d.YDomain? && d.lo <= d.hi
    ensures !IsNumeric(v) ==> y == TimelineYBottom
    ensures IsNumeric(v) && d.lo <= v.n <= d.hi ==> 0.0 <= y <= TimelineYBottom
  {
    if !IsNumeric(v) then YScale(d.lo, d.hi, d.lo)
    else
      ScaleInRange(d.lo, d.hi, v.n);
      YScale(d.lo, d.hi, v.n)
  }

  lemma ScaleInRange(lo: real, hi: real, x: real)
    requires lo <= hi
    ensures lo <= x <= hi ==> 0.0 <= YScale(lo, hi, x) <= TimelineYBottom
  {
    if hi != lo && lo <= x <= hi {
      var t := (x - lo) / (hi - lo);
      UnitRatio(x - lo, hi - lo);
      assert 0.0 <= t * TimelineYBottom <= TimelineYBottom;
      assert YScale(lo, hi, x) == TimelineYBottom - t * TimelineYBottom;
    }
  }

  lemma UnitRatio(a: real, s: real)
    requires 0.0 <= a <= s && s > 0.0
    ensures 0.0 <= a / s <= 1.0
  {
    var t := a / s;
    assert t * s == a;
  }

  /** A larger value is drawn higher up. */
  lemma YCoordinateMonotone(a: real, b: real, d: YDomain)
    requires d.YDomain? && d.lo <= d.hi && a <= b
    ensures YCoordinate(Num(b), d) <= YCoordinate(Num(a), d)
  {
    if d.hi != d.lo {
      var s := d.hi - d.lo;
      assert (a - d.lo) / s <= (b - d.lo) / s;
      assert (a - d.lo) / s * TimelineYBottom <= (b - d.lo) / s * TimelineYBottom;
    }
  }

  /** One line of a timeline, from one date to the next. */
  datatype Segment = Segment(x1: real, y1: real, x2: real, y2: real)

  /** The number of segments: one per consecutive pair of date columns. */
  function SegmentCount(dataKeys: seq<string>): nat
  {
    if |dataKeys| > TimelineKeyStartIndex + 1 then |dataKeys| - TimelineKeyStartIndex - 1 else 0
  }

  /** The point drawn for column `j` of `row`; `xAt` places a date column on
    * the panel's x-axis. */
  function PointX(dataKeys: seq<string>, j: nat, xAt: string -> real): real
    requires j < |dataKeys|
  {
    xAt(dataKeys[j]) + TimelineXPadding
  }

  function PointY(row: Row, dataKeys: seq<string>, j: nat, d: YDomain): real
    requires j < |dataKeys| && d.YDomain? && d.lo <= d.hi
  {
    YCoordinate(Cell(row, dataKeys[j]), d) + TimelineYPadding
  }

  /** The loop of `placeTimelineNodes` for one row: the segments form one
    * connected line from the first date column to the last. */
  method TimelineSegments(row: Row, dataKeys: seq<string>, d: YDomain, xAt: string -> real)
    returns (segs: seq<Segment>)
    requires d.YDomain? && d.lo <= d.hi
    ensures |segs| == SegmentCount(dataKeys)
    ensures forall t :: 0 <= t < |segs| ==>
      var j := TimelineKeyStartIndex + t;
      j + 1 < |dataKeys| &&
      segs[t] == Segment(PointX(dataKeys, j, xAt), PointY(row, dataKeys, j, d),
                         PointX(dataKeys, j + 1, xAt), PointY(row, dataKeys, j + 1, d))
    ensures forall t :: 0 <= t < |segs| - 1 ==> segs[t].x2 == segs[t + 1].x1 && segs[t].y2 == segs[t + 1].y1
  {
    segs := [];
    var i := TimelineKeyStartIndex;
    while i < |dataKeys| - 1
      invariant TimelineKeyStartIndex <= i
      invariant |segs| == i - TimelineKeyStartIndex
      invariant |segs| > 0 ==> i < |dataKeys|
      invariant forall t :: 0 <= t < |segs| ==>
        var j := TimelineKeyStartIndex + t;
        j + 1 < |dataKeys| &&
        segs[t] == Segment(PointX(dataKeys, j, xAt), PointY(row, dataKeys, j, d),
                           PointX(dataKeys, j + 1, xAt), PointY(row, dataKeys, j + 1, d))
    {
      var y1 := YCoordinate(Cell(row, dataKeys[i]), d);
      var y2 := YCoordinate(Cell(row, dataKeys[i + 1]), d);
      segs := segs + [Segment(xAt(dataKeys[i]) + TimelineXPadding, y1 + TimelineYPadding,
                              xAt(dataKeys[i + 1]) + TimelineXPadding, y2 + TimelineYPadding)];
      i := i + 1;
    }
  }

  /** Every segment of every row of a panel, drawn with the panel's own
    * domain, stays inside the panel's plot area. */
  lemma SegmentInsidePanel(data: seq<Row>, dataKeys: seq<string>, i: nat, j: nat)
    requires i < |data| && TimelineKeyStartIndex <= j < |dataKeys|
    ensures var d := DomainOf(TimelineValues(data, dataKeys));
      d.YDomain? &&
      TimelineYPadding <= PointY(data[i], dataKeys, j, d) <= TimelineYPadding + TimelineYBottom
  {
    DomainCoversTimeline(data, dataKeys, i, j);
  }

  // ---------------------------------------------------------------------
  // Panels
  // ---------------------------------------------------------------------

  datatype Header = AllData | CategoryHeader(category: Value)

  /** One timeline panel: its rows, header and line color. Its y-scale is
    * `GetTimelineYScale` of its rows. A click on it starts a chart chain
    * over its rows in its color. */
  datatype Panel = Panel(rows: seq<Row>, header: Header, color: string)

  /** Panel `k` of the panels grouped by column `key`: panel 0 shows every
    * row, panel k > 0 the rows of the (k-1)-th category; the k-th color of
    * the ten-color palette draws it. */
  function PanelFor(k: nat, data: seq<Row>, key: string,
                    categories: seq<Value>, colors: nat -> string): Panel
    requires k <= |categories|
  {
    var rows := if k == 0 then data else Group(data, key, categories[k - 1]);
    Panel(rows, if k == 0 then AllData else CategoryHeader(categories[k - 1]), colors(k % 10))
  }

  /** Every panel shows at least one row when there is data. */
  lemma PanelNonEmpty(k: nat, data: seq<Row>, key: string, colors: nat -> string)
    requires |data| > 0 && k <= |Distinct(Column(data, key))|
    ensures |PanelFor(k, data, key, Distinct(Column(data, key)), colors).rows| > 0
  {
    if k > 0 {
      var categories := Distinct(Column(data, key));
      DistinctBasics(Column(data, key));
      assert categories[k - 1] in categories;
      GroupOfCategory(data, key, categories[k - 1]);
    }
  }

  /** The panel loop of `createTimelines`: categories plus one panels. */
  method BuildPanels(data: seq<Row>, key: string, colors: nat -> string)
    returns (categories: seq<Value>, panels: seq<Panel>)
    ensures categories == Distinct(Column(data, key))
    ensures |panels| == |categories| + 1
    ensures forall k :: 0 <= k < |panels| ==> panels[k] == PanelFor(k, data, key, categories, colors)
  {
    var groups;
    categories, groups := GroupRows(data, key);
    panels := FillPanels(data, key, categories, groups, colors);
  }

  /** The loop itself: panel 0 over every row, then one panel per category
    * over that category's entry of `dataGroups`. */
  method FillPanels(data: seq<Row>, key: string, categories: seq<Value>, groups: map<Value, seq<Row>>,
                    colors: nat -> string)
    returns (panels: seq<Panel>)
    requires forall i :: 0 <= i < |categories| ==>
               categories[i] in groups && groups[categories[i]] == Group(data, key, categories[i])
    ensures |panels| == |categories| + 1
    ensures forall k :: 0 <= k < |panels| ==> panels[k] == PanelFor(k, data, key, categories, colors)
  {
    panels := [];
    var k := 0;
    while k < |categories| + 1
      invariant 0 <= k <= |categories| + 1
      invariant |panels| == k && forall m :: 0 <= m < k ==> panels[m] == PanelFor(m, data, key, categories, colors)
    {
      var rows := if k == 0 then data else groups[categories[k - 1]];
      var header := if k == 0 then AllData else CategoryHeader(categories[k - 1]);
      panels := panels + [Panel(rows, header, colors(k % 10))];
      k := k + 1;
    }
  }

  // ---------------------------------------------------------------------
  // Search
  // ---------------------------------------------------------------------

  /** The search outcome: the matching row and the panel of its category,
    * or the alert shown when no row has that name. */
  datatype SearchOutcome = Highlight(row: nat, panel: nat) | NotFound(alert: string)

  /** `searchForTimeline`: the first row whose name cell is the search term,
    * shown in the panel of its category; otherwise an alert, and the search
    * box is emptied. `input` is the search box's text afterwards. */
  method SearchForTimeline(data: seq<Row>, nameKey: string, clusterKey: string, target: string)
    returns (r: SearchOutcome, input: string)
    ensures r.NotFound? <==> forall i :: 0 <= i < |data| ==> Cell(data[i], nameKey) != Str(target)
    ensures r.Highlight? ==>
      && r.row < |data| && Cell(data[r.row], nameKey) == Str(target)
      && (forall i :: 0 <= i < r.row ==> Cell(data[i], nameKey) != Str(target))
      && r.panel == IndexOf(Distinct(Column(data, clusterKey)), Cell(data[r.row], clusterKey)) + 1
      && input == target
    ensures r.NotFound? ==> r.alert == "Could not find data with name '" + target + "'" && input == ""
  {
    var i := 0;
    while i < |data| && Cell(data[i], nameKey) != Str(target)
      invariant 0 <= i <= |data|
      invariant forall m :: 0 <= m < i ==> Cell(data[m], nameKey) != Str(target)
    {
      i := i + 1;
    }
    if i < |data| {
      var categories := GetCategories(data, clusterKey);
      var categoryIndex := IndexOf(categories, Cell(data[i], clusterKey));
      r, input := Highlight(i, categoryIndex + 1), target;
    } else {
      r, input := NotFound("Could not find data with name '" + target + "'"), "";
    }
  }

  /** The panel the search picks is the one whose header is the row's
    * category, and it shows that row. */
  lemma SearchPanelHoldsRow(data: seq<Row>, key: string, i: nat)
    requires i < |data|
    ensures var cats := Distinct(Column(data, key));
      var p := IndexOf(cats, Cell(data[i], key)) + 1;
      1 <= p <= |cats| && cats[p - 1] == Cell(data[i], key) && data[i] in Group(data, key, cats[p - 1])
  {
    DistinctBasics(Column(data, key));
    assert Column(data, key)[i] == Cell(data[i], key);
    GroupMembers(data, key, Cell(data[i], key));
  }

  // ---------------------------------------------------------------------
  // Autocomplete
  // ---------------------------------------------------------------------

  /** The default order of `Array.prototype.sort` on strings, taken as
    * lexicographic on characters (Unicode scalar values); JavaScript compares
    * UTF-16 code units, which order differently only outside the Basic
    * Multilingual Plane. */
  predicate Below(a: string, b: string)
  {
    |a| == 0 || (|b| > 0 && (a[0] < b[0] || (a[0] == b[0] && Below(a[1..], b[1..]))))
  }

  lemma {:induction false} BelowTotal(a: string, b: string)
    ensures Below(a, b) || Below(b, a)
  {
    if |a| > 0 && |b| > 0 && a[0] == b[0] {
      BelowTotal(a[1..], b[1..]);
    }
  }

  predicate Sorted(s: seq<string>)
  {
    forall i :: 0 <= i < |s| - 1 ==> Below(s[i], s[i + 1])
  }

  function Insert(x: string, s: seq<string>): (r: seq<string>)
    requires Sorted(s)
    ensures Sorted(r) && multiset(r) == multiset(s) + multiset{x}
    ensures |r| > 0 && (r[0] == x || (|s| > 0 && r[0] == s[0]))
  {
    if s == [] then [x]
    else if Below(x, s[0]) then [x] + s
    else
      BelowTotal(x, s[0]);
      assert s == [s[0]] + s[1..];
      [s[0]] + Insert(x, s[1..])
  }

  /** `dataNames.sort()`: the names in ascending order. */
  function SortNames(s: seq<string>): (r: seq<string>)
    ensures Sorted(r) && multiset(r) == multiset(s)
  {
    if s == [] then []
    else
      assert s == s[..|s| - 1] + [s[|s| - 1]];
      Insert(s[|s| - 1], SortNames(s[..|s| - 1]))
  }

  /** ASCII case folding, as a case-insensitive pattern compares letters. */
  function Fold(c: char): char
  {
    if 'A' <= c <= 'Z' then (c as int + 32) as char else c
  }

  function FoldAll(s: string): (r: string)
    ensures |r| == |s|
  {
    seq(|s|, i requires 0 <= i < |s| => Fold(s[i]))
  }

  predicate Contains(hay: string, needle: string)
  {
    exists i :: 0 <= i <= |hay| && needle <= hay[i..]
  }

  /** The jQuery UI filter: the term occurs in the name, ignoring case. */
  predicate Matches(name: string, term: string)
  {
    Contains(FoldAll(name), FoldAll(term))
  }

  /** The matching names, in list order. */
  function Filter(names: seq<string>, term: string): (r: seq<string>)
    ensures |r| <= |names|
    ensures forall x :: x in r <==> x in names && Matches(x, term)
  {
    if names == [] then []
    else
      var rest := Filter(names[1..], term);
      assert names == [names[0]] + names[1..];
      if Matches(names[0], term) then [names[0]] + rest else rest
  }

  const MaxSuggestions: nat := 10

  /** `results.slice(0, 10)`: the first ten matches; when there are no more
    * than ten, every matching name is offered. */
  function Suggestions(names: seq<string>, term: string): (r: seq<string>)
    ensures |r| <= MaxSuggestions && |r| <= |Filter(names, term)| && r == Filter(names, term)[..|r|]
    ensures |r| == MaxSuggestions || r == Filter(names, term)
    ensures forall x :: x in r ==> x in names && Matches(x, term)
    ensures |Filter(names, term)| <= MaxSuggestions ==>
              forall x :: x in names && Matches(x, term) ==> x in r
  {
    var f := Filter(names, term);
    if |f| <= MaxSuggestions then f
    else
      assert forall x :: x in f[..MaxSuggestions] ==> x in f;
      f[..MaxSuggestions]
  }

  /** `addTimelineSearchAutocomplete`: the name of every row, as text, sorted.
    * `text` stands for JavaScript's conversion of a cell to a string. */
  method AddTimelineSearchAutocomplete(data: seq<Row>, nameKey: string, text: Value -> string)
    returns (dataNames: seq<string>)
    ensures Sorted(dataNames)
    ensures multiset(dataNames) == multiset(seq(|data|, i requires 0 <= i < |data| => text(Cell(data[i], nameKey))))
  {
    var names: seq<string> := [];
    var i := 0;
    while i < |data|
      invariant 0 <= i <= |data| && |names| == i
      invariant forall m :: 0 <= m < i ==> names[m] == text(Cell(data[m], nameKey))
    {
      names := names + [text(Cell(data[i], nameKey))];
      i := i + 1;
    }
    assert names == seq(|data|, i requires 0 <= i < |data| => text(Cell(data[i], nameKey)));
    dataNames := SortNames(names);
  }

  // ---------------------------------------------------------------------
  // The panel column and its state
  // ---------------------------------------------------------------------

  /** The timelines of the left column: the category column they are grouped
    * by, its categories, the panels, and the chart chain a click starts. */
  class Timelines {
    const data: seq<Row>
    const dataKeys: seq<string>
    const colors: nat -> string
    const chain: Chain
    var categoryIndex: nat
    var categories: seq<Value>
    var panels: seq<Panel>

    predicate Valid()
      reads this
    {
      && |data| > 0 && categoryIndex < |dataKeys|
      && categories == Distinct(Column(data, dataKeys[categoryIndex]))
      && |panels| == |categories| + 1
      && (forall k :: 0 <= k < |panels| ==>
            panels[k] == PanelFor(k, data, dataKeys[categoryIndex], categories, colors))
    }

    /** `createTimelines(data, categoryKeyIndex, ...)`. */
    constructor (data: seq<Row>, dataKeys: seq<string>, categoryKeyIndex: nat,
                 colors: nat -> string, chain: Chain)
      requires |data| > 0 && categoryKeyIndex < |dataKeys|
      ensures Valid() && this.categoryIndex == categoryKeyIndex && this.chain == chain
      ensures this.data == data && this.dataKeys == dataKeys && this.colors == colors
    {
      this.data := data;
      this.dataKeys := dataKeys;
      this.colors := colors;
      this.chain := chain;
      categoryIndex := categoryKeyIndex;
      var cats, ps := BuildPanels(data, dataKeys[categoryKeyIndex], colors);
      categories := cats;
      panels := ps;
    }

    /** The category menu's click handler: a different column empties the
      * chart chain and regroups the panels by that column; choosing the
      * current column changes nothing. */
    method SelectCategory(selected: string)
      requires Valid() && selected in dataKeys
      modifies this, chain
      ensures Valid()
      ensures selected == old(dataKeys[categoryIndex]) ==>
        categoryIndex == old(categoryIndex) && categories == old(categories) && panels == old(panels)
        && chain.links == old(chain.links) && chain.svgCount == old(chain.svgCount)
      ensures selected != old(dataKeys[categoryIndex]) ==>
        categoryIndex == IndexOf(dataKeys, selected) && dataKeys[categoryIndex] == selected
        && chain.links == [] && chain.svgCount == 0 && chain.Valid()
    {
      if dataKeys[categoryIndex] != selected {
        chain.Clear();
        categoryIndex := IndexOf(dataKeys, selected);
        var cats, ps := BuildPanels(data, selected, colors);
        categories := cats;
        panels := ps;
      }
    }

    /** The search box over these panels: the panel it highlights shows the
      * found row under its category's header. */
    method Search(target: string) returns (r: SearchOutcome, input: string)
      requires Valid()
      ensures r.NotFound? <==> forall i :: 0 <= i < |data| ==> Cell(data[i], dataKeys[0]) != Str(target)
      ensures r.Highlight? ==>
        && r.row < |data| && Cell(data[r.row], dataKeys[0]) == Str(target)
        && r.panel < |panels| && data[r.row] in panels[r.panel].rows
        && panels[r.panel].header == CategoryHeader(Cell(data[r.row], dataKeys[categoryIndex]))
    {
      r, input := SearchForTimeline(data, dataKeys[0], dataKeys[categoryIndex], target);
      if r.Highlight? {
        var key := dataKeys[categoryIndex];
        SearchPanelHoldsRow(data, key, r.row);
        assert r.panel > 0 && panels[r.panel] == PanelFor(r.panel, data, key, categories, colors);
      }
    }

    /** `startSVGChain(timelineData, colors(k%10))`: a click on panel `k`
      * restarts the chart chain with that panel's rows, in its color. */
    method ClickPanel(k: nat, category10: nat -> string, category20: nat -> string)
      requires Valid() && k < |panels|
      requires |dataKeys| > (if chain.isTimeseries then TimelineKeyStartIndex + 1 else 2)
      modifies chain
      ensures chain.Valid() && chain.svgCount == 1
      ensures chain.links[0].data == panels[k].rows
      ensures chain.links[0].preferredColor == colors(k % 10)
    {
      PanelNonEmpty(k, data, dataKeys[categoryIndex], colors);
      chain.StartSvgChain(panels[k].rows, dataKeys, panels[k].color, category10, category20);
    }
  }
}
