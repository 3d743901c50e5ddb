// Shared vocabulary of the explorer: cell values, data rows, the chart types,
// the selector kinds and the global configuration constants.

module Base {

  datatype Option<T> = None | Some(value: T)

  /** A cell of a parsed CSV row. `Num` is a value JavaScript's `isNaN` accepts
    * as a number, `Str` any other text and `Absent` the `undefined` read from
    * a row that lacks the key (for example the key "--None--"). */
  datatype Value = Num(n: real) | Str(s: string) | Absent

  /** `!isNaN(v)` of the source. */
  predicate IsNumeric(v: Value) { v.Num? }

  /** The numeric reading of a numeric cell; non-numeric cells read as 0,
    * which is the reading the time-series scale uses for them. */
  function NumericValue(v: Value): (r: real)
    ensures IsNumeric(v) ==> r == v.n
    ensures !IsNumeric(v) ==> r == 0.0
  {
    if v.Num? then v.n else 0.0
  }

  /** A data row: column name to cell. */
  type Row = map<string, Value>

  /** `row[key]`, which is `undefined` when the row has no such column. */
  function Cell(row: Row, key: string): (v: Value)
    ensures key in row ==> v == row[key]
    ensures key !in row ==> v == Absent
  {
    if key in row then row[key] else Absent
  }

  /** The column `key` of `data`, row by row. */
  function Column(data: seq<Row>, key: string): (col: seq<Value>)
    ensures |col| == |data|
    ensures forall i :: 0 <= i < |data| ==> col[i] == Cell(data[i], key)
  {
    if data == [] then [] else [Cell(data[0], key)] + Column(data[1..], key)
  }

  // Configuration constants (js/initialize.js).
  const Width: int := 650
  const Height: int := 650
  const SvgPadding: int := 5
  const ChartPadding: int := 40
  const MaxLabelLength: nat := 7
  const NumHeatSquares: nat := 400
  const TimelineKeyStartIndex: nat := 4
  const NoSelection: string := "--None--"
  const Shapes: seq<string> :=
    ["circle", "cross", "diamond", "square", "triangle-down", "triangle-up"]

  /** Members of `GRAPH_TYPES`. */
  datatype GraphType = Scatterplot | Heatmap | Barchart | BarchartOverview | Timeline

  /** The chart types that have color (and, for scatterplots, size and
    * shape) encoders. */
  predicate HasEncoders(graph: GraphType)
  {
    graph == Scatterplot || graph == Barchart
  }

  /** Members of `KEY_TYPES`: the five attribute selectors of a chart. */
  datatype KeyType = XKey | YKey | ColorKey | SizeKey | ShapeKey

  /** The chart types offered once the page layout is set up. */
  function GraphTypes(isTimeseries: bool): (r: seq<GraphType>)
    ensures |r| == if isTimeseries then 5 else 3
    ensures r[..3] == [Scatterplot, Heatmap, Barchart]
    ensures BarchartOverview in r <==> isTimeseries
    ensures Timeline in r <==> isTimeseries
  {
    if isTimeseries then [Scatterplot, Heatmap, Barchart, BarchartOverview, Timeline]
    else [Scatterplot, Heatmap, Barchart]
  }

  /** The chart type a fresh chain starts with, in both layouts. */
  function DefaultGraph(isTimeseries: bool): (g: GraphType)
    ensures g in GraphTypes(isTimeseries)
    ensures g == GraphTypes(isTimeseries)[0]
  {
    Scatterplot
  }

  predicate EndsWith(s: string, suffix: string)
  {
    |suffix| <= |s| && s[|s| - |suffix|..] == suffix
  }

  /** What choosing a file leads to. */
  datatype FileOutcome =
    | NothingChosen                 // no file: the handler returns
    | NotCsv(name: string)          // the user is alerted
    | Loaded(isTimeseries: bool, graphTypes: seq<GraphType>, defaultGraph: GraphType,
             timelinesFirst: bool)  // parsed; timelines or a first chart follow

  /** The file chooser's handler. `answeredYes` is the answer to the
    * time-series question asked once a CSV file has been read. */
  function ChooseFile(file: Option<string>, answeredYes: bool): (r: FileOutcome)
    ensures r.NothingChosen? <==> file.None?
    ensures r.Loaded? <==> file.Some? && EndsWith(file.value, ".csv")
    ensures r.NotCsv? ==> r.name == file.value
    ensures r.Loaded? ==>
              && r.isTimeseries == answeredYes && r.timelinesFirst == answeredYes
              && r.graphTypes == GraphTypes(answeredYes) && r.defaultGraph == Scatterplot
  {
    match file
    case None => NothingChosen
    case Some(name) =>
      if EndsWith(name, ".csv") then
        Loaded(answeredYes, GraphTypes(answeredYes), DefaultGraph(answeredYes), answeredYes)
      else NotCsv(name)
  }

  /** Any name with the ".csv" extension is accepted, and an accepted name is
    * some stem followed by ".csv". */
  lemma CsvAccepted(stem: string, answeredYes: bool)
    ensures ChooseFile(Some(stem + ".csv"), answeredYes).Loaded?
    ensures forall name :: ChooseFile(Some(name), answeredYes).Loaded? ==>
      name == name[..|name| - 4] + ".csv"
  {
    var name := stem + ".csv";
    assert name[|name| - 4..] == ".csv";
  }

  /** The shape list has six distinct entries, the first being the default
    * node shape "circle". */
  lemma ShapesDistinct()
    ensures |Shapes| == 6 && Shapes[0] == "circle"
    ensures forall i, j :: 0 <= i < j < |Shapes| ==> Shapes[i] != Shapes[j]
  {
  }
}
