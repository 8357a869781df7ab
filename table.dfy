/**
 * Cleaning of the parsed Hydrocron table (run_quickloo.py, lines 30-40): the
 * schema check, dropping `no_data` rows, numeric coercion and sentinel masking of
 * the three measurement columns, timestamp parsing, dropping rows without a time,
 * and the chronological sort.
 *
 * The CSV reader, the string-to-number conversion of `pd.to_numeric` and the
 * ISO 8601 parsing of `pd.to_datetime` are foreign code; they enter the model as
 * function parameters.
 */
module Table {
  import opened Wrappers

  /** A cell of a measurement column as `pd.read_csv` leaves it: missing, a number,
      or text it could not read as a number. */
  datatype Cell = NA | Num(value: real) | Text(text: string)

  /** The three measurement columns, in the order the cleaning loop visits them. */
  datatype Column = Wse | Width | Slope

  const MeasurementColumns: seq<Column> := [Wse, Width, Slope]

  function ColumnName(c: Column): string {
    match c
    case Wse => "wse"
    case Width => "width"
    case Slope => "slope"
  }

  /** One row of the DataFrame; `time` is the column that line 39 adds (and
      overwrites, should the response already carry one). */
  datatype Row = Row(reachId: string, timeStr: string, wse: Cell, width: Cell, slope: Cell, time: Option<int>)

  /** The errors `fetch_reach` raises once the text has been parsed: the explicit
      `KeyError` naming the columns present, and pandas' own `KeyError` when a
      measurement column is absent. */
  datatype CleanError = MissingTimeStr(columns: seq<string>) | MissingColumn(name: string)

  /** `pd.to_numeric` applied to one text cell. */
  type NumberParser = string -> Option<real>

  /** pandas' UTC timestamp parsing, with failures coerced to missing, applied to one `time_str`,
      giving an instant as an integer count of nanoseconds. */
  type TimeParser = string -> Option<int>

  const NoData: string := "no_data"

  /** Values at or below -1e11 are the upstream service's "no valid reading". */
  const Sentinel: real := -100000000000.0

  function Get(r: Row, c: Column): Cell {
    match c
    case Wse => r.wse
    case Width => r.width
    case Slope => r.slope
  }

  /** `r` with the cell of column `c` replaced by `v`, every other field kept. */
  function With(r: Row, c: Column, v: Cell): (r': Row)
    ensures Get(r', c) == v
    ensures forall d :: d != c ==> Get(r', d) == Get(r, d)
    ensures r'.reachId == r.reachId && r'.timeStr == r.timeStr && r'.time == r.time
  {
    match c
    case Wse => r.(wse := v)
    case Width => r.(width := v)
    case Slope => r.(slope := v)
  }

  // ---------------------------------------------------------------------------
  // Cell-level steps (lines 36 and 37)
  // ---------------------------------------------------------------------------

  predicate IsSentinel(c: Cell) {
    c.Num? && c.value <= Sentinel
  }

  /** Line 36, pandas' numeric coercion on one cell: numbers stay, text becomes
      a number when it reads as one and missing otherwise. */
  function ToNumeric(c: Cell, parseNum: NumberParser): (r: Cell)
    ensures !r.Text?
    ensures c.Num? || c.NA? ==> r == c
    ensures c.Text? ==> (r.Num? <==> parseNum(c.text).Some?)
    ensures c.Text? && r.Num? ==> r.value == parseNum(c.text).value
  {
    match c
    case Text(t) => (match parseNum(t) case Some(v) => Num(v) case None => NA)
    case _ => c
  }

  /** Line 37 on one cell: a number at or below the sentinel threshold becomes missing. */
  function MaskSentinel(c: Cell): (r: Cell)
    ensures !IsSentinel(r)
    ensures IsSentinel(c) ==> r == NA
    ensures !IsSentinel(c) ==> r == c
  {
    if IsSentinel(c) then NA else c
  }

  /** What both steps of one loop turn leave in a cell. */
  function ConvertCell(c: Cell, parseNum: NumberParser): Cell {
    MaskSentinel(ToNumeric(c, parseNum))
  }

  /** A cleaned measurement cell: missing, or a number above the sentinel threshold. */
  predicate CleanCell(c: Cell) {
    c.NA? || (c.Num? && c.value > Sentinel)
  }

  lemma ConvertCellIsClean(c: Cell, parseNum: NumberParser)
    ensures CleanCell(ConvertCell(c, parseNum))
    ensures c.Num? && c.value > Sentinel ==> ConvertCell(c, parseNum) == c
    ensures c.Text? && parseNum(c.text).None? ==> ConvertCell(c, parseNum) == NA
  {
  }

  // ---------------------------------------------------------------------------
  // The reference: what cleaning does to a single row
  // ---------------------------------------------------------------------------

  /** The row as it leaves the pipeline: each measurement converted and masked,
      `time` parsed from `time_str`, `reach_id` and `time_str` untouched. */
  function CleanRow(r: Row, parseNum: NumberParser, parseTime: TimeParser): Row {
    Row(r.reachId, r.timeStr, ConvertCell(r.wse, parseNum), ConvertCell(r.width, parseNum),
        ConvertCell(r.slope, parseNum), parseTime(r.timeStr))
  }

  /** Whether a row survives both filters (lines 33 and 40). */
  predicate Keep(r: Row, parseTime: TimeParser) {
    r.timeStr != NoData && parseTime(r.timeStr).Some?
  }

  /** What every cleaned row satisfies. */
  predicate WellCleaned(r: Row) {
    r.timeStr != NoData && r.time.Some?
    && CleanCell(r.wse) && CleanCell(r.width) && CleanCell(r.slope)
  }

  /** The rows that survive, cleaned one by one, in input order. */
  function Survivors(rows: seq<Row>, parseNum: NumberParser, parseTime: TimeParser): (r: seq<Row>)
    ensures |r| <= |rows|
    ensures forall k :: 0 <= k < |r| ==> WellCleaned(r[k])
  {
    if rows == [] then []
    else
      var x := rows[0];
      var rest := Survivors(rows[1..], parseNum, parseTime);
      ConvertCellIsClean(x.wse, parseNum);
      ConvertCellIsClean(x.width, parseNum);
      ConvertCellIsClean(x.slope, parseNum);
      if Keep(x, parseTime) then [CleanRow(x, parseNum, parseTime)] + rest else rest
  }

  /** The survivors are exactly the cleaned forms of the input rows that pass both
      filters: each such row appears, and nothing else does. */
  lemma {:induction false} SurvivorsAreKeptRows(rows: seq<Row>, parseNum: NumberParser, parseTime: TimeParser)
    ensures forall x :: x in rows && Keep(x, parseTime) ==> CleanRow(x, parseNum, parseTime) in Survivors(rows, parseNum, parseTime)
    ensures forall y :: y in Survivors(rows, parseNum, parseTime) ==>
              exists x :: x in rows && Keep(x, parseTime) && y == CleanRow(x, parseNum, parseTime)
  {
    if rows != [] {
      SurvivorsAreKeptRows(rows[1..], parseNum, parseTime);
      assert forall z :: z in rows <==> z == rows[0] || z in rows[1..];
    }
  }

  // ---------------------------------------------------------------------------
  // The DataFrame steps, column by column as the source performs them
  // ---------------------------------------------------------------------------

  /** Line 33: keep the rows whose `time_str` differs from `no_data`. */
  function DropNoData(rows: seq<Row>): (r: seq<Row>)
    ensures |r| <= |rows|
    ensures forall x :: x in r <==> x in rows && x.timeStr != NoData
    ensures forall x {:trigger multiset(r)[x]} :: multiset(r)[x] == if x.timeStr != NoData then multiset(rows)[x] else 0
  {
    if rows == [] then []
    else
      var rest := DropNoData(rows[1..]);
      assert rows == [rows[0]] + rows[1..];
      assert forall z :: z in rows <==> z == rows[0] || z in rows[1..];
      if rows[0].timeStr != NoData then [rows[0]] + rest else rest
  }

  /** Line 36: column `col` replaced by its numeric coercion. */
  function CoerceColumn(rows: seq<Row>, col: Column, parseNum: NumberParser): (r: seq<Row>)
    ensures |r| == |rows|
    ensures forall k :: 0 <= k < |r| ==> !Get(r[k], col).Text?
    ensures forall k :: 0 <= k < |r| ==> Get(r[k], col) == ToNumeric(Get(rows[k], col), parseNum)
    ensures forall k :: 0 <= k < |r| ==> r[k] == With(rows[k], col, Get(r[k], col))
  {
    seq(|rows|, k requires 0 <= k < |rows| => With(rows[k], col, ToNumeric(Get(rows[k], col), parseNum)))
  }

  /** Line 37: in column `col`, every number at or below -1e11 becomes missing. */
  function MaskColumn(rows: seq<Row>, col: Column): (r: seq<Row>)
    ensures |r| == |rows|
    ensures forall k :: 0 <= k < |r| ==> !IsSentinel(Get(r[k], col))
    ensures forall k :: 0 <= k < |r| ==> IsSentinel(Get(rows[k], col)) ==> Get(r[k], col) == NA
    ensures forall k :: 0 <= k < |r| ==> !IsSentinel(Get(rows[k], col)) ==> Get(r[k], col) == Get(rows[k], col)
    ensures forall k :: 0 <= k < |r| ==> r[k] == With(rows[k], col, Get(r[k], col))
  {
    seq(|rows|, k requires 0 <= k < |rows| => With(rows[k], col, MaskSentinel(Get(rows[k], col))))
  }

  /** Line 39: the `time` column set to the parsed `time_str` of each row. */
  function AttachTimes(rows: seq<Row>, parseTime: TimeParser): (r: seq<Row>)
    ensures |r| == |rows|
    ensures forall k :: 0 <= k < |r| ==> r[k].time == parseTime(rows[k].timeStr)
    ensures forall k :: 0 <= k < |r| ==> r[k].(time := rows[k].time) == rows[k]
  {
    seq(|rows|, k requires 0 <= k < |rows| => rows[k].(time := parseTime(rows[k].timeStr)))
  }

  /** Line 40: keep the rows that have a time. */
  function DropMissingTime(rows: seq<Row>): (r: seq<Row>)
    ensures |r| <= |rows|
    ensures forall x :: x in r <==> x in rows && x.time.Some?
    ensures forall x {:trigger multiset(r)[x]} :: multiset(r)[x] == if x.time.Some? then multiset(rows)[x] else 0
  {
    if rows == [] then []
    else
      var rest := DropMissingTime(rows[1..]);
      assert rows == [rows[0]] + rows[1..];
      assert forall z :: z in rows <==> z == rows[0] || z in rows[1..];
      if rows[0].time.Some? then [rows[0]] + rest else rest
  }

  /** The `no_data` filter works row by row, keeping the order: filtering a
      concatenation concatenates the filtered parts. */
  lemma {:induction false} DropNoDataAppend(a: seq<Row>, b: seq<Row>)
    ensures DropNoData(a + b) == DropNoData(a) + DropNoData(b)
  {
    if a != [] {
      assert a + b == [a[0]] + (a[1..] + b);
      assert (a + b)[0] == a[0] && (a + b)[1..] == a[1..] + b;
      DropNoDataAppend(a[1..], b);
    } else {
      assert a + b == b;
    }
  }

  /** The same for the filter on a missing time. */
  lemma {:induction false} DropMissingTimeAppend(a: seq<Row>, b: seq<Row>)
    ensures DropMissingTime(a + b) == DropMissingTime(a) + DropMissingTime(b)
  {
    if a != [] {
      assert a + b == [a[0]] + (a[1..] + b);
      assert (a + b)[0] == a[0] && (a + b)[1..] == a[1..] + b;
      DropMissingTimeAppend(a[1..], b);
    } else {
      assert a + b == b;
    }
  }

  // ---------------------------------------------------------------------------
  // Line 40: the sort by time
  // ---------------------------------------------------------------------------

  function TimeKey(r: Row): int {
    if r.time.Some? then r.time.value else 0
  }

  predicate SortedByTime(rows: seq<Row>) {
    forall i, j :: 0 <= i < j < |rows| ==> TimeKey(rows[i]) <= TimeKey(rows[j])
  }

  /** Puts `x` into the sorted `rows` before the first row with a later time. */
  function Insert(x: Row, rows: seq<Row>): (r: seq<Row>)
    requires SortedByTime(rows)
    ensures SortedByTime(r)
    ensures multiset(r) == multiset(rows) + multiset{x}
  {
    if rows == [] || TimeKey(x) <= TimeKey(rows[0]) then [x] + rows
    else
      var rest := Insert(x, rows[1..]);
      assert rows == [rows[0]] + rows[1..];
      forall z | z in rest
        ensures TimeKey(rows[0]) <= TimeKey(z)
      {
        assert z in multiset(rest);
        if z != x {
          assert z in multiset(rows[1..]);
          var j :| 0 <= j < |rows[1..]| && rows[1..][j] == z;
          assert rows[j + 1] == z;
        }
      }
      [rows[0]] + rest
  }

  /** An insertion sort standing in for pandas' sort: it orders by time and keeps
      every row, which is all the model relies on (pandas' default sort is not
      stable, so the order among equal times is left open). */
  function SortByTime(rows: seq<Row>): (r: seq<Row>)
    ensures SortedByTime(r)
    ensures multiset(r) == multiset(rows)
  {
    if rows == [] then []
    else
      assert rows == [rows[0]] + rows[1..];
      Insert(rows[0], SortByTime(rows[1..]))
  }

  // ---------------------------------------------------------------------------
  // Schema check
  // ---------------------------------------------------------------------------

  /** The index of the first column of `cols` absent from `header`, or `|cols|`
      when every one is present. */
  function FirstMissing(header: seq<string>, cols: seq<Column>): (k: nat)
    ensures k <= |cols|
    ensures forall j :: 0 <= j < k ==> ColumnName(cols[j]) in header
    ensures k < |cols| ==> ColumnName(cols[k]) !in header
  {
    if cols == [] || ColumnName(cols[0]) !in header then 0
    else 1 + FirstMissing(header, cols[1..])
  }

  // ---------------------------------------------------------------------------
  // The whole cleaning step
  // ---------------------------------------------------------------------------

  /** What `fetch_reach` promises about its result, given the parsed header and rows:
      the error it raises, or a table sorted by time that holds exactly the
      surviving rows, each cleaned. */
  ghost predicate CleaningOf(header: seq<string>, rows: seq<Row>, parseNum: NumberParser, parseTime: TimeParser,
                             res: Result<seq<Row>, CleanError>)
  {
    var m := FirstMissing(header, MeasurementColumns);
    && ("time_str" !in header ==> res == Failure(MissingTimeStr(header)))
    && ("time_str" in header && m < 3 ==> res == Failure(MissingColumn(ColumnName(MeasurementColumns[m]))))
    && (res.Success? <==> "time_str" in header && m == 3)
    && (res.Success? ==>
          SortedByTime(res.value)
          && multiset(res.value) == multiset(Survivors(rows, parseNum, parseTime)))
  }

  /** The first `i` measurement columns of `r` converted, the rest as read. */
  function ConvertedUpTo(r: Row, i: nat, parseNum: NumberParser): Row {
    Row(r.reachId, r.timeStr,
        if i > 0 then ConvertCell(r.wse, parseNum) else r.wse,
        if i > 1 then ConvertCell(r.width, parseNum) else r.width,
        if i > 2 then ConvertCell(r.slope, parseNum) else r.slope,
        r.time)
  }

  /** `CleanRow` applied to each row. */
  function CleanAll(rows: seq<Row>, parseNum: NumberParser, parseTime: TimeParser): (r: seq<Row>)
    ensures |r| == |rows|
    ensures forall k :: 0 <= k < |r| ==> r[k] == CleanRow(rows[k], parseNum, parseTime)
  {
    if rows == [] then [] else [CleanRow(rows[0], parseNum, parseTime)] + CleanAll(rows[1..], parseNum, parseTime)
  }

  /** The three turns of the column loop followed by the time parsing convert every
      row exactly as `CleanRow` does. */
  lemma ColumnStagesMatchCleanAll(rows: seq<Row>, parseNum: NumberParser, parseTime: TimeParser)
    ensures var w := MaskColumn(CoerceColumn(rows, Wse, parseNum), Wse);
      var wi := MaskColumn(CoerceColumn(w, Width, parseNum), Width);
      var ws := MaskColumn(CoerceColumn(wi, Slope, parseNum), Slope);
      AttachTimes(ws, parseTime) == CleanAll(rows, parseNum, parseTime)
  {
    var w := MaskColumn(CoerceColumn(rows, Wse, parseNum), Wse);
    var wi := MaskColumn(CoerceColumn(w, Width, parseNum), Width);
    var ws := MaskColumn(CoerceColumn(wi, Slope, parseNum), Slope);
    var r := AttachTimes(ws, parseTime);
    var c := CleanAll(rows, parseNum, parseTime);
    forall k | 0 <= k < |rows|
      ensures r[k] == c[k]
    {
      assert w[k] == ConvertedUpTo(rows[k], 1, parseNum);
      assert wi[k] == ConvertedUpTo(rows[k], 2, parseNum);
      assert ws[k] == ConvertedUpTo(rows[k], 3, parseNum);
    }
  }

  /** Dropping `no_data` rows, converting each row and then dropping rows without a
      time leaves exactly the survivors in their input order. */
  lemma {:induction false} StagesMatchSurvivors(rows: seq<Row>, parseNum: NumberParser, parseTime: TimeParser)
    ensures DropMissingTime(CleanAll(DropNoData(rows), parseNum, parseTime)) == Survivors(rows, parseNum, parseTime)
  {
    if rows != [] {
      var x, t := rows[0], rows[1..];
      StagesMatchSurvivors(t, parseNum, parseTime);
      if x.timeStr != NoData {
        var d := DropNoData(t);
        assert DropNoData(rows) == [x] + d;
        assert ([x] + d)[1..] == d;
        var c := CleanAll([x] + d, parseNum, parseTime);
        assert c[1..] == CleanAll(d, parseNum, parseTime);
      }
    }
  }

  /** Every row of a table that satisfies `CleaningOf` is well cleaned. */
  lemma CleanedRowsAreWellCleaned(header: seq<string>, rows: seq<Row>, parseNum: NumberParser, parseTime: TimeParser,
                                  out: seq<Row>)
    requires CleaningOf(header, rows, parseNum, parseTime, Success(out))
    ensures forall k :: 0 <= k < |out| ==> WellCleaned(out[k])
  {
    var s := Survivors(rows, parseNum, parseTime);
    forall k | 0 <= k < |out|
      ensures WellCleaned(out[k])
    {
      assert out[k] in multiset(out);
      assert out[k] in s;
    }
  }

  /** The cleaning of lines 30-40, on the header and rows the CSV reader produced. */
  method Clean(header: seq<string>, rows: seq<Row>, parseNum: NumberParser, parseTime: TimeParser)
    returns (res: Result<seq<Row>, CleanError>)
    ensures CleaningOf(header, rows, parseNum, parseTime, res)
    ensures res.Success? ==> forall k :: 0 <= k < |res.value| ==> WellCleaned(res.value[k])
  {
    if "time_str" !in header {
      return Failure(MissingTimeStr(header));
    }
    var kept := DropNoData(rows);
    var df := kept;
    var i := 0;
    while i < |MeasurementColumns|
      invariant 0 <= i <= |MeasurementColumns|
      invariant forall j :: 0 <= j < i ==> ColumnName(MeasurementColumns[j]) in header
      invariant |df| == |kept|
      invariant forall k :: 0 <= k < |df| ==> df[k] == ConvertedUpTo(kept[k], i, parseNum)
    {
      var col := MeasurementColumns[i];
      if ColumnName(col) !in header {
        assert FirstMissing(header, MeasurementColumns) == i;
        return Failure(MissingColumn(ColumnName(col)));
      }
      df := CoerceColumn(df, col, parseNum);
      df := MaskColumn(df, col);
      i := i + 1;
    }
    df := AttachTimes(df, parseTime);
    assert df == CleanAll(kept, parseNum, parseTime);
    StagesMatchSurvivors(rows, parseNum, parseTime);
    df := DropMissingTime(df);
    df := SortByTime(df);
    res := Success(df);
    CleanedRowsAreWellCleaned(header, rows, parseNum, parseTime, df);
  }
}
