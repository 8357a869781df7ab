/**
 * `fetch_reach` after the HTTP response has arrived (run_quickloo.py, lines 23-41):
 * unwrap the response text, hand it to the CSV reader, and clean the table.
 */
module Fetch {
  import opened Wrappers
  import Payload
  import Table

  /** The header and rows `pd.read_csv` produces from the unwrapped text. */
  datatype Frame = Frame(header: seq<string>, rows: seq<Table.Row>)

  /** The pandas CSV reader of line 29, foreign code, taken as a parameter. */
  type CsvReader = string -> Frame

  /** Lines 23-41 of `fetch_reach`, given the response text `body`. */
  method FetchReach(body: string, readCsv: CsvReader, parseNum: Table.NumberParser, parseTime: Table.TimeParser)
    returns (res: Result<seq<Table.Row>, Table.CleanError>)
    ensures var f := readCsv(Payload.Unwrap(body));
      Table.CleaningOf(f.header, f.rows, parseNum, parseTime, res)
    ensures res.Success? ==> forall k :: 0 <= k < |res.value| ==> Table.WellCleaned(res.value[k])
  {
    var txt := Payload.Strip(body);
    txt := Payload.Unquote(txt);
    txt := Payload.Unescape(txt);
    var frame := readCsv(txt);
    res := Table.Clean(frame.header, frame.rows, parseNum, parseTime);
  }

  /** The timestamps of the example below, as instants. */
  function ExampleTime(s: string): Option<int> {
    if s == "t1" then Some(30) else if s == "t2" then Some(10)
    else if s == "t3" then Some(20) else if s == "t4" then Some(40) else None
  }

  /** A number reader that reads no text as a number. */
  function NoNumbers(s: string): Option<real> {
    None
  }

  /** Five rows: one `no_data` row, one whose width is the sentinel, one whose
      slope is text, and two plain rows. */
  function ExampleRows(): seq<Table.Row> {
    [ Table.Row("r", "t1", Table.Num(1.0), Table.Num(2.0), Table.Num(0.5), None),
      Table.Row("r", Table.NoData, Table.Num(1.0), Table.Num(2.0), Table.Num(0.5), None),
      Table.Row("r", "t2", Table.Num(1.0), Table.Num(Table.Sentinel), Table.Num(0.5), None),
      Table.Row("r", "t3", Table.Num(1.0), Table.Num(2.0), Table.Text("x"), None),
      Table.Row("r", "t4", Table.Num(3.0), Table.Num(2.0), Table.Num(0.5), None) ]
  }

  /** The last three example rows all survive: the sentinel width and the text
      slope become missing. */
  lemma ExampleLastThree()
    ensures var s := Table.Survivors(ExampleRows()[2..], NoNumbers, ExampleTime);
      |s| == 3
      && s[0] == Table.Row("r", "t2", Table.Num(1.0), Table.NA, Table.Num(0.5), Some(10))
      && s[1].slope == Table.NA
  {
    var rows := ExampleRows();
    assert rows[4..][1..] == [];
    assert |Table.Survivors(rows[4..], NoNumbers, ExampleTime)| == 1;
    assert rows[3..][1..] == rows[4..];
    assert Table.Survivors(rows[3..], NoNumbers, ExampleTime)
      == [Table.CleanRow(rows[3], NoNumbers, ExampleTime)] + Table.Survivors(rows[4..], NoNumbers, ExampleTime);
    assert rows[2..][1..] == rows[3..];
    assert Table.Survivors(rows[2..], NoNumbers, ExampleTime)
      == [Table.CleanRow(rows[2], NoNumbers, ExampleTime)] + Table.Survivors(rows[3..], NoNumbers, ExampleTime);
  }

  /** On the five example rows only the `no_data` row is dropped: masking keeps the
      sentinel row, with its width missing, and the text slope becomes missing. */
  lemma FiveRowExample()
    ensures var s := Table.Survivors(ExampleRows(), NoNumbers, ExampleTime);
      |s| == 4
      && s[1] == Table.Row("r", "t2", Table.Num(1.0), Table.NA, Table.Num(0.5), Some(10))
      && s[2].slope == Table.NA
  {
    var rows := ExampleRows();
    ExampleLastThree();
    var tail := Table.Survivors(rows[2..], NoNumbers, ExampleTime);
    assert rows[1..][1..] == rows[2..];
    assert Table.Survivors(rows[1..], NoNumbers, ExampleTime) == tail;
    assert Table.Survivors(rows, NoNumbers, ExampleTime) == [Table.CleanRow(rows[0], NoNumbers, ExampleTime)] + tail;
  }
}
