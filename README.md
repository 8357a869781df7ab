# SWOT reach quick-look: the cleaning core of `fetch_reach`

This project models in Dafny what `fetch_reach` in `run_quickloo.py` does with
the Hydrocron response once it has arrived:

- **Payload unwrapping** (module `Payload`, `payload.dfy`). Hydrocron sometimes
  sends the CSV wrapped in one layer of double quotes, with every newline written
  as backslash-`n`. The text is trimmed as Python's `str.strip()` trims it. Then
  one character is removed from each end if the text both starts and ends with
  `"`. Then every backslash-`n` pair becomes a newline, matched left to right
  without overlap, as `str.replace` does.
- **Table cleaning** (module `Table`, `table.dfy`). First the schema check on
  `time_str`. Then rows whose `time_str` is `no_data` are dropped. Then a loop
  over `wse`, `width` and `slope` coerces each column to numbers and masks the
  sentinel values at or below -1e11. Then `time` is parsed from `time_str`.
  Rows without a time are dropped and the rest are sorted by time.
  `Table.Clean` is a method with that loop. Each DataFrame step is a function on
  `seq<Row>`. The method is proved against `CleaningOf`: the error it raises, or
  a table sorted by time that is a permutation of `Survivors`.
- **The composition** (module `Fetch`, `fetch.dfy`). `FetchReach` unwraps the
  text, hands it to the CSV reader and cleans the result.

A measurement cell is `Cell = NA | Num(value) | Text(text)`. These are the three
things `pd.read_csv` can leave in a measurement column: a missing value, a
number, or any cell it left as a string. When a column holds any non-numeric
text, `read_csv` leaves every cell of it as a string, numeric-looking ones
included; `NumberParser` then reads those. After cleaning, every cell is `NA`
or a `Num` above the sentinel, which is an `Option<real>`. `time` is an
`Option<int>` counting nanoseconds. Values are mathematical `real`s, so the
threshold -1e11 is exact.

The CSV reader (`pd.read_csv`), the reading of text as a number inside
`pd.to_numeric`, and the ISO 8601 parsing inside `pd.to_datetime` are foreign
code. They are function parameters: `CsvReader`, `NumberParser` and `TimeParser`.

Three facts about the code shape the contracts:

- The sort at line 40 allows equal times, so `SortedByTime` is non-decreasing.
- Masking at line 37 blanks the sentinel cell and keeps its row. Five rows with
  one `no_data` row and one sentinel row therefore leave four rows
  (`Fetch.FiveRowExample`).
- A missing `wse`, `width` or `slope` column raises pandas' own `KeyError` at
  line 36. The model reports it as `CleanError.MissingColumn`, for the first
  missing column in loop order.

## Model

| member | source | states |
|---|---|---|
| `Payload.LeadingSpaces` | run_quickloo.py:23 | the count of leading characters removed is exactly the leading whitespace: all of them are whitespace and the next character (if any) is not |
| `Payload.TrailingSpaces` | run_quickloo.py:23 | the same for the end of the text |
| `Payload.LeadingSpacesIs` | run_quickloo.py:23 | a whitespace run followed by another character is exactly the count of leading whitespace |
| `Payload.TrailingSpacesIs` | run_quickloo.py:23 | a whitespace run preceded by another character is exactly the count of trailing whitespace |
| `Payload.Strip` | run_quickloo.py:23 | `strip()` returns a slice `s[i..j]` whose outside is all whitespace and which neither starts nor ends with whitespace |
| `Payload.Unquote` | run_quickloo.py:25-26 | when the text starts and ends with `"`, exactly one character goes from each end (the input is `"` + result + `"`, and a lone `"` gives the empty text); otherwise the text is unchanged |
| `Payload.Unescape` | run_quickloo.py:27 | the result holds no backslash immediately followed by `n`, and is no longer than the input |
| `Payload.UnescapeLeavesPlainText` | run_quickloo.py:27 | text with no backslash-`n` pair passes through the replacement unchanged |
| `Payload.UnescapeEscape` | run_quickloo.py:24-27 | the replacement undoes the upstream escaping of newlines for text that has no backslash |
| `Payload.UnwrapWrap` | run_quickloo.py:23-27 | round trip: for CSV text `c` with no backslash, quoting `c` with its newlines escaped, surrounding it with any whitespace, and then unwrapping gives back exactly `c` |
| `Payload.StripTrimmed` | run_quickloo.py:23 | text that neither starts nor ends with whitespace is not changed by the trim |
| `Payload.StripPadded` | run_quickloo.py:23 | any whitespace around text whose ends are not whitespace is exactly what the trim removes |
| `Payload.UnwrapPlain` | run_quickloo.py:23-27 | a response that is already plain, unquoted CSV passes through the unwrapping unchanged |
| `Table.ToNumeric` | run_quickloo.py:36 | after `to_numeric(errors="coerce")` no cell is text; numbers and missing cells are kept; a text cell becomes a number exactly when it reads as one, and missing otherwise |
| `Table.MaskSentinel` | run_quickloo.py:37 | no masked cell is a number at or below -1e11; such a number becomes missing; every other cell is unchanged |
| `Table.ConvertCellIsClean` | run_quickloo.py:35-37 | after one loop turn a cell is missing or a number above -1e11; a number above the threshold is unchanged; non-numeric text becomes missing |
| `Table.DropNoData` | run_quickloo.py:33 | a row is in the result exactly when it is in the input and its `time_str` is not `no_data`; each such row keeps its number of copies, and every other row has none |
| `Table.DropNoDataAppend` | run_quickloo.py:33 | the `no_data` filter keeps the order: filtering a concatenation concatenates the filtered parts |
| `Table.CoerceColumn` | run_quickloo.py:36 | same length; each cell of the converted column is `ToNumeric` of the old cell, so none is text; every other field of every row is unchanged |
| `Table.MaskColumn` | run_quickloo.py:37 | same length; a sentinel cell of the column becomes missing, every other cell of the column keeps its value, so none is a sentinel; every other field of every row is unchanged |
| `Table.AttachTimes` | run_quickloo.py:39 | same length; each row's `time` is the parse of its own `time_str`, and nothing else changes |
| `Table.ColumnStagesMatchCleanAll` | run_quickloo.py:35-39 | the three coerce-and-mask passes of the column loop, then the time parsing, convert every row exactly as the row-by-row `CleanRow` does |
| `Table.DropMissingTime` | run_quickloo.py:40 | a row is in the result exactly when it is in the input and has a time; each such row keeps its number of copies, and every other row has none |
| `Table.DropMissingTimeAppend` | run_quickloo.py:40 | the time filter keeps the order: filtering a concatenation concatenates the filtered parts |
| `Table.Insert` | run_quickloo.py:40 | inserting into a time-sorted table keeps it sorted and adds exactly that row |
| `Table.SortByTime` | run_quickloo.py:40 | the result is sorted by time (non-decreasing) and is a permutation of the input |
| `Table.FirstMissing` | run_quickloo.py:35-36 | the index of the first of `wse`, `width`, `slope` absent from the header: every earlier one is present and that one is not |
| `Table.Survivors` | run_quickloo.py:33-40 | every surviving row is well cleaned: `time_str` is not `no_data`, `time` is present, and no measurement is text or a sentinel |
| `Table.SurvivorsAreKeptRows` | run_quickloo.py:33-40 | the survivors are exactly the cleaned forms of the input rows that pass both filters, with `reach_id` and `time_str` as read |
| `Table.StagesMatchSurvivors` | run_quickloo.py:33-40 | dropping `no_data` rows, converting every row as `CleanRow` does, and dropping rows without a time gives exactly the row-by-row reference `Survivors`, in input order |
| `Table.CleanedRowsAreWellCleaned` | run_quickloo.py:33-40 | every row of any table that `CleaningOf` admits is well cleaned |
| `Table.Clean` | run_quickloo.py:30-40 | fails with the header's columns when `time_str` is missing; else fails naming the first missing measurement column; else returns a table sorted by time that is a permutation of `Survivors` and whose rows are all well cleaned |
| `Fetch.FetchReach` | run_quickloo.py:23-41 | the same result as `Clean` on what the CSV reader makes of the unwrapped response |
| `Fetch.FiveRowExample` | run_quickloo.py:33-37 | on five rows with one `no_data` row, one sentinel width and one text slope, four rows survive; the sentinel width and the text slope become missing |

## Left out

- The HTTP GET, `raise_for_status` and the 60-second timeout (lines 20-21): network I/O. `FetchReach` starts from the response text. The HTTP error path is not modelled.
- The decoding of the response bytes into `r.text`: the model starts from characters.
- CSV tokenising and type inference by `pd.read_csv` (line 29): foreign code, taken as the `CsvReader` parameter. Its renaming of duplicate column names is not modelled.
- `Fetch.FetchReach`: the `CsvReader` parameter is total, so the reader's own failures are not modelled. An empty text after trimming raises `EmptyDataError` at line 29, and malformed text raises `ParserError`. For such input the model returns whatever the reader's `Frame` implies, for example `MissingTimeStr([])`.
- A `Row` carries only the six named columns. Any other column in the response is kept by the source's DataFrame, but it does not appear in the model.
- How `pd.to_numeric` reads text as a number, and how `pd.to_datetime` parses ISO 8601 (lines 36 and 39): foreign code, taken as the `NumberParser` and `TimeParser` parameters.
- `Table.AttachTimes`: parses each `time_str` on its own. pandas 2 infers one format from the column, so a value's parse can depend on the other rows. That is not modelled.
- `Table.SortByTime`: an insertion sort stands in for pandas' default sort, which is not stable. `Clean` and `FetchReach` promise only "sorted by time and a permutation", so the order among equal times is left open.
- `reset_index(drop=True)` (line 40): a sequence is indexed densely from zero already, so there is nothing to model.
- The text of the `KeyError` messages: `CleanError` carries the header's columns, or the missing column's name, rather than the formatted string.
- IEEE floating point and NaN/NaT: values are exact `real`s and integers, and missing values are explicit.
- `plot_series` (lines 43-64): a time-window rolling median, matplotlib rendering and file output. It also reads a global set only under `__main__`.
- The command line, directory creation, CSV export and printing (lines 66-87): I/O wiring.
