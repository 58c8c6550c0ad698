# csv-merger: delimiter detection and batch conversion

This project models the non-UI core of a small tool that merges uploaded CSV
files into one Excel workbook, one sheet per file. The tool has two parts.

- **Delimiter detection** (`enhanced_detect_delimiter`). It reads a window of
  `num_lines` lines (default 5) from the upload and rewinds the stream to its
  start. It then scores each of five candidate delimiters (`,` tab `;` `|`
  space) over the window. If the best score is below `num_lines` it falls
  back to comma. Otherwise it returns the first candidate, in list order,
  that holds the best score.
- **Batch conversion** (`streamlit_csv_combiner`). It walks the uploads in
  order. The file at zero-based position `i` gets the identifier
  `sheet_<i+1>`. Each file's delimiter is detected and the file is read with
  pandas. A non-empty table is written as a sheet named by the identifier,
  and the identifier goes to the success list. An empty table, or pandas'
  "empty data" error, puts the identifier on the failure list and writes
  nothing. Any other exception is not caught and ends the whole call.

The Dafny project has three modules:

- `Decimal` (decimal.dfy) renders a natural number the way Python's `str()`
  does, and reads it back.
- `Detection` (detection.dfy) holds the stream, the sample window, the score
  sums, Python's `max` and `max(..., key=...)` scans, and the choice. The
  per-line score is a parameter of type `(string, char) -> nat`.
- `Batch` (batch.dfy) holds the sheet identifiers, the per-file outcome, the
  loop (`Combine`), and a reference description of the two lists, with the
  lemmas that connect the two.

Abstractions:

- A stream is a sequence of lines, each keeping its terminator, plus the
  index of the next line. Past the end, `readline` returns the empty string
  and does not move.
- `csv.reader` is not re-implemented. The program's score for a line is the
  number of records `csv.reader` yields for a one-element list holding that
  line. `Detection.OneRecordPerLine` states, as an explicit assumption, that
  this number is always 1.
- `pd.read_csv` is an oracle `CsvReader` from (file lines, delimiter) to an
  outcome. The outcome is a parsed frame (columns, rows), `EmptyDataError`,
  or some other error. `Frame.IsEmpty` is pandas' `DataFrame.empty`: either
  axis has length zero, so a header-only CSV gives an empty frame.
- The workbook writer is the sequence of sheets appended so far.
- `Combine` takes the per-file step as a function `FileReader`. The program's
  step is `ProgramReader(lineScore, readCsv)`: detection on the stream,
  then the reader on the rewound stream.
- An exception escaping the loop is the result `Raised(at, kind, sheets)`.
  Here `sheets` is what the writer held when the exception left the loop.

Points where the code's own comments and its behaviour part ways:

- The comment at main.py:15 says the occurrences of each delimiter are
  counted. Line 18 counts the records `csv.reader` yields instead. See
  Findings below.
- The comment at main.py:21 describes a threshold for a delimiter that is
  seen too rarely. Under record counting every candidate scores
  `num_lines`, so the threshold never fires and comma wins the tie-break
  (`RecordCountingDetectsComma`).
- Detection ends with `file.seek(0)` (main.py:13), which moves the stream
  to its start, not back to where the caller left it. The two agree only
  for a stream read from its start. `SampleWindow` and `Detect` end at
  position 0.
- Only `pd.errors.EmptyDataError` is caught (main.py:53). Any other reader
  error ends the call (`Raised`).

## Model

| member | source | states |
|---|---|---|
| Decimal.NatToString | main.py:45 | the identifier's number is a canonical decimal numeral: non-empty, digits only, no leading zero, one digit exactly when the number is below 10 |
| Decimal.StringToNatOfNatToString | main.py:45 | reading a rendered number back gives the number (round trip) |
| Decimal.NatToStringOfStringToNat | main.py:45 | rendering the value of any canonical numeral gives that numeral back (the other round trip) |
| Decimal.NatToStringInjective | main.py:45 | two numbers render the same exactly when they are equal |
| Detection.ReadLines | main.py:12 | `count` readline calls return exactly `count` entries, entry k being the line at position pos+k or the empty string past the end; the content is untouched and the position stops at the end of the stream |
| Detection.SampleWindow | main.py:12-13 | the window has one entry per iteration of `range(num_lines)`, lines past the end present as empty strings, and the stream ends at position 0 with the same lines |
| Detection.Score | main.py:18 | a candidate's score over the window is at least the score of each line of it |
| Detection.ScoreZeroIff | main.py:18 | a candidate scores zero over the window exactly when it scores zero on every line |
| Detection.Tally | main.py:16-19 | the loop over the delimiters records one score per delimiter, in loop order, each being that delimiter's sum over the window |
| Detection.Counts | main.py:16-19 | `delimiter_counts` holds one score per candidate, the score of the candidate at position i at position i |
| Detection.ScoreOfConstant | main.py:18 | a candidate whose per-line score is the same value c on every window line scores c times the window size |
| Detection.MaxOf | main.py:22 | `max` of the scores bounds every score and is one of them |
| Detection.ArgMaxOf | main.py:26 | `max(dict, key=dict.get)` returns the first position holding the maximal score: nothing scores higher, nothing earlier scores as high |
| Detection.Choose | main.py:21-26 | the choice is always one of the five candidates; below the threshold it is comma; otherwise it is the candidate at the first position of the maximal score |
| Detection.Detect | main.py:7-26 | detection returns one of the five candidates and leaves the stream at position 0 with its lines unchanged |
| Detection.CandidatesDistinct | main.py:9 | the five candidates are pairwise different, so a candidate determines its position in the list |
| Detection.FirstMaximumUnique | main.py:26 | at most one position is the first maximum, so the tie-break is deterministic |
| Detection.DetectIsDetection | main.py:16-26 | for every stream and score, a delimiter satisfies the reference description (comma if no candidate reaches the threshold, else the candidate at the first maximal position) exactly when it is what detection returns |
| Detection.ChooseCommaIff | main.py:22-26 | comma is chosen exactly when the best score is below the threshold or comma itself holds the best score |
| Detection.EqualCountsChooseComma | main.py:22-26 | when all five candidates score the same, comma is chosen, whatever the threshold |
| Detection.RecordCountingDetectsComma | main.py:18-26 | under the one-record-per-line assumption, detection returns comma for every stream and every `num_lines` |
| Detection.ExhaustedStreamDetectsComma | main.py:12-26 | on a stream with nothing left to read, detection returns comma whenever an empty line scores the same for every candidate |
| Detection.FieldCountingDetectsSoleDelimiter | main.py:15-26 | with a per-line field count as the score, a candidate that splits every sampled line into at least two fields while every other candidate splits none is detected |
| Detection.SemicolonWindowScore | main.py:12-18 | on the window sampled from "a;b;c\n1;2;3\n", each candidate scores what the two lines score, the three empty entries adding nothing |
| Detection.SemicolonFileDetection | main.py:18-26 | on "a;b;c\n1;2;3\n", record counting detects comma while field counting detects semicolon |
| Batch.SheetName | main.py:45-54 | the identifier is `sheet_` followed by the canonical decimal numeral of i+1, and it reads back as position i |
| Batch.SheetNameInjective | main.py:45-54 | identifiers of two positions are equal exactly when the positions are equal, whether the files succeed or fail |
| Batch.SheetNameExamples | main.py:45 | the first file is `sheet_1` and the tenth is `sheet_10` |
| Batch.Classify | main.py:41-55 | a file is written exactly when it parses to a non-empty frame, skipped exactly when it parses to an empty frame or raises `EmptyDataError`, and aborts the loop exactly when it raises anything else |
| Batch.ReadFile | main.py:13-41 | the reader is handed the whole file, from its first line, with the detected delimiter, wherever the stream stood before detection |
| Batch.ProgramReader | main.py:37-41 | the program's per-file step hands every file to the reader whole, from its first line, with one of the five candidate delimiters (which one is what `Batch.ReadFile` states) |
| Batch.ReadFileUsesComma | main.py:18-41 | under the one-record-per-line assumption, every file is read whole with comma as the delimiter |
| Batch.PositionsSound | main.py:41-55 | every position on a reference list is a file of the batch whose outcome has that list's status |
| Batch.PositionsComplete | main.py:41-55 | a position is on a reference list exactly when its outcome has that list's status |
| Batch.PositionsIncreasing | main.py:35-55 | the positions on a reference list ascend strictly, that is, in upload order |
| Batch.PositionsCount | main.py:35-55 | when no outcome escapes, the success and failure lists together are exactly as long as the batch |
| Batch.NameInNamesIff | main.py:45-54 | an identifier is on a list of identifiers exactly when its position is on the matching list of positions |
| Batch.NamesAscending | main.py:35-54 | identifiers built from ascending positions carry ascending file numbers and hold no identifier twice |
| Batch.ListedIff | main.py:41-55 | each file's identifier is on a list exactly when its outcome has that list's status, so it is a success exactly when its frame is non-empty and a failure exactly when its frame is empty or it raised `EmptyDataError` |
| Batch.ListedNamesAreFiles | main.py:45-54 | every identifier on a list is the identifier of a file of the batch with that list's status |
| Batch.ReportPartitions | main.py:35-57 | when nothing escapes, the two lists partition `sheet_1 .. sheet_N`: lengths sum to N, no identifier on both, nothing else on either |
| Batch.TwoFileScenario | main.py:35-57 | a two-row CSV followed by an empty file gives successes ["sheet_1"] and failures ["sheet_2"] |
| Batch.PositionsStep | main.py:44-55 | one more file extends exactly one list, the one its outcome selects, by its own identifier, and writes a sheet only for a non-empty frame |
| Batch.Combine | main.py:35-57 | the loop over the files completes exactly when no file raises an error other than `EmptyDataError`; then the success and failure lists are the reference lists in upload order, partition the identifiers, and the sheets written are exactly the successes with their non-empty frames; otherwise it stops at the first such file, with the sheets of the earlier successes written |

## Left out

- The Streamlit interface (main.py:59-91): title, uploader, button, messages and download. It is presentation around the core.
- The internals of `pd.read_csv` (main.py:41): tokenising, type inference, `low_memory`, quoting. The reader is the `CsvReader` oracle.
- The internals of `csv.reader` (main.py:18). Only the record count is used, through the `OneRecordPerLine` assumption. `csv.reader` raises `csv.Error` on some lines: a carriage return followed by more text on the same line (`"a\rb\n"`, old Mac line endings), a field longer than `csv.field_size_limit()` (131072 characters by default), and a NUL character before Python 3.11. Detection runs outside the `try`, so any such error escapes the call and aborts the batch. `Detect` is total and does not model these errors.
- UTF-8 decoding at main.py:12. Lines are already text. A decoding error would escape, because detection runs outside the `try`, and it is not modelled.
- `pd.ExcelWriter` and `to_excel` (main.py:34, 49). The workbook is the list of sheets written. Errors raised while writing a sheet are not modelled. Closing the writer when the `with` block ends (main.py:34) is not modelled either. With the openpyxl engine, closing a writer that holds no sheets raises `IndexError` ("At least one sheet must be visible"), so a batch in which every file fails raises instead of returning its lists. With the xlsxwriter engine a blank sheet is added and the call returns.
- Batch.Combine: promises what the loop produces, not that the call returns. The close of the writer after the loop can still raise, as the line above says.
- Reading and writing `combined.xlsx` on disk (main.py:62, 81-82).
- Batch.Combine: the per-file step is a parameter. The program's step, `ProgramReader`, is connected to detection by its own contract, by `Batch.ReadFile` and by `Batch.ReadFileUsesComma`, not inside the loop proof.

## Findings

| source | as written | input that shows it | evidently intended | confidence | as-written member | corrected member |
|---|---|---|---|---|---|---|
| main.py:18 | the score of a candidate sums `len(list(csv.reader([line], delimiter=d)))`, the number of records, which is 1 for every line, so every candidate scores `num_lines`, the fallback never fires and the tie-break always returns comma | "a;b;c\n1;2;3\n": comma is detected, and the file is read as one column | the score counts the fields of each line (the comment at main.py:15 says the occurrences of the delimiter are counted), so semicolon is detected | high; not executed | Detection.RecordCountingDetectsComma | Detection.FieldCountingDetectsSoleDelimiter |

`Detection.SemicolonFileDetection` shows both behaviours on the input above.
Detection and the per-file step are parametric in the per-line score.
`ProgramReader(fields, readCsv)` is therefore the corrected program, and
`Batch.Combine` holds for it unchanged.
