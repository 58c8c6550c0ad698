/**
 Batch conversion of uploaded CSV files into one workbook (main.py:29-57).

 Each file, in upload order, gets the identifier `sheet_<i+1>`; its delimiter
 is detected, the rewound stream is handed to the CSV reader, and the outcome
 decides what happens: a non-empty table is written as a sheet and the
 identifier recorded as a success; an empty table or an "empty data" error
 records a failure and writes nothing; any other error leaves the loop and
 the whole call. The CSV reader is a parameter (an oracle from file content
 and delimiter to an outcome), and the workbook writer is the sequence of
 sheets appended so far.
 */
module Batch {
  import opened Detection
  import Decimal

  datatype Option<T> = None | Some(value: T)

  const SheetPrefix: string := "sheet_"

  /** The identifier of the file at zero-based position `i`: `sheet_{i+1}`
      (main.py:45, 49-50, 54). */
  function SheetName(i: nat): (r: string)
    ensures SheetIndex(r) == Some(i)
    ensures Decimal.Canonical(r[|SheetPrefix|..])
  {
    Decimal.StringToNatOfNatToString(i + 1);
    SheetPrefix + Decimal.NatToString(i + 1)
  }

  /** Reads a zero-based file position back from a sheet identifier. */
  function SheetIndex(name: string): Option<nat> {
    if |SheetPrefix| < |name| && name[..|SheetPrefix|] == SheetPrefix
       && Decimal.AllDigits(name[|SheetPrefix|..])
       && 1 <= Decimal.StringToNat(name[|SheetPrefix|..])
    then Some(Decimal.StringToNat(name[|SheetPrefix|..]) - 1)
    else None
  }

  /** Identifiers of distinct positions are distinct. */
  lemma SheetNameInjective(i: nat, j: nat)
    ensures SheetName(i) == SheetName(j) <==> i == j
  {
  }

  /** The first file is `sheet_1` and the tenth is `sheet_10`. */
  lemma SheetNameExamples()
    ensures SheetName(0) == "sheet_1"
    ensures SheetName(9) == "sheet_10"
  {
  }

  /** The shape of a parsed DataFrame. */
  datatype Frame = Frame(columns: nat, rows: nat) {
    /** `DataFrame.empty`: either axis has length zero, so a CSV holding only
        a header row gives an empty frame. */
    predicate IsEmpty() {
      columns == 0 || rows == 0
    }
  }

  /** What `pd.read_csv` does with one file. */
  datatype ReadOutcome =
    | Parsed(frame: Frame)
    | EmptyDataError
    | OtherError(kind: string)

  /** The CSV reader: file content and delimiter to an outcome. */
  type CsvReader = (seq<string>, char) -> ReadOutcome

  /** One sheet in the workbook. */
  datatype Sheet = Sheet(name: string, frame: Frame)

  /** The call either returns its two identifier lists, or an exception
      escapes it at some file position; either way `sheets` is what the
      writer holds. */
  datatype BatchResult =
    | Completed(successes: seq<string>, failures: seq<string>, sheets: seq<Sheet>)
    | Raised(at: nat, kind: string, sheets: seq<Sheet>)

  /** What the loop does with a file, by outcome. */
  datatype Status = Written | Skipped | Aborted

  function Classify(o: ReadOutcome): (st: Status)
    ensures st == Written <==> o.Parsed? && !o.frame.IsEmpty()
    ensures st == Skipped <==> o.EmptyDataError? || (o.Parsed? && o.frame.IsEmpty())
    ensures st == Aborted <==> o.OtherError?
  {
    match o
    case Parsed(f) => if f.IsEmpty() then Skipped else Written
    case EmptyDataError => Skipped
    case OtherError(_) => Aborted
  }

  /** The lines a reader positioned on `s` goes on to see. */
  function Unread(s: Stream): seq<string> {
    if s.pos <= |s.lines| then s.lines[s.pos..] else []
  }

  /** Detection followed by `read_csv` on the same stream (main.py:37-41).
      Because detection rewinds, the reader sees the whole file whatever
      position the stream was at. */
  function ReadFile(lineScore: LineScore, readCsv: CsvReader, file: Stream): (o: ReadOutcome)
    ensures o == readCsv(file.lines, Detect(lineScore, file, DefaultSampleLines).0)
  {
    var (delimiter, rewound) := Detect(lineScore, file, DefaultSampleLines);
    readCsv(Unread(rewound), delimiter)
  }

  /** What the reader makes of a file with each candidate delimiter, in
      candidate order. */
  function Readings(readCsv: CsvReader, lines: seq<string>): (rs: seq<ReadOutcome>)
    ensures |rs| == |Candidates|
    ensures forall i :: 0 <= i < |Candidates| ==> rs[i] == readCsv(lines, Candidates[i])
  {
    seq(|Candidates|, i requires 0 <= i < |Candidates| => readCsv(lines, Candidates[i]))
  }

  /** What happens to one file inside the loop, up to the outcome. */
  type FileReader = Stream -> ReadOutcome

  /** The program's per-file step: detection with the given per-line score,
      then the CSV reader. */
  function ProgramReader(lineScore: LineScore, readCsv: CsvReader): (read: FileReader)
    ensures forall file :: read(file) in Readings(readCsv, file.lines)
  {
    assert forall file :: ReadFile(lineScore, readCsv, file) in Readings(readCsv, file.lines) by {
      forall file
        ensures ReadFile(lineScore, readCsv, file) in Readings(readCsv, file.lines)
      {
        var d := Detect(lineScore, file, DefaultSampleLines).0;
        var i :| 0 <= i < |Candidates| && Candidates[i] == d;
        assert Readings(readCsv, file.lines)[i] == ReadFile(lineScore, readCsv, file);
      }
    }
    file => ReadFile(lineScore, readCsv, file)
  }

  /** As written, the program scores by record count, so every file is
      handed to the CSV reader whole and with comma as its delimiter. */
  lemma ReadFileUsesComma(records: LineScore, readCsv: CsvReader, file: Stream)
    requires OneRecordPerLine(records)
    ensures ReadFile(records, readCsv, file) == readCsv(file.lines, ',')
  {
    RecordCountingDetectsComma(records, file, DefaultSampleLines);
  }

  /** The outcome of every file of the batch, in order. */
  function Outcomes(read: FileReader, files: seq<Stream>): seq<ReadOutcome> {
    seq(|files|, i requires 0 <= i < |files| => read(files[i]))
  }

  predicate StrictlyIncreasing(ix: seq<nat>) {
    forall a, b :: 0 <= a < b < |ix| ==> ix[a] < ix[b]
  }

  /** Reference description of a list: the positions whose outcome has
      status `want`, in ascending order. */
  function Positions(os: seq<ReadOutcome>, want: Status): seq<nat>
    decreases |os|
  {
    if |os| == 0 then []
    else
      Positions(os[..|os| - 1], want)
        + (if Classify(os[|os| - 1]) == want then [|os| - 1] else [])
  }

  function Names(ix: seq<nat>): seq<string> {
    seq(|ix|, k requires 0 <= k < |ix| => SheetName(ix[k]))
  }

  /** The frame read for the file at position `i`. */
  function FrameAt(os: seq<ReadOutcome>, i: nat): Frame {
    if i < |os| && os[i].Parsed? then os[i].frame else Frame(0, 0)
  }

  function SheetsAt(os: seq<ReadOutcome>, ix: seq<nat>): seq<Sheet> {
    seq(|ix|, k requires 0 <= k < |ix| => Sheet(SheetName(ix[k]), FrameAt(os, ix[k])))
  }

  /** Every listed position is a position of the batch with the wanted
      status. */
  lemma {:induction false} PositionsSound(os: seq<ReadOutcome>, want: Status)
    ensures forall k :: 0 <= k < |Positions(os, want)| ==>
              Positions(os, want)[k] < |os| && Classify(os[Positions(os, want)[k]]) == want
    decreases |os|
  {
    if |os| > 0 {
      PositionsSound(os[..|os| - 1], want);
    }
  }

  /** A position is listed exactly when its outcome has the wanted status. */
  lemma {:induction false} PositionsComplete(os: seq<ReadOutcome>, want: Status, i: nat)
    requires i < |os|
    ensures i in Positions(os, want) <==> Classify(os[i]) == want
    decreases |os|
  {
    var n := |os| - 1;
    PositionsSound(os[..n], want);
    if i < n {
      PositionsComplete(os[..n], want, i);
      assert os[..n][i] == os[i];
    } else {
      assert i !in Positions(os[..n], want);
    }
  }

  /** The listed positions ascend strictly. */
  lemma {:induction false} PositionsIncreasing(os: seq<ReadOutcome>, want: Status)
    ensures StrictlyIncreasing(Positions(os, want))
    decreases |os|
  {
    if |os| > 0 {
      PositionsIncreasing(os[..|os| - 1], want);
      PositionsSound(os[..|os| - 1], want);
    }
  }

  /** An identifier is in a list built from `ix` exactly when its position is
      in `ix`. */
  lemma NameInNamesIff(ix: seq<nat>, i: nat)
    ensures SheetName(i) in Names(ix) <==> i in ix
  {
    var names := Names(ix);
    if SheetName(i) in names {
      var k :| 0 <= k < |names| && names[k] == SheetName(i);
      SheetNameInjective(ix[k], i);
    }
    if i in ix {
      var k :| 0 <= k < |ix| && ix[k] == i;
      assert names[k] == SheetName(i);
    }
  }

  /** Lists built from ascending positions carry ascending file numbers, and
      so hold no identifier twice. */
  lemma NamesAscending(ix: seq<nat>)
    requires StrictlyIncreasing(ix)
    ensures forall k :: 0 <= k < |ix| ==> SheetIndex(Names(ix)[k]) == Some(ix[k])
    ensures forall a, b :: 0 <= a < b < |ix| ==>
              SheetIndex(Names(ix)[a]).value < SheetIndex(Names(ix)[b]).value
    ensures forall a, b :: 0 <= a < b < |ix| ==> Names(ix)[a] != Names(ix)[b]
  {
  }

  lemma {:induction false} PositionsCount(os: seq<ReadOutcome>)
    requires forall i :: 0 <= i < |os| ==> Classify(os[i]) != Aborted
    ensures |Positions(os, Written)| + |Positions(os, Skipped)| == |os|
    decreases |os|
  {
    if |os| > 0 {
      PositionsCount(os[..|os| - 1]);
    }
  }

  /** Every file lands in the list its outcome selects. */
  lemma ListedIff(os: seq<ReadOutcome>, want: Status, i: nat)
    requires i < |os|
    ensures SheetName(i) in Names(Positions(os, want)) <==> Classify(os[i]) == want
  {
    NameInNamesIff(Positions(os, want), i);
    PositionsComplete(os, want, i);
  }

  /** Every listed identifier is the identifier of a file of the batch. */
  lemma ListedNamesAreFiles(os: seq<ReadOutcome>, want: Status, name: string)
    requires name in Names(Positions(os, want))
    ensures exists i :: 0 <= i < |os| && name == SheetName(i) && Classify(os[i]) == want
  {
    var ix := Positions(os, want);
    PositionsSound(os, want);
    var k :| 0 <= k < |ix| && Names(ix)[k] == name;
    assert name == SheetName(ix[k]);
  }

  /** When nothing escapes, the two lists partition `sheet_1 .. sheet_N`:
      their sizes add up to N, no identifier is in both, and nothing else is
      in either. */
  lemma ReportPartitions(os: seq<ReadOutcome>)
    requires forall i :: 0 <= i < |os| ==> Classify(os[i]) != Aborted
    ensures |Names(Positions(os, Written))| + |Names(Positions(os, Skipped))| == |os|
    ensures forall name :: name in Names(Positions(os, Written)) ==> name !in Names(Positions(os, Skipped))
    ensures forall name :: name in Names(Positions(os, Written)) + Names(Positions(os, Skipped)) ==>
              exists i :: 0 <= i < |os| && name == SheetName(i)
  {
    PositionsCount(os);
    forall name | name in Names(Positions(os, Written)) + Names(Positions(os, Skipped))
      ensures exists i :: 0 <= i < |os| && name == SheetName(i)
      ensures name in Names(Positions(os, Written)) ==> name !in Names(Positions(os, Skipped))
    {
      if name in Names(Positions(os, Written)) {
        ListedNamesAreFiles(os, Written, name);
        var i :| 0 <= i < |os| && name == SheetName(i) && Classify(os[i]) == Written;
        ListedIff(os, Skipped, i);
      } else {
        ListedNamesAreFiles(os, Skipped, name);
      }
    }
  }

  /** A sample upload: a two-row CSV followed by an empty
      file gives successes ["sheet_1"] and failures ["sheet_2"]. */
  lemma TwoFileScenario()
    ensures var os := [Parsed(Frame(2, 2)), EmptyDataError];
            && Names(Positions(os, Written)) == ["sheet_1"]
            && Names(Positions(os, Skipped)) == ["sheet_2"]
  {
    var os := [Parsed(Frame(2, 2)), EmptyDataError];
    assert os[..1] == [Parsed(Frame(2, 2))];
    assert os[..1][..0] == [];
    assert Positions(os, Written) == [0];
    assert Positions(os, Skipped) == [1];
    SheetNameExamples();
    assert Decimal.NatToString(2) == "2";
    assert SheetName(1) == "sheet_2";
  }

  /** How the reference lists grow by one file. */
  lemma PositionsStep(os: seq<ReadOutcome>, i: nat)
    requires i < |os|
    ensures Names(Positions(os[..i + 1], Written))
            == Names(Positions(os[..i], Written)) + (if Classify(os[i]) == Written then [SheetName(i)] else [])
    ensures Names(Positions(os[..i + 1], Skipped))
            == Names(Positions(os[..i], Skipped)) + (if Classify(os[i]) == Skipped then [SheetName(i)] else [])
    ensures SheetsAt(os, Positions(os[..i + 1], Written))
            == SheetsAt(os, Positions(os[..i], Written))
               + (if Classify(os[i]) == Written then [Sheet(SheetName(i), FrameAt(os, i))] else [])
  {
    assert os[..i + 1][..i] == os[..i];
  }

  /** `streamlit_csv_combiner(csv_files, excel_path)`, with `read` the
      per-file step; the program's is `ProgramReader(lineScore, readCsv)`. */
  method Combine(files: seq<Stream>, read: FileReader) returns (r: BatchResult)
    ensures var os := Outcomes(read, files);
            r.Completed? <==> forall i :: 0 <= i < |os| ==> Classify(os[i]) != Aborted
    ensures var os := Outcomes(read, files);
            r.Completed? ==>
              && r.successes == Names(Positions(os, Written))
              && r.failures == Names(Positions(os, Skipped))
              && r.sheets == SheetsAt(os, Positions(os, Written))
    ensures var os := Outcomes(read, files);
            r.Completed? ==>
              && |r.successes| + |r.failures| == |files|
              && (forall i :: 0 <= i < |files| ==> (SheetName(i) in r.successes <==> Classify(os[i]) == Written))
              && (forall i :: 0 <= i < |files| ==> (SheetName(i) in r.failures <==> Classify(os[i]) == Skipped))
    ensures r.Completed? ==>
              && |r.sheets| == |r.successes|
              && forall k :: 0 <= k < |r.sheets| ==> r.sheets[k].name == r.successes[k] && !r.sheets[k].frame.IsEmpty()
    ensures var os := Outcomes(read, files);
            r.Raised? ==>
              && r.at < |files|
              && os[r.at] == OtherError(r.kind)
              && (forall j :: 0 <= j < r.at ==> Classify(os[j]) != Aborted)
              && r.sheets == SheetsAt(os, Positions(os[..r.at], Written))
  {
    ghost var os := Outcomes(read, files);
    var successes: seq<string> := [];
    var failures: seq<string> := [];
    var sheets: seq<Sheet> := [];
    var i := 0;
    while i < |files|
      invariant 0 <= i <= |files| == |os|
      invariant forall j :: 0 <= j < i ==> Classify(os[j]) != Aborted
      invariant successes == Names(Positions(os[..i], Written))
      invariant failures == Names(Positions(os[..i], Skipped))
      invariant sheets == SheetsAt(os, Positions(os[..i], Written))
    {
      var outcome := read(files[i]);
      assert outcome == os[i];
      PositionsStep(os, i);
      match outcome {
        case OtherError(kind) =>
          return Raised(i, kind, sheets);
        case EmptyDataError =>
          assert Classify(os[i]) == Skipped;
          failures := failures + [SheetName(i)];
        case Parsed(frame) =>
          if frame.IsEmpty() {
            assert Classify(os[i]) == Skipped;
            failures := failures + [SheetName(i)];
          } else {
            assert Classify(os[i]) == Written && FrameAt(os, i) == frame;
            sheets := sheets + [Sheet(SheetName(i), frame)];
            successes := successes + [SheetName(i)];
          }
      }
      i := i + 1;
    }
    assert os[..|files|] == os;
    forall j | 0 <= j < |files|
      ensures SheetName(j) in successes <==> Classify(os[j]) == Written
      ensures SheetName(j) in failures <==> Classify(os[j]) == Skipped
    {
      ListedIff(os, Written, j);
      ListedIff(os, Skipped, j);
    }
    PositionsCount(os);
    PositionsSound(os, Written);
    r := Completed(successes, failures, sheets);
  }
}
