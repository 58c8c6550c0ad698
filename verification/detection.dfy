/**
 Delimiter detection for one uploaded file (main.py:7-26).

 The upload is a seekable stream of lines. Detection samples a fixed window
 of lines from the current position, rewinds the stream to its start, scores
 each of five candidate delimiters over the window, and picks one. The
 per-line score is a parameter: in the program it is the number of records
 that `csv.reader` produces from a one-element list holding the line, which
 this module does not re-implement; `OneRecordPerLine` states the behaviour
 the program relies on as an explicit assumption.
 */
module Detection {

  /** Candidate delimiters, in the order the program tries them. */
  const Candidates: seq<char> := [',', '\t', ';', '|', ' ']

  /** The answer when no candidate reaches the threshold. */
  const DefaultDelimiter: char := ','

  /** Default size of the sample window. */
  const DefaultSampleLines: int := 5

  /** An uploaded file: its lines (each keeping its line terminator) and the
      index of the next line `readline` returns. */
  datatype Stream = Stream(lines: seq<string>, pos: nat)

  /** A per-line score for a candidate delimiter. */
  type LineScore = (string, char) -> nat

  /** What `readline` returns when positioned at line `p`: past the end of
      the stream it returns the empty string. */
  function LineAt(s: Stream, p: nat): string {
    if p < |s.lines| then s.lines[p] else ""
  }

  /** The `k`-th line a sample taken from the current position sees. */
  function SampledLine(s: Stream, k: nat): string {
    LineAt(s, s.pos + k)
  }

  /** One `readline` call. */
  function ReadLine(s: Stream): (string, Stream) {
    if s.pos < |s.lines| then (s.lines[s.pos], s.(pos := s.pos + 1)) else ("", s)
  }

  /** `count` successive `readline` calls. */
  function ReadLines(s: Stream, count: nat): (r: (seq<string>, Stream))
    ensures |r.0| == count
    ensures forall k :: 0 <= k < count ==> r.0[k] == LineAt(s, s.pos + k)
    ensures r.1.lines == s.lines
    ensures r.1.pos == if |s.lines| <= s.pos then s.pos else Min(s.pos + count, |s.lines|)
    decreases count
  {
    if count == 0 then ([], s)
    else
      var (line, next) := ReadLine(s);
      var (rest, after) := ReadLines(next, count - 1);
      ([line] + rest, after)
  }

  function Min(a: int, b: int): int {
    if a <= b then a else b
  }

  /** The number of iterations of Python's `range(n)`. */
  function RangeLength(n: int): nat {
    if n < 0 then 0 else n
  }

  /** Reads the sample window and rewinds the stream (main.py:12-13).
      The window always has one entry per requested line, with lines past the
      end present as empty strings, and the stream ends at position 0 with
      its content untouched. */
  function SampleWindow(s: Stream, numLines: int): (r: (seq<string>, Stream))
    ensures |r.0| == RangeLength(numLines)
    ensures forall k :: 0 <= k < |r.0| ==> r.0[k] == SampledLine(s, k)
    ensures r.1 == Stream(s.lines, 0)
  {
    var (window, after) := ReadLines(s, RangeLength(numLines));
    (window, after.(pos := 0))
  }

  /** The sum over the window of one candidate's per-line score (main.py:18).
      Every line contributes its whole score, and the sum is zero exactly
      when no line scores. */
  function Score(lineScore: LineScore, window: seq<string>, d: char): (r: nat)
    ensures forall k :: 0 <= k < |window| ==> lineScore(window[k], d) <= r
    decreases |window|
  {
    if |window| == 0 then 0
    else Score(lineScore, window[..|window| - 1], d) + lineScore(window[|window| - 1], d)
  }

  /** The loop that fills `delimiter_counts`, one delimiter after another:
      the score of each delimiter of `ds`, in the order of `ds`. */
  function Tally(lineScore: LineScore, window: seq<string>, ds: seq<char>): (r: seq<nat>)
    ensures |r| == |ds|
    ensures forall i :: 0 <= i < |ds| ==> r[i] == Score(lineScore, window, ds[i])
    decreases |ds|
  {
    if |ds| == 0 then []
    else Tally(lineScore, window, ds[..|ds| - 1]) + [Score(lineScore, window, ds[|ds| - 1])]
  }

  /** The values of `delimiter_counts`, in candidate order (main.py:16-19):
      one score per candidate, the score of candidate `i` at position `i`. */
  function Counts(lineScore: LineScore, window: seq<string>): (r: seq<nat>)
    ensures |r| == |Candidates|
    ensures forall i :: 0 <= i < |Candidates| ==> r[i] == Score(lineScore, window, Candidates[i])
  {
    Tally(lineScore, window, Candidates)
  }

  /** Python's `max` over a non-empty sequence: a left-to-right scan that
      replaces the running maximum only on a strictly larger value. */
  function MaxOf(xs: seq<int>): (m: int)
    requires |xs| > 0
    ensures forall k :: 0 <= k < |xs| ==> xs[k] <= m
    ensures exists k :: 0 <= k < |xs| && xs[k] == m
  {
    if |xs| == 1 then xs[0]
    else
      var m := MaxOf(xs[..|xs| - 1]);
      if xs[|xs| - 1] > m then xs[|xs| - 1] else m
  }

  /** `xs[k]` is the first occurrence of the maximum of `xs`. */
  predicate IsFirstMaximum(xs: seq<int>, k: int) {
    && 0 <= k < |xs|
    && (forall j :: 0 <= j < |xs| ==> xs[j] <= xs[k])
    && (forall j :: 0 <= j < k ==> xs[j] < xs[k])
  }

  /** Python's `max(keys, key=f)`: the same scan, returning the position of
      the element it keeps. */
  function ArgMaxOf(xs: seq<int>): (k: nat)
    requires |xs| > 0
    ensures IsFirstMaximum(xs, k)
  {
    if |xs| == 1 then 0
    else
      var k := ArgMaxOf(xs[..|xs| - 1]);
      if xs[|xs| - 1] > xs[k] then |xs| - 1 else k
  }

  /** The choice made from the candidates' scores (main.py:21-26). */
  function Choose(counts: seq<nat>, numLines: int): (d: char)
    requires |counts| == |Candidates|
    ensures d in Candidates
    ensures MaxOf(counts) < numLines ==> d == DefaultDelimiter
    ensures numLines <= MaxOf(counts) ==>
              exists i :: IsFirstMaximum(counts, i) && Candidates[i] == d
  {
    if MaxOf(counts) < numLines then DefaultDelimiter else Candidates[ArgMaxOf(counts)]
  }

  /** `enhanced_detect_delimiter(file, num_lines)`: the delimiter and the
      stream as the call leaves it. */
  function Detect(lineScore: LineScore, s: Stream, numLines: int): (r: (char, Stream))
    ensures r.0 in Candidates
    ensures r.1 == Stream(s.lines, 0)
  {
    var (window, rewound) := SampleWindow(s, numLines);
    (Choose(Counts(lineScore, window), numLines), rewound)
  }

  /** Reference description of a correct detection result, written without
      the scans: comma below the threshold, otherwise the candidate at the
      first position holding the maximal score. */
  ghost predicate IsDetection(counts: seq<nat>, numLines: int, d: char)
    requires |counts| == |Candidates|
  {
    if exists k :: 0 <= k < |counts| && numLines <= counts[k] then
      exists i :: IsFirstMaximum(counts, i) && Candidates[i] == d
    else
      d == DefaultDelimiter
  }

  lemma CandidatesDistinct(i: int, j: int)
    requires 0 <= i < |Candidates| && 0 <= j < |Candidates|
    ensures Candidates[i] == Candidates[j] <==> i == j
  {
  }

  /** At most one position is the first maximum. */
  lemma FirstMaximumUnique(xs: seq<int>, i: int, j: int)
    requires IsFirstMaximum(xs, i) && IsFirstMaximum(xs, j)
    ensures i == j
  {
    assert xs[i] <= xs[j] && xs[j] <= xs[i];
  }

  /** Detection agrees with the reference description, and the reference
      admits exactly one delimiter for every window. */
  lemma DetectIsDetection(lineScore: LineScore, s: Stream, numLines: int, d: char)
    ensures var counts := Counts(lineScore, SampleWindow(s, numLines).0);
            IsDetection(counts, numLines, d) <==> d == Detect(lineScore, s, numLines).0
  {
    var counts := Counts(lineScore, SampleWindow(s, numLines).0);
    var m := MaxOf(counts);
    var r := Detect(lineScore, s, numLines).0;
    assert r == Choose(counts, numLines);
    if m < numLines {
      assert !exists k :: 0 <= k < |counts| && numLines <= counts[k];
    } else {
      var a :| 0 <= a < |counts| && counts[a] == m;
      assert numLines <= counts[a];
      var i :| IsFirstMaximum(counts, i) && Candidates[i] == r;
      if IsDetection(counts, numLines, d) {
        var i' :| IsFirstMaximum(counts, i') && Candidates[i'] == d;
        FirstMaximumUnique(counts, i, i');
      }
    }
  }

  /** Comma is chosen exactly when the fallback fires or comma itself holds
      the maximal score (main.py:22-26). */
  lemma ChooseCommaIff(counts: seq<nat>, numLines: int)
    requires |counts| == |Candidates|
    ensures Choose(counts, numLines) == ',' <==> MaxOf(counts) < numLines || counts[0] == MaxOf(counts)
  {
    var m := MaxOf(counts);
    if numLines <= m {
      var i := ArgMaxOf(counts);
      if counts[0] == m {
        assert IsFirstMaximum(counts, 0);
        FirstMaximumUnique(counts, 0, i);
      }
      if Choose(counts, numLines) == ',' {
        CandidatesDistinct(i, 0);
      }
    }
  }

  /** A window on which every candidate earns the same score picks comma. */
  lemma EqualCountsChooseComma(counts: seq<nat>, numLines: int)
    requires |counts| == |Candidates|
    requires forall i :: 0 <= i < |counts| ==> counts[i] == counts[0]
    ensures Choose(counts, numLines) == ','
  {
    var a :| 0 <= a < |counts| && counts[a] == MaxOf(counts);
    ChooseCommaIff(counts, numLines);
  }

  /** The record-count behaviour the program relies on: `csv.reader` over a
      one-element list yields exactly one record for every line and
      delimiter. */
  ghost predicate OneRecordPerLine(records: LineScore) {
    forall line, d :: records(line, d) == 1
  }

  lemma {:induction false} ScoreOfConstant(lineScore: LineScore, window: seq<string>, d: char, c: nat)
    requires forall k :: 0 <= k < |window| ==> lineScore(window[k], d) == c
    ensures Score(lineScore, window, d) == c * |window|
    decreases |window|
  {
    if |window| > 0 {
      ScoreOfConstant(lineScore, window[..|window| - 1], d, c);
    }
  }

  /** With record counting every candidate scores the window size, so the
      threshold never fires and the tie-break returns comma, whatever the
      stream holds (main.py:18-26). */
  lemma RecordCountingDetectsComma(records: LineScore, s: Stream, numLines: int)
    requires OneRecordPerLine(records)
    ensures Detect(records, s, numLines).0 == ','
  {
    var window := SampleWindow(s, numLines).0;
    var counts := Counts(records, window);
    forall i | 0 <= i < |Candidates|
      ensures counts[i] == |window|
    {
      ScoreOfConstant(records, window, Candidates[i], 1);
    }
    EqualCountsChooseComma(counts, numLines);
  }

  /** A stream with nothing left to read samples only empty lines; when the
      score of an empty line does not depend on the delimiter, detection
      returns comma. */
  lemma ExhaustedStreamDetectsComma(lineScore: LineScore, s: Stream, numLines: int)
    requires |s.lines| <= s.pos
    requires forall i :: 0 <= i < |Candidates| ==> lineScore("", Candidates[i]) == lineScore("", ',')
    ensures Detect(lineScore, s, numLines).0 == ','
  {
    var window := SampleWindow(s, numLines).0;
    var counts := Counts(lineScore, window);
    forall i | 0 <= i < |Candidates|
      ensures counts[i] == counts[0]
    {
      ScoreOfConstant(lineScore, window, Candidates[i], lineScore("", ','));
      ScoreOfConstant(lineScore, window, Candidates[0], lineScore("", ','));
    }
    EqualCountsChooseComma(counts, numLines);
  }

  lemma ScoreAppend(lineScore: LineScore, window: seq<string>, line: string, d: char)
    ensures Score(lineScore, window + [line], d) == Score(lineScore, window, d) + lineScore(line, d)
  {
    assert (window + [line])[..|window|] == window;
  }

  /** A candidate scores zero over the window exactly when it scores zero on
      every line of it. */
  lemma {:induction false} ScoreZeroIff(lineScore: LineScore, window: seq<string>, d: char)
    ensures Score(lineScore, window, d) == 0 <==> forall k :: 0 <= k < |window| ==> lineScore(window[k], d) == 0
    decreases |window|
  {
    if |window| > 0 {
      var n := |window| - 1;
      ScoreZeroIff(lineScore, window[..n], d);
      if Score(lineScore, window, d) == 0 {
        forall k | 0 <= k < |window|
          ensures lineScore(window[k], d) == 0
        {
          if k < n {
            assert window[..n][k] == window[k];
          }
        }
      }
    }
  }

  lemma {:induction false} ScoreAtLeast(lineScore: LineScore, window: seq<string>, d: char, c: nat)
    requires forall k :: 0 <= k < |window| ==> c <= lineScore(window[k], d)
    ensures c * |window| <= Score(lineScore, window, d)
    decreases |window|
  {
    if |window| > 0 {
      ScoreAtLeast(lineScore, window[..|window| - 1], d, c);
    }
  }

  lemma {:induction false} ScoreAtMost(lineScore: LineScore, window: seq<string>, d: char, c: nat)
    requires forall k :: 0 <= k < |window| ==> lineScore(window[k], d) <= c
    ensures Score(lineScore, window, d) <= c * |window|
    decreases |window|
  {
    if |window| > 0 {
      ScoreAtMost(lineScore, window[..|window| - 1], d, c);
    }
  }

  /** The intended behaviour, with a per-line FIELD count as the score: when
      every sampled line splits into at least two fields on one candidate
      and into at most one field on every other candidate, that candidate is
      detected. */
  lemma FieldCountingDetectsSoleDelimiter(fields: LineScore, s: Stream, numLines: int, i: int)
    requires 1 <= numLines
    requires 0 <= i < |Candidates|
    requires forall k :: 0 <= k < numLines ==> 2 <= fields(SampledLine(s, k), Candidates[i])
    requires forall j, k :: 0 <= j < |Candidates| && j != i && 0 <= k < numLines ==>
               fields(SampledLine(s, k), Candidates[j]) <= 1
    ensures Detect(fields, s, numLines).0 == Candidates[i]
  {
    var window := SampleWindow(s, numLines).0;
    var counts := Counts(fields, window);
    ScoreAtLeast(fields, window, Candidates[i], 2);
    forall j | 0 <= j < |Candidates| && j != i
      ensures counts[j] < counts[i]
    {
      ScoreAtMost(fields, window, Candidates[j], 1);
    }
    assert numLines <= counts[i] <= MaxOf(counts);
  }

  /** On the window sampled from "a;b;c\n1;2;3\n", a candidate's score is
      what the two lines score, the three empty lines adding nothing. */
  lemma SemicolonWindowScore(fields: LineScore, d: char)
    requires fields("", d) == 0
    ensures Score(fields, ["a;b;c\n", "1;2;3\n", "", "", ""], d) == fields("a;b;c\n", d) + fields("1;2;3\n", d)
  {
    var w1 := [] + ["a;b;c\n"];
    var w2 := w1 + ["1;2;3\n"];
    var w3 := w2 + [""];
    var w4 := w3 + [""];
    assert ["a;b;c\n", "1;2;3\n", "", "", ""] == w4 + [""];
    ScoreAppend(fields, [], "a;b;c\n", d);
    ScoreAppend(fields, w1, "1;2;3\n", d);
    ScoreAppend(fields, w2, "", d);
    ScoreAppend(fields, w3, "", d);
    ScoreAppend(fields, w4, "", d);
  }

  /** A sample file, "a;b;c\n1;2;3\n", with no comma in it: record counting
      detects comma, field counting detects semicolon. */
  lemma SemicolonFileDetection(records: LineScore, fields: LineScore)
    requires OneRecordPerLine(records)
    requires fields("a;b;c\n", ';') == 3 && fields("1;2;3\n", ';') == 3
    requires forall d :: d != ';' ==> fields("a;b;c\n", d) == 1 && fields("1;2;3\n", d) == 1
    requires forall d :: fields("", d) == 0
    ensures Detect(records, Stream(["a;b;c\n", "1;2;3\n"], 0), DefaultSampleLines).0 == ','
    ensures Detect(fields, Stream(["a;b;c\n", "1;2;3\n"], 0), DefaultSampleLines).0 == ';'
  {
    var s := Stream(["a;b;c\n", "1;2;3\n"], 0);
    RecordCountingDetectsComma(records, s, DefaultSampleLines);
    var window := SampleWindow(s, DefaultSampleLines).0;
    assert window == ["a;b;c\n", "1;2;3\n", "", "", ""];
    var counts := Counts(fields, window);
    forall i | 0 <= i < |Candidates|
      ensures counts[i] == if i == 2 then 6 else 2
    {
      SemicolonWindowScore(fields, Candidates[i]);
    }
    var k := ArgMaxOf(counts);
    assert counts[2] <= counts[k];
    assert k == 2;
  }
}
