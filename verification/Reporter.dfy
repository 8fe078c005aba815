/**
 The list of uncovered lines in a coverage report: `nodeMissing` of scripts/custom-reporter.js.
 */
module Reporter {
  import opened Wrappers
  import opened Text

  /** One listed line and whether it was hit. */
  datatype Line = Line(number: nat, hit: bool)

  /** A range as the code keeps it: one line, or a first and a last one. */
  datatype Range = One(line: nat) | Span(first: nat, last: nat)

  function First(r: Range): nat {
    if r.One? then r.line else r.first
  }

  function Last(r: Range): nat {
    if r.One? then r.line else r.last
  }

  predicate Increasing(lines: seq<Line>) {
    forall i, j :: 0 <= i < j < |lines| ==> lines[i].number < lines[j].number
  }

  predicate Contains(r: Range, n: nat) {
    First(r) <= n <= Last(r)
  }

  // ----- Printing -----

  function Digit(d: nat): char
    requires d < 10
  {
    "0123456789"[d]
  }

  function Decimal(n: nat): string {
    if n < 10 then [Digit(n)] else Decimal(n / 10) + [Digit(n % 10)]
  }

  function PrintRange(r: Range): string {
    match r
    case One(line) => Decimal(line)
    case Span(first, last) => Decimal(first) + (['-'] + Decimal(last))
  }

  function PrintEach(ranges: seq<Range>): seq<string> {
    if ranges == [] then [] else [PrintRange(ranges[0])] + PrintEach(ranges[1..])
  }

  function Print(ranges: seq<Range>): string {
    Join(PrintEach(ranges), ',')
  }

  // ----- Reading back -----

  function DigitValue(c: char): Option<nat> {
    if '0' <= c <= '9' then Some(c as int - '0' as int) else None
  }

  function ParseDecimal(s: string): Option<nat> {
    if s == "" then None
    else
      var d := DigitValue(s[|s| - 1]);
      if d.None? then None
      else if |s| == 1 then d
      else
        var high := ParseDecimal(s[..|s| - 1]);
        if high.None? then None else Some(high.value * 10 + d.value)
  }

  function ParseRange(s: string): Option<Range> {
    var ends := Split(s, '-');
    if |ends| == 1 then
      var n := ParseDecimal(ends[0]);
      if n.None? then None else Some(One(n.value))
    else if |ends| == 2 then
      var a, b := ParseDecimal(ends[0]), ParseDecimal(ends[1]);
      if a.None? || b.None? then None else Some(Span(a.value, b.value))
    else None
  }

  function ParseEach(parts: seq<string>): Option<seq<Range>> {
    if parts == [] then Some([])
    else
      var r, rest := ParseRange(parts[0]), ParseEach(parts[1..]);
      if r.None? || rest.None? then None else Some([r.value] + rest.value)
  }

  function Parse(s: string): Option<seq<Range>> {
    if s == "" then Some([]) else ParseEach(Split(s, ','))
  }

  predicate AllDigits(s: string) {
    s != "" && forall i :: 0 <= i < |s| ==> '0' <= s[i] <= '9'
  }

  lemma DigitRoundTrip(d: nat)
    requires d < 10
    ensures DigitValue(Digit(d)) == Some(d) && '0' <= Digit(d) <= '9'
  {
  }

  lemma ParseOneMore(s: string, c: char, n: nat, d: nat)
    requires ParseDecimal(s) == Some(n) && DigitValue(c) == Some(d)
    ensures ParseDecimal(s + [c]) == Some(n * 10 + d)
  {
    assert (s + [c])[..|s|] == s;
  }

  lemma {:induction false} DecimalRoundTrip(n: nat)
    ensures ParseDecimal(Decimal(n)) == Some(n)
    ensures AllDigits(Decimal(n))
  {
    DigitRoundTrip(n % 10);
    if n >= 10 {
      DecimalRoundTrip(n / 10);
      ParseOneMore(Decimal(n / 10), Digit(n % 10), n / 10, n % 10);
    }
  }

  lemma RangeRoundTrip(r: Range)
    ensures ParseRange(PrintRange(r)) == Some(r)
    ensures PrintRange(r) != "" && ',' !in PrintRange(r)
  {
    match r {
      case One(line) =>
        DecimalRoundTrip(line);
        SplitFirst(Decimal(line), '-', "");
      case Span(first, last) =>
        DecimalRoundTrip(first);
        DecimalRoundTrip(last);
        SplitFirst(Decimal(first), '-', Decimal(last));
        SplitFirst(Decimal(last), '-', "");
    }
  }

  lemma {:induction false} EachRoundTrip(ranges: seq<Range>)
    ensures ParseEach(PrintEach(ranges)) == Some(ranges)
    ensures |PrintEach(ranges)| == |ranges|
    ensures forall s :: s in PrintEach(ranges) ==> s != "" && ',' !in s
  {
    if ranges != [] {
      RangeRoundTrip(ranges[0]);
      EachRoundTrip(ranges[1..]);
      assert PrintEach(ranges)[1..] == PrintEach(ranges[1..]);
      assert [ranges[0]] + ranges[1..] == ranges;
    }
  }

  /** The printed list can be read back. */
  lemma PrintRoundTrip(ranges: seq<Range>)
    ensures Parse(Print(ranges)) == Some(ranges)
  {
    EachRoundTrip(ranges);
    if ranges != [] {
      JoinSplit(PrintEach(ranges), ',');
      assert PrintEach(ranges)[0] in PrintEach(ranges);
    }
  }

  // ----- Maximal runs of unhit lines -----

  /** A run of list positions, both ends included. */
  datatype Run = Run(first: nat, last: nat)

  predicate UnhitRun(lines: seq<Line>, r: Run) {
    r.first <= r.last < |lines| && forall i :: r.first <= i <= r.last ==> !lines[i].hit
  }

  /** A run that neither neighbour extends. */
  predicate Maximal(lines: seq<Line>, r: Run) {
    && UnhitRun(lines, r)
    && (r.first == 0 || lines[r.first - 1].hit)
    && (r.last + 1 == |lines| || lines[r.last + 1].hit)
  }

  /** Each run ends, and is followed by a hit line, before the next one begins. */
  predicate Apart(runs: seq<Run>) {
    forall k, m :: 0 <= k < m < |runs| ==> runs[k].last + 1 < runs[m].first
  }

  ghost predicate InRun(runs: seq<Run>, i: nat) {
    exists k :: 0 <= k < |runs| && runs[k].first <= i <= runs[k].last
  }

  ghost predicate AreRuns(lines: seq<Line>, runs: seq<Run>) {
    && Apart(runs)
    && (forall k :: 0 <= k < |runs| ==> Maximal(lines, runs[k]))
    && (forall i :: 0 <= i < |lines| && !lines[i].hit ==> InRun(runs, i))
  }

  /** The maximal runs, all of them, each once. */
  lemma RunsAreAll(lines: seq<Line>, runs: seq<Run>, r: Run)
    requires AreRuns(lines, runs)
    ensures Maximal(lines, r) <==> r in runs
  {
    if Maximal(lines, r) {
      assert !lines[r.first].hit && InRun(runs, r.first);
      var k :| 0 <= k < |runs| && runs[k].first <= r.first <= runs[k].last;
      var q := runs[k];
      assert Maximal(lines, q);
      assert q == r;
    }
  }

  lemma HitLine(lines: seq<Line>, line: Line, runs: seq<Run>)
    requires AreRuns(lines, runs) && line.hit
    ensures AreRuns(lines + [line], runs)
  {
    var all := lines + [line];
    forall k | 0 <= k < |runs| ensures Maximal(all, runs[k]) {
      assert Maximal(lines, runs[k]);
    }
    forall i | 0 <= i < |all| && !all[i].hit ensures InRun(runs, i) {
      assert !lines[i].hit;
    }
  }

  lemma NewRun(lines: seq<Line>, line: Line, runs: seq<Run>)
    requires AreRuns(lines, runs) && !line.hit && (lines == [] || lines[|lines| - 1].hit)
    ensures AreRuns(lines + [line], runs + [Run(|lines|, |lines|)])
  {
    var all, next := lines + [line], runs + [Run(|lines|, |lines|)];
    forall k | 0 <= k < |next| ensures Maximal(all, next[k]) {
      if k < |runs| {
        assert Maximal(lines, runs[k]);
      }
    }
    forall k, m | 0 <= k < m < |next| ensures next[k].last + 1 < next[m].first {
      assert Maximal(lines, runs[k]);
    }
    forall i | 0 <= i < |all| && !all[i].hit ensures InRun(next, i) {
      if i < |lines| {
        assert !lines[i].hit && InRun(runs, i);
        var k :| 0 <= k < |runs| && runs[k].first <= i <= runs[k].last;
        assert next[k] == runs[k];
      } else {
        assert next[|runs|].first <= i <= next[|runs|].last;
      }
    }
  }

  /** The last run reaches an unhit last line. */
  lemma LastRun(lines: seq<Line>, runs: seq<Run>)
    requires AreRuns(lines, runs) && lines != [] && !lines[|lines| - 1].hit
    ensures runs != [] && runs[|runs| - 1].last == |lines| - 1
  {
    assert InRun(runs, |lines| - 1);
    var k :| 0 <= k < |runs| && runs[k].first <= |lines| - 1 <= runs[k].last;
    assert Maximal(lines, runs[k]) && Maximal(lines, runs[|runs| - 1]);
  }

  lemma LongerRun(lines: seq<Line>, line: Line, runs: seq<Run>)
    requires AreRuns(lines, runs) && !line.hit && lines != [] && !lines[|lines| - 1].hit && runs != []
    ensures AreRuns(lines + [line], runs[|runs| - 1 := Run(runs[|runs| - 1].first, |lines|)])
  {
    LastRun(lines, runs);
    var last := |runs| - 1;
    var all, next := lines + [line], runs[last := Run(runs[last].first, |lines|)];
    forall k | 0 <= k < |next| ensures Maximal(all, next[k]) {
      assert Maximal(lines, runs[k]);
      if k < last {
        assert runs[k].last + 1 < runs[last].first;
      }
    }
    forall i | 0 <= i < |all| && !all[i].hit ensures InRun(next, i) {
      if i < |lines| {
        assert !lines[i].hit && InRun(runs, i);
        var k :| 0 <= k < |runs| && runs[k].first <= i <= runs[k].last;
        assert next[k].first <= i <= next[k].last;
      } else {
        assert next[last].first <= i <= next[last].last;
      }
    }
  }

  // ----- The reduction -----

  /** The runs, line by line: a hit line ends a run, an unhit one extends it or begins the next. */
  function RunsOf(lines: seq<Line>): (runs: seq<Run>)
    ensures forall k :: 0 <= k < |runs| ==> runs[k].first <= runs[k].last < |lines|
    ensures lines != [] && !lines[|lines| - 1].hit ==> runs != [] && runs[|runs| - 1].last == |lines| - 1
  {
    if lines == [] then []
    else
      var n := |lines| - 1;
      var runs := RunsOf(lines[..n]);
      if lines[n].hit then runs
      else if n == 0 || lines[n - 1].hit then runs + [Run(n, n)]
      else runs[|runs| - 1 := Run(runs[|runs| - 1].first, n)]
  }

  lemma RunsOfStep(front: seq<Line>, line: Line)
    requires AreRuns(front, RunsOf(front))
    ensures AreRuns(front + [line], RunsOf(front + [line]))
  {
    var lines, runs, n := front + [line], RunsOf(front), |front|;
    assert lines[..n] == front && lines[n] == line;
    if line.hit {
      HitLine(front, line, runs);
    } else if n == 0 || front[n - 1].hit {
      assert RunsOf(lines) == runs + [Run(n, n)];
      NewRun(front, line, runs);
    } else {
      assert RunsOf(lines) == runs[|runs| - 1 := Run(runs[|runs| - 1].first, n)];
      LongerRun(front, line, runs);
    }
  }

  /** They are the maximal runs. */
  lemma {:induction false} RunsOfAreRuns(lines: seq<Line>)
    ensures AreRuns(lines, RunsOf(lines))
  {
    if lines == [] {
      assert RunsOf(lines) == [];
    } else {
      var n := |lines| - 1;
      var front, line := lines[..n], lines[n];
      assert lines == front + [line];
      RunsOfAreRuns(front);
      RunsOfStep(front, line);
    }
  }

  /** The range printed for a run. */
  function RangeOf(lines: seq<Line>, r: Run): Range
    requires r.first <= r.last < |lines|
  {
    if r.first == r.last then One(lines[r.first].number) else Span(lines[r.first].number, lines[r.last].number)
  }

  function RangesOf(lines: seq<Line>, runs: seq<Run>): seq<Range>
    requires forall k :: 0 <= k < |runs| ==> runs[k].first <= runs[k].last < |lines|
  {
    seq(|runs|, k requires 0 <= k < |runs| => RangeOf(lines, runs[k]))
  }

  /** The ranges of the first `n` lines. */
  function RangesUpTo(lines: seq<Line>, n: nat): seq<Range>
    requires n <= |lines|
  {
    RangesOf(lines, RunsOf(lines[..n]))
  }

  lemma RangesStep(lines: seq<Line>, n: nat)
    requires n < |lines|
    ensures var acum, next := RangesUpTo(lines, n), RangesUpTo(lines, n + 1);
            if lines[n].hit then next == acum
            else if n == 0 || lines[n - 1].hit then next == acum + [One(lines[n].number)]
            else acum != [] && next == acum[|acum| - 1 := Span(First(acum[|acum| - 1]), lines[n].number)]
  {
    assert lines[..n + 1][..n] == lines[..n];
    assert n > 0 ==> lines[..n][n - 1] == lines[n - 1];
  }

  /** The ranges, and their printed form, of the listed lines in increasing order. */
  method NodeMissing(coveredLines: seq<Line>) returns (text: string)
    ensures text == Print(RangesOf(coveredLines, RunsOf(coveredLines)))
  {
    var newRange := true;
    var acum: seq<Range> := [];
    var i := 0;
    while i < |coveredLines|
      invariant i <= |coveredLines|
      invariant acum == RangesUpTo(coveredLines, i)
      invariant newRange <==> i == 0 || coveredLines[i - 1].hit
    {
      var line := coveredLines[i];
      RangesStep(coveredLines, i);
      if line.hit {
        newRange := true;
      } else if newRange {
        acum := acum + [One(line.number)];
        newRange := false;
      } else {
        acum := acum[|acum| - 1 := Span(First(acum[|acum| - 1]), line.number)];
      }
      i := i + 1;
    }
    assert coveredLines[..i] == coveredLines;
    return Print(acum);
  }

  // ----- What the printed text says -----

  lemma RangeEnds(lines: seq<Line>, r: Run)
    requires r.first <= r.last < |lines|
    ensures First(RangeOf(lines, r)) == lines[r.first].number && Last(RangeOf(lines, r)) == lines[r.last].number
  {
  }

  lemma InRangeIffInRun(lines: seq<Line>, r: Run, i: nat)
    requires Increasing(lines) && r.first <= r.last < |lines| && i < |lines|
    ensures Contains(RangeOf(lines, r), lines[i].number) <==> r.first <= i <= r.last
  {
    RangeEnds(lines, r);
  }

  lemma RunsApart(lines: seq<Line>, k: nat, m: nat)
    requires k < m < |RunsOf(lines)|
    ensures RunsOf(lines)[k].last < RunsOf(lines)[m].first
  {
    RunsOfAreRuns(lines);
  }

  lemma RangesApart(lines: seq<Line>, k: nat, m: nat)
    requires Increasing(lines) && k < m < |RunsOf(lines)|
    ensures var ranges := RangesOf(lines, RunsOf(lines)); Last(ranges[k]) < First(ranges[m])
  {
    var runs := RunsOf(lines);
    RunsApart(lines, k, m);
    RangeEnds(lines, runs[k]);
    RangeEnds(lines, runs[m]);
  }

  lemma RangeForward(lines: seq<Line>, k: nat)
    requires Increasing(lines) && k < |RunsOf(lines)|
    ensures var ranges := RangesOf(lines, RunsOf(lines)); First(ranges[k]) <= Last(ranges[k])
  {
    RangeEnds(lines, RunsOf(lines)[k]);
  }

  /** Reading the text back gives one range for each maximal run, sorted and disjoint. */
  lemma TextGivesRuns(lines: seq<Line>)
    requires Increasing(lines)
    ensures var ranges := Parse(Print(RangesOf(lines, RunsOf(lines))));
            && ranges.Some? && |ranges.value| == |RunsOf(lines)|
            && (forall k :: 0 <= k < |ranges.value| ==> First(ranges.value[k]) <= Last(ranges.value[k]))
            && (forall k, m :: 0 <= k < m < |ranges.value| ==> Last(ranges.value[k]) < First(ranges.value[m]))
  {
    var ranges := RangesOf(lines, RunsOf(lines));
    PrintRoundTrip(ranges);
    forall k | 0 <= k < |ranges| ensures First(ranges[k]) <= Last(ranges[k]) {
      RangeForward(lines, k);
    }
    forall k, m | 0 <= k < m < |ranges| ensures Last(ranges[k]) < First(ranges[m]) {
      RangesApart(lines, k, m);
    }
  }

  /** A listed line is unhit exactly when it lies in one of the ranges read back. */
  lemma TextGivesUnhitLines(lines: seq<Line>, i: nat)
    requires Increasing(lines) && i < |lines|
    ensures var ranges := Parse(Print(RangesOf(lines, RunsOf(lines))));
            && ranges.Some?
            && (!lines[i].hit <==>
                exists k :: 0 <= k < |ranges.value| && Contains(ranges.value[k], lines[i].number))
  {
    var runs := RunsOf(lines);
    var ranges := RangesOf(lines, runs);
    PrintRoundTrip(ranges);
    RunsOfAreRuns(lines);
    if !lines[i].hit {
      assert InRun(runs, i);
      var k :| 0 <= k < |runs| && runs[k].first <= i <= runs[k].last;
      InRangeIffInRun(lines, runs[k], i);
      assert Contains(ranges[k], lines[i].number);
    }
    if k :| 0 <= k < |ranges| && Contains(ranges[k], lines[i].number) {
      InRangeIffInRun(lines, runs[k], i);
      assert Maximal(lines, runs[k]);
    }
  }
}
