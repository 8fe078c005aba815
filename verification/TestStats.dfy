/**
 The process samples that belong to a test: pkg/service/teststats/teststats.go.
 */
module TestStats {

  /** A point in time, in nanoseconds; `ZERO` is Go's zero time. */
  type Time = int

  const ZERO: Time := 0
  const MILLISECOND: int := 1_000_000

  datatype Sample = Sample(recordTime: Time, cpu: real, memory: real)

  datatype Stat = Stat(cpu: real, memory: real, recordTime: Time)

  /** A test or a test suite: both have these fields and are treated alike. `duration` is in milliseconds. */
  datatype Test = Test(name: string, startTime: Time, duration: int, endTime: Time, stats: seq<Stat>)

  predicate SortedByTime(ps: seq<Sample>) {
    forall i, j :: 0 <= i < j < |ps| ==> ps[i].recordTime <= ps[j].recordTime
  }

  /** The samples of an interval that holds its start but not its end. */
  function Window(ps: seq<Sample>, start: Time, end: Time): seq<Sample> {
    if ps == [] then []
    else (if start <= ps[0].recordTime < end then [ps[0]] else []) + Window(ps[1..], start, end)
  }

  // ----- Binary search -----

  ghost predicate Monotone(n: nat, f: nat -> bool) {
    forall i: nat, j: nat :: i <= j < n && f(i) ==> f(j)
  }

  /** `sort.Search`: the first index at which `f` holds, or `n`. */
  method Search(n: nat, f: nat -> bool) returns (i: nat)
    requires Monotone(n, f)
    ensures i <= n
    ensures forall k: nat :: k < i ==> !f(k)
    ensures forall k: nat :: i <= k < n ==> f(k)
  {
    i := 0;
    var j := n;
    while i < j
      invariant i <= j <= n
      invariant forall k: nat :: k < i ==> !f(k)
      invariant forall k: nat :: j <= k < n ==> f(k)
    {
      var h := (i + j) / 2;
      if !f(h) {
        i := h + 1;
      } else {
        j := h;
      }
    }
  }

  lemma {:induction false} WindowOfNone(ps: seq<Sample>, start: Time, end: Time)
    requires forall i :: 0 <= i < |ps| ==> !(start <= ps[i].recordTime < end)
    ensures Window(ps, start, end) == []
  {
    if ps != [] {
      WindowOfNone(ps[1..], start, end);
    }
  }

  lemma {:induction false} WindowOfAll(ps: seq<Sample>, start: Time, end: Time)
    requires forall i :: 0 <= i < |ps| ==> start <= ps[i].recordTime < end
    ensures Window(ps, start, end) == ps
  {
    if ps != [] {
      WindowOfAll(ps[1..], start, end);
      assert ps == [ps[0]] + ps[1..];
    }
  }

  lemma {:induction false} WindowConcat(a: seq<Sample>, b: seq<Sample>, start: Time, end: Time)
    ensures Window(a + b, start, end) == Window(a, start, end) + Window(b, start, end)
  {
    if a == [] {
      assert a + b == b;
    } else {
      assert (a + b)[1..] == a[1..] + b;
      WindowConcat(a[1..], b, start, end);
    }
  }

  predicate NotBefore(ps: seq<Sample>, i: nat, t: Time) {
    i < |ps| && !(ps[i].recordTime < t)
  }

  /** Samples cut where the interval starts and ends. */
  lemma WindowIsSlice(ps: seq<Sample>, start: Time, end: Time, left: nat, right: nat)
    requires left <= |ps| && right <= |ps|
    requires forall k: nat :: k < |ps| ==> (NotBefore(ps, k, start) <==> left <= k)
    requires forall k: nat :: k < |ps| ==> (NotBefore(ps, k, end) <==> right <= k)
    ensures Window(ps, start, end) == if left <= right then ps[left..right] else []
  {
    if left <= right {
      var a, b, c := ps[..left], ps[left..right], ps[right..];
      forall i | 0 <= i < |a| ensures a[i].recordTime < start {
        assert !NotBefore(ps, i, start);
      }
      forall i | 0 <= i < |b| ensures start <= b[i].recordTime < end {
        assert NotBefore(ps, left + i, start) && !NotBefore(ps, left + i, end);
      }
      forall i | 0 <= i < |c| ensures end <= c[i].recordTime {
        assert NotBefore(ps, right + i, end);
      }
      ThreeParts(a, b, c, start, end);
      assert ps[..left] + ps[left..right] == ps[..right];
      assert ps == a + b + c;
    } else {
      forall i | 0 <= i < |ps| ensures !(start <= ps[i].recordTime < end) {
        assert NotBefore(ps, i, start) <==> left <= i;
        assert NotBefore(ps, i, end) <==> right <= i;
      }
      WindowOfNone(ps, start, end);
    }
  }

  lemma ThreeParts(a: seq<Sample>, b: seq<Sample>, c: seq<Sample>, start: Time, end: Time)
    requires forall i :: 0 <= i < |a| ==> a[i].recordTime < start
    requires forall i :: 0 <= i < |b| ==> start <= b[i].recordTime < end
    requires forall i :: 0 <= i < |c| ==> end <= c[i].recordTime
    ensures Window(a + b + c, start, end) == b
  {
    WindowOfNone(a, start, end);
    WindowOfAll(b, start, end);
    WindowOfNone(c, start, end);
    WindowConcat(a, b, start, end);
    WindowConcat(a + b, c, start, end);
  }

  /** On samples in order of time the two searches cut out exactly the samples of the interval. */
  method GetProcsForInterval(start: Time, end: Time, processStats: seq<Sample>) returns (r: seq<Sample>)
    requires SortedByTime(processStats)
    ensures r == Window(processStats, start, end)
  {
    var n := |processStats|;
    var fromStart := (i: nat) => NotBefore(processStats, i, start);
    var fromEnd := (i: nat) => NotBefore(processStats, i, end);
    var left := Search(n, fromStart);
    var right := Search(n, fromEnd);
    forall k: nat | k < n ensures NotBefore(processStats, k, start) <==> left <= k {
      assert fromStart(k) <==> left <= k;
    }
    forall k: nat | k < n ensures NotBefore(processStats, k, end) <==> right <= k {
      assert fromEnd(k) <==> right <= k;
    }
    WindowIsSlice(processStats, start, end, left, right);
    if left <= right && 0 <= left && right <= n {
      return processStats[left..right];
    }
    return processStats[0..0];
  }

  // ----- Tests -----

  function EndOf(t: Test): Time {
    t.startTime + t.duration * MILLISECOND
  }

  function StatOf(p: Sample): Stat {
    Stat(p.cpu, p.memory, p.recordTime)
  }

  function StatsOf(ps: seq<Sample>): (r: seq<Stat>)
    ensures |r| == |ps|
  {
    seq(|ps|, i requires 0 <= i < |ps| => StatOf(ps[i]))
  }

  function Own(t: Test, ps: seq<Sample>): seq<Sample> {
    if t.startTime == ZERO then [] else Window(ps, t.startTime, EndOf(t))
  }

  function Appended(t: Test, procs: seq<Sample>): Test {
    t.(stats := t.stats + StatsOf(procs))
  }

  /** A test that never started is left alone; to any other the samples of its interval are appended. */
  function Updated(t: Test, ps: seq<Sample>): Test {
    if t.startTime == ZERO then t
    else Appended(t.(endTime := EndOf(t)), Own(t, ps))
  }

  lemma AppendedOne(t: Test, procs: seq<Sample>, i: nat)
    requires i < |procs|
    ensures Appended(t, procs[..i + 1]).stats == Appended(t, procs[..i]).stats + [StatOf(procs[i])]
  {
    assert procs[..i + 1] == procs[..i] + [procs[i]];
    assert StatsOf(procs[..i + 1]) == StatsOf(procs[..i]) + [StatOf(procs[i])];
  }

  /** The inner loop: the samples found for test `r` are appended to it one by one. */
  method AppendStats(testResults: array<Test>, r: nat, procs: seq<Sample>)
    requires r < testResults.Length
    modifies testResults
    ensures testResults[r] == Appended(old(testResults[r]), procs)
    ensures forall k :: 0 <= k < testResults.Length && k != r ==> testResults[k] == old(testResults[k])
  {
    ghost var before := testResults[r];
    assert Appended(before, procs[..0]).stats == before.stats;
    for i := 0 to |procs|
      invariant testResults[r] == Appended(before, procs[..i])
      invariant forall k :: 0 <= k < testResults.Length && k != r ==> testResults[k] == old(testResults[k])
    {
      var proc := procs[i];
      AppendedOne(before, procs, i);
      testResults[r] := testResults[r].(stats := testResults[r].stats + [Stat(proc.cpu, proc.memory, proc.recordTime)]);
    }
    assert procs[..|procs|] == procs;
  }

  /**
   What test `t` becomes: one that never started (zero start time) stays as it is; to any other the samples from its
   start up to, but not including, its end, `duration` milliseconds of a million nanoseconds later, are appended field
   by field and in order, behind the statistics it has.
   */
  ghost predicate GotSamples(t: Test, ps: seq<Sample>, u: Test) {
    if t.startTime == 0 then u == t
    else
      && u == t.(endTime := t.startTime + t.duration * 1_000_000, stats := u.stats)
      && exists left: nat, right: nat ::
           && CutsOut(ps, t.startTime, t.startTime + t.duration * 1_000_000, left, right)
           && StatsFollow(t.stats, ps[left..right], u.stats)
  }

  /** The samples at `left` and up to `right` are those of the interval. */
  predicate CutsOut(ps: seq<Sample>, start: Time, end: Time, left: nat, right: nat) {
    && left <= right <= |ps|
    && forall k :: 0 <= k < |ps| ==> (left <= k < right <==> start <= ps[k].recordTime < end)
  }

  predicate StatsFollow(stats: seq<Stat>, procs: seq<Sample>, more: seq<Stat>) {
    && |more| == |stats| + |procs| && more[..|stats|] == stats
    && forall k :: 0 <= k < |procs| ==>
         more[|stats| + k] == Stat(procs[k].cpu, procs[k].memory, procs[k].recordTime)
  }

  lemma {:induction false} FirstNotBefore(ps: seq<Sample>, t: Time) returns (i: nat)
    requires SortedByTime(ps)
    ensures i <= |ps| && forall k: nat :: k < |ps| ==> (NotBefore(ps, k, t) <==> i <= k)
  {
    i := 0;
    while i < |ps| && ps[i].recordTime < t
      invariant i <= |ps| && forall k: nat :: k < i ==> !NotBefore(ps, k, t)
    {
      i := i + 1;
    }
  }

  lemma WindowCutsOut(ps: seq<Sample>, start: Time, end: Time) returns (left: nat, right: nat)
    requires SortedByTime(ps)
    ensures CutsOut(ps, start, end, left, right) && Window(ps, start, end) == ps[left..right]
  {
    left := FirstNotBefore(ps, start);
    right := FirstNotBefore(ps, end);
    WindowIsSlice(ps, start, end, left, right);
    forall k: nat | k < |ps| ensures left <= k < right <==> start <= ps[k].recordTime < end {
      assert (NotBefore(ps, k, start) <==> left <= k) && (NotBefore(ps, k, end) <==> right <= k);
    }
    if right < left {
      left, right := 0, 0;
    }
  }

  lemma UpdatedGotSamples(t: Test, ps: seq<Sample>)
    requires SortedByTime(ps)
    ensures GotSamples(t, ps, Updated(t, ps))
  {
    if t.startTime != ZERO {
      var left, right := WindowCutsOut(ps, t.startTime, EndOf(t));
      assert StatsFollow(t.stats, ps[left..right], Updated(t, ps).stats);
    }
  }

  method AppendStatsToTests(testResults: array<Test>, processStats: seq<Sample>)
    requires SortedByTime(processStats)
    modifies testResults
    ensures forall r :: 0 <= r < testResults.Length ==> testResults[r] == Updated(old(testResults[r]), processStats)
    ensures forall r :: 0 <= r < testResults.Length ==>
              GotSamples(old(testResults[r]), processStats, testResults[r])
  {
    var r := 0;
    while r < testResults.Length
      invariant r <= testResults.Length
      invariant forall k :: 0 <= k < testResults.Length ==>
                  testResults[k] == if k < r then Updated(old(testResults[k]), processStats) else old(testResults[k])
    {
      if testResults[r].startTime != ZERO {
        testResults[r] := testResults[r].(endTime := EndOf(testResults[r]));
        var procs := GetProcsForInterval(testResults[r].startTime, testResults[r].endTime, processStats);
        AppendStats(testResults, r, procs);
      }
      r := r + 1;
    }
    forall k | 0 <= k < testResults.Length ensures GotSamples(old(testResults[k]), processStats, testResults[k]) {
      UpdatedGotSamples(old(testResults[k]), processStats);
    }
  }

  // ----- Every sample once -----

  lemma {:induction false} WindowMembers(ps: seq<Sample>, start: Time, end: Time, p: Sample)
    ensures multiset(Window(ps, start, end))[p] == if start <= p.recordTime < end then multiset(ps)[p] else 0
  {
    if ps != [] {
      WindowMembers(ps[1..], start, end, p);
      assert ps == [ps[0]] + ps[1..];
      assert multiset(ps) == multiset{ps[0]} + multiset(ps[1..]);
    }
  }

  lemma {:induction false} WindowsJoin(ps: seq<Sample>, a: Time, b: Time, c: Time)
    requires SortedByTime(ps) && a <= b <= c
    ensures Window(ps, a, b) + Window(ps, b, c) == Window(ps, a, c)
  {
    if ps != [] {
      WindowsJoin(ps[1..], a, b, c);
      if b <= ps[0].recordTime {
        WindowOfNone(ps[1..], a, b);
      }
    }
  }

  /** Each test starts when the one before it ends. */
  predicate Tiles(ts: seq<Test>) {
    && (forall i :: 0 <= i < |ts| ==> ts[i].startTime != ZERO && ts[i].duration >= 0)
    && (forall i :: 0 < i < |ts| ==> EndOf(ts[i - 1]) == ts[i].startTime)
  }

  function AllOwn(ts: seq<Test>, ps: seq<Sample>): seq<Sample> {
    if ts == [] then [] else Own(ts[0], ps) + AllOwn(ts[1..], ps)
  }

  lemma {:induction false} TilesGrow(ts: seq<Test>)
    requires Tiles(ts) && ts != []
    ensures ts[0].startTime <= EndOf(ts[|ts| - 1])
  {
    if |ts| > 1 {
      TilesGrow(ts[1..]);
    }
  }

  /** Tests that tile an interval receive its samples in order and each of them once in total. */
  lemma {:induction false} TilesReceiveEachSampleOnce(ts: seq<Test>, ps: seq<Sample>)
    requires SortedByTime(ps) && Tiles(ts) && ts != []
    ensures AllOwn(ts, ps) == Window(ps, ts[0].startTime, EndOf(ts[|ts| - 1]))
  {
    if |ts| == 1 {
      assert AllOwn(ts[1..], ps) == [];
    } else {
      TilesReceiveEachSampleOnce(ts[1..], ps);
      TilesGrow(ts[1..]);
      WindowsJoin(ps, ts[0].startTime, EndOf(ts[0]), EndOf(ts[|ts| - 1]));
    }
  }

  predicate RunningAt(t: Test, p: Sample) {
    t.startTime != ZERO && t.startTime <= p.recordTime < EndOf(t)
  }

  function Covering(ts: seq<Test>, p: Sample): nat {
    if ts == [] then 0 else (if RunningAt(ts[0], p) then 1 else 0) + Covering(ts[1..], p)
  }

  lemma OwnMembers(t: Test, ps: seq<Sample>, p: Sample)
    ensures multiset(Own(t, ps))[p] == if RunningAt(t, p) then multiset(ps)[p] else 0
  {
    WindowMembers(ps, t.startTime, EndOf(t), p);
  }

  lemma CountInBoth(a: seq<Sample>, b: seq<Sample>, p: Sample)
    ensures multiset(a + b)[p] == multiset(a)[p] + multiset(b)[p]
  {
  }

  lemma OnceMore(n: nat, m: nat)
    ensures (1 + n) * m == m + n * m
    ensures (0 + n) * m == n * m
  {
  }

  /** Whatever the tests, a sample is handed out once for every test that was running at its time. */
  lemma {:induction false} HandedToEveryRunningTest(ts: seq<Test>, ps: seq<Sample>, p: Sample)
    ensures multiset(AllOwn(ts, ps))[p] == Covering(ts, p) * multiset(ps)[p]
  {
    if ts == [] {
      assert AllOwn(ts, ps) == [] && Covering(ts, p) == 0;
    } else {
      var m, n := multiset(ps)[p], Covering(ts[1..], p);
      HandedToEveryRunningTest(ts[1..], ps, p);
      OwnMembers(ts[0], ps, p);
      CountInBoth(Own(ts[0], ps), AllOwn(ts[1..], ps), p);
      OnceMore(n, m);
      assert Covering(ts, p) == (if RunningAt(ts[0], p) then 1 else 0) + n;
    }
  }
}
