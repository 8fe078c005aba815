/**
 Consecutive runs of the tests and the goroutines that capture their results.
 Models `Run` of pkg/testexecutionservice/testexecution.go, `CaptureTestStats` of
 pkg/service/teststats/teststats.go and the handler of pkg/api/results/results.go, as steps that any schedule may
 interleave.
 */
module TestExecution {
  import opened Layout
  import opened Wrappers
  import opened TestStats

  datatype Batch = Batch(tests: seq<Test>, suites: seq<Test>)

  type Results = seq<Batch>

  datatype Config = Config(runs: int, framework: string, collectCoverage: bool, collectStats: bool)

  /** Results the runner has posted, and how many runs had started by then. */
  datatype Posted = Posted(run: nat, results: Results)

  /** What a capture took from the input channel. */
  datatype Taken = Nothing | Took(post: Posted, samples: seq<Sample>)

  datatype Capture = Idle | Gathering | Selecting(samples: seq<Sample>) | Sending(value: Option<Results>)

  datatype Main =
    | Ready(run: int)
    | Waiting(run: int)
    | Receiving(run: int, err: Option<string>)
    | Returned(result: Result<Results, string>)

  /**
   `spawned` are results whose goroutine has not reached the channel yet, `blocked` those waiting in the send.
   `started`, `posted`, `taken` and `delivered` record the past.
   */
  datatype State = State(
    main: Main,
    env: seq<string>,
    aggregate: Results,
    capture: Capture,
    spawned: seq<Posted>,
    blocked: seq<Posted>,
    started: nat,
    posted: seq<Posted>,
    taken: seq<Taken>,
    delivered: seq<Option<Results>>)

  datatype Step =
    | StartFails(e: string)
    | CaptureFails(e: string)
    | Start
    | Exit(err: Option<string>)
    | Deliver
    | Finish
    | Gather(samples: seq<Sample>)
    | Take(k: nat)
    | GiveUp
    | Post(results: Results)
    | Arrive(k: nat)

  // ----- Steps -----

  function Begin(env: seq<string>): State {
    State(Ready(1), env, [], Idle, [], [], 0, [], [], [])
  }

  function UpdatedAll(ts: seq<Test>, ps: seq<Sample>): seq<Test> {
    seq(|ts|, i requires 0 <= i < |ts| => Updated(ts[i], ps))
  }

  function Annotated(c: Config, r: Results, ps: seq<Sample>): Results {
    if c.collectStats then
      seq(|r|, i requires 0 <= i < |r| => Batch(UpdatedAll(r[i].tests, ps), UpdatedAll(r[i].suites, ps)))
    else r
  }

  /** What a capture hands on. */
  function ValueOf(c: Config, t: Taken): Option<Results> {
    match t
    case Nothing => None
    case Took(post, ps) => Some(Annotated(c, post.results, ps))
  }

  predicate Flags(c: Config) {
    c.framework != "jasmine" && c.framework != "mocha" && c.collectCoverage
  }

  /** The environment grows by one more entry in every run. */
  function GrownEnv(c: Config, env: seq<string>): seq<string> {
    if Flags(c) then env + ["TAS_COLLECT_COVERAGE=true"] else env
  }

  function Added(aggregate: Results, v: Option<Results>): Results {
    if v.Some? then aggregate + v.value else aggregate
  }

  function Without<T>(s: seq<T>, k: nat): seq<T>
    requires k < |s|
  {
    s[..k] + s[k + 1..]
  }

  /** Sends and receives on the two channels without buffers happen together; the select does not wait. */
  predicate Enabled(c: Config, s: State, step: Step) {
    match step
    case StartFails(_) => s.main.Ready? && s.main.run <= c.runs
    case CaptureFails(_) => s.main.Ready? && s.main.run <= c.runs
    case Start => s.main.Ready? && s.main.run <= c.runs
    case Exit(_) => s.main.Waiting?
    case Deliver => s.main.Receiving? && s.capture.Sending?
    case Finish => s.main.Ready? && s.main.run > c.runs
    case Gather(ps) => s.capture.Gathering? && SortedByTime(ps)
    case Take(k) => s.capture.Selecting? && k < |s.blocked|
    case GiveUp => s.capture.Selecting? && s.blocked == []
    case Post(_) => true
    case Arrive(k) => k < |s.spawned|
  }

  function Apply(c: Config, s: State, step: Step): State
    requires Enabled(c, s, step)
  {
    match step
    case StartFails(e) => s.(env := GrownEnv(c, s.env), main := Returned(Err(e)))
    case CaptureFails(e) => s.(env := GrownEnv(c, s.env), main := Returned(Err(e)))
    case Start =>
      s.(env := GrownEnv(c, s.env), main := Waiting(s.main.run), capture := Gathering, started := s.started + 1)
    case Exit(err) => s.(main := Receiving(s.main.run, err))
    case Deliver =>
      var v := s.capture.value;
      var t := s.(capture := Idle, delivered := s.delivered + [v]);
      if s.main.err.Some? && v.None? then t.(main := Returned(Err(s.main.err.value)))
      else t.(main := Ready(s.main.run + 1), aggregate := Added(s.aggregate, v))
    case Finish => s.(main := Returned(Ok(s.aggregate)))
    case Gather(ps) => s.(capture := Selecting(ps))
    case Take(k) =>
      var t := Took(s.blocked[k], s.capture.samples);
      s.(capture := Sending(ValueOf(c, t)), blocked := Without(s.blocked, k), taken := s.taken + [t])
    case GiveUp => s.(capture := Sending(None), taken := s.taken + [Nothing])
    case Post(results) =>
      var p := Posted(s.started, results);
      s.(spawned := s.spawned + [p], posted := s.posted + [p])
    case Arrive(k) => s.(spawned := Without(s.spawned, k), blocked := s.blocked + [s.spawned[k]])
  }

  predicate IsRun(c: Config, s: State, steps: seq<Step>, last: State)
    decreases |steps|
  {
    if steps == [] then s == last
    else Enabled(c, s, steps[0]) && IsRun(c, Apply(c, s, steps[0]), steps[1..], last)
  }

  // ----- What every step keeps -----

  function Posts(taken: seq<Taken>): seq<Posted> {
    if taken == [] then []
    else
      var t := taken[|taken| - 1];
      Posts(taken[..|taken| - 1]) + (if t.Took? then [t.post] else [])
  }

  function Together(delivered: seq<Option<Results>>): Results {
    if delivered == [] then [] else Added(Together(delivered[..|delivered| - 1]), delivered[|delivered| - 1])
  }

  /** Every posted result is on its way, waiting, or taken by one capture. */
  ghost predicate Conserved(s: State) {
    multiset(s.posted) == multiset(s.spawned) + multiset(s.blocked) + multiset(Posts(s.taken))
  }

  predicate Counted(s: State) {
    && s.started == |s.delivered| + (if s.capture.Idle? then 0 else 1)
    && |s.taken| == |s.delivered| + (if s.capture.Sending? then 1 else 0)
  }

  ghost predicate Handed(c: Config, s: State)
    requires Counted(s)
  {
    && (forall i :: 0 <= i < |s.delivered| ==> s.delivered[i] == ValueOf(c, s.taken[i]))
    && (s.capture.Sending? ==> s.capture.value == ValueOf(c, s.taken[|s.delivered|]))
  }

  predicate Aggregates(c: Config, s: State) {
    match s.main
    case Ready(run) =>
      && s.capture.Idle? && run == |s.delivered| + 1 && s.aggregate == Together(s.delivered)
      && (run > 1 ==> run <= c.runs + 1)
    case Waiting(run) => !s.capture.Idle? && run == |s.delivered| + 1 <= c.runs && s.aggregate == Together(s.delivered)
    case Receiving(run, _) => !s.capture.Idle? && run == |s.delivered| + 1 <= c.runs
              && s.aggregate == Together(s.delivered)
    case Returned(Ok(r)) =>
      s.capture.Idle? && r == Together(s.delivered) && |s.delivered| == (if c.runs < 0 then 0 else c.runs)
    case Returned(Err(_)) => s.capture.Idle?
  }

  ghost predicate Inv(c: Config, s: State) {
    Conserved(s) && Counted(s) && Handed(c, s) && Aggregates(c, s)
  }

  lemma WithoutMultiset<T>(s: seq<T>, k: nat)
    requires k < |s|
    ensures multiset(s) == multiset(Without(s, k)) + multiset{s[k]}
  {
    assert s == s[..k] + [s[k]] + s[k + 1..];
  }

  lemma PostsUnfold(taken: seq<Taken>, t: Taken)
    ensures Posts(taken + [t]) == Posts(taken) + (if t.Took? then [t.post] else [])
  {
    assert (taken + [t])[..|taken|] == taken;
  }

  lemma TakeConserves(c: Config, s: State, k: nat)
    requires Conserved(s) && Enabled(c, s, Take(k))
    ensures Conserved(Apply(c, s, Take(k)))
  {
    WithoutMultiset(s.blocked, k);
    PostsUnfold(s.taken, Took(s.blocked[k], s.capture.samples));
  }

  lemma ArriveConserves(c: Config, s: State, k: nat)
    requires Conserved(s) && Enabled(c, s, Arrive(k))
    ensures Conserved(Apply(c, s, Arrive(k)))
  {
    WithoutMultiset(s.spawned, k);
  }

  lemma GiveUpConserves(c: Config, s: State)
    requires Conserved(s) && Enabled(c, s, GiveUp)
    ensures Conserved(Apply(c, s, GiveUp))
  {
    PostsUnfold(s.taken, Nothing);
  }

  lemma StepConserves(c: Config, s: State, step: Step)
    requires Conserved(s) && Enabled(c, s, step)
    ensures Conserved(Apply(c, s, step))
  {
    if step.Take? {
      TakeConserves(c, s, step.k);
    } else if step.Arrive? {
      ArriveConserves(c, s, step.k);
    } else if step.GiveUp? {
      GiveUpConserves(c, s);
    } else if step.Post? {
      assert Apply(c, s, step).posted == s.posted + [Posted(s.started, step.results)];
    }
  }

  lemma StepAggregates(c: Config, s: State, step: Step)
    requires Counted(s) && Handed(c, s) && Aggregates(c, s) && Enabled(c, s, step)
    ensures Counted(Apply(c, s, step)) && Handed(c, Apply(c, s, step)) && Aggregates(c, Apply(c, s, step))
  {
    if step.Deliver? {
      assert Apply(c, s, step).delivered[..|s.delivered|] == s.delivered;
    }
  }

  lemma {:induction false} RunKeepsInv(c: Config, s: State, steps: seq<Step>, last: State)
    requires Inv(c, s) && IsRun(c, s, steps, last)
    ensures Inv(c, last)
    decreases |steps|
  {
    if steps != [] {
      StepConserves(c, s, steps[0]);
      StepAggregates(c, s, steps[0]);
      RunKeepsInv(c, Apply(c, s, steps[0]), steps[1..], last);
    }
  }

  // ----- What every schedule leads to -----

  /**
   At any point of any run each finished capture has delivered one value, the value of what it took; every posted
   result is still pending or was taken by one capture.
   */
  lemma EachCaptureDeliversOnce(c: Config, env: seq<string>, steps: seq<Step>, last: State)
    requires IsRun(c, Begin(env), steps, last)
    ensures last.started == |last.delivered| + (if last.capture.Idle? then 0 else 1)
    ensures |last.delivered| <= |last.taken|
    ensures forall i :: 0 <= i < |last.delivered| ==> last.delivered[i] == ValueOf(c, last.taken[i])
    ensures multiset(last.posted) == multiset(last.spawned) + multiset(last.blocked) + multiset(Posts(last.taken))
  {
    RunKeepsInv(c, Begin(env), steps, last);
  }

  /** The loop cannot hang: while it has not returned, it or its capture can go on. */
  lemma NeverStuck(c: Config, env: seq<string>, steps: seq<Step>, last: State) returns (step: Step)
    requires IsRun(c, Begin(env), steps, last) && !last.main.Returned?
    ensures Enabled(c, last, step) && !step.Post? && !step.Arrive?
  {
    RunKeepsInv(c, Begin(env), steps, last);
    if last.main.Ready? {
      return if last.main.run <= c.runs then Start else Finish;
    }
    match last.capture
    case Gathering => return Gather([]);
    case Selecting(_) => return if last.blocked == [] then GiveUp else Take(0);
    case Sending(_) => return if last.main.Waiting? then Exit(None) else Deliver;
  }

  lemma {:induction false} StaysReturned(c: Config, s: State, steps: seq<Step>, last: State)
    requires IsRun(c, s, steps, last) && s.main.Returned?
    ensures last.main == s.main
    decreases |steps|
  {
    if steps != [] {
      StaysReturned(c, Apply(c, s, steps[0]), steps[1..], last);
    }
  }

  // ----- What the steps say of the loop -----

  /** What `f` picks out of the steps of a run, in order. */
  function Picked<T>(steps: seq<Step>, f: Step -> Option<T>): seq<T> {
    if steps == [] then []
    else
      var v := f(steps[|steps| - 1]);
      Picked(steps[..|steps| - 1], f) + (if v.Some? then [v.value] else [])
  }

  lemma PickedUnfold<T>(done: seq<Step>, step: Step, f: Step -> Option<T>)
    ensures Picked(done + [step], f) == Picked(done, f) + (if f(step).Some? then [f(step).value] else [])
  {
    assert (done + [step])[..|done|] == done;
  }

  /** How the command of a run ended. */
  function ExitOf(step: Step): Option<Option<string>> {
    if step.Exit? then Some(step.err) else None
  }

  /** The attempt to start the command of a run. */
  function LaunchOf(step: Step): Option<()> {
    if step.StartFails? || step.CaptureFails? || step.Start? then Some(()) else None
  }

  function SamplesOf(step: Step): Option<seq<Sample>> {
    if step.Gather? then Some(step.samples) else None
  }

  /** Whether a capture found a result. */
  function FoundOf(step: Step): Option<bool> {
    if step.Take? then Some(true) else if step.GiveUp? then Some(false) else None
  }

  function ResultsOf(step: Step): Option<Results> {
    if step.Post? then Some(step.results) else None
  }

  predicate EndsBadly(delivered: seq<Option<Results>>, exits: seq<Option<string>>, e: string) {
    && 0 < |delivered| <= |exits|
    && delivered[|delivered| - 1] == None && exits[|delivered| - 1] == Some(e)
  }

  ghost predicate LoopKept(done: seq<Step>, s: State) {
    var exits := Picked(done, ExitOf);
    && |exits| == |s.delivered| + (if s.main.Receiving? then 1 else 0)
    && (s.main.Receiving? ==> exits[|s.delivered|] == s.main.err)
    && (Finish in done <==> s.main.Returned? && s.main.result.Ok?)
    && (forall e :: s.main == Returned(Err(e)) <==>
          StartFails(e) in done || CaptureFails(e) in done || EndsBadly(s.delivered, exits, e))
  }

  ghost predicate CaptureKept(done: seq<Step>, s: State) {
    var found, samples := Picked(done, FoundOf), Picked(done, SamplesOf);
    && |found| == |s.taken| && |samples| == |s.taken| + (if s.capture.Selecting? then 1 else 0)
    && (s.capture.Selecting? ==> samples[|s.taken|] == s.capture.samples)
    && (forall i :: 0 <= i < |samples| ==> SortedByTime(samples[i]))
    && (forall i :: 0 <= i < |s.taken| ==> TakenRight(s.taken[i], found[i], samples[i], s.posted))
    && (forall p :: p in s.spawned || p in s.blocked ==> p in s.posted)
  }

  predicate TakenRight(t: Taken, found: bool, samples: seq<Sample>, posted: seq<Posted>) {
    && (t.Took? <==> found)
    && (found ==> t.samples == samples && t.post in posted)
  }

  ghost predicate PostsKept(done: seq<Step>, s: State) {
    var results := Picked(done, ResultsOf);
    && |results| == |s.posted|
    && forall i :: 0 <= i < |s.posted| ==> s.posted[i].results == results[i]
  }

  /** `env` is `base` and `n` more entries that switch coverage on. */
  predicate EnvIs(env: seq<string>, base: seq<string>, n: nat) {
    && |env| == |base| + n && base <= env
    && forall i :: |base| <= i < |env| ==> env[i] == "TAS_COLLECT_COVERAGE=true"
  }

  ghost predicate EnvKept(c: Config, base: seq<string>, done: seq<Step>, s: State) {
    EnvIs(s.env, base, if Flags(c) then |Picked(done, LaunchOf)| else 0)
  }

  lemma StepKeepsLoop(c: Config, done: seq<Step>, s: State, step: Step)
    requires LoopKept(done, s) && Enabled(c, s, step)
    ensures LoopKept(done + [step], Apply(c, s, step))
  {
    PickedUnfold(done, step, ExitOf);
    var t := Apply(c, s, step);
    forall e
      ensures t.main == Returned(Err(e)) <==>
                || StartFails(e) in done + [step] || CaptureFails(e) in done + [step]
                || EndsBadly(t.delivered, Picked(done + [step], ExitOf), e)
    {
      assert s.main == Returned(Err(e)) <==>
               StartFails(e) in done || CaptureFails(e) in done || EndsBadly(s.delivered, Picked(done, ExitOf), e);
    }
  }

  lemma StepKeepsTaken(c: Config, done: seq<Step>, s: State, step: Step)
    requires CaptureKept(done, s) && (s.main.Ready? ==> s.capture.Idle?) && Enabled(c, s, step)
    ensures CaptureKept(done + [step], Apply(c, s, step))
  {
    PickedUnfold(done, step, FoundOf);
    PickedUnfold(done, step, SamplesOf);
    var t := Apply(c, s, step);
    forall p | p in t.spawned || p in t.blocked ensures p in t.posted {
      assert p in s.spawned || p in s.blocked || p in t.posted;
    }
    if step.Take? {
      assert s.blocked[step.k] in s.posted;
    }
  }

  lemma StepKeepsPosts(c: Config, done: seq<Step>, s: State, step: Step)
    requires PostsKept(done, s) && Enabled(c, s, step)
    ensures PostsKept(done + [step], Apply(c, s, step))
  {
    PickedUnfold(done, step, ResultsOf);
  }

  lemma StepKeepsEnv(c: Config, base: seq<string>, done: seq<Step>, s: State, step: Step)
    requires EnvKept(c, base, done, s) && Enabled(c, s, step)
    ensures EnvKept(c, base, done + [step], Apply(c, s, step))
  {
    PickedUnfold(done, step, LaunchOf);
  }

  ghost predicate HistoryKept(c: Config, base: seq<string>, done: seq<Step>, s: State) {
    LoopKept(done, s) && CaptureKept(done, s) && PostsKept(done, s) && EnvKept(c, base, done, s)
  }

  lemma StepKeepsHistory(c: Config, base: seq<string>, done: seq<Step>, s: State, step: Step)
    requires HistoryKept(c, base, done, s) && Inv(c, s) && Enabled(c, s, step)
    ensures HistoryKept(c, base, done + [step], Apply(c, s, step))
  {
    StepKeepsLoop(c, done, s, step);
    StepKeepsTaken(c, done, s, step);
    StepKeepsPosts(c, done, s, step);
    StepKeepsEnv(c, base, done, s, step);
  }

  /** The step that came last. */
  lemma {:induction false} LastStep(c: Config, s: State, steps: seq<Step>, last: State) returns (before: State)
    requires IsRun(c, s, steps, last) && steps != []
    ensures IsRun(c, s, steps[..|steps| - 1], before) && Enabled(c, before, steps[|steps| - 1])
    ensures last == Apply(c, before, steps[|steps| - 1])
    decreases |steps|
  {
    if |steps| == 1 {
      before := s;
    } else {
      before := LastStep(c, Apply(c, s, steps[0]), steps[1..], last);
      assert steps[1..][..|steps| - 2] == steps[..|steps| - 1][1..];
    }
  }

  lemma {:induction false} RunKeepsHistory(c: Config, env: seq<string>, steps: seq<Step>, last: State)
    requires IsRun(c, Begin(env), steps, last)
    ensures HistoryKept(c, env, steps, last)
  {
    if steps != [] {
      var front := steps[..|steps| - 1];
      var before := LastStep(c, Begin(env), steps, last);
      RunKeepsHistory(c, env, front, before);
      RunKeepsInv(c, Begin(env), front, before);
      StepKeepsHistory(c, env, front, before, steps[|steps| - 1]);
      assert front + [steps[|steps| - 1]] == steps;
    }
  }

  /**
   The loop returns an error exactly if a command could not be started, its process could not be found, or the run just
   over ended with that error and delivered nothing; it returns results exactly if it finished.  So a delivery that
   holds results never ends it, however the command ended.
   */
  lemma LoopEnds(c: Config, env: seq<string>, steps: seq<Step>, last: State)
    requires IsRun(c, Begin(env), steps, last)
    ensures
      var exits, n := Picked(steps, ExitOf), |last.delivered|;
      && n <= |exits|
      && forall e :: last.main == Returned(Err(e)) <==>
           || StartFails(e) in steps || CaptureFails(e) in steps
           || (n > 0 && last.delivered[n - 1] == None && exits[n - 1] == Some(e))
    ensures last.main.Returned? && last.main.result.Ok? <==> Finish in steps
    ensures last.main.Ready? ==> last.main.run == |last.delivered| + 1
  {
    RunKeepsHistory(c, env, steps, last);
    RunKeepsInv(c, Begin(env), steps, last);
    forall e
      ensures last.main == Returned(Err(e)) <==>
                || StartFails(e) in steps || CaptureFails(e) in steps
                || EndsBadly(last.delivered, Picked(steps, ExitOf), e)
    {
    }
  }

  /** The environment holds one more entry for each attempt to start a run, if coverage goes by the environment. */
  lemma EnvGrows(c: Config, env: seq<string>, steps: seq<Step>, last: State)
    requires IsRun(c, Begin(env), steps, last)
    ensures
      var n := if c.framework != "jasmine" && c.framework != "mocha" && c.collectCoverage
               then |Picked(steps, LaunchOf)| else 0;
      && |last.env| == |env| + n && env <= last.env
      && forall i :: |env| <= i < |last.env| ==> last.env[i] == "TAS_COLLECT_COVERAGE=true"
  {
    RunKeepsHistory(c, env, steps, last);
  }

  ghost predicate EachGotSamples(ts: seq<Test>, ps: seq<Sample>, us: seq<Test>) {
    |us| == |ts| && forall j :: 0 <= j < |ts| ==> GotSamples(ts[j], ps, us[j])
  }

  /** Results with the samples given to every test and suite of every batch if statistics are collected. */
  ghost predicate HandedOn(collectStats: bool, r: Results, ps: seq<Sample>, given: Results) {
    if collectStats then
      && |given| == |r|
      && forall i :: 0 <= i < |r| ==>
           EachGotSamples(r[i].tests, ps, given[i].tests) && EachGotSamples(r[i].suites, ps, given[i].suites)
    else given == r
  }

  lemma UpdatedAllGotSamples(ts: seq<Test>, ps: seq<Sample>)
    requires SortedByTime(ps)
    ensures EachGotSamples(ts, ps, UpdatedAll(ts, ps))
  {
    forall j | 0 <= j < |ts| ensures GotSamples(ts[j], ps, UpdatedAll(ts, ps)[j]) {
      UpdatedGotSamples(ts[j], ps);
    }
  }

  lemma AnnotatedIsHandedOn(c: Config, r: Results, ps: seq<Sample>)
    requires SortedByTime(ps)
    ensures HandedOn(c.collectStats, r, ps, Annotated(c, r, ps))
  {
    forall i | 0 <= i < |r|
      ensures EachGotSamples(r[i].tests, ps, UpdatedAll(r[i].tests, ps))
      ensures EachGotSamples(r[i].suites, ps, UpdatedAll(r[i].suites, ps))
    {
      UpdatedAllGotSamples(r[i].tests, ps);
      UpdatedAllGotSamples(r[i].suites, ps);
    }
  }

  /**
   What run `i` delivered: nothing exactly if its capture found nothing; otherwise a result that was posted, with the
   samples its own capture gathered.
   */
  lemma DeliveredBySteps(c: Config, env: seq<string>, steps: seq<Step>, last: State, i: nat)
    requires IsRun(c, Begin(env), steps, last) && i < |last.delivered|
    ensures i < |Picked(steps, FoundOf)| && i < |Picked(steps, SamplesOf)|
    ensures last.delivered[i].Some? <==> Picked(steps, FoundOf)[i]
    ensures last.delivered[i].Some? ==>
              exists k: nat :: k < |Picked(steps, ResultsOf)|
                && HandedOn(c.collectStats, Picked(steps, ResultsOf)[k], Picked(steps, SamplesOf)[i],
                            last.delivered[i].value)
  {
    RunKeepsHistory(c, env, steps, last);
    RunKeepsInv(c, Begin(env), steps, last);
    var t, samples := last.taken[i], Picked(steps, SamplesOf)[i];
    assert TakenRight(t, Picked(steps, FoundOf)[i], samples, last.posted);
    if t.Took? {
      AnnotatedIsHandedOn(c, t.post.results, samples);
      var k: nat :| k < |last.posted| && last.posted[k] == t.post;
      assert Picked(steps, ResultsOf)[k] == t.post.results;
    }
  }

  function Pieces(delivered: seq<Option<Results>>): seq<Results> {
    seq(|delivered|, i requires 0 <= i < |delivered| => if delivered[i].Some? then delivered[i].value else [])
  }

  lemma {:induction false} TogetherLaysOut(delivered: seq<Option<Results>>) returns (cuts: seq<nat>)
    ensures LaidOut(Together(delivered), [], Pieces(delivered), cuts)
  {
    if delivered == [] {
      cuts := [0];
    } else {
      var front, v := delivered[..|delivered| - 1], delivered[|delivered| - 1];
      var piece: Results := if v.Some? then v.value else [];
      var ends := TogetherLaysOut(front);
      OneMorePiece(Together(front), [], Pieces(front), ends, piece);
      cuts := ends + [|Together(front) + piece|];
      assert Pieces(front) + [piece] == Pieces(delivered);
      assert Together(front) + piece == Together(delivered);
    }
  }

  /**
   On a normal return there is one delivery for each run, and the aggregate is what they delivered, in run order: it is
   cut at `cuts` into what each run delivered, an empty piece for a run that delivered nothing.
   */
  lemma NormalReturn(c: Config, env: seq<string>, steps: seq<Step>, last: State) returns (cuts: seq<nat>)
    requires IsRun(c, Begin(env), steps, last) && last.main.Returned? && last.main.result.Ok?
    ensures |last.taken| == |last.delivered| == if c.runs < 0 then 0 else c.runs
    ensures LaidOut(last.main.result.value, [], Pieces(last.delivered), cuts)
    ensures forall i :: 0 <= i < |last.delivered| ==>
              Pieces(last.delivered)[i] == match last.delivered[i] case None => [] case Some(r) => r
  {
    RunKeepsInv(c, Begin(env), steps, last);
    cuts := TogetherLaysOut(last.delivered);
  }

  // ----- Whose results a run gets -----

  /** Pending results are of runs that have started, and no capture took one of a later run than its own. */
  ghost predicate FromThePast(s: State) {
    && (forall p :: p in s.spawned || p in s.blocked ==> p.run <= s.started)
    && forall i :: 0 <= i < |s.taken| && s.taken[i].Took? ==> s.taken[i].post.run <= i + 1
  }

  lemma StepKeepsPast(c: Config, s: State, step: Step)
    requires Counted(s) && FromThePast(s) && (s.main.Ready? ==> s.capture.Idle?) && Enabled(c, s, step)
    ensures FromThePast(Apply(c, s, step))
  {
    if step.Take? {
      assert s.blocked[step.k] in s.blocked;
    } else if step.Arrive? {
      assert s.spawned[step.k] in s.spawned;
    }
  }

  lemma {:induction false} RunKeepsPast(c: Config, s: State, steps: seq<Step>, last: State)
    requires Inv(c, s) && FromThePast(s) && IsRun(c, s, steps, last)
    ensures Inv(c, last) && FromThePast(last)
    decreases |steps|
  {
    if steps != [] {
      StepConserves(c, s, steps[0]);
      StepAggregates(c, s, steps[0]);
      StepKeepsPast(c, s, steps[0]);
      RunKeepsPast(c, Apply(c, s, steps[0]), steps[1..], last);
    }
  }

  /** Whatever the schedule, a run gets a result of its own or of an earlier run. */
  lemma NeverFromLater(c: Config, env: seq<string>, steps: seq<Step>, last: State)
    requires IsRun(c, Begin(env), steps, last)
    ensures forall i :: 0 <= i < |last.taken| && last.taken[i].Took? ==> last.taken[i].post.run <= i + 1
  {
    RunKeepsPast(c, Begin(env), steps, last);
  }

  /** The capture of the latest run can take a result of an earlier one. */
  ghost predicate CanTakeStale(c: Config, s: State) {
    exists k: nat :: Enabled(c, s, Take(k)) && IsStale(Apply(c, s, Take(k)).taken, |s.taken|)
  }

  predicate IsStale(taken: seq<Taken>, i: nat) {
    i < |taken| && taken[i].Took? && taken[i].post.run < i + 1
  }

  /** A result of an earlier run that no capture has taken. */
  ghost predicate LeftOver(s: State, p: Posted) {
    p.run < s.started && multiset(s.posted)[p] > multiset(Posts(s.taken))[p]
  }

  /** A capture that selects can take a stale result exactly if one of an earlier run is waiting in the channel. */
  lemma StaleIffWaiting(c: Config, env: seq<string>, steps: seq<Step>, s: State)
    requires IsRun(c, Begin(env), steps, s) && s.capture.Selecting?
    ensures CanTakeStale(c, s) <==> exists p :: p in s.blocked && p.run < s.started
  {
    RunKeepsInv(c, Begin(env), steps, s);
    if p :| p in s.blocked && p.run < s.started {
      var k: nat :| k < |s.blocked| && s.blocked[k] == p;
      assert Enabled(c, s, Take(k)) && IsStale(Apply(c, s, Take(k)).taken, |s.taken|);
    }
    if CanTakeStale(c, s) {
      var k: nat :| Enabled(c, s, Take(k)) && IsStale(Apply(c, s, Take(k)).taken, |s.taken|);
      assert s.blocked[k] in s.blocked;
    }
  }

  /** One is waiting there or on its way exactly if some result of an earlier run was never taken. */
  lemma PendingIffLeftOver(c: Config, env: seq<string>, steps: seq<Step>, s: State)
    requires IsRun(c, Begin(env), steps, s)
    ensures (exists p :: (p in s.spawned || p in s.blocked) && p.run < s.started) <==> exists p :: LeftOver(s, p)
  {
    RunKeepsInv(c, Begin(env), steps, s);
    forall p ensures LeftOver(s, p) <==> (p in s.spawned || p in s.blocked) && p.run < s.started {
      Balance(s, p);
    }
  }

  lemma Balance(s: State, p: Posted)
    requires Conserved(s)
    ensures multiset(s.posted)[p] == multiset(s.spawned)[p] + multiset(s.blocked)[p] + multiset(Posts(s.taken))[p]
    ensures p in s.spawned <==> multiset(s.spawned)[p] > 0
    ensures p in s.blocked <==> multiset(s.blocked)[p] > 0
  {
    assert p in s.spawned <==> p in multiset(s.spawned);
    assert p in s.blocked <==> p in multiset(s.blocked);
  }

  /**
   The runner posts at most once in a run, before its samples are gathered, and its result has reached the channel
   when they are.
   */
  predicate Timely(s: State, step: Step) {
    match step
    case Post(_) => s.main.Waiting? && s.capture.Gathering? && s.spawned + s.blocked == []
    case Gather(_) => s.spawned == []
    case _ => true
  }

  predicate IsTimely(c: Config, s: State, steps: seq<Step>)
    decreases |steps|
  {
    steps == [] || (Enabled(c, s, steps[0]) && Timely(s, steps[0]) && IsTimely(c, Apply(c, s, steps[0]), steps[1..]))
  }

  predicate OwnPending(s: State) {
    && (s.capture.Idle? || s.capture.Sending? ==> s.spawned == s.blocked == [])
    && (s.capture.Selecting? ==> s.spawned == [])
    && |s.spawned| + |s.blocked| <= 1
    && (s.spawned != [] ==> s.spawned[0].run == s.started)
    && (s.blocked != [] ==> s.blocked[0].run == s.started)
  }

  ghost predicate OwnTaken(taken: seq<Taken>) {
    forall i :: 0 <= i < |taken| && taken[i].Took? ==> taken[i].post.run == i + 1
  }

  lemma StepKeepsPending(c: Config, s: State, step: Step)
    requires OwnPending(s) && (s.main.Ready? ==> s.capture.Idle?) && Enabled(c, s, step) && Timely(s, step)
    ensures OwnPending(Apply(c, s, step))
  {
  }

  lemma StepKeepsOwn(c: Config, s: State, step: Step)
    requires Counted(s) && Aggregates(c, s) && OwnPending(s) && OwnTaken(s.taken)
    requires Enabled(c, s, step) && Timely(s, step)
    ensures OwnPending(Apply(c, s, step)) && OwnTaken(Apply(c, s, step).taken)
  {
    StepKeepsPending(c, s, step);
  }

  lemma {:induction false} TimelyKeepsOwn(c: Config, s: State, steps: seq<Step>, last: State)
    requires Inv(c, s) && OwnPending(s) && OwnTaken(s.taken) && IsRun(c, s, steps, last) && IsTimely(c, s, steps)
    ensures Inv(c, last) && OwnPending(last) && OwnTaken(last.taken)
    decreases |steps|
  {
    if steps != [] {
      StepConserves(c, s, steps[0]);
      StepAggregates(c, s, steps[0]);
      StepKeepsOwn(c, s, steps[0]);
      TimelyKeepsOwn(c, Apply(c, s, steps[0]), steps[1..], last);
    }
  }

  /** When results are timely every run gets its own, and on a normal return none is left over. */
  lemma TimelyRunsGetTheirOwn(c: Config, env: seq<string>, steps: seq<Step>, last: State)
    requires IsRun(c, Begin(env), steps, last) && IsTimely(c, Begin(env), steps)
    ensures forall i :: 0 <= i < |last.taken| && last.taken[i].Took? ==> last.taken[i].post.run == i + 1
    ensures last.main.Returned? ==> multiset(last.posted) == multiset(Posts(last.taken))
  {
    TimelyKeepsOwn(c, Begin(env), steps, last);
  }

  lemma {:induction false} RunOn(c: Config, s: State, steps: seq<Step>, last: State, step: Step)
    returns (more: seq<Step>, t: State)
    requires IsRun(c, s, steps, last) && Enabled(c, last, step)
    ensures more == steps + [step] && t == Apply(c, last, step) && IsRun(c, s, more, t)
    decreases |steps|
  {
    more, t := steps + [step], Apply(c, last, step);
    if steps != [] {
      var rest, u := RunOn(c, Apply(c, s, steps[0]), steps[1..], last, step);
      assert more[1..] == rest;
    }
  }

  /** A result is accepted in the first run but has not reached the channel when that run's capture looks. */
  lemma LateResult(c: Config, env: seq<string>, r: Results) returns (steps: seq<Step>, last: State)
    requires c.runs >= 1
    ensures IsRun(c, Begin(env), steps, last)
    ensures last.main == Ready(2) && last.capture == Idle && last.aggregate == []
    ensures last.blocked == [Posted(1, r)] && last.taken == [Nothing]
  {
    var s := Begin(env);
    steps, last := [], s;
    steps, last := RunOn(c, s, steps, last, Start);
    steps, last := RunOn(c, s, steps, last, Post(r));
    steps, last := RunOn(c, s, steps, last, Gather([]));
    steps, last := RunOn(c, s, steps, last, GiveUp);
    steps, last := RunOn(c, s, steps, last, Arrive(0));
    steps, last := RunOn(c, s, steps, last, Exit(None));
    steps, last := RunOn(c, s, steps, last, Deliver);
  }

  /** Otherwise a result can be taken for another run: a late one of the first run is delivered as the second's. */
  lemma StaleResult(c: Config, env: seq<string>, r: Results) returns (steps: seq<Step>, last: State)
    requires c.runs == 2
    ensures IsRun(c, Begin(env), steps, last)
    ensures last.taken == [Nothing, Took(Posted(1, r), [])]
    ensures last.main == Returned(Ok([] + Annotated(c, r, [])))
  {
    var s := Begin(env);
    steps, last := LateResult(c, env, r);
    steps, last := RunOn(c, s, steps, last, Start);
    steps, last := RunOn(c, s, steps, last, Gather([]));
    steps, last := RunOn(c, s, steps, last, Take(0));
    steps, last := RunOn(c, s, steps, last, Exit(None));
    steps, last := RunOn(c, s, steps, last, Deliver);
    steps, last := RunOn(c, s, steps, last, Finish);
  }
}
