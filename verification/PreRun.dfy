/**
 The pre-run stage: one goroutine for each submodule, one error channel, one blocklist fetched once.
 Models `runPreRunCommand` and `runPreRunForEachSubModule` of pkg/driver/driver_v2.go with the once of
 pkg/blocktestservice/setup.go, as steps that any schedule may interleave.
 */
module PreRun {
  import opened Layout
  import opened Wrappers

  datatype SubModule = SubModule(name: string, prerun: bool)

  /** Why a submodule failed. */
  datatype Failure = Blocklist(e: string) | UserCommands(remark: string) | Runners(remark: string)

  type Outcome = Option<Failure>

  /** Where a goroutine stands. */
  datatype Proc =
    | AtOnce
    | InOnce
    | AtPoll
    | Commands
    | Install
    | Back(outcome: Outcome)
    | AtSend(outcome: Outcome)
    | Sent(outcome: Outcome)
    | Finished(outcome: Outcome)

  datatype Once = NotStarted | Running(who: nat) | Done(who: nat, failure: Option<string>)

  /** The caller: spawning and then waiting for all, receiving the k-th error, back with a result. */
  datatype Caller = Spawning | Receiving(k: nat) | Returned(result: Outcome)

  /**
   `errors` is the channel with room for one error a submodule; `order` records who has sent on it;
   `errChan` is the blocklist's channel with room for one error; `failed` is the task's status.
   */
  datatype State = State(
    caller: Caller,
    procs: seq<Proc>,
    buffers: seq<string>,
    mainBuffer: string,
    errors: seq<Outcome>,
    order: seq<nat>,
    failed: bool,
    once: Once,
    errChan: Option<string>)

  /** What a goroutine does next. */
  datatype Move =
    | EnterOnce
    | LeaveOnce(failure: Option<string>)
    | SkipOnce
    | Poll
    | EndCommands(err: Option<string>)
    | EndInstall(err: Option<string>)
    | Report
    | Send
    | Leave

  datatype Step = Spawn | Print(i: nat, text: string) | Go(i: nat, move: Move) | Join | Receive

  /**
   The main buffer when the goroutines start: `top` is what the top-level commands printed, if there are any.
   When those fail the stage has returned their error before this.
   */
  function AfterTop(buffer: string, top: Option<string>): string {
    match top
    case None => buffer
    case Some(printed) => buffer + "Running Pre Run on Top level" + printed
  }

  function Start(buffer: string): State {
    State(Spawning, [], [], buffer, [], [], false, NotStarted, None)
  }

  // ----- Steps -----

  predicate AllFinished(s: State) {
    forall i :: 0 <= i < |s.procs| ==> s.procs[i].Finished?
  }

  predicate CanMove(subs: seq<SubModule>, s: State, p: Proc, move: Move) {
    match move
    case EnterOnce => p.AtOnce? && s.once.NotStarted?
    case LeaveOnce(_) => p.InOnce? && s.errChan.None?
    case SkipOnce => p.AtOnce? && s.once.Done?
    case Poll => p.AtPoll?
    case EndCommands(_) => p.Commands?
    case EndInstall(_) => p.Install?
    case Report => p.Back?
    case Send => p.AtSend? && |s.errors| < |subs|
    case Leave => p.Sent?
  }

  /** Whether a step can be taken; a goroutine that can take none is blocked. */
  predicate Enabled(subs: seq<SubModule>, s: State, step: Step) {
    match step
    case Spawn => s.caller.Spawning? && |s.procs| < |subs|
    case Print(i, _) => i < |s.procs| && i < |s.buffers| && s.procs[i].Commands?
    case Go(i, move) => i < |s.procs| && CanMove(subs, s, s.procs[i], move)
    case Join => s.caller.Spawning? && |s.procs| == |subs| && AllFinished(s)
    case Receive => s.caller.Receiving? && (s.caller.k < |subs| ==> s.errors != [])
  }

  function Concat(bs: seq<string>): string {
    if bs == [] then "" else Concat(bs[..|bs| - 1]) + bs[|bs| - 1]
  }

  /** Where goroutine `i`, now at `p`, goes. */
  function Next(subs: seq<SubModule>, s: State, i: nat, p: Proc, move: Move): Proc
    requires CanMove(subs, s, p, move)
  {
    match move
    case EnterOnce => InOnce
    case LeaveOnce(_) => AtPoll
    case SkipOnce => AtPoll
    case Poll =>
      if s.errChan.Some? then Back(Some(Blocklist(s.errChan.value)))
      else if i < |subs| && subs[i].prerun then Commands
      else Install
    case EndCommands(err) => if err.Some? then Back(Some(UserCommands(err.value))) else Install
    case EndInstall(err) => Back(if err.Some? then Some(Runners(err.value)) else None)
    case Report => AtSend(p.outcome)
    case Send => Sent(p.outcome)
    case Leave => Finished(p.outcome)
  }

  /** What the move of goroutine `i`, now at `p`, changes besides where it stands. */
  function Effect(subs: seq<SubModule>, s: State, i: nat, p: Proc, move: Move): State
    requires CanMove(subs, s, p, move)
  {
    match move
    case EnterOnce => s.(once := Running(i))
    case LeaveOnce(failure) => s.(once := Done(i, failure), errChan := failure)
    case Poll => s.(errChan := None)
    case Report => s.(failed := s.failed || p.outcome.Some?)
    case Send => s.(errors := s.errors + [p.outcome], order := s.order + [i])
    case _ => s
  }

  function Apply(subs: seq<SubModule>, s: State, step: Step): State
    requires Enabled(subs, s, step)
  {
    match step
    case Spawn => s.(procs := s.procs + [AtOnce], buffers := s.buffers + [""])
    case Print(i, text) => s.(buffers := s.buffers[i := s.buffers[i] + text])
    case Go(i, move) =>
      Effect(subs, s, i, s.procs[i], move).(procs := s.procs[i := Next(subs, s, i, s.procs[i], move)])
    case Join => s.(caller := Receiving(0), mainBuffer := s.mainBuffer + Concat(s.buffers))
    case Receive =>
      if s.caller.k == |subs| then s.(caller := Returned(None))
      else if s.errors == [] then s
      else if s.errors[0].Some? then s.(caller := Returned(s.errors[0]), errors := s.errors[1..])
      else s.(caller := Receiving(s.caller.k + 1), errors := s.errors[1..])
  }

  /** The states of a run from `s`. */
  predicate IsRun(subs: seq<SubModule>, s: State, steps: seq<Step>, last: State)
    decreases |steps|
  {
    if steps == [] then s == last
    else Enabled(subs, s, steps[0]) && IsRun(subs, Apply(subs, s, steps[0]), steps[1..], last)
  }

  // ----- What every step keeps -----

  ghost predicate HasSent(p: Proc) {
    p.Sent? || p.Finished?
  }

  ghost predicate HasReported(p: Proc) {
    p.AtSend? || p.Sent? || p.Finished?
  }

  ghost predicate HasOutcome(p: Proc) {
    p.Back? || HasReported(p)
  }

  /** This goroutine has been told of the failed blocklist. */
  ghost predicate Told(p: Proc) {
    HasOutcome(p) && p.outcome.Some? && p.outcome.value.Blocklist?
  }

  ghost predicate Shape(subs: seq<SubModule>, s: State) {
    && |s.procs| == |s.buffers| <= |subs|
    && (!s.caller.Spawning? ==> |s.procs| == |subs| && AllFinished(s))
  }

  predicate DistinctNats(order: seq<nat>) {
    forall j, k :: 0 <= j < k < |order| ==> order[j] != order[k]
  }

  /** Who sent is in `order`, once, and the channel holds the outcomes of the last of them. */
  ghost predicate Sends(procs: seq<Proc>, order: seq<nat>, errors: seq<Outcome>) {
    && DistinctNats(order)
    && (forall j :: 0 <= j < |order| ==> order[j] < |procs| && HasSent(procs[order[j]]))
    && (forall i :: 0 <= i < |procs| && HasSent(procs[i]) ==> i in order)
    && |errors| <= |order|
    && (forall j :: |order| - |errors| <= j < |order| ==> errors[j - (|order| - |errors|)] == procs[order[j]].outcome)
  }

  /** How many errors the caller has taken. */
  function Taken(s: State): int {
    |s.order| - |s.errors|
  }

  ghost predicate NoneFailed(s: State, k: int)
    requires Sends(s.procs, s.order, s.errors)
  {
    k <= |s.order| && forall j :: 0 <= j < k ==> s.procs[s.order[j]].outcome.None?
  }

  ghost predicate SomeSent(s: State, r: Outcome) {
    exists i :: 0 <= i < |s.procs| && HasSent(s.procs[i]) && s.procs[i].outcome == r
  }

  ghost predicate Callers(subs: seq<SubModule>, s: State)
    requires Sends(s.procs, s.order, s.errors)
  {
    match s.caller
    case Spawning => Taken(s) == 0
    case Receiving(k) => k == Taken(s) <= |subs| && NoneFailed(s, k)
    case Returned(r) => if r.None? then NoneFailed(s, |subs|) else SomeSent(s, r)
  }

  ghost predicate Status(procs: seq<Proc>, failed: bool) {
    failed <==> exists i :: 0 <= i < |procs| && HasReported(procs[i]) && procs[i].outcome.Some?
  }

  /** At most one goroutine runs the fetch, and its failure waits in the channel until the first one takes it. */
  ghost predicate OnceKept(procs: seq<Proc>, once: Once, errChan: Option<string>) {
    match once
    case NotStarted => errChan.None? && forall i :: 0 <= i < |procs| ==> procs[i] == AtOnce
    case Running(who) =>
      && errChan.None? && who < |procs| && procs[who] == InOnce
      && forall i :: 0 <= i < |procs| && i != who ==> procs[i] == AtOnce
    case Done(who, failure) =>
      && who < |procs| && !procs[who].AtOnce?
      && (forall i :: 0 <= i < |procs| ==> !procs[i].InOnce?)
      && (failure.None? ==> errChan.None? && NoneTold(procs))
      && (failure.Some? && errChan.Some? ==> errChan == failure && NonePolled(procs))
      && (failure.Some? && errChan.None? ==> ToldOne(procs, failure.value))
  }

  ghost predicate NoneTold(procs: seq<Proc>) {
    forall i :: 0 <= i < |procs| ==> !Told(procs[i])
  }

  ghost predicate NonePolled(procs: seq<Proc>) {
    forall i :: 0 <= i < |procs| ==> procs[i].AtOnce? || procs[i].AtPoll?
  }

  ghost predicate ToldOne(procs: seq<Proc>, e: string) {
    exists i: nat :: OnlyTold(procs, i, e)
  }

  ghost predicate OnlyTold(procs: seq<Proc>, i: nat, e: string) {
    && i < |procs| && Told(procs[i]) && procs[i].outcome == Some(Blocklist(e))
    && forall j :: 0 <= j < |procs| && j != i ==> !Told(procs[j])
  }

  predicate Buffers(s: State, buffer: string) {
    s.mainBuffer == if s.caller.Spawning? then buffer else buffer + Concat(s.buffers)
  }

  ghost predicate Inv(subs: seq<SubModule>, buffer: string, s: State) {
    && Shape(subs, s)
    && Sends(s.procs, s.order, s.errors)
    && Callers(subs, s)
    && Status(s.procs, s.failed)
    && OnceKept(s.procs, s.once, s.errChan)
    && Buffers(s, buffer)
  }

  lemma StepKeepsShape(subs: seq<SubModule>, s: State, step: Step)
    requires Shape(subs, s) && Enabled(subs, s, step)
    ensures Shape(subs, Apply(subs, s, step))
  {
  }

  /** A goroutine that moves on without sending. */
  lemma SendsMoved(procs: seq<Proc>, order: seq<nat>, errors: seq<Outcome>, i: nat, p: Proc)
    requires Sends(procs, order, errors) && i < |procs|
    requires HasSent(p) == HasSent(procs[i]) && (HasSent(p) ==> p.outcome == procs[i].outcome)
    ensures Sends(procs[i := p], order, errors)
  {
    forall k | 0 <= k < |procs| && HasSent(procs[i := p][k]) ensures k in order {
      assert HasSent(procs[k]);
    }
  }

  lemma SendsSent(procs: seq<Proc>, order: seq<nat>, errors: seq<Outcome>, i: nat, o: Outcome)
    requires Sends(procs, order, errors) && i < |procs| && procs[i] == AtSend(o)
    ensures Sends(procs[i := Sent(o)], order + [i], errors + [o])
  {
    var after := procs[i := Sent(o)];
    forall k | 0 <= k < |procs| && HasSent(after[k]) ensures k in order + [i] {
      assert k == i || HasSent(procs[k]);
    }
  }

  lemma SendsSpawned(procs: seq<Proc>, order: seq<nat>, errors: seq<Outcome>)
    requires Sends(procs, order, errors)
    ensures Sends(procs + [AtOnce], order, errors)
  {
    forall k | 0 <= k <= |procs| && HasSent((procs + [AtOnce])[k]) ensures k in order {
      assert HasSent(procs[k]);
    }
  }

  lemma SendsReceived(procs: seq<Proc>, order: seq<nat>, errors: seq<Outcome>)
    requires Sends(procs, order, errors) && errors != []
    ensures Sends(procs, order, errors[1..])
  {
    forall j | |order| - |errors| + 1 <= j < |order|
      ensures errors[1..][j - (|order| - |errors| + 1)] == procs[order[j]].outcome
    {
    }
  }

  lemma MoveKeepsSends(subs: seq<SubModule>, s: State, i: nat, move: Move)
    requires Sends(s.procs, s.order, s.errors) && i < |s.procs| && CanMove(subs, s, s.procs[i], move)
    ensures
      var t := Apply(subs, s, Go(i, move));
      Sends(t.procs, t.order, t.errors)
  {
    var next := Next(subs, s, i, s.procs[i], move);
    if move.Send? {
      SendsSent(s.procs, s.order, s.errors, i, s.procs[i].outcome);
    } else {
      SendsMoved(s.procs, s.order, s.errors, i, next);
    }
  }

  lemma StepKeepsSends(subs: seq<SubModule>, s: State, step: Step)
    requires Sends(s.procs, s.order, s.errors) && Enabled(subs, s, step)
    ensures
      var t := Apply(subs, s, step);
      Sends(t.procs, t.order, t.errors)
  {
    match step
    case Spawn => SendsSpawned(s.procs, s.order, s.errors);
    case Go(i, move) => MoveKeepsSends(subs, s, i, move);
    case Print(_, _) =>
    case Join =>
    case Receive =>
      if s.errors != [] {
        SendsReceived(s.procs, s.order, s.errors);
      }
  }

  lemma ReceiveKeepsCallers(subs: seq<SubModule>, s: State)
    requires Sends(s.procs, s.order, s.errors) && Callers(subs, s) && Enabled(subs, s, Receive)
    ensures
      var t := Apply(subs, s, Receive);
      Sends(t.procs, t.order, t.errors) && Callers(subs, t)
  {
    StepKeepsSends(subs, s, Receive);
    if s.caller.k < |subs| {
      var i := s.order[s.caller.k];
      assert s.errors[0] == s.procs[i].outcome && HasSent(s.procs[i]);
    }
  }

  lemma StepKeepsCallers(subs: seq<SubModule>, s: State, step: Step)
    requires Shape(subs, s) && Sends(s.procs, s.order, s.errors) && Callers(subs, s) && Enabled(subs, s, step)
    ensures
      var t := Apply(subs, s, step);
      Sends(t.procs, t.order, t.errors) && Callers(subs, t)
  {
    if step.Receive? {
      ReceiveKeepsCallers(subs, s);
    } else {
      StepKeepsSends(subs, s, step);
    }
  }

  lemma StatusMoved(procs: seq<Proc>, before: bool, now: bool, i: nat, p: Proc)
    requires Status(procs, before) && i < |procs|
    requires HasReported(procs[i]) ==> HasReported(p) && p.outcome == procs[i].outcome && now == before
    requires !HasReported(procs[i]) ==> now == (before || (HasReported(p) && p.outcome.Some?))
    ensures Status(procs[i := p], now)
  {
    var after := procs[i := p];
    if k :| 0 <= k < |procs| && HasReported(procs[k]) && procs[k].outcome.Some? {
      assert HasReported(after[k]) && after[k].outcome.Some?;
    }
    if HasReported(p) && p.outcome.Some? {
      assert HasReported(after[i]) && after[i].outcome.Some?;
    }
  }

  lemma StatusSpawned(procs: seq<Proc>, failed: bool)
    requires Status(procs, failed)
    ensures Status(procs + [AtOnce], failed)
  {
    var after := procs + [AtOnce];
    if k :| 0 <= k < |procs| && HasReported(procs[k]) && procs[k].outcome.Some? {
      assert HasReported(after[k]) && after[k].outcome.Some?;
    }
  }

  lemma StepKeepsStatus(subs: seq<SubModule>, s: State, step: Step)
    requires Status(s.procs, s.failed) && Enabled(subs, s, step)
    ensures Status(Apply(subs, s, step).procs, Apply(subs, s, step).failed)
  {
    var t := Apply(subs, s, step);
    match step
    case Spawn => StatusSpawned(s.procs, s.failed);
    case Go(i, move) => StatusMoved(s.procs, s.failed, t.failed, i, t.procs[i]);
    case Print(_, _) =>
    case Join =>
    case Receive =>
  }

  /** A goroutine past the poll moves on. */
  lemma OnceMoved(procs: seq<Proc>, once: Once, errChan: Option<string>, i: nat, p: Proc)
    requires OnceKept(procs, once, errChan) && i < |procs|
    requires !procs[i].AtOnce? && !procs[i].InOnce? && !procs[i].AtPoll?
    requires !p.AtOnce? && !p.InOnce? && Told(p) == Told(procs[i])
    requires Told(p) ==> p.outcome == procs[i].outcome
    ensures OnceKept(procs[i := p], once, errChan)
  {
    if once.Done? && once.failure.Some? && errChan.None? {
      var k: nat :| OnlyTold(procs, k, once.failure.value);
      assert OnlyTold(procs[i := p], k, once.failure.value);
    }
  }

  lemma OncePolled(subs: seq<SubModule>, s: State, i: nat)
    requires OnceKept(s.procs, s.once, s.errChan) && i < |s.procs| && s.procs[i] == AtPoll
    ensures OnceKept(s.procs[i := Next(subs, s, i, AtPoll, Poll)], s.once, None)
  {
    var after := s.procs[i := Next(subs, s, i, AtPoll, Poll)];
    if s.once.failure.Some? {
      var e := s.once.failure.value;
      if s.errChan.Some? {
        assert OnlyTold(after, i, e);
      } else {
        var k: nat :| OnlyTold(s.procs, k, e);
        assert OnlyTold(after, k, e);
      }
    }
  }

  lemma OnceSkipped(procs: seq<Proc>, once: Once, errChan: Option<string>, i: nat)
    requires OnceKept(procs, once, errChan) && once.Done? && i < |procs| && procs[i] == AtOnce
    ensures OnceKept(procs[i := AtPoll], once, errChan)
  {
    if once.failure.Some? && errChan.None? {
      var k: nat :| OnlyTold(procs, k, once.failure.value);
      assert OnlyTold(procs[i := AtPoll], k, once.failure.value);
    }
  }

  lemma OnceSpawned(procs: seq<Proc>, once: Once, errChan: Option<string>)
    requires OnceKept(procs, once, errChan)
    ensures OnceKept(procs + [AtOnce], once, errChan)
  {
    if once.Done? && once.failure.Some? && errChan.None? {
      var k: nat :| OnlyTold(procs, k, once.failure.value);
      assert OnlyTold(procs + [AtOnce], k, once.failure.value);
    }
  }

  lemma MoveKeepsOnce(subs: seq<SubModule>, s: State, i: nat, move: Move)
    requires OnceKept(s.procs, s.once, s.errChan) && i < |s.procs| && CanMove(subs, s, s.procs[i], move)
    ensures
      var t := Apply(subs, s, Go(i, move));
      OnceKept(t.procs, t.once, t.errChan)
  {
    if move.Poll? {
      OncePolled(subs, s, i);
    } else if move.SkipOnce? {
      OnceSkipped(s.procs, s.once, s.errChan, i);
    } else if !move.EnterOnce? && !move.LeaveOnce? {
      OnceMoved(s.procs, s.once, s.errChan, i, Next(subs, s, i, s.procs[i], move));
    }
  }

  lemma StepKeepsOnce(subs: seq<SubModule>, s: State, step: Step)
    requires OnceKept(s.procs, s.once, s.errChan) && Enabled(subs, s, step)
    ensures
      var t := Apply(subs, s, step);
      OnceKept(t.procs, t.once, t.errChan)
  {
    match step
    case Spawn => OnceSpawned(s.procs, s.once, s.errChan);
    case Go(i, move) => MoveKeepsOnce(subs, s, i, move);
    case Print(_, _) =>
    case Join =>
    case Receive =>
  }

  /** What is printed is final once the caller has put the buffers together. */
  lemma StepKeepsBuffers(subs: seq<SubModule>, buffer: string, s: State, step: Step)
    requires Shape(subs, s) && Buffers(s, buffer) && Enabled(subs, s, step)
    ensures Buffers(Apply(subs, s, step), buffer)
  {
    match step
    case Print(_, _) => assert s.caller.Spawning?;
    case Go(i, move) => assert Apply(subs, s, step).buffers == s.buffers;
    case _ =>
  }

  lemma StepKeepsInv(subs: seq<SubModule>, buffer: string, s: State, step: Step)
    requires Inv(subs, buffer, s) && Enabled(subs, s, step)
    ensures Inv(subs, buffer, Apply(subs, s, step))
  {
    StepKeepsShape(subs, s, step);
    StepKeepsCallers(subs, s, step);
    StepKeepsStatus(subs, s, step);
    StepKeepsBuffers(subs, buffer, s, step);
    StepKeepsOnce(subs, s, step);
  }

  lemma {:induction false} RunKeepsInv(subs: seq<SubModule>, buffer: string, s: State, steps: seq<Step>, last: State)
    requires Inv(subs, buffer, s) && IsRun(subs, s, steps, last)
    ensures Inv(subs, buffer, last)
    decreases |steps|
  {
    if steps != [] {
      StepKeepsInv(subs, buffer, s, steps[0]);
      RunKeepsInv(subs, buffer, Apply(subs, s, steps[0]), steps[1..], last);
    }
  }

  // ----- What every schedule leads to -----

  function Below(n: nat): (r: set<nat>)
    ensures forall i :: i in r <==> 0 <= i < n
    ensures |r| == n
  {
    if n == 0 then {} else Below(n - 1) + {n - 1}
  }

  lemma {:induction false} SubsetIsSmaller(a: set<nat>, b: set<nat>)
    requires a <= b
    ensures |a| <= |b|
  {
    if x :| x in a {
      SubsetIsSmaller(a - {x}, b - {x});
    }
  }

  function Seen(order: seq<nat>): (r: set<nat>)
    ensures forall i :: i in r <==> i in order
  {
    set i | i in order
  }

  lemma {:induction false} CardinalitySeen(order: seq<nat>)
    requires DistinctNats(order)
    ensures |Seen(order)| == |order|
  {
    if order != [] {
      var n := |order| - 1;
      CardinalitySeen(order[..n]);
      assert Seen(order) == Seen(order[..n]) + {order[n]};
    }
  }

  lemma Pigeonhole(order: seq<nat>, n: nat)
    requires DistinctNats(order) && forall j :: 0 <= j < |order| ==> order[j] < n
    ensures |order| <= n
    ensures (forall i :: 0 <= i < n ==> i in order) ==> |order| == n
  {
    CardinalitySeen(order);
    SubsetIsSmaller(Seen(order), Below(n));
    if forall i :: 0 <= i < n ==> i in order {
      SubsetIsSmaller(Below(n), Seen(order));
    }
  }

  /** The channel has room for every goroutine that is about to send. */
  lemma SendNeverBlocks(subs: seq<SubModule>, buffer: string, s: State, i: nat)
    requires Inv(subs, buffer, s) && i < |s.procs| && s.procs[i].AtSend?
    ensures Enabled(subs, s, Go(i, Send))
  {
    assert i !in s.order;
    assert DistinctNats(s.order + [i]);
    Pigeonhole(s.order + [i], |subs|);
  }

  lemma AllSent(subs: seq<SubModule>, s: State)
    requires Sends(s.procs, s.order, s.errors) && |s.procs| == |subs| && AllFinished(s)
    ensures |s.order| == |subs|
  {
    forall i | 0 <= i < |subs| ensures i in s.order {
      assert HasSent(s.procs[i]);
    }
    Pigeonhole(s.order, |subs|);
  }

  /** Until the stage has returned some step can be taken: it cannot deadlock. */
  lemma NeverStuck(subs: seq<SubModule>, buffer: string, s: State) returns (step: Step)
    requires Inv(subs, buffer, s) && !s.caller.Returned?
    ensures Enabled(subs, s, step) && !step.Print?
  {
    if s.caller.Receiving? {
      AllSent(subs, s);
      return Receive;
    }
    if |s.procs| < |subs| {
      return Spawn;
    }
    if AllFinished(s) {
      return Join;
    }
    if s.once.Running? {
      return Go(s.once.who, LeaveOnce(None));
    }
    var i: nat :| i < |s.procs| && !s.procs[i].Finished?;
    match s.procs[i]
    case AtOnce => return Go(i, if s.once.NotStarted? then EnterOnce else SkipOnce);
    case AtPoll => return Go(i, Poll);
    case Commands => return Go(i, EndCommands(None));
    case Install => return Go(i, EndInstall(None));
    case Back(_) => return Go(i, Report);
    case AtSend(_) =>
      SendNeverBlocks(subs, buffer, s, i);
      return Go(i, Send);
    case Sent(_) => return Go(i, Leave);
  }

  function Rank(p: Proc): nat {
    match p
    case AtOnce => 8
    case InOnce => 7
    case AtPoll => 6
    case Commands => 5
    case Install => 4
    case Back(_) => 3
    case AtSend(_) => 2
    case Sent(_) => 1
    case Finished(_) => 0
  }

  function Ranks(ps: seq<Proc>): nat {
    if ps == [] then 0 else Ranks(ps[..|ps| - 1]) + Rank(ps[|ps| - 1])
  }

  lemma {:induction false} RanksUpdated(ps: seq<Proc>, i: nat, p: Proc)
    requires i < |ps|
    ensures Ranks(ps[i := p]) == Ranks(ps) - Rank(ps[i]) + Rank(p)
  {
    var n := |ps| - 1;
    if i < n {
      RanksUpdated(ps[..n], i, p);
      assert ps[i := p][..n] == ps[..n][i := p];
    } else {
      assert ps[i := p][..n] == ps[..n];
    }
  }

  /** How many steps are left at most, not counting what is printed. */
  function StepsLeft(subs: seq<SubModule>, s: State): int {
    9 * (|subs| - |s.procs|) + Ranks(s.procs)
    + match s.caller case Spawning => |subs| + 2 case Receiving(k) => |subs| - k + 1 case Returned(_) => 0
  }

  lemma MoveRanks(subs: seq<SubModule>, s: State, i: nat, move: Move)
    requires i < |s.procs| && CanMove(subs, s, s.procs[i], move)
    ensures Ranks(s.procs[i := Next(subs, s, i, s.procs[i], move)]) < Ranks(s.procs)
  {
    RanksUpdated(s.procs, i, Next(subs, s, i, s.procs[i], move));
  }

  lemma SpawnRanks(procs: seq<Proc>)
    ensures Ranks(procs + [AtOnce]) == Ranks(procs) + 8
  {
    assert (procs + [AtOnce])[..|procs|] == procs;
  }

  lemma StepsLeftFall(subs: seq<SubModule>, s: State, step: Step)
    requires Enabled(subs, s, step) && (s.caller.Receiving? ==> s.caller.k <= |subs|)
    ensures StepsLeft(subs, Apply(subs, s, step)) <= StepsLeft(subs, s) - (if step.Print? then 0 else 1)
  {
    match step
    case Spawn => SpawnRanks(s.procs);
    case Go(i, move) => MoveRanks(subs, s, i, move);
    case Print(_, _) =>
    case Join =>
    case Receive =>
  }

  lemma StepsLeftNatural(subs: seq<SubModule>, buffer: string, s: State)
    requires Inv(subs, buffer, s)
    ensures 0 <= StepsLeft(subs, s)
  {
  }

  function Silent(steps: seq<Step>): nat {
    if steps == [] then 0 else (if steps[0].Print? then 0 else 1) + Silent(steps[1..])
  }

  lemma {:induction false} RunIsBounded(subs: seq<SubModule>, buffer: string, s: State, steps: seq<Step>, last: State)
    requires Inv(subs, buffer, s) && IsRun(subs, s, steps, last)
    ensures Silent(steps) <= StepsLeft(subs, s)
    decreases |steps|
  {
    if steps != [] {
      StepKeepsInv(subs, buffer, s, steps[0]);
      StepsLeftFall(subs, s, steps[0]);
      RunIsBounded(subs, buffer, Apply(subs, s, steps[0]), steps[1..], last);
    } else {
      StepsLeftNatural(subs, buffer, s);
    }
  }

  /** From every state the invariant allows there is a way to the return. */
  lemma {:induction false} CanReturn(subs: seq<SubModule>, buffer: string, s: State) returns (more: seq<Step>, t: State)
    requires Inv(subs, buffer, s)
    ensures IsRun(subs, s, more, t) && t.caller.Returned?
    decreases StepsLeft(subs, s)
  {
    more, t := [], s;
    if !s.caller.Returned? {
      var step := NeverStuck(subs, buffer, s);
      var next := Apply(subs, s, step);
      StepKeepsInv(subs, buffer, s, step);
      StepsLeftFall(subs, s, step);
      StepsLeftNatural(subs, buffer, next);
      var rest;
      rest, t := CanReturn(subs, buffer, next);
      more := [step] + rest;
    }
  }

  /** Whatever the schedule, the stage takes a bounded number of steps besides printing, and can get to its return. */
  lemma StageEnds(subs: seq<SubModule>, buffer: string, steps: seq<Step>, last: State)
    requires IsRun(subs, Start(buffer), steps, last)
    ensures Silent(steps) <= 10 * |subs| + 2
    ensures exists more, t :: IsRun(subs, last, more, t) && t.caller.Returned?
  {
    RunIsBounded(subs, buffer, Start(buffer), steps, last);
    RunKeepsInv(subs, buffer, Start(buffer), steps, last);
    var more, t := CanReturn(subs, buffer, last);
  }

  predicate Failed(s: State, i: nat) {
    i < |s.procs| && s.procs[i].Finished? && s.procs[i].outcome.Some?
  }

  lemma TopComesFirst(buffer: string, top: Option<string>)
    ensures AfterTop(buffer, top)
         == match top case None => buffer case Some(text) => buffer + ("Running Pre Run on Top level" + text)
  {
    match top
    case None =>
    case Some(text) => Associative(buffer, "Running Pre Run on Top level", text);
  }

  /** What is put together in order can be cut apart again, piece by piece in index order. */
  lemma {:induction false} ConcatLaysOut(first: string, pieces: seq<string>) returns (cuts: seq<nat>)
    ensures LaidOut(first + Concat(pieces), first, pieces, cuts)
  {
    if pieces == [] {
      cuts := [|first|];
      assert first + "" == first;
    } else {
      var front, piece := pieces[..|pieces| - 1], pieces[|pieces| - 1];
      var ends := ConcatLaysOut(first, front);
      OneMorePiece(first + Concat(front), first, front, ends, piece);
      cuts := ends + [|first + Concat(front) + piece|];
      assert front + [piece] == pieces;
      Associative(first, Concat(front), piece);
    }
  }

  /**
   Whatever the schedule, when the stage returns: the submodules' output follows the top level's in index order,
   no error is returned exactly when no submodule failed, and the status is failed exactly when one did.
   */
  lemma StageResult(subs: seq<SubModule>, buffer: string, top: Option<string>, steps: seq<Step>, last: State)
    returns (cuts: seq<nat>)
    requires IsRun(subs, Start(AfterTop(buffer, top)), steps, last) && last.caller.Returned?
    ensures |last.buffers| == |last.procs| == |subs| && AllFinished(last)
    ensures last.mainBuffer == AfterTop(buffer, top) + Concat(last.buffers)
    ensures LaidOut(last.mainBuffer,
                    match top case None => buffer case Some(text) => buffer + ("Running Pre Run on Top level" + text),
                    last.buffers, cuts)
    ensures last.caller.result.Some? <==> exists i: nat :: Failed(last, i)
    ensures last.caller.result.Some? ==> exists i: nat :: Failed(last, i) && last.procs[i].outcome == last.caller.result
    ensures last.failed <==> exists i: nat :: Failed(last, i)
  {
    RunKeepsInv(subs, AfterTop(buffer, top), Start(AfterTop(buffer, top)), steps, last);
    AllSent(subs, last);
    cuts := ConcatLaysOut(AfterTop(buffer, top), last.buffers);
    TopComesFirst(buffer, top);
    if last.caller.result.Some? {
      var i :| 0 <= i < |last.procs| && HasSent(last.procs[i]) && last.procs[i].outcome == last.caller.result;
      assert Failed(last, i);
    } else {
      forall i | 0 <= i < |last.procs| ensures !Failed(last, i) {
        assert HasSent(last.procs[i]);
        assert i in last.order;
      }
    }
    if last.failed {
      var i :| 0 <= i < |last.procs| && HasReported(last.procs[i]) && last.procs[i].outcome.Some?;
      assert Failed(last, i);
    }
    if i: nat :| Failed(last, i) {
      assert HasReported(last.procs[i]);
    }
  }

  function PrintedNow(step: Step, i: nat): string {
    if step.Print? && step.i == i then step.text else ""
  }

  /** What goroutine `i` prints in a run. */
  function Printed(steps: seq<Step>, i: nat): string {
    if steps == [] then "" else PrintedNow(steps[0], i) + Printed(steps[1..], i)
  }

  function BufferAt(s: State, i: nat): string {
    if i < |s.buffers| then s.buffers[i] else ""
  }

  lemma StepPrints(subs: seq<SubModule>, s: State, step: Step, i: nat)
    requires Enabled(subs, s, step)
    ensures BufferAt(Apply(subs, s, step), i) == BufferAt(s, i) + PrintedNow(step, i)
  {
    assert BufferAt(s, i) + "" == BufferAt(s, i);
    if step.Go? {
      assert Apply(subs, s, step).buffers == s.buffers;
    }
  }

  lemma {:induction false} BufferIsPrinted(subs: seq<SubModule>, s: State, steps: seq<Step>, last: State, i: nat)
    requires IsRun(subs, s, steps, last)
    ensures BufferAt(last, i) == BufferAt(s, i) + Printed(steps, i)
    decreases |steps|
  {
    if steps == [] {
      assert BufferAt(s, i) + "" == BufferAt(s, i);
    } else {
      StepPrints(subs, s, steps[0], i);
      BufferIsPrinted(subs, Apply(subs, s, steps[0]), steps[1..], last, i);
      Associative(BufferAt(s, i), PrintedNow(steps[0], i), Printed(steps[1..], i));
    }
  }

  lemma Associative(a: string, b: string, c: string)
    ensures (a + b) + c == a + (b + c)
  {
  }

  /** A failed blocklist is reported to exactly one submodule, and so the stage as a whole fails. */
  lemma BlocklistFailureReportedOnce(subs: seq<SubModule>, buffer: string, steps: seq<Step>, last: State)
    requires IsRun(subs, Start(buffer), steps, last) && last.caller.Returned?
    ensures subs != [] ==> last.once.Done?
    ensures last.once.Done? && last.once.failure.Some? ==>
              && last.caller.result.Some?
              && ToldOne(last.procs, last.once.failure.value)
    ensures last.once.Done? && last.once.failure.None? ==>
              NoneTold(last.procs)
  {
    RunKeepsInv(subs, buffer, Start(buffer), steps, last);
    var _ := StageResult(subs, buffer, None, steps, last);
    if subs != [] {
      assert last.procs[0].Finished?;
      if last.once.Done? && last.once.failure.Some? {
        assert last.procs[last.once.who].Finished?;
        var i: nat :| OnlyTold(last.procs, i, last.once.failure.value);
        assert Failed(last, i);
      }
    }
  }

  // ----- What the environment decides -----

  /**
   What the schedule does not choose: how the one fetch ends, and for each submodule what its commands print, how they
   end and how installing the runners ends.
   */
  datatype Env = Env(
    fetch: Option<string>,
    text: nat -> string,
    commands: nat -> Option<string>,
    install: nat -> Option<string>)

  predicate Agrees(env: Env, s: State, step: Step) {
    step.Go? ==>
      match step.move
      case LeaveOnce(failure) => failure == env.fetch
      case EndCommands(err) => err == env.commands(step.i) && BufferAt(s, step.i) == env.text(step.i)
      case EndInstall(err) => err == env.install(step.i)
      case _ => true
  }

  /** A run in which every step ends as the environment has it. */
  predicate IsRunIn(subs: seq<SubModule>, env: Env, s: State, steps: seq<Step>, last: State)
    decreases |steps|
  {
    if steps == [] then s == last
    else
      Enabled(subs, s, steps[0]) && Agrees(env, s, steps[0])
      && IsRunIn(subs, env, Apply(subs, s, steps[0]), steps[1..], last)
  }

  /** The submodule's own work fails. */
  predicate WorkFails(subs: seq<SubModule>, env: Env, i: nat) {
    i < |subs| && ((subs[i].prerun && env.commands(i).Some?) || env.install(i).Some?)
  }

  /** What a goroutine at `p` with this much in its buffer owes to the environment. */
  ghost predicate ProcKept(subs: seq<SubModule>, env: Env, i: nat, p: Proc, printed: string)
    requires i < |subs|
  {
    match p
    case AtOnce => printed == ""
    case InOnce => printed == ""
    case AtPoll => printed == ""
    case Commands => subs[i].prerun
    case Install => printed == TextOf(subs, env, i) && (subs[i].prerun ==> env.commands(i).None?)
    case _ =>
      if Told(p) then printed == ""
      else printed == TextOf(subs, env, i) && (p.outcome.Some? <==> WorkFails(subs, env, i))
  }

  function TextOf(subs: seq<SubModule>, env: Env, i: nat): string
    requires i < |subs|
  {
    if subs[i].prerun then env.text(i) else ""
  }

  ghost predicate EnvKept(subs: seq<SubModule>, env: Env, s: State) {
    && |s.procs| == |s.buffers| <= |subs|
    && (s.once.Done? ==> s.once.failure == env.fetch)
    && forall i :: 0 <= i < |s.procs| ==> ProcKept(subs, env, i, s.procs[i], s.buffers[i])
  }

  lemma MoveKeepsProc(subs: seq<SubModule>, env: Env, s: State, i: nat, move: Move)
    requires EnvKept(subs, env, s) && i < |s.procs| && CanMove(subs, s, s.procs[i], move)
    requires Agrees(env, s, Go(i, move))
    ensures ProcKept(subs, env, i, Next(subs, s, i, s.procs[i], move), s.buffers[i])
  {
    assert ProcKept(subs, env, i, s.procs[i], s.buffers[i]);
  }

  lemma StepKeepsEnv(subs: seq<SubModule>, env: Env, s: State, step: Step)
    requires EnvKept(subs, env, s) && Enabled(subs, s, step) && Agrees(env, s, step)
    ensures EnvKept(subs, env, Apply(subs, s, step))
  {
    match step
    case Go(i, move) => MoveKeepsProc(subs, env, s, i, move);
    case Print(i, _) => assert ProcKept(subs, env, i, s.procs[i], s.buffers[i]);
    case _ =>
  }

  lemma {:induction false} RunKeepsEnv(subs: seq<SubModule>, env: Env, s: State, steps: seq<Step>, last: State)
    requires EnvKept(subs, env, s) && IsRunIn(subs, env, s, steps, last)
    ensures EnvKept(subs, env, last) && IsRun(subs, s, steps, last)
    decreases |steps|
  {
    if steps != [] {
      StepKeepsEnv(subs, env, s, steps[0]);
      RunKeepsEnv(subs, env, Apply(subs, s, steps[0]), steps[1..], last);
    }
  }

  lemma FailedFetchFails(subs: seq<SubModule>, buffer: string, top: Option<string>, steps: seq<Step>, last: State)
    returns (told: int)
    requires IsRun(subs, Start(AfterTop(buffer, top)), steps, last) && last.caller.Returned? && subs != []
    ensures last.once.Done? && (last.once.failure.Some? ==> last.failed)
    ensures last.once.failure.Some? <==> 0 <= told < |subs|
    ensures forall i :: 0 <= i < |last.procs| ==> (Told(last.procs[i]) <==> i == told)
  {
    var _ := StageResult(subs, buffer, top, steps, last);
    BlocklistFailureReportedOnce(subs, AfterTop(buffer, top), steps, last);
    told := -1;
    if last.once.failure.Some? {
      var i: nat :| OnlyTold(last.procs, i, last.once.failure.value);
      told := i;
      assert Failed(last, i);
    }
  }

  /** What each submodule leaves in its buffer, and whether it fails. */
  lemma SubModuleDecides(subs: seq<SubModule>, env: Env, buffer: string, top: Option<string>, steps: seq<Step>,
                         last: State)
    returns (told: int)
    requires IsRunIn(subs, env, Start(AfterTop(buffer, top)), steps, last) && last.caller.Returned?
    ensures |last.buffers| == |subs|
    ensures forall i: nat :: i < |subs| ==> last.buffers[i] == if i != told && subs[i].prerun then env.text(i) else ""
    ensures forall i: nat :: i < |subs| && i != told ==> (Failed(last, i) <==> WorkFails(subs, env, i))
    ensures 0 <= told < |subs| <==> subs != [] && env.fetch.Some?
    ensures 0 <= told < |subs| ==> last.failed
  {
    RunKeepsEnv(subs, env, Start(AfterTop(buffer, top)), steps, last);
    var _ := StageResult(subs, buffer, top, steps, last);
    told := -1;
    if subs != [] {
      told := FailedFetchFails(subs, buffer, top, steps, last);
    }
    forall i: nat | i < |subs|
      ensures last.buffers[i] == if i != told && subs[i].prerun then env.text(i) else ""
      ensures i != told ==> (Failed(last, i) <==> WorkFails(subs, env, i))
    {
      assert ProcKept(subs, env, i, last.procs[i], last.buffers[i]);
    }
  }

  /**
   The environment alone decides whether the stage fails: it does if there is a submodule and either the fetch or some
   submodule's own work fails.  The output is the top level's and then that of all submodules, in index order, but for
   the one, if any, that was told of the failed fetch; only which one this is depends on the schedule.
   */
  lemma EnvironmentDecides(subs: seq<SubModule>, env: Env, buffer: string, top: Option<string>, steps: seq<Step>,
                           last: State)
    returns (told: int, cuts: seq<nat>)
    requires IsRunIn(subs, env, Start(AfterTop(buffer, top)), steps, last) && last.caller.Returned?
    ensures last.failed <==>
            && subs != []
            && (|| env.fetch.Some?
                || (exists i: nat :: i < |subs| && subs[i].prerun && env.commands(i).Some?)
                || (exists i: nat :: i < |subs| && env.install(i).Some?))
    ensures last.caller.result.Some? <==> last.failed
    ensures 0 <= told < |subs| <==> subs != [] && env.fetch.Some?
    ensures |last.buffers| == |subs| && LaidOut(last.mainBuffer, AfterTop(buffer, top), last.buffers, cuts)
    ensures forall i: nat :: i < |subs| ==> last.buffers[i] == if i != told && subs[i].prerun then env.text(i) else ""
    ensures last.mainBuffer == AfterTop(buffer, top) + Concat(last.buffers)
  {
    told := SubModuleDecides(subs, env, buffer, top, steps, last);
    RunIsRun(subs, env, Start(AfterTop(buffer, top)), steps, last);
    cuts := StageResult(subs, buffer, top, steps, last);
    TopComesFirst(buffer, top);
    if i: nat :| i < |subs| && ((subs[i].prerun && env.commands(i).Some?) || env.install(i).Some?) {
      assert WorkFails(subs, env, i);
      assert i != told ==> Failed(last, i);
    }
    if i: nat :| Failed(last, i) {
      assert i != told ==> WorkFails(subs, env, i);
    }
  }

  lemma {:induction false} RunIsRun(subs: seq<SubModule>, env: Env, s: State, steps: seq<Step>, last: State)
    requires IsRunIn(subs, env, s, steps, last)
    ensures IsRun(subs, s, steps, last)
    decreases |steps|
  {
    if steps != [] {
      RunIsRun(subs, env, Apply(subs, s, steps[0]), steps[1..], last);
    }
  }

  /**
   The schedule does not show: in one environment any two schedules end with the same status, both return an error or
   neither does, and unless the fetch fails they leave the same main buffer.
   */
  lemma ScheduleDoesNotShow(subs: seq<SubModule>, env: Env, buffer: string, top: Option<string>,
                            a: seq<Step>, s: State, b: seq<Step>, t: State)
    requires IsRunIn(subs, env, Start(AfterTop(buffer, top)), a, s) && s.caller.Returned?
    requires IsRunIn(subs, env, Start(AfterTop(buffer, top)), b, t) && t.caller.Returned?
    ensures s.failed == t.failed && s.caller.result.Some? == t.caller.result.Some?
    ensures env.fetch.None? ==> s.mainBuffer == t.mainBuffer
  {
    var i, _ := EnvironmentDecides(subs, env, buffer, top, a, s);
    var j, _ := EnvironmentDecides(subs, env, buffer, top, b, t);
    if env.fetch.None? {
      assert s.buffers == t.buffers;
    }
  }
}
