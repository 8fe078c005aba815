/**
 Tasks, aborts and containers of synapse running side by side.
 Models `processTask`, `runAndUpdateJobStatus`, `sendResourceUpdates` and `processAbortBuild` of
 pkg/synapse/synapse.go together with `Initiate`, `Run` and `KillContainerForBuildID` of
 pkg/runner/docker/docker.go, as steps that any schedule may interleave.
 */
module Synapse {
  import opened Wrappers
  import Outbox
  import Docker

  /** A task as decoded from its message; a message that cannot be decoded gives the zero values. */
  datatype Options = Options(jobID: string, buildID: string, nucleus: bool)

  datatype JobStatus = JobFailed | JobCompleted | JobAborted

  /** What goes out; `Other` are the log-in and the results of parsing requests. */
  datatype Msg = Started(t: nat) | Release(t: nat) | Terminal(t: nat, status: JobStatus) | Other(content: string)

  /** The goroutine that updates the job's status; `ok` is the container's. */
  datatype Updater =
    | Begin
    | Launching
    | Receiving
    | Releasing(ok: bool)
    | Checking(ok: bool)
    | Ending(ok: bool, status: JobStatus)
    | Closing(ok: bool, status: JobStatus)
    | Over(ok: bool, status: JobStatus)

  /** The goroutine that runs the container, in `Initiate`. */
  datatype Runner =
    | NotYet
    | Creating
    | Starting(id: string)
    | Waiting(id: string)
    | Removing(id: string, ok: bool)
    | Sending(ok: bool)
    | Gone

  /** `sent` and `closed` are what has happened to the task's status channel. */
  datatype Task = Task(options: Options, updater: Updater, runner: Runner, sent: nat, closed: bool)

  /** An abort marks its build, looks at the list of containers, and then stops the first one of its build. */
  datatype Aborter = Marked(build: string) | Looking(build: string, listed: seq<Docker.Runner>) | Ended

  datatype Event = Abort(build: string) | Check(t: nat)

  /**
   `aborted` is the abort map, `running` the list of running containers.  The rest records the past: the ids docker
   has given out, the aborts and checks in order, and what was stopped for which build.
   */
  datatype State = State(
    out: Outbox.Box<Msg>,
    tasks: seq<Task>,
    aborted: set<string>,
    running: seq<Docker.Runner>,
    aborters: seq<Aborter>,
    ids: set<string>,
    log: seq<Event>,
    stopped: seq<(string, Docker.Runner)>)

  datatype Move =
    | SendStarted
    | SkipStarted
    | Launch
    | Create(id: Option<string>)
    | Start(ok: bool)
    | Wait(ok: bool)
    | Remove
    | Hand
    | SendRelease
    | CheckAbort
    | SendTerminal
    | Close

  datatype Step =
    | Arrive(options: Options)
    | Go(t: nat, move: Move)
    | PutOther(content: string)
    | Writers(step: Outbox.Step<Msg>)
    | AbortBuild(build: string)
    | Look(k: nat)
    | Stop(k: nat)

  function Initial(): State {
    State(Outbox.Empty(), [], {}, [], [], {}, [], [])
  }

  // ----- Steps -----

  predicate CanPut(s: State) {
    |s.out.queue| < Outbox.CAPACITY
  }

  /** The hand-over of the status happens when one side sends and the other receives: the channel has no room. */
  predicate CanMove(s: State, task: Task, move: Move) {
    match move
    case SendStarted => task.updater.Begin? && task.options.nucleus && CanPut(s)
    case SkipStarted => task.updater.Begin? && !task.options.nucleus
    case Launch => task.updater.Launching?
    case Create(id) => task.runner.Creating? && (id.Some? ==> id.value !in s.ids)
    case Start(_) => task.runner.Starting?
    case Wait(_) => task.runner.Waiting?
    case Remove => task.runner.Removing?
    case Hand => task.runner.Sending? && task.updater.Receiving?
    case SendRelease => task.updater.Releasing? && CanPut(s)
    case CheckAbort => task.updater.Checking?
    case SendTerminal => task.updater.Ending? && CanPut(s)
    case Close => task.updater.Closing?
  }

  predicate Enabled(s: State, step: Step) {
    match step
    case Arrive(_) => true
    case Go(t, move) => t < |s.tasks| && CanMove(s, s.tasks[t], move)
    case PutOther(_) => CanPut(s)
    case Writers(w) => !w.Put? && Outbox.Enabled(s.out, w)
    case AbortBuild(_) => true
    case Look(k) => k < |s.aborters| && s.aborters[k].Marked?
    case Stop(k) => k < |s.aborters| && s.aborters[k].Looking?
  }

  function Decide(ok: bool, aborted: bool): JobStatus {
    if aborted then JobAborted else if ok then JobCompleted else JobFailed
  }

  /** Where the task stands after a move. */
  function Next(s: State, task: Task, move: Move): Task
    requires CanMove(s, task, move)
  {
    match move
    case SendStarted => task.(updater := Launching)
    case SkipStarted => task.(updater := Launching)
    case Launch => task.(updater := Receiving, runner := Creating)
    case Create(id) => task.(runner := if id.Some? then Starting(id.value) else Sending(false))
    case Start(ok) => task.(runner := if ok then Waiting(task.runner.id) else Sending(false))
    case Wait(ok) => task.(runner := Removing(task.runner.id, ok))
    case Remove => task.(runner := Sending(task.runner.ok))
    case Hand => task.(updater := Releasing(task.runner.ok), runner := Gone, sent := task.sent + 1)
    case SendRelease => task.(updater := Checking(task.updater.ok))
    case CheckAbort =>
      task.(updater := Ending(task.updater.ok, Decide(task.updater.ok, task.options.buildID in s.aborted)))
    case SendTerminal => task.(updater := Closing(task.updater.ok, task.updater.status))
    case Close => task.(updater := Over(task.updater.ok, task.updater.status), closed := true)
  }

  function Put(s: State, m: Msg): State
    requires CanPut(s)
  {
    s.(out := Outbox.Apply(s.out, Outbox.Put(m)))
  }

  /** What else the move of task `t` changes. */
  function Effect(s: State, t: nat, task: Task, move: Move): State
    requires CanMove(s, task, move)
  {
    match move
    case SendStarted => Put(s, Started(t))
    case SendRelease => Put(s, Release(t))
    case SendTerminal => Put(s, Terminal(t, task.updater.status))
    case Create(id) => if id.Some? then s.(ids := s.ids + {id.value}) else s
    case Start(ok) =>
      if ok then s.(running := s.running + [Docker.Runner(task.runner.id, task.options.buildID)]) else s
    case Remove => s.(running := Docker.RemoveFirst(s.running, task.runner.id))
    case CheckAbort => s.(log := s.log + [Check(t)])
    case _ => s
  }

  function Apply(s: State, step: Step): State
    requires Enabled(s, step)
  {
    match step
    case Arrive(options) => s.(tasks := s.tasks + [Task(options, Begin, NotYet, 0, false)])
    case Go(t, move) => Effect(s, t, s.tasks[t], move).(tasks := s.tasks[t := Next(s, s.tasks[t], move)])
    case PutOther(content) => Put(s, Other(content))
    case Writers(w) => s.(out := Outbox.Apply(s.out, w))
    case AbortBuild(build) =>
      s.(aborted := s.aborted + {build}, log := s.log + [Abort(build)], aborters := s.aborters + [Marked(build)])
    case Look(k) => s.(aborters := s.aborters[k := Looking(s.aborters[k].build, s.running)])
    case Stop(k) =>
      var a := s.aborters[k];
      var first := Docker.FirstOf(a.listed, a.build);
      s.(aborters := s.aborters[k := Ended],
         stopped := if first.Some? then s.stopped + [(a.build, first.value)] else s.stopped)
  }

  predicate IsRun(s: State, steps: seq<Step>, last: State)
    decreases |steps|
  {
    if steps == [] then s == last
    else Enabled(s, steps[0]) && IsRun(Apply(s, steps[0]), steps[1..], last)
  }

  // ----- The status channel -----

  /** One value is sent, before the channel is closed; the runner is gone when it is. */
  predicate ChannelKept(task: Task) {
    match task.updater
    case Begin => task.runner.NotYet? && task.sent == 0 && !task.closed
    case Launching => task.runner.NotYet? && task.sent == 0 && !task.closed
    case Receiving => !task.runner.NotYet? && !task.runner.Gone? && task.sent == 0 && !task.closed
    case Over(_, _) => task.runner.Gone? && task.sent == 1 && task.closed
    case _ => task.runner.Gone? && task.sent == 1 && !task.closed
  }

  predicate ChannelsKept(tasks: seq<Task>) {
    forall t :: 0 <= t < |tasks| ==> ChannelKept(tasks[t])
  }

  lemma StepKeepsChannels(s: State, step: Step)
    requires ChannelsKept(s.tasks) && Enabled(s, step)
    ensures ChannelsKept(Apply(s, step).tasks)
  {
    if step.Go? {
      assert ChannelKept(s.tasks[step.t]);
      MoveKeepsChannel(s, s.tasks[step.t], step.move);
    }
  }

  lemma MoveKeepsChannel(s: State, task: Task, move: Move)
    requires ChannelKept(task) && CanMove(s, task, move)
    ensures ChannelKept(Next(s, task, move))
  {
  }

  // ----- What each task sends -----

  predicate About(m: Msg, t: nat) {
    !m.Other? && m.t == t
  }

  /** The messages of one task among all that were enqueued. */
  function Of(ms: seq<Msg>, t: nat): seq<Msg> {
    if ms == [] then []
    else Of(ms[..|ms| - 1], t) + (if About(ms[|ms| - 1], t) then [ms[|ms| - 1]] else [])
  }

  lemma OfUnfolds(ms: seq<Msg>, m: Msg, t: nat)
    ensures Of(ms + [m], t) == Of(ms, t) + (if About(m, t) then [m] else [])
  {
    assert (ms + [m])[..|ms|] == ms;
  }

  function StartedIf(task: Task, t: nat): seq<Msg> {
    if task.options.nucleus then [Started(t)] else []
  }

  /** What a task has enqueued when its updater stands where it does. */
  function Expected(task: Task, t: nat): seq<Msg> {
    match task.updater
    case Begin => []
    case Launching => StartedIf(task, t)
    case Receiving => StartedIf(task, t)
    case Releasing(_) => StartedIf(task, t)
    case Checking(_) => StartedIf(task, t) + [Release(t)]
    case Ending(_, _) => StartedIf(task, t) + [Release(t)]
    case Closing(_, status) => StartedIf(task, t) + [Release(t)] + [Terminal(t, status)]
    case Over(_, status) => StartedIf(task, t) + [Release(t)] + [Terminal(t, status)]
  }

  predicate MessagesKept(tasks: seq<Task>, enqueued: seq<Msg>) {
    && (forall t :: 0 <= t < |tasks| ==> Of(enqueued, t) == Expected(tasks[t], t))
    && forall m :: m in enqueued && !m.Other? ==> m.t < |tasks|
  }

  lemma {:induction false} OfNone(ms: seq<Msg>, t: nat)
    requires forall m :: m in ms ==> !About(m, t)
    ensures Of(ms, t) == []
  {
    if ms != [] {
      assert ms[|ms| - 1] in ms;
      OfNone(ms[..|ms| - 1], t);
    }
  }

  lemma ArriveKeepsMessages(tasks: seq<Task>, enqueued: seq<Msg>, task: Task)
    requires MessagesKept(tasks, enqueued) && task.updater.Begin?
    ensures MessagesKept(tasks + [task], enqueued)
  {
    OfNone(enqueued, |tasks|);
  }

  lemma OtherKeepsMessages(tasks: seq<Task>, enqueued: seq<Msg>, content: string)
    requires MessagesKept(tasks, enqueued)
    ensures MessagesKept(tasks, enqueued + [Other(content)])
  {
    forall t | 0 <= t < |tasks| ensures Of(enqueued + [Other(content)], t) == Expected(tasks[t], t) {
      OfUnfolds(enqueued, Other(content), t);
    }
  }

  lemma SendKeepsMessages(tasks: seq<Task>, enqueued: seq<Msg>, i: nat, task: Task, m: Msg)
    requires MessagesKept(tasks, enqueued) && i < |tasks| && About(m, i)
    requires Expected(task, i) == Expected(tasks[i], i) + [m]
    ensures MessagesKept(tasks[i := task], enqueued + [m])
  {
    forall t | 0 <= t < |tasks| ensures Of(enqueued + [m], t) == Expected(tasks[i := task][t], t) {
      OfUnfolds(enqueued, m, t);
    }
  }

  lemma SilentKeepsMessages(tasks: seq<Task>, enqueued: seq<Msg>, i: nat, task: Task)
    requires MessagesKept(tasks, enqueued) && i < |tasks| && Expected(task, i) == Expected(tasks[i], i)
    ensures MessagesKept(tasks[i := task], enqueued)
  {
  }

  lemma MoveKeepsMessages(s: State, t: nat, move: Move)
    requires MessagesKept(s.tasks, s.out.enqueued) && t < |s.tasks| && CanMove(s, s.tasks[t], move)
    ensures MessagesKept(Apply(s, Go(t, move)).tasks, Apply(s, Go(t, move)).out.enqueued)
  {
    var next := Next(s, s.tasks[t], move);
    match move
    case SendStarted => SendKeepsMessages(s.tasks, s.out.enqueued, t, next, Started(t));
    case SendRelease => SendKeepsMessages(s.tasks, s.out.enqueued, t, next, Release(t));
    case SendTerminal => SendKeepsMessages(s.tasks, s.out.enqueued, t, next, Terminal(t, next.updater.status));
    case _ => SilentKeepsMessages(s.tasks, s.out.enqueued, t, next);
  }

  lemma StepKeepsMessages(s: State, step: Step)
    requires MessagesKept(s.tasks, s.out.enqueued) && Enabled(s, step)
    ensures MessagesKept(Apply(s, step).tasks, Apply(s, step).out.enqueued)
  {
    match step
    case Arrive(options) => ArriveKeepsMessages(s.tasks, s.out.enqueued, Task(options, Begin, NotYet, 0, false));
    case Go(t, move) => MoveKeepsMessages(s, t, move);
    case PutOther(content) => OtherKeepsMessages(s.tasks, s.out.enqueued, content);
    case Writers(w) => assert Apply(s, step).out.enqueued == s.out.enqueued;
    case _ =>
  }

  // ----- The list of running containers -----

  predicate HasId(task: Task) {
    task.runner.Starting? || task.runner.Waiting? || task.runner.Removing?
  }

  /** The container has started and its `Initiate` has not removed it yet. */
  function ListedAs(task: Task): Option<Docker.Runner> {
    if task.runner.Waiting? || task.runner.Removing? then Some(Docker.Runner(task.runner.id, task.options.buildID))
    else None
  }

  predicate IsListed(task: Task, r: Docker.Runner) {
    ListedAs(task) == Some(r)
  }

  ghost predicate ListedBySome(tasks: seq<Task>, r: Docker.Runner) {
    exists t :: 0 <= t < |tasks| && IsListed(tasks[t], r)
  }

  predicate IdsKept(tasks: seq<Task>, ids: set<string>) {
    && (forall t :: 0 <= t < |tasks| && HasId(tasks[t]) ==> tasks[t].runner.id in ids)
    && forall t, u :: 0 <= t < u < |tasks| && HasId(tasks[t]) && HasId(tasks[u])
              ==> tasks[t].runner.id != tasks[u].runner.id
  }

  ghost predicate ListKept(tasks: seq<Task>, running: seq<Docker.Runner>) {
    && Docker.NoRepeats(running)
    && (forall r :: r in running ==> ListedBySome(tasks, r))
    && forall t :: 0 <= t < |tasks| && ListedAs(tasks[t]).Some? ==> ListedAs(tasks[t]).value in running
  }

  lemma MoveKeepsIds(s: State, t: nat, move: Move)
    requires IdsKept(s.tasks, s.ids) && t < |s.tasks| && CanMove(s, s.tasks[t], move)
    ensures IdsKept(Apply(s, Go(t, move)).tasks, Apply(s, Go(t, move)).ids)
  {
    var next := Next(s, s.tasks[t], move);
    if !move.Create? {
      assert HasId(next) ==> HasId(s.tasks[t]) && next.runner.id == s.tasks[t].runner.id;
    }
  }

  /** A task that stays listed or unlisted. */
  lemma ListSame(tasks: seq<Task>, running: seq<Docker.Runner>, i: nat, task: Task)
    requires ListKept(tasks, running) && i < |tasks|
    requires ListedAs(task) == ListedAs(tasks[i])
    ensures ListKept(tasks[i := task], running)
  {
    forall r | r in running ensures ListedBySome(tasks[i := task], r) {
      var t :| 0 <= t < |tasks| && IsListed(tasks[t], r);
      assert IsListed(tasks[i := task][t], r);
    }
  }

  lemma ListStarted(tasks: seq<Task>, running: seq<Docker.Runner>, ids: set<string>, i: nat, task: Task,
                    r: Docker.Runner)
    requires ListKept(tasks, running) && IdsKept(tasks, ids) && i < |tasks|
    requires tasks[i].runner.Starting? && task.runner == Waiting(tasks[i].runner.id) && IsListed(task, r)
    ensures ListKept(tasks[i := task], running + [r])
  {
    forall q | q in running ensures ListedBySome(tasks[i := task], q) && q.containerID != r.containerID {
      var t :| 0 <= t < |tasks| && IsListed(tasks[t], q);
      assert IsListed(tasks[i := task][t], q);
    }
    assert IsListed(tasks[i := task][i], r);
    assert forall k :: 0 <= k < |running| ==> running[k] in running;
  }

  lemma ListRemoved(tasks: seq<Task>, running: seq<Docker.Runner>, ids: set<string>, i: nat, task: Task)
    requires ListKept(tasks, running) && IdsKept(tasks, ids) && i < |tasks|
    requires tasks[i].runner.Removing? && task.runner.Sending?
    ensures ListKept(tasks[i := task], Docker.RemoveFirst(running, tasks[i].runner.id))
  {
    var id := tasks[i].runner.id;
    Docker.RemoveFirstOfList(running, id);
    forall r | r in Docker.RemoveFirst(running, id) ensures ListedBySome(tasks[i := task], r) {
      var t :| 0 <= t < |tasks| && IsListed(tasks[t], r);
      assert IsListed(tasks[i := task][t], r);
    }
  }

  lemma MoveKeepsList(s: State, t: nat, move: Move)
    requires ListKept(s.tasks, s.running) && IdsKept(s.tasks, s.ids)
    requires t < |s.tasks| && ChannelKept(s.tasks[t]) && CanMove(s, s.tasks[t], move)
    ensures ListKept(Apply(s, Go(t, move)).tasks, Apply(s, Go(t, move)).running)
  {
    var task := s.tasks[t];
    var next := Next(s, task, move);
    if move.Start? && move.ok {
      ListStarted(s.tasks, s.running, s.ids, t, next, Docker.Runner(task.runner.id, task.options.buildID));
    } else if move.Remove? {
      ListRemoved(s.tasks, s.running, s.ids, t, next);
    } else {
      ListSame(s.tasks, s.running, t, next);
    }
  }

  lemma ArriveKeepsList(tasks: seq<Task>, running: seq<Docker.Runner>, task: Task)
    requires ListKept(tasks, running) && task.runner.NotYet?
    ensures ListKept(tasks + [task], running)
  {
    forall r | r in running ensures ListedBySome(tasks + [task], r) {
      var t :| 0 <= t < |tasks| && IsListed(tasks[t], r);
      assert IsListed((tasks + [task])[t], r);
    }
  }

  lemma StepKeepsList(s: State, step: Step)
    requires ListKept(s.tasks, s.running) && IdsKept(s.tasks, s.ids) && ChannelsKept(s.tasks) && Enabled(s, step)
    ensures ListKept(Apply(s, step).tasks, Apply(s, step).running) && IdsKept(Apply(s, step).tasks, Apply(s, step).ids)
  {
    match step
    case Arrive(options) => ArriveKeepsList(s.tasks, s.running, Task(options, Begin, NotYet, 0, false));
    case Go(t, move) =>
      assert ChannelKept(s.tasks[t]);
      MoveKeepsIds(s, t, move);
      MoveKeepsList(s, t, move);
    case _ =>
  }

  // ----- Aborts -----

  ghost predicate AbortedBefore(log: seq<Event>, j: int, build: string) {
    exists i :: 0 <= i < j && i < |log| && log[i] == Abort(build)
  }

  ghost predicate CheckedAt(log: seq<Event>, j: nat, t: nat) {
    j < |log| && log[j] == Check(t) && forall k :: 0 <= k < |log| && k != j ==> log[k] != Check(t)
  }

  predicate HasStatus(task: Task) {
    task.updater.Ending? || task.updater.Closing? || task.updater.Over?
  }

  /** The status was decided at one check, by the aborts before it. */
  ghost predicate DecidedRight(log: seq<Event>, t: nat, task: Task) {
    if HasStatus(task) then
      exists j: nat :: CheckedAt(log, j, t) && task.updater.status
                   == Decide(task.updater.ok, AbortedBefore(log, j, task.options.buildID))
    else forall k :: 0 <= k < |log| ==> log[k] != Check(t)
  }

  ghost predicate LogKept(tasks: seq<Task>, aborted: set<string>, log: seq<Event>) {
    && (forall b :: b in aborted <==> AbortedBefore(log, |log|, b))
    && (forall t :: 0 <= t < |tasks| ==> DecidedRight(log, t, tasks[t]))
    && forall k :: 0 <= k < |log| && log[k].Check? ==> log[k].t < |tasks|
  }

  lemma LogGrows(log: seq<Event>, e: Event, t: nat, task: Task)
    requires DecidedRight(log, t, task) && e != Check(t)
    ensures DecidedRight(log + [e], t, task)
  {
    if HasStatus(task) {
      var b := task.options.buildID;
      var j: nat :| CheckedAt(log, j, t) && task.updater.status == Decide(task.updater.ok, AbortedBefore(log, j, b));
      BeforeSame(log, e, j, b);
      assert CheckedAt(log + [e], j, t);
    }
  }

  lemma BeforeSame(log: seq<Event>, e: Event, j: nat, b: string)
    requires j <= |log|
    ensures AbortedBefore(log + [e], j, b) <==> AbortedBefore(log, j, b)
  {
    if i :| 0 <= i < j && i < |log| && log[i] == Abort(b) {
      assert (log + [e])[i] == Abort(b);
    }
    if i :| 0 <= i < j && i < |log + [e]| && (log + [e])[i] == Abort(b) {
      assert log[i] == Abort(b);
    }
  }

  lemma BeforeMore(log: seq<Event>, e: Event, b: string)
    ensures AbortedBefore(log + [e], |log| + 1, b) <==> AbortedBefore(log, |log|, b) || e == Abort(b)
  {
    if i :| 0 <= i < |log| && log[i] == Abort(b) {
      assert (log + [e])[i] == Abort(b);
    }
    if e == Abort(b) {
      assert (log + [e])[|log|] == Abort(b);
    }
  }

  lemma AbortKeepsLog(tasks: seq<Task>, aborted: set<string>, log: seq<Event>, build: string)
    requires LogKept(tasks, aborted, log)
    ensures LogKept(tasks, aborted + {build}, log + [Abort(build)])
  {
    forall b ensures b in aborted + {build} <==> AbortedBefore(log + [Abort(build)], |log| + 1, b) {
      BeforeMore(log, Abort(build), b);
    }
    forall t | 0 <= t < |tasks| ensures DecidedRight(log + [Abort(build)], t, tasks[t]) {
      LogGrows(log, Abort(build), t, tasks[t]);
    }
  }

  lemma CheckKeepsLog(tasks: seq<Task>, aborted: set<string>, log: seq<Event>, i: nat, task: Task)
    requires LogKept(tasks, aborted, log) && i < |tasks| && tasks[i].updater.Checking?
              && task.options == tasks[i].options
    requires task.updater == Ending(tasks[i].updater.ok, Decide(tasks[i].updater.ok, task.options.buildID in aborted))
    ensures LogKept(tasks[i := task], aborted, log + [Check(i)])
  {
    var more := log + [Check(i)];
    forall b ensures b in aborted <==> AbortedBefore(more, |log| + 1, b) {
      BeforeMore(log, Check(i), b);
    }
    var after := tasks[i := task];
    forall t | 0 <= t < |tasks| ensures DecidedRight(more, t, after[t]) {
      if t == i {
        BeforeSame(log, Check(i), |log|, task.options.buildID);
        assert CheckedAt(more, |log|, i);
      } else {
        LogGrows(log, Check(i), t, tasks[t]);
      }
    }
  }

  lemma SilentKeepsLog(tasks: seq<Task>, aborted: set<string>, log: seq<Event>, i: nat, task: Task)
    requires LogKept(tasks, aborted, log) && i < |tasks| && task.options == tasks[i].options
    requires HasStatus(task) == HasStatus(tasks[i])
    requires HasStatus(task) ==>
               task.updater.status == tasks[i].updater.status && task.updater.ok == tasks[i].updater.ok
    ensures LogKept(tasks[i := task], aborted, log)
  {
    assert DecidedRight(log, i, tasks[i]);
    assert DecidedRight(log, i, task);
  }

  lemma StepKeepsLog(s: State, step: Step)
    requires LogKept(s.tasks, s.aborted, s.log) && Enabled(s, step)
    ensures LogKept(Apply(s, step).tasks, Apply(s, step).aborted, Apply(s, step).log)
  {
    match step
    case Arrive(_) =>
    case AbortBuild(build) => AbortKeepsLog(s.tasks, s.aborted, s.log, build);
    case Go(t, move) =>
      var next := Next(s, s.tasks[t], move);
      if move.CheckAbort? {
        CheckKeepsLog(s.tasks, s.aborted, s.log, t, next);
      } else {
        SilentKeepsLog(s.tasks, s.aborted, s.log, t, next);
      }
    case _ =>
  }

  predicate StopsKept(s: State) {
    && (forall k :: 0 <= k < |s.stopped| ==> StopRight(s.stopped[k], s.aborted, s.ids))
    && (forall k :: 0 <= k < |s.aborters| ==> AborterRight(s.aborters[k], s.aborted, s.ids))
  }

  predicate StopRight(stop: (string, Docker.Runner), aborted: set<string>, ids: set<string>) {
    stop.1.buildID == stop.0 && stop.0 in aborted && stop.1.containerID in ids
  }

  predicate AborterRight(a: Aborter, aborted: set<string>, ids: set<string>) {
    && (!a.Ended? ==> a.build in aborted)
    && (a.Looking? ==> forall r :: r in a.listed ==> r.containerID in ids)
  }

  lemma StopKeepsStops(s: State, k: nat)
    requires StopsKept(s) && Enabled(s, Stop(k))
    ensures StopsKept(Apply(s, Stop(k)))
  {
    var a := s.aborters[k];
    assert AborterRight(a, s.aborted, s.ids);
    Docker.FirstOfIsOfBuild(a.listed, a.build);
  }

  lemma LookKeepsStops(s: State, k: nat)
    requires StopsKept(s) && ListKept(s.tasks, s.running) && IdsKept(s.tasks, s.ids) && Enabled(s, Look(k))
    ensures StopsKept(Apply(s, Look(k)))
  {
    assert AborterRight(s.aborters[k], s.aborted, s.ids);
    forall r | r in s.running ensures r.containerID in s.ids {
      var t :| 0 <= t < |s.tasks| && IsListed(s.tasks[t], r);
    }
  }

  /** More aborted builds and more ids do no harm. */
  lemma OthersKeepStops(s: State, t: State)
    requires StopsKept(s) && t.stopped == s.stopped && s.aborted <= t.aborted && s.ids <= t.ids
    requires t.aborters == s.aborters || exists b :: b in t.aborted && t.aborters == s.aborters + [Marked(b)]
    ensures StopsKept(t)
  {
    forall k | 0 <= k < |t.aborters| ensures AborterRight(t.aborters[k], t.aborted, t.ids) {
      assert k < |s.aborters| ==> AborterRight(s.aborters[k], s.aborted, s.ids);
    }
    forall k | 0 <= k < |t.stopped| ensures StopRight(t.stopped[k], t.aborted, t.ids) {
      assert StopRight(s.stopped[k], s.aborted, s.ids);
    }
  }

  lemma StepKeepsStops(s: State, step: Step)
    requires StopsKept(s) && ListKept(s.tasks, s.running) && IdsKept(s.tasks, s.ids) && Enabled(s, step)
    ensures StopsKept(Apply(s, step))
  {
    if step.Stop? {
      StopKeepsStops(s, step.k);
    } else if step.Look? {
      LookKeepsStops(s, step.k);
    } else {
      OthersKeepStops(s, Apply(s, step));
    }
  }

  // ----- Every run -----

  ghost predicate Inv(s: State) {
    && Outbox.Conserved(s.out)
    && ChannelsKept(s.tasks)
    && MessagesKept(s.tasks, s.out.enqueued)
    && ListKept(s.tasks, s.running)
    && IdsKept(s.tasks, s.ids)
    && LogKept(s.tasks, s.aborted, s.log)
    && StopsKept(s)
  }

  lemma PutConserves(s: State, m: Msg)
    requires Outbox.Conserved(s.out) && CanPut(s)
    ensures Outbox.Conserved(Put(s, m).out)
  {
    Outbox.StepConserves(s.out, Outbox.Put(m));
  }

  lemma StepKeepsOut(s: State, step: Step)
    requires Outbox.Conserved(s.out) && Enabled(s, step)
    ensures Outbox.Conserved(Apply(s, step).out)
  {
    match step
    case PutOther(content) => PutConserves(s, Other(content));
    case Writers(w) => Outbox.StepConserves(s.out, w);
    case Go(t, move) =>
      if move.SendStarted? {
        PutConserves(s, Started(t));
      } else if move.SendRelease? {
        PutConserves(s, Release(t));
      } else if move.SendTerminal? {
        PutConserves(s, Terminal(t, s.tasks[t].updater.status));
      }
    case _ =>
  }

  lemma StepKeepsInv(s: State, step: Step)
    requires Inv(s) && Enabled(s, step)
    ensures Inv(Apply(s, step))
  {
    StepKeepsOut(s, step);
    StepKeepsChannels(s, step);
    StepKeepsMessages(s, step);
    StepKeepsList(s, step);
    StepKeepsLog(s, step);
    StepKeepsStops(s, step);
  }

  lemma {:induction false} RunKeepsInv(s: State, steps: seq<Step>, last: State)
    requires Inv(s) && IsRun(s, steps, last)
    ensures Inv(last)
    decreases |steps|
  {
    if steps != [] {
      StepKeepsInv(s, steps[0]);
      RunKeepsInv(Apply(s, steps[0]), steps[1..], last);
    }
  }

  /** Tasks, aborts and failing writes together lose and double no message, and never overfill the queue. */
  lemma MessagesConserved(steps: seq<Step>, last: State)
    requires IsRun(Initial(), steps, last)
    ensures multiset(last.out.enqueued)
         == multiset(last.out.queue) + multiset(Outbox.Held(last.out.writers)) + multiset(last.out.delivered)
    ensures |last.out.queue| <= 1024
  {
    RunKeepsInv(Initial(), steps, last);
  }

  /** On each status channel at most one value is sent, and exactly one by the time it is closed. */
  lemma OneStatusPerTask(steps: seq<Step>, last: State, t: nat)
    requires IsRun(Initial(), steps, last) && t < |last.tasks|
    ensures last.tasks[t].sent <= 1
    ensures last.tasks[t].closed ==> last.tasks[t].sent == 1 && last.tasks[t].runner.Gone?
    ensures last.tasks[t].runner.Sending? ==> !last.tasks[t].closed && last.tasks[t].updater.Receiving?
  {
    RunKeepsInv(Initial(), steps, last);
    assert ChannelKept(last.tasks[t]);
  }

  lemma TaskKept(steps: seq<Step>, last: State, t: nat)
    requires IsRun(Initial(), steps, last) && t < |last.tasks|
    ensures Of(last.out.enqueued, t) == Expected(last.tasks[t], t)
    ensures DecidedRight(last.log, t, last.tasks[t])
  {
    RunKeepsInv(Initial(), steps, last);
  }

  /**
   The list of running containers holds, without repeats, exactly those that have started and that their `Initiate`
   has not yet removed; so it is empty once every `Initiate` has got to sending its status.
   */
  lemma RunningContainersExact(steps: seq<Step>, last: State)
    requires IsRun(Initial(), steps, last)
    ensures Docker.NoRepeats(last.running)
    ensures forall r :: r in last.running <==> ListedBySome(last.tasks, r)
    ensures (forall t :: 0 <= t < |last.tasks| ==> last.tasks[t].runner.Sending? || last.tasks[t].runner.Gone?) ==>
              last.running == []
  {
    RunKeepsInv(Initial(), steps, last);
    if last.running != [] {
      assert ListedBySome(last.tasks, last.running[0]);
    }
  }

  /** A kill by build stops only a container of that build, one that docker has created, and only after its abort. */
  lemma KillsHitTheirBuild(steps: seq<Step>, last: State, k: nat)
    requires IsRun(Initial(), steps, last) && k < |last.stopped|
    ensures last.stopped[k].1.buildID == last.stopped[k].0
    ensures last.stopped[k].1.containerID in last.ids
    ensures AbortedBefore(last.log, |last.log|, last.stopped[k].0)
  {
    RunKeepsInv(Initial(), steps, last);
  }

  lemma CanGoOn(s: State, task: Task) returns (move: Move)
    requires ChannelKept(task) && !task.updater.Over?
    ensures CanMove(s, task, move) || (!CanPut(s) && (move.SendStarted? || move.SendRelease? || move.SendTerminal?))
  {
    match task.updater
    case Begin => return if task.options.nucleus then SendStarted else SkipStarted;
    case Launching => return Launch;
    case Receiving =>
      match task.runner {
        case Creating => return Create(None);
        case Starting(_) => return Start(false);
        case Waiting(_) => return Wait(false);
        case Removing(_, _) => return Remove;
        case Sending(_) => return Hand;
      }
    case Releasing(_) => return SendRelease;
    case Checking(_) => return CheckAbort;
    case Ending(_, _) => return SendTerminal;
    case Closing(_, _) => return Close;
  }

  /** A task that is not over can go on, unless it is about to enqueue a message and the queue is full. */
  lemma TaskCanGoOn(steps: seq<Step>, last: State, t: nat) returns (move: Move)
    requires IsRun(Initial(), steps, last) && t < |last.tasks| && !last.tasks[t].updater.Over?
    ensures CanPut(last) ==> Enabled(last, Go(t, move))
    ensures !Enabled(last, Go(t, move)) ==> move.SendStarted? || move.SendRelease? || move.SendTerminal?
  {
    RunKeepsInv(Initial(), steps, last);
    assert ChannelKept(last.tasks[t]);
    move := CanGoOn(last, last.tasks[t]);
  }

  // ----- What the steps of a run say of a task -----

  /** The moves of one task among the steps of a run, in order. */
  function Moves(steps: seq<Step>, t: nat): seq<Move> {
    if steps == [] then []
    else
      var step := steps[|steps| - 1];
      Moves(steps[..|steps| - 1], t) + (if step.Go? && step.t == t then [step.move] else [])
  }

  lemma MovesUnfold(steps: seq<Step>, step: Step, t: nat)
    ensures Moves(steps + [step], t) == Moves(steps, t) + (if step.Go? && step.t == t then [step.move] else [])
  {
    assert (steps + [step])[..|steps|] == steps;
  }

  lemma {:induction false} MovesAreSteps(steps: seq<Step>, t: nat, move: Move)
    ensures move in Moves(steps, t) <==> Go(t, move) in steps
  {
    if steps != [] {
      var front, step := steps[..|steps| - 1], steps[|steps| - 1];
      MovesAreSteps(front, t, move);
      assert steps == front + [step];
    }
  }

  /** How a container can go: it is not created, it does not start, or it runs and ends well or badly. */
  ghost predicate Went(ms: seq<Move>, ok: bool) {
    || (ms == [Create(None)] && !ok)
    || (exists id: string :: ms == [Create(Some(id)), Start(false)] && !ok)
    || (exists id: string :: ms == [Create(Some(id)), Start(true), Wait(ok), Remove])
  }

  ghost predicate GoesOn(runner: Runner, ms: seq<Move>) {
    match runner
    case Creating => ms == []
    case Starting(id) => ms == [Create(Some(id))]
    case Waiting(id) => ms == [Create(Some(id)), Start(true)]
    case Removing(id, ok) => ms == [Create(Some(id)), Start(true), Wait(ok)]
    case Sending(ok) => Went(ms, ok)
    case _ => false
  }

  function Opening(task: Task): seq<Move> {
    [if task.options.nucleus then SendStarted else SkipStarted, Launch]
  }

  /** What the updater has done since it took over the status. */
  function DoneSince(u: Updater): seq<Move> {
    match u
    case Releasing(_) => [Hand]
    case Checking(_) => [Hand, SendRelease]
    case Ending(_, _) => [Hand, SendRelease, CheckAbort]
    case Closing(_, _) => [Hand, SendRelease, CheckAbort, SendTerminal]
    case Over(_, _) => [Hand, SendRelease, CheckAbort, SendTerminal, Close]
    case _ => []
  }

  ghost predicate WentThen(opening: seq<Move>, ms: seq<Move>, ok: bool, closing: seq<Move>) {
    exists went :: Went(went, ok) && ms == opening + went + closing
  }

  /** A task's moves so far are those that lead to where it stands. */
  ghost predicate Traced(task: Task, ms: seq<Move>) {
    match task.updater
    case Begin => ms == []
    case Launching => ms == Opening(task)[..1]
    case Receiving => Opening(task) <= ms && GoesOn(task.runner, ms[2..])
    case Releasing(ok) => WentThen(Opening(task), ms, ok, DoneSince(task.updater))
    case Checking(ok) => WentThen(Opening(task), ms, ok, DoneSince(task.updater))
    case Ending(ok, _) => WentThen(Opening(task), ms, ok, DoneSince(task.updater))
    case Closing(ok, _) => WentThen(Opening(task), ms, ok, DoneSince(task.updater))
    case Over(ok, _) => WentThen(Opening(task), ms, ok, DoneSince(task.updater))
  }

  lemma RunnerGoesOn(s: State, task: Task, ms: seq<Move>, move: Move)
    requires task.updater.Receiving? && GoesOn(task.runner, ms) && CanMove(s, task, move) && !move.Hand?
    ensures GoesOn(Next(s, task, move).runner, ms + [move])
  {
  }

  lemma ClosingGoesOn(opening: seq<Move>, ms: seq<Move>, ok: bool, closing: seq<Move>, move: Move)
    requires WentThen(opening, ms, ok, closing)
    ensures WentThen(opening, ms + [move], ok, closing + [move])
  {
    var went :| Went(went, ok) && ms == opening + went + closing;
    assert ms + [move] == opening + went + (closing + [move]);
  }

  lemma ReceivingTraced(s: State, task: Task, ms: seq<Move>, move: Move)
    requires task.updater.Receiving? && Traced(task, ms) && ChannelKept(task) && CanMove(s, task, move)
    ensures Traced(Next(s, task, move), ms + [move])
  {
    var went := ms[2..];
    assert ms == Opening(task) + went;
    if move.Hand? {
      assert ms + [move] == Opening(task) + went + [Hand];
      assert WentThen(Opening(task), ms + [move], task.runner.ok, [Hand]);
    } else {
      assert (ms + [move])[2..] == went + [move];
      RunnerGoesOn(s, task, went, move);
    }
  }

  lemma MoveTraced(s: State, task: Task, ms: seq<Move>, move: Move)
    requires Traced(task, ms) && ChannelKept(task) && CanMove(s, task, move)
    ensures Traced(Next(s, task, move), ms + [move])
  {
    if task.updater.Begin? {
      assert ms + [move] == Opening(task)[..1];
    } else if task.updater.Launching? {
      assert ms + [move] == Opening(task);
      assert (ms + [move])[2..] == [];
    } else if task.updater.Receiving? {
      ReceivingTraced(s, task, ms, move);
    } else if !task.updater.Over? {
      ClosingGoesOn(Opening(task), ms, task.updater.ok, DoneSince(task.updater), move);
      assert DoneSince(Next(s, task, move).updater) == DoneSince(task.updater) + [move];
    }
  }

  /** The build was aborted before the task looked at the abort map. */
  ghost predicate AbortedAtCheck(steps: seq<Step>, t: nat, build: string) {
    exists i, j :: 0 <= i < j < |steps| && steps[i] == AbortBuild(build) && steps[j] == Go(t, CheckAbort)
  }

  ghost predicate StatusRight(steps: seq<Step>, t: nat, task: Task) {
    if HasStatus(task) then
      && (task.updater.status == JobAborted <==> AbortedAtCheck(steps, t, task.options.buildID))
      && (task.updater.status != JobAborted ==>
            task.updater.status == if task.updater.ok then JobCompleted else JobFailed)
    else Go(t, CheckAbort) !in steps
  }

  ghost predicate HistoryKept(done: seq<Step>, s: State) {
    && (forall t: nat :: t < |s.tasks| ==> TaskHistory(done, t, s.tasks[t]))
    && (forall k :: 0 <= k < |done| && done[k].Go? ==> done[k].t < |s.tasks|)
    && (forall b :: b in s.aborted <==> AbortBuild(b) in done)
  }

  lemma {:induction false} NoMoves(done: seq<Step>, t: nat)
    requires forall k :: 0 <= k < |done| && done[k].Go? ==> done[k].t < t
    ensures Moves(done, t) == [] && Go(t, CheckAbort) !in done
  {
    if done != [] {
      NoMoves(done[..|done| - 1], t);
    }
  }

  /** A step that is not the task's own check decides nothing about it. */
  lemma StatusStays(done: seq<Step>, step: Step, t: nat, task: Task, next: Task)
    requires StatusRight(done, t, task) && step != Go(t, CheckAbort) && next.options == task.options
    requires HasStatus(next) == HasStatus(task)
    requires HasStatus(task) ==> next.updater.status == task.updater.status && next.updater.ok == task.updater.ok
    ensures StatusRight(done + [step], t, next)
  {
    var more := done + [step];
    if i, j :| 0 <= i < j < |done| && done[i] == AbortBuild(task.options.buildID) && done[j] == Go(t, CheckAbort) {
      assert more[i] == done[i] && more[j] == done[j];
    }
    if i, j :| 0 <= i < j < |more| && more[i] == AbortBuild(task.options.buildID) && more[j] == Go(t, CheckAbort) {
      assert more[i] == done[i] && more[j] == done[j];
    }
  }

  lemma StatusDecided(done: seq<Step>, s: State, t: nat)
    requires t < |s.tasks| && CanMove(s, s.tasks[t], CheckAbort) && StatusRight(done, t, s.tasks[t])
    requires forall b :: b in s.aborted <==> AbortBuild(b) in done
    ensures StatusRight(done + [Go(t, CheckAbort)], t, Next(s, s.tasks[t], CheckAbort))
  {
    var build := s.tasks[t].options.buildID;
    var more := done + [Go(t, CheckAbort)];
    if AbortBuild(build) in done {
      var i :| 0 <= i < |done| && done[i] == AbortBuild(build);
      assert more[i] == AbortBuild(build) && more[|done|] == Go(t, CheckAbort);
    }
    if i, j :| 0 <= i < j < |more| && more[i] == AbortBuild(build) && more[j] == Go(t, CheckAbort) {
      assert more[i] == done[i];
    }
  }

  ghost predicate TaskHistory(done: seq<Step>, t: nat, task: Task) {
    Traced(task, Moves(done, t)) && StatusRight(done, t, task)
  }

  /** The task that moves. */
  lemma MoverKeepsHistory(done: seq<Step>, s: State, t: nat, move: Move)
    requires t < |s.tasks| && CanMove(s, s.tasks[t], move) && ChannelKept(s.tasks[t])
    requires TaskHistory(done, t, s.tasks[t]) && forall b :: b in s.aborted <==> AbortBuild(b) in done
    ensures TaskHistory(done + [Go(t, move)], t, Next(s, s.tasks[t], move))
  {
    MovesUnfold(done, Go(t, move), t);
    MoveTraced(s, s.tasks[t], Moves(done, t), move);
    if move.CheckAbort? {
      StatusDecided(done, s, t);
    } else {
      StatusStays(done, Go(t, move), t, s.tasks[t], Next(s, s.tasks[t], move));
    }
  }

  /** A task that does not. */
  lemma OtherTaskKeepsHistory(done: seq<Step>, step: Step, t: nat, task: Task)
    requires TaskHistory(done, t, task) && !(step.Go? && step.t == t)
    ensures TaskHistory(done + [step], t, task)
  {
    MovesUnfold(done, step, t);
    StatusStays(done, step, t, task, task);
    assert Moves(done, t) + [] == Moves(done, t);
  }

  lemma MoveKeepsHistory(done: seq<Step>, s: State, t: nat, move: Move)
    requires HistoryKept(done, s) && ChannelsKept(s.tasks) && Enabled(s, Go(t, move))
    ensures HistoryKept(done + [Go(t, move)], Apply(s, Go(t, move)))
  {
    var after := Apply(s, Go(t, move));
    assert ChannelKept(s.tasks[t]);
    forall u: nat | u < |after.tasks| ensures TaskHistory(done + [Go(t, move)], u, after.tasks[u]) {
      assert TaskHistory(done, u, s.tasks[u]);
      if u == t {
        MoverKeepsHistory(done, s, t, move);
      } else {
        OtherTaskKeepsHistory(done, Go(t, move), u, s.tasks[u]);
      }
    }
    assert after.aborted == s.aborted;
  }

  lemma OtherKeepsHistory(done: seq<Step>, s: State, step: Step)
    requires HistoryKept(done, s) && Enabled(s, step) && !step.Go?
    ensures HistoryKept(done + [step], Apply(s, step))
  {
    var after := Apply(s, step);
    forall u: nat | u < |after.tasks| ensures TaskHistory(done + [step], u, after.tasks[u]) {
      if u < |s.tasks| {
        assert TaskHistory(done, u, s.tasks[u]);
        OtherTaskKeepsHistory(done, step, u, s.tasks[u]);
      } else {
        NoMoves(done, u);
        NewTaskHistory(done, step, u, after.tasks[u]);
      }
    }
  }

  lemma NewTaskHistory(done: seq<Step>, step: Step, t: nat, task: Task)
    requires Moves(done, t) == [] && Go(t, CheckAbort) !in done && task.updater.Begin? && !step.Go?
    ensures TaskHistory(done + [step], t, task)
  {
    MovesUnfold(done, step, t);
  }

  lemma {:induction false} RunKeepsHistory(done: seq<Step>, s: State, steps: seq<Step>, last: State)
    requires HistoryKept(done, s) && ChannelsKept(s.tasks) && IsRun(s, steps, last)
    ensures HistoryKept(done + steps, last)
    decreases |steps|
  {
    if steps == [] {
      assert done + steps == done;
    } else {
      if steps[0].Go? {
        MoveKeepsHistory(done, s, steps[0].t, steps[0].move);
      } else {
        OtherKeepsHistory(done, s, steps[0]);
      }
      StepKeepsChannels(s, steps[0]);
      RunKeepsHistory(done + [steps[0]], Apply(s, steps[0]), steps[1..], last);
      assert done + [steps[0]] + steps[1..] == done + steps;
    }
  }

  /**
   The moves of a task that is over, in the order in which they came: it tells that it has started or skips that,
   launches the runner, the container is not created, does not start, or runs and is removed from the list; then the
   status is handed over, the release sent, the abort map checked, the terminal status sent and the channel closed.
   */
  lemma TaskMoves(steps: seq<Step>, last: State, t: nat) returns (went: seq<Move>)
    requires IsRun(Initial(), steps, last) && t < |last.tasks| && last.tasks[t].updater.Over?
    ensures Went(went, last.tasks[t].updater.ok)
    ensures Moves(steps, t) == [if last.tasks[t].options.nucleus then SendStarted else SkipStarted, Launch]
                               + went + [Hand, SendRelease, CheckAbort, SendTerminal, Close]
  {
    RunKeepsHistory([], Initial(), steps, last);
    assert [] + steps == steps;
    var task := last.tasks[t];
    assert TaskHistory(steps, t, task);
    went :| Went(went, task.updater.ok) && Moves(steps, t) == Opening(task) + went + DoneSince(task.updater);
  }

  lemma TaskStatus(steps: seq<Step>, last: State, t: nat)
    requires IsRun(Initial(), steps, last) && t < |last.tasks|
    ensures StatusRight(steps, t, last.tasks[t])
  {
    RunKeepsHistory([], Initial(), steps, last);
    assert [] + steps == steps;
    assert TaskHistory(steps, t, last.tasks[t]);
  }

  ghost predicate EndedWell(steps: seq<Step>, t: nat) {
    (exists id :: Go(t, Create(Some(id))) in steps) && Go(t, Start(true)) in steps && Go(t, Wait(true)) in steps
  }

  ghost predicate EndedBadly(steps: seq<Step>, t: nat) {
    Go(t, Create(None)) in steps || Go(t, Start(false)) in steps || Go(t, Wait(false)) in steps
  }

  /** The runner's own moves are among what the container did. */
  lemma RunnerMoves(steps: seq<Step>, t: nat, nucleus: bool, went: seq<Move>, move: Move)
    requires Moves(steps, t) == [if nucleus then SendStarted else SkipStarted, Launch]
                                + went + [Hand, SendRelease, CheckAbort, SendTerminal, Close]
    requires move.Create? || move.Start? || move.Wait?
    ensures Go(t, move) in steps <==> move in went
  {
    MovesAreSteps(steps, t, move);
  }

  lemma WentWell(went: seq<Move>)
    requires Went(went, true)
    ensures exists id :: Create(Some(id)) in went
    ensures Start(true) in went && Wait(true) in went
    ensures Create(None) !in went && Start(false) !in went && Wait(false) !in went
  {
  }

  lemma WentBadly(went: seq<Move>)
    requires Went(went, false)
    ensures Create(None) in went || Start(false) in went || Wait(false) in went
    ensures Start(true) !in went || Wait(true) !in went
  {
  }

  /** Whether the container ended well can be read off the steps. */
  lemma OkIsEnd(steps: seq<Step>, last: State, t: nat)
    requires IsRun(Initial(), steps, last) && t < |last.tasks| && last.tasks[t].updater.Over?
    ensures last.tasks[t].updater.ok <==> EndedWell(steps, t)
    ensures !last.tasks[t].updater.ok <==> EndedBadly(steps, t)
  {
    var went := TaskMoves(steps, last, t);
    var nucleus := last.tasks[t].options.nucleus;
    RunnerMoves(steps, t, nucleus, went, Create(None));
    RunnerMoves(steps, t, nucleus, went, Start(true));
    RunnerMoves(steps, t, nucleus, went, Start(false));
    RunnerMoves(steps, t, nucleus, went, Wait(true));
    RunnerMoves(steps, t, nucleus, went, Wait(false));
    if last.tasks[t].updater.ok {
      WentWell(went);
      var id :| Create(Some(id)) in went;
      RunnerMoves(steps, t, nucleus, went, Create(Some(id)));
    } else {
      WentBadly(went);
    }
  }

  /**
   A task that is over has enqueued, in this order: that it started if it is a nucleus, the release of its resources,
   and one terminal status.  The status is aborted exactly when its build was aborted before the task's check of the
   abort map.  Otherwise it is completed exactly when the container was created, started and ended well, and failed
   exactly when it was not created, did not start or ended badly.
   */
  lemma TaskReports(steps: seq<Step>, last: State, t: nat)
    requires IsRun(Initial(), steps, last) && t < |last.tasks| && last.tasks[t].updater.Over?
    ensures
      var task := last.tasks[t];
      var status := task.updater.status;
      && Of(last.out.enqueued, t)
         == (if task.options.nucleus then [Started(t)] else []) + [Release(t)] + [Terminal(t, status)]
      && (status == JobAborted <==>
          exists i, j :: 0 <= i < j < |steps|
            && steps[i] == AbortBuild(task.options.buildID) && steps[j] == Go(t, CheckAbort))
      && (status != JobAborted ==>
            && (status == JobCompleted <==>
                && (exists id :: Go(t, Create(Some(id))) in steps)
                && Go(t, Start(true)) in steps && Go(t, Wait(true)) in steps)
            && (status == JobFailed <==>
                Go(t, Create(None)) in steps || Go(t, Start(false)) in steps || Go(t, Wait(false)) in steps))
  {
    TaskKept(steps, last, t);
    TaskStatus(steps, last, t);
    OkIsEnd(steps, last, t);
  }

  lemma WentStartsAndRemoves(went: seq<Move>, ok: bool)
    requires Went(went, ok)
    ensures Start(true) in went <==> Remove in went
  {
  }

  lemma {:induction false} TracedStart(task: Task, ms: seq<Move>)
    requires Traced(task, ms) && ChannelKept(task)
    ensures ListedAs(task).Some? <==> Start(true) in ms && Remove !in ms
    ensures ListedAs(task).Some? ==> Create(Some(task.runner.id)) in ms
  {
    if task.updater.Receiving? {
      assert ms == Opening(task) + ms[2..];
      if task.runner.Sending? {
        WentStartsAndRemoves(ms[2..], task.runner.ok);
      }
    } else if !task.updater.Begin? && !task.updater.Launching? {
      var went :| Went(went, task.updater.ok) && ms == Opening(task) + went + DoneSince(task.updater);
      WentStartsAndRemoves(went, task.updater.ok);
    }
  }

  /** The container is created, has started and has not been removed from the list. */
  ghost predicate Runs(steps: seq<Step>, t: nat, id: string) {
    Go(t, Create(Some(id))) in steps && Go(t, Start(true)) in steps && Go(t, Remove) !in steps
  }

  lemma TaskRuns(steps: seq<Step>, last: State, t: nat)
    requires IsRun(Initial(), steps, last) && t < |last.tasks|
    ensures ListedAs(last.tasks[t]).Some? <==> Go(t, Start(true)) in steps && Go(t, Remove) !in steps
    ensures ListedAs(last.tasks[t]).Some? ==> Runs(steps, t, last.tasks[t].runner.id)
  {
    RunKeepsHistory([], Initial(), steps, last);
    RunKeepsInv(Initial(), steps, last);
    assert [] + steps == steps;
    assert TaskHistory(steps, t, last.tasks[t]) && ChannelKept(last.tasks[t]);
    TracedStart(last.tasks[t], Moves(steps, t));
    MovesAreSteps(steps, t, Start(true));
    MovesAreSteps(steps, t, Remove);
    if ListedAs(last.tasks[t]).Some? {
      MovesAreSteps(steps, t, Create(Some(last.tasks[t].runner.id)));
    }
  }

  /** Read off the steps: the list has one entry for each container that started and has not been removed since. */
  lemma RunningBySteps(steps: seq<Step>, last: State)
    requires IsRun(Initial(), steps, last)
    ensures forall r :: r in last.running ==>
              exists t: nat :: t < |last.tasks| && Runs(steps, t, r.containerID)
                               && r.buildID == last.tasks[t].options.buildID
    ensures forall t: nat :: t < |last.tasks| && Go(t, Start(true)) in steps && Go(t, Remove) !in steps ==>
              exists r :: r in last.running && Runs(steps, t, r.containerID)
                          && r.buildID == last.tasks[t].options.buildID
  {
    RunningContainersExact(steps, last);
    forall r | r in last.running
      ensures exists t: nat :: t < |last.tasks| && Runs(steps, t, r.containerID)
                               && r.buildID == last.tasks[t].options.buildID
    {
      var t: nat :| t < |last.tasks| && IsListed(last.tasks[t], r);
      TaskRuns(steps, last, t);
    }
    forall t: nat | t < |last.tasks| && Go(t, Start(true)) in steps && Go(t, Remove) !in steps
      ensures exists r :: r in last.running && Runs(steps, t, r.containerID)
                          && r.buildID == last.tasks[t].options.buildID
    {
      TaskRuns(steps, last, t);
      assert IsListed(last.tasks[t], ListedAs(last.tasks[t]).value);
      assert ListedBySome(last.tasks, ListedAs(last.tasks[t]).value);
    }
  }

  lemma {:induction false} RunOn(s: State, steps: seq<Step>, last: State, step: Step)
    returns (more: seq<Step>, t: State)
    requires IsRun(s, steps, last) && Enabled(last, step)
    ensures more == steps + [step] && t == Apply(last, step) && IsRun(s, more, t)
    decreases |steps|
  {
    more, t := steps + [step], Apply(last, step);
    if steps != [] {
      var rest, u := RunOn(Apply(s, steps[0]), steps[1..], last, step);
      assert more[1..] == rest;
    }
  }

  // ----- When an abort reaches a container -----

  /** Some task of the build has a container in the list. */
  ghost predicate BuildListed(tasks: seq<Task>, build: string) {
    exists t :: 0 <= t < |tasks| && tasks[t].options.buildID == build && ListedAs(tasks[t]).Some?
  }

  lemma FirstOfList(tasks: seq<Task>, running: seq<Docker.Runner>, build: string)
    requires ListKept(tasks, running)
    ensures var first := Docker.FirstOf(running, build);
            && (first.Some? <==> BuildListed(tasks, build))
            && (first.Some? ==> first.value.buildID == build && ListedBySome(tasks, first.value))
  {
    Docker.FirstOfIsOfBuild(running, build);
    var first := Docker.FirstOf(running, build);
    if first.Some? {
      var t :| 0 <= t < |tasks| && IsListed(tasks[t], first.value);
      assert tasks[t].options.buildID == build;
    }
    if t :| 0 <= t < |tasks| && tasks[t].options.buildID == build && ListedAs(tasks[t]).Some? {
      assert ListedAs(tasks[t]).value in running;
    }
  }

  lemma FirstListed(steps: seq<Step>, s: State, build: string)
    requires IsRun(Initial(), steps, s)
    ensures var first := Docker.FirstOf(s.running, build);
            && (first.Some? <==> BuildListed(s.tasks, build))
            && (first.Some? ==> first.value.buildID == build && ListedBySome(s.tasks, first.value))
  {
    RunKeepsInv(Initial(), steps, s);
    FirstOfList(s.tasks, s.running, build);
  }

  /** What an abort has looked at stays as it was, whatever happens to the list, until it stops or ends. */
  lemma {:induction false} LookingStays(s: State, steps: seq<Step>, last: State, k: nat)
    requires IsRun(s, steps, last) && k < |s.aborters| && (s.aborters[k].Looking? || s.aborters[k].Ended?)
    ensures k < |last.aborters| && (last.aborters[k] == s.aborters[k] || last.aborters[k].Ended?)
    decreases |steps|
  {
    if steps != [] {
      LookingStays(Apply(s, steps[0]), steps[1..], last, k);
    }
  }

  /**
   An abort stops a container exactly if some task of its build has one in the list when the abort looks; then it is
   the first listed one of that build and no other, whatever starts or ends until it is stopped.
   */
  lemma AbortReaches(before: seq<Step>, s: State, k: nat, more: seq<Step>, u: State)
    requires IsRun(Initial(), before, s) && k < |s.aborters| && s.aborters[k].Marked?
    requires IsRun(Apply(s, Look(k)), more, u) && k < |u.aborters| && u.aborters[k].Looking?
    ensures var build := s.aborters[k].build;
            var first := Docker.FirstOf(s.running, build);
            && (first.Some? <==> BuildListed(s.tasks, build))
            && Apply(u, Stop(k)).stopped == u.stopped + (if first.Some? then [(build, first.value)] else [])
  {
    var build := s.aborters[k].build;
    FirstListed(before, s, build);
    LookingStays(Apply(s, Look(k)), more, u, k);
    assert u.aborters[k] == Looking(build, s.running);
    assert u.stopped + [] == u.stopped;
  }

  // ----- Two runs in which an abort misses a container -----

  function FreshTask(build: string, runner: Runner): Task {
    Task(Options("", build, false), Receiving, runner, 0, false)
  }

  lemma CreateTask(steps: seq<Step>, s: State, build: string, id: string) returns (more: seq<Step>, t: State)
    requires IsRun(Initial(), steps, s) && id !in s.ids
    ensures IsRun(Initial(), more, t)
    ensures t == s.(tasks := s.tasks + [FreshTask(build, Starting(id))], ids := s.ids + {id})
  {
    var k := |s.tasks|;
    more, t := RunOn(Initial(), steps, s, Arrive(Options("", build, false)));
    more, t := RunOn(Initial(), more, t, Go(k, SkipStarted));
    more, t := RunOn(Initial(), more, t, Go(k, Launch));
    more, t := RunOn(Initial(), more, t, Go(k, Create(Some(id))));
    assert t.tasks == s.tasks + [FreshTask(build, Starting(id))];
  }

  lemma StartContainer(steps: seq<Step>, s: State, k: nat, build: string, id: string)
    returns (more: seq<Step>, t: State)
    requires IsRun(Initial(), steps, s) && k < |s.tasks| && s.tasks[k] == FreshTask(build, Starting(id))
    ensures IsRun(Initial(), more, t)
    ensures t == s.(tasks := s.tasks[k := FreshTask(build, Waiting(id))],
                    running := s.running + [Docker.Runner(id, build)])
  {
    more, t := RunOn(Initial(), steps, s, Go(k, Start(true)));
  }

  /** An abort from its mark to its stop, with nothing in between. */
  lemma AbortAtOnce(steps: seq<Step>, s: State, build: string) returns (more: seq<Step>, t: State)
    requires IsRun(Initial(), steps, s)
    ensures IsRun(Initial(), more, t)
    ensures t.tasks == s.tasks && t.running == s.running && t.out == s.out && t.ids == s.ids
    ensures t.aborted == s.aborted + {build} && t.aborters == s.aborters + [Ended]
    ensures var first := Docker.FirstOf(s.running, build);
            t.stopped == if first.Some? then s.stopped + [(build, first.value)] else s.stopped
  {
    var k := |s.aborters|;
    more, t := RunOn(Initial(), steps, s, AbortBuild(build));
    more, t := RunOn(Initial(), more, t, Look(k));
    more, t := RunOn(Initial(), more, t, Stop(k));
  }

  lemma EndContainer(steps: seq<Step>, s: State, k: nat, build: string, id: string) returns (more: seq<Step>, t: State)
    requires IsRun(Initial(), steps, s) && k < |s.tasks| && s.tasks[k] == FreshTask(build, Waiting(id))
    ensures IsRun(Initial(), more, t)
    ensures t == s.(tasks := s.tasks[k := Task(Options("", build, false), Releasing(true), Gone, 1, false)],
                    running := Docker.RemoveFirst(s.running, id))
  {
    more, t := RunOn(Initial(), steps, s, Go(k, Wait(true)));
    more, t := RunOn(Initial(), more, t, Go(k, Remove));
    more, t := RunOn(Initial(), more, t, Go(k, Hand));
  }

  /** The rest of a task whose container has ended well, of a build that has been aborted. */
  lemma ReportAborted(steps: seq<Step>, s: State, k: nat, build: string) returns (more: seq<Step>, t: State)
    requires IsRun(Initial(), steps, s) && k < |s.tasks| && build in s.aborted && |s.out.queue| + 2 <= Outbox.CAPACITY
    requires s.tasks[k] == Task(Options("", build, false), Releasing(true), Gone, 1, false)
    ensures IsRun(Initial(), more, t)
    ensures t.tasks == s.tasks[k := Task(Options("", build, false), Over(true, JobAborted), Gone, 1, true)]
    ensures t.aborted == s.aborted && t.stopped == s.stopped && t.aborters == s.aborters && t.running == s.running
    ensures |t.out.queue| == |s.out.queue| + 2
  {
    more, t := RunOn(Initial(), steps, s, Go(k, SendRelease));
    more, t := RunOn(Initial(), more, t, Go(k, CheckAbort));
    more, t := RunOn(Initial(), more, t, Go(k, SendTerminal));
    more, t := RunOn(Initial(), more, t, Go(k, Close));
  }

  /**
   The abort looks before the build's container is in the list: nothing is stopped, the container runs to a good end,
   and its job is reported as aborted.
   */
  lemma AbortedWithoutKill(build: string, id: string) returns (steps: seq<Step>, last: State)
    ensures IsRun(Initial(), steps, last) && last.aborters == [Ended] && last.stopped == []
    ensures |last.tasks| == 1 && last.tasks[0].updater == Over(true, JobAborted)
  {
    steps, last := CreateTask([], Initial(), build, id);
    steps, last := AbortAtOnce(steps, last, build);
    steps, last := StartContainer(steps, last, 0, build, id);
    steps, last := EndContainer(steps, last, 0, build, id);
    steps, last := ReportAborted(steps, last, 0, build);
  }

  lemma TwoListed(build: string, one: string, two: string) returns (steps: seq<Step>, last: State)
    requires one != two
    ensures IsRun(Initial(), steps, last)
    ensures last == Initial().(tasks := [FreshTask(build, Waiting(one)), FreshTask(build, Waiting(two))],
                               running := [Docker.Runner(one, build), Docker.Runner(two, build)],
                               ids := {one, two})
  {
    steps, last := CreateTask([], Initial(), build, one);
    steps, last := StartContainer(steps, last, 0, build, one);
    steps, last := CreateTask(steps, last, build, two);
    steps, last := StartContainer(steps, last, 1, build, two);
  }

  /**
   Two containers of one build are listed and nothing races: the abort stops the first alone, the other one runs to a
   good end, and both jobs are reported as aborted.
   */
  lemma SecondContainerSurvives(build: string, one: string, two: string) returns (steps: seq<Step>, last: State)
    requires one != two
    ensures IsRun(Initial(), steps, last) && last.stopped == [(build, Docker.Runner(one, build))]
    ensures |last.tasks| == 2 && forall t :: 0 <= t < 2 ==> last.tasks[t].updater == Over(true, JobAborted)
  {
    steps, last := TwoListed(build, one, two);
    steps, last := AbortAtOnce(steps, last, build);
    steps, last := EndContainer(steps, last, 0, build, one);
    steps, last := EndContainer(steps, last, 1, build, two);
    steps, last := ReportAborted(steps, last, 0, build);
    steps, last := ReportAborted(steps, last, 1, build);
  }
}
