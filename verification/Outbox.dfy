/**
 The outgoing messages of synapse: a bounded channel, any number of producers and any number of writers that put a
 message back when writing it fails.  Models `writeMessageToBuffer` and `messageWriter` of pkg/synapse/synapse.go.
 */
module Outbox {

  const CAPACITY: nat := 1024

  /** Where a writer goroutine stands; `Signalling` is the send that tells of the broken connection. */
  datatype Writer<M> = Idle | Holding(m: M) | PuttingBack(m: M) | Signalling | Stopped

  /** `delivered` are the messages written to the connection; `enqueued` records what producers have sent, in order. */
  datatype Box<M> = Box(queue: seq<M>, writers: seq<Writer<M>>, delivered: seq<M>, enqueued: seq<M>)

  datatype Act = Take | Write | Fail | PutBack | Signal | Stop

  datatype Step<M> = Put(m: M) | Connect | Go(w: nat, act: Act)

  function Empty<M>(): Box<M> {
    Box([], [], [], [])
  }

  predicate CanAct<M>(b: Box<M>, w: Writer<M>, act: Act) {
    match act
    case Take => w.Idle? && b.queue != []
    case Write => w.Holding?
    case Fail => w.Holding?
    case PutBack => w.PuttingBack? && |b.queue| < CAPACITY
    case Signal => w.Signalling?
    case Stop => w.Idle?
  }

  predicate Enabled<M>(b: Box<M>, step: Step<M>) {
    match step
    case Put(_) => |b.queue| < CAPACITY
    case Connect => true
    case Go(w, act) => w < |b.writers| && CanAct(b, b.writers[w], act)
  }

  function Move<M>(b: Box<M>, w: nat, writer: Writer<M>): Box<M>
    requires w < |b.writers|
  {
    b.(writers := b.writers[w := writer])
  }

  function Apply<M>(b: Box<M>, step: Step<M>): Box<M>
    requires Enabled(b, step)
  {
    match step
    case Put(m) => b.(queue := b.queue + [m], enqueued := b.enqueued + [m])
    case Connect => b.(writers := b.writers + [Idle])
    case Go(w, act) =>
      match act
      case Take => Move(b, w, Holding(b.queue[0])).(queue := b.queue[1..])
      case Write => Move(b, w, Idle).(delivered := b.delivered + [b.writers[w].m])
      case Fail => Move(b, w, PuttingBack(b.writers[w].m))
      case PutBack => Move(b, w, Signalling).(queue := b.queue + [b.writers[w].m])
      case Signal => Move(b, w, Stopped)
      case Stop => Move(b, w, Stopped)
  }

  predicate IsRun<M(==)>(b: Box<M>, steps: seq<Step<M>>, last: Box<M>)
    decreases |steps|
  {
    if steps == [] then b == last
    else Enabled(b, steps[0]) && IsRun(Apply(b, steps[0]), steps[1..], last)
  }

  // ----- No message is lost or doubled -----

  predicate Holds<M>(w: Writer<M>) {
    w.Holding? || w.PuttingBack?
  }

  function InHand<M>(w: Writer<M>): seq<M> {
    if Holds(w) then [w.m] else []
  }

  /** The messages the writers hold. */
  function Held<M>(ws: seq<Writer<M>>): seq<M> {
    if ws == [] then [] else Held(ws[..|ws| - 1]) + InHand(ws[|ws| - 1])
  }

  ghost predicate Conserved<M>(b: Box<M>) {
    && multiset(b.enqueued) == multiset(b.queue) + multiset(Held(b.writers)) + multiset(b.delivered)
    && |b.queue| <= CAPACITY
  }

  lemma Regrouped<M>(a: seq<M>, b: seq<M>, c: seq<M>, d: seq<M>)
    ensures a + b + c + d == a + b + (c + d)
  {
  }

  /** What is held when one writer changes hands. */
  lemma {:induction false} HeldSplit<M>(ws: seq<Writer<M>>, i: nat, w: Writer<M>)
    returns (before: seq<M>, after: seq<M>)
    requires i < |ws|
    ensures Held(ws) == before + InHand(ws[i]) + after
    ensures Held(ws[i := w]) == before + InHand(w) + after
  {
    var n := |ws| - 1;
    if i < n {
      var rest;
      before, rest := HeldSplit(ws[..n], i, w);
      after := rest + InHand(ws[n]);
      assert ws[i := w][..n] == ws[..n][i := w];
      Regrouped(before, InHand(ws[i]), rest, InHand(ws[n]));
      Regrouped(before, InHand(w), rest, InHand(ws[n]));
    } else {
      before, after := Held(ws[..n]), [];
      assert ws[i := w][..n] == ws[..n];
    }
  }

  lemma HeldUpdated<M>(ws: seq<Writer<M>>, i: nat, w: Writer<M>) returns (others: multiset<M>)
    requires i < |ws|
    ensures multiset(Held(ws)) == others + multiset(InHand(ws[i]))
    ensures multiset(Held(ws[i := w])) == others + multiset(InHand(w))
  {
    var before, after := HeldSplit(ws, i, w);
    others := multiset(before) + multiset(after);
  }

  lemma HeldConnected<M>(ws: seq<Writer<M>>)
    ensures Held(ws + [Idle]) == Held(ws)
  {
    assert (ws + [Idle])[..|ws|] == ws;
  }

  lemma HeldSame<M>(ws: seq<Writer<M>>, i: nat, w: Writer<M>)
    requires i < |ws| && InHand(ws[i]) == InHand(w)
    ensures Held(ws[i := w]) == Held(ws)
  {
    var before, after := HeldSplit(ws, i, w);
  }

  lemma HeldMore<M>(ws: seq<Writer<M>>, i: nat, m: M)
    requires i < |ws| && ws[i].Idle?
    ensures multiset(Held(ws[i := Holding(m)])) == multiset(Held(ws)) + multiset{m}
  {
    var others := HeldUpdated(ws, i, Holding(m));
    assert multiset(InHand(ws[i])) == multiset{} && multiset(InHand(Holding(m))) == multiset{m};
  }

  lemma HeadOf<M>(q: seq<M>)
    requires q != []
    ensures multiset(q) == multiset{q[0]} + multiset(q[1..])
  {
    assert q == [q[0]] + q[1..];
  }

  lemma Taken<M>(e: multiset<M>, q: multiset<M>, h: multiset<M>, d: multiset<M>, m: multiset<M>, rest: multiset<M>)
    requires e == q + h + d && q == m + rest
    ensures e == rest + (h + m) + d
  {
  }

  lemma TakeConserves<M>(b: Box<M>, w: nat)
    requires Conserved(b) && Enabled(b, Go(w, Take))
    ensures Conserved(Apply(b, Go(w, Take)))
  {
    HeldMore(b.writers, w, b.queue[0]);
    HeadOf(b.queue);
    Taken(multiset(b.enqueued), multiset(b.queue), multiset(Held(b.writers)), multiset(b.delivered),
          multiset{b.queue[0]}, multiset(b.queue[1..]));
  }

  lemma WriteConserves<M>(b: Box<M>, w: nat)
    requires Conserved(b) && Enabled(b, Go(w, Write))
    ensures Conserved(Apply(b, Go(w, Write)))
  {
    var m := b.writers[w].m;
    var others := HeldUpdated(b.writers, w, Idle);
    assert multiset(Held(Apply(b, Go(w, Write)).writers)) == others;
    Written(multiset(b.queue), others, multiset(b.delivered), multiset{m});
  }

  lemma Written<M>(q: multiset<M>, h: multiset<M>, d: multiset<M>, m: multiset<M>)
    ensures q + (h + m) + d == q + h + (d + m)
  {
  }

  lemma PutBackConserves<M>(b: Box<M>, w: nat)
    requires Conserved(b) && Enabled(b, Go(w, PutBack))
    ensures Conserved(Apply(b, Go(w, PutBack)))
  {
    var m := b.writers[w].m;
    var others := HeldUpdated(b.writers, w, Signalling);
    assert multiset(Held(Apply(b, Go(w, PutBack)).writers)) == others;
    PutAgain(multiset(b.queue), others, multiset(b.delivered), multiset{m});
  }

  lemma PutAgain<M>(q: multiset<M>, h: multiset<M>, d: multiset<M>, m: multiset<M>)
    ensures q + (h + m) + d == (q + m) + h + d
  {
  }

  lemma GoConserves<M>(b: Box<M>, w: nat, act: Act)
    requires Conserved(b) && Enabled(b, Go(w, act))
    ensures Conserved(Apply(b, Go(w, act)))
  {
    match act
    case Take => TakeConserves(b, w);
    case Write => WriteConserves(b, w);
    case Fail => HeldSame(b.writers, w, PuttingBack(b.writers[w].m));
    case PutBack => PutBackConserves(b, w);
    case Signal => HeldSame(b.writers, w, Stopped);
    case Stop => HeldSame(b.writers, w, Stopped);
  }

  lemma StepConserves<M>(b: Box<M>, step: Step<M>)
    requires Conserved(b) && Enabled(b, step)
    ensures Conserved(Apply(b, step))
  {
    match step
    case Put(_) =>
    case Connect => HeldConnected(b.writers);
    case Go(w, act) => GoConserves(b, w, act);
  }

  lemma {:induction false} RunConserves<M>(b: Box<M>, steps: seq<Step<M>>, last: Box<M>)
    requires Conserved(b) && IsRun(b, steps, last)
    ensures Conserved(last)
    decreases |steps|
  {
    if steps != [] {
      StepConserves(b, steps[0]);
      RunConserves(Apply(b, steps[0]), steps[1..], last);
    }
  }

  /**
   Whatever the producers and writers do and whatever writes fail: what was enqueued is what is queued, held by a
   writer or delivered, each as often; and the queue never holds more than 1024 messages.
   */
  lemma NothingLostOrDoubled<M>(steps: seq<Step<M>>, last: Box<M>)
    requires IsRun(Empty(), steps, last)
    ensures multiset(last.enqueued) == multiset(last.queue) + multiset(Held(last.writers)) + multiset(last.delivered)
    ensures |last.queue| <= 1024
  {
    RunConserves(Empty(), steps, last);
  }

  // ----- Order -----

  /** No message is taken while another is held, and none is put back behind a different one. */
  predicate Orderly<M(==)>(b: Box<M>, step: Step<M>)
    requires Enabled(b, step)
  {
    step.Go? ==>
      && (step.act.Take? ==> Held(b.writers) == [])
      && (step.act.PutBack? ==> AllAre(b.queue, b.writers[step.w].m))
  }

  predicate AllAre<M(==)>(q: seq<M>, m: M) {
    forall x :: x in q ==> x == m
  }

  predicate OneAtATime<M(==)>(b: Box<M>, steps: seq<Step<M>>)
    decreases |steps|
  {
    steps == [] ||
    (Enabled(b, steps[0]) && Orderly(b, steps[0]) && OneAtATime(Apply(b, steps[0]), steps[1..]))
  }

  predicate InOrder<M(==)>(b: Box<M>) {
    b.delivered + Held(b.writers) + b.queue == b.enqueued && |Held(b.writers)| <= 1
  }

  lemma StepKeepsOrder<M>(b: Box<M>, step: Step<M>)
    requires InOrder(b) && Enabled(b, step) && Orderly(b, step)
    ensures InOrder(Apply(b, step))
  {
    match step
    case Put(_) =>
    case Connect => HeldConnected(b.writers);
    case Go(w, act) => GoKeepsOrder(b, w, act);
  }

  lemma HeldAlone<M>(ws: seq<Writer<M>>, i: nat, w: Writer<M>)
    requires i < |ws| && |Held(ws)| <= |InHand(ws[i])|
    ensures Held(ws) == InHand(ws[i]) && Held(ws[i := w]) == InHand(w)
  {
    var before, after := HeldSplit(ws, i, w);
    assert |before + InHand(ws[i]) + after| == |before| + |InHand(ws[i])| + |after|;
    assert before == [] && after == [];
  }

  lemma HeadMoves<M>(d: seq<M>, q: seq<M>)
    requires q != []
    ensures d + [q[0]] + q[1..] == d + [] + q
  {
    assert q == [q[0]] + q[1..];
  }

  lemma HandMoves<M>(d: seq<M>, m: M, q: seq<M>)
    ensures (d + [m]) + [] + q == d + [m] + q
  {
  }

  lemma TakeKeepsOrder<M>(b: Box<M>, w: nat)
    requires InOrder(b) && Enabled(b, Go(w, Take)) && Held(b.writers) == []
    ensures InOrder(Apply(b, Go(w, Take)))
  {
    HeldAlone(b.writers, w, Holding(b.queue[0]));
    HeadMoves(b.delivered, b.queue);
  }

  lemma WriteKeepsOrder<M>(b: Box<M>, w: nat)
    requires InOrder(b) && Enabled(b, Go(w, Write))
    ensures InOrder(Apply(b, Go(w, Write)))
  {
    HeldAlone(b.writers, w, Idle);
    HandMoves(b.delivered, b.writers[w].m, b.queue);
  }

  /** Moving a message behind others keeps the order exactly if they are all like it. */
  lemma {:induction false} Rotates<M>(q: seq<M>, m: M)
    ensures [m] + q == q + [m] <==> AllAre(q, m)
  {
    if q != [] {
      Rotates(q[1..], m);
      assert q == [q[0]] + q[1..];
      if [m] + q == q + [m] {
        assert ([m] + q)[0] == (q + [m])[0];
        assert ([m] + q)[1..] == q && (q + [m])[1..] == q[1..] + [m];
      }
      if AllAre(q, m) {
        assert q[0] in q && q[0] == m;
        assert forall x :: x in q[1..] ==> x in q;
        assert [m] + q == [m] + ([m] + q[1..]);
        assert q + [m] == [q[0]] + (q[1..] + [m]);
      }
    }
  }

  lemma CancelFront<M>(d: seq<M>, x: seq<M>, y: seq<M>)
    ensures d + x == d + y <==> x == y
  {
    assert (d + x)[|d|..] == x && (d + y)[|d|..] == y;
  }

  /** A put-back keeps the order exactly if nothing different has been queued meanwhile. */
  lemma PutBackKeepsOrderIff<M>(b: Box<M>, w: nat)
    requires InOrder(b) && Enabled(b, Go(w, PutBack))
    ensures InOrder(Apply(b, Go(w, PutBack))) <==> AllAre(b.queue, b.writers[w].m)
  {
    var m := b.writers[w].m;
    HeldAlone(b.writers, w, Signalling);
    Rotates(b.queue, m);
    CancelFront(b.delivered, [m] + b.queue, b.queue + [m]);
    assert b.delivered + [m] + b.queue == b.delivered + ([m] + b.queue);
    assert b.delivered + [] + (b.queue + [m]) == b.delivered + (b.queue + [m]);
  }

  lemma GoKeepsOrder<M>(b: Box<M>, w: nat, act: Act)
    requires InOrder(b) && Enabled(b, Go(w, act)) && Orderly(b, Go(w, act))
    ensures InOrder(Apply(b, Go(w, act)))
  {
    match act
    case Take => TakeKeepsOrder(b, w);
    case Write => WriteKeepsOrder(b, w);
    case PutBack => PutBackKeepsOrderIff(b, w);
    case Fail => HeldSame(b.writers, w, PuttingBack(b.writers[w].m));
    case Signal => HeldSame(b.writers, w, Stopped);
    case Stop => HeldSame(b.writers, w, Stopped);
  }

  lemma {:induction false} RunKeepsOrder<M>(b: Box<M>, steps: seq<Step<M>>, last: Box<M>)
    requires InOrder(b) && IsRun(b, steps, last) && OneAtATime(b, steps)
    ensures InOrder(last)
    decreases |steps|
  {
    if steps != [] {
      StepKeepsOrder(b, steps[0]);
      RunKeepsOrder(Apply(b, steps[0]), steps[1..], last);
    }
  }

  /**
   With one message in hand at a time, and every message that is put back put behind nothing different, delivery
   follows the order of enqueueing.
   */
  lemma FirstInFirstOut<M>(steps: seq<Step<M>>, last: Box<M>)
    requires IsRun(Empty(), steps, last) && OneAtATime(Empty(), steps)
    ensures last.delivered + Held(last.writers) + last.queue == last.enqueued
  {
    RunKeepsOrder(Empty(), steps, last);
  }

  predicate NoFailure<M>(steps: seq<Step<M>>) {
    forall i :: 0 <= i < |steps| ==> !(steps[i].Go? && steps[i].act.Fail?)
  }

  predicate NonePutsBack<M>(ws: seq<Writer<M>>) {
    forall i :: 0 <= i < |ws| ==> !ws[i].PuttingBack?
  }

  /** A single writer cannot take while it holds. */
  lemma {:induction false} OneWriterTakesOne<M>(b: Box<M>, steps: seq<Step<M>>, last: Box<M>)
    requires IsRun(b, steps, last) && |last.writers| <= 1 && NoFailure(steps) && NonePutsBack(b.writers)
    ensures |b.writers| <= 1 && OneAtATime(b, steps)
    decreases |steps|
  {
    if steps != [] {
      assert NonePutsBack(Apply(b, steps[0]).writers);
      OneWriterTakesOne(Apply(b, steps[0]), steps[1..], last);
      if b.writers != [] {
        assert Held(b.writers) == Held(b.writers[..0]) + InHand(b.writers[0]);
      }
    }
  }

  /** With one writer and no failed write, delivered, held and queued messages are those enqueued, in order. */
  lemma OneWriterInOrder<M>(steps: seq<Step<M>>, last: Box<M>)
    requires IsRun(Empty(), steps, last) && |last.writers| <= 1 && NoFailure(steps)
    ensures last.delivered + Held(last.writers) + last.queue == last.enqueued
  {
    OneWriterTakesOne(Empty(), steps, last);
    FirstInFirstOut(steps, last);
  }

  lemma {:induction false} RunOn<M>(b: Box<M>, steps: seq<Step<M>>, last: Box<M>, step: Step<M>)
    returns (more: seq<Step<M>>, t: Box<M>)
    requires IsRun(b, steps, last) && Enabled(last, step)
    ensures more == steps + [step] && t == Apply(last, step) && IsRun(b, more, t)
    decreases |steps|
  {
    more, t := steps + [step], Apply(last, step);
    if steps != [] {
      var rest, u := RunOn(Apply(b, steps[0]), steps[1..], last, step);
      assert more[1..] == rest;
    }
  }

  /** One failed write is enough to deliver two messages in the other order. */
  lemma FailureReorders<M>(x: M, y: M) returns (steps: seq<Step<M>>, last: Box<M>)
    ensures IsRun(Empty(), steps, last)
    ensures last.enqueued == [x, y] && last.queue == [y, x] && last.delivered == []
  {
    var b := Empty();
    steps, last := [], b;
    steps, last := RunOn(b, steps, last, Connect);
    steps, last := RunOn(b, steps, last, Put(x));
    steps, last := RunOn(b, steps, last, Put(y));
    steps, last := RunOn(b, steps, last, Go(0, Take));
    steps, last := RunOn(b, steps, last, Go(0, Fail));
    steps, last := RunOn(b, steps, last, Go(0, PutBack));
  }

  /** So are two writers without any failure. */
  lemma TwoWritersReorder<M>(x: M, y: M) returns (steps: seq<Step<M>>, last: Box<M>)
    ensures IsRun(Empty(), steps, last)
    ensures last.enqueued == [x, y] && last.queue == [] && last.delivered == [y, x]
  {
    var b := Empty();
    steps, last := [], b;
    steps, last := RunOn(b, steps, last, Connect);
    steps, last := RunOn(b, steps, last, Connect);
    steps, last := RunOn(b, steps, last, Put(x));
    steps, last := RunOn(b, steps, last, Put(y));
    steps, last := RunOn(b, steps, last, Go(0, Take));
    steps, last := RunOn(b, steps, last, Go(1, Take));
    steps, last := RunOn(b, steps, last, Go(1, Write));
    steps, last := RunOn(b, steps, last, Go(0, Write));
  }

  // ----- Blocking -----

  lemma {:induction false} Fill<M>(b: Box<M>, steps: seq<Step<M>>, last: Box<M>, m: M, n: nat)
    returns (more: seq<Step<M>>, t: Box<M>)
    requires IsRun(b, steps, last) && |last.queue| + n <= CAPACITY
    ensures IsRun(b, more, t) && |t.queue| == |last.queue| + n && t.writers == last.writers
    decreases n
  {
    more, t := steps, last;
    if n > 0 {
      more, t := RunOn(b, steps, last, Put(m));
      more, t := Fill(b, more, t, m, n - 1);
    }
  }

  /**
   A writer can put its message back exactly when fewer than 1024 messages are under way besides those in hand; so it
   can whenever at most 1024 have been enqueued and not delivered.
   */
  lemma PutBackHasRoom<M>(steps: seq<Step<M>>, last: Box<M>, w: nat)
    requires IsRun(Empty(), steps, last) && w < |last.writers| && last.writers[w].PuttingBack?
    ensures Enabled(last, Go(w, PutBack)) <==> |last.enqueued| - |last.delivered| - |Held(last.writers)| < CAPACITY
    ensures |last.enqueued| - |last.delivered| <= CAPACITY ==> Enabled(last, Go(w, PutBack))
  {
    NothingLostOrDoubled(steps, last);
    var before, after := HeldSplit(last.writers, w, last.writers[w]);
    assert |multiset(last.enqueued)| == |last.enqueued|;
    assert |multiset(last.queue) + multiset(Held(last.writers)) + multiset(last.delivered)|
        == |last.queue| + |Held(last.writers)| + |last.delivered|;
  }

  /**
   A writer can be kept from putting its message back: producers have filled the queue, and until another writer
   connects nobody can go on, so the broken connection is not signalled either.
   */
  lemma PutBackCanBlock<M>(m: M) returns (steps: seq<Step<M>>, last: Box<M>)
    ensures IsRun(Empty(), steps, last) && last.writers == [PuttingBack(m)]
    ensures forall step :: Enabled(last, step) ==> step.Connect?
  {
    var b := Empty();
    steps, last := [], b;
    steps, last := RunOn(b, steps, last, Connect);
    steps, last := RunOn(b, steps, last, Put(m));
    steps, last := RunOn(b, steps, last, Go(0, Take));
    steps, last := RunOn(b, steps, last, Go(0, Fail));
    steps, last := Fill(b, steps, last, m, CAPACITY);
  }
}
