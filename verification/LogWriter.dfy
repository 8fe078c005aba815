/**
 The writer that turns a byte stream into log entries, one a line: pkg/lumber/logio.go.
 */
module LogWriter {

  /** What has been logged, and the line that is not complete yet. */
  datatype Log = Log(entries: seq<string>, partial: string)

  /** The reference, byte by byte: a newline completes the entry. */
  function Feed(log: Log, bs: string): Log
    decreases |bs|
  {
    if bs == "" then log
    else Feed(FeedByte(log, bs[0]), bs[1..])
  }

  function FeedByte(log: Log, b: char): Log {
    if b == '\n' then Log(log.entries + [log.partial], "") else Log(log.entries, log.partial + [b])
  }

  /** An explicit flush: an entry only if there is something to log. */
  function Flushed(log: Log): Log {
    if log.partial == "" then log else Log(log.entries + [log.partial], "")
  }

  /** No entry and no partial line contains a newline. */
  predicate Split(log: Log) {
    (forall e :: e in log.entries ==> '\n' !in e) && '\n' !in log.partial
  }

  function Unlines(entries: seq<string>): string {
    if entries == [] then "" else Unlines(entries[..|entries| - 1]) + entries[|entries| - 1] + "\n"
  }

  /** The stream that the entries, each ended by a newline, and the partial line make up. */
  function Stream(log: Log): string {
    Unlines(log.entries) + log.partial
  }

  class Writer {
    var logged: seq<string>
    var buff: string

    ghost function State(): Log
      reads this
    {
      Log(logged, buff)
    }

    constructor ()
      ensures State() == Log([], "")
    {
      logged, buff := [], "";
    }

    method Write(bs: string) returns (n: nat)
      modifies this
      ensures State() == Feed(old(State()), bs)
      ensures n == |bs|
    {
      var rest := bs;
      ghost var taken := "";
      while |rest| > 0
        invariant bs == taken + rest
        invariant State() == Feed(old(State()), taken)
      {
        ghost var line;
        var remaining;
        remaining, line := WriteLine(rest);
        FeedConcat(old(State()), taken, line);
        assert bs == (taken + line) + remaining;
        rest, taken := remaining, taken + line;
      }
      assert taken == bs;
      return |bs|;
    }

    /** Takes one line, or what there is of it, from the front; `taken` is what it took. */
    method WriteLine(line: string) returns (remaining: string, ghost taken: string)
      requires |line| > 0
      modifies this
      ensures line == taken + remaining && taken != ""
      ensures State() == Feed(old(State()), taken)
    {
      var idx := 0;
      while idx < |line| && line[idx] != '\n'
        invariant idx <= |line| && '\n' !in line[..idx]
      {
        idx := idx + 1;
      }
      if idx == |line| {
        assert line[..idx] == line;
        FeedLine(State(), line, false);
        buff := buff + line;
        return "", line;
      }

      var front;
      taken := line[..idx + 1];
      front, remaining := line[..idx], line[idx + 1..];
      assert taken == front + "\n";
      FeedLine(State(), front, true);
      if |buff| == 0 {
        assert buff + front == front;
        LogEntry(front);
        return;
      }
      buff := buff + front;
      Flush(true);
    }

    method Close()
      modifies this
      ensures State() == Flushed(old(State()))
    {
      Sync();
    }

    method Sync()
      modifies this
      ensures State() == Flushed(old(State()))
    {
      Flush(false);
    }

    method Flush(allowEmpty: bool)
      modifies this
      ensures buff == ""
      ensures logged == old(logged) + (if allowEmpty || old(buff) != "" then [old(buff)] else [])
    {
      if allowEmpty || |buff| > 0 {
        LogEntry(buff);
      }
      buff := "";
    }

    method LogEntry(b: string)
      modifies this`logged
      ensures logged == old(logged) + [b]
    {
      logged := logged + [b];
    }
  }

  lemma {:induction false} FeedConcat(log: Log, a: string, b: string)
    ensures Feed(log, a + b) == Feed(Feed(log, a), b)
    decreases |a|
  {
    if a == "" {
      assert a + b == b;
    } else {
      assert (a + b)[1..] == a[1..] + b;
      FeedConcat(FeedByte(log, a[0]), a[1..], b);
    }
  }

  /** Feeding a line is appending it, and logging the whole if it is complete. */
  lemma {:induction false} FeedLine(log: Log, line: string, complete: bool)
    requires '\n' !in line
    ensures Feed(log, line) == Log(log.entries, log.partial + line)
    ensures complete ==> Feed(log, line + "\n") == Log(log.entries + [log.partial + line], "")
    decreases |line|
  {
    if line == "" {
      assert log.partial + line == log.partial;
      assert line + "\n" == "\n";
    } else {
      FeedLine(FeedByte(log, line[0]), line[1..], false);
      assert log.partial + [line[0]] + line[1..] == log.partial + line;
      if complete {
        FeedConcat(log, line, "\n");
      }
    }
  }

  // ----- What the entries preserve -----

  /** The entries are lines. */
  lemma {:induction false} FeedSplits(log: Log, bs: string)
    requires Split(log)
    ensures Split(Feed(log, bs))
    decreases |bs|
  {
    if bs != "" {
      FeedSplits(FeedByte(log, bs[0]), bs[1..]);
    }
  }

  /** The stream can be rebuilt exactly from the entries and the buffer. */
  lemma {:induction false} FeedRebuilds(log: Log, bs: string)
    ensures Stream(Feed(log, bs)) == Stream(log) + bs
    decreases |bs|
  {
    if bs == "" {
      assert Stream(log) + bs == Stream(log);
    } else {
      var next := FeedByte(log, bs[0]);
      if bs[0] == '\n' {
        assert next.entries[..|next.entries| - 1] == log.entries;
      }
      assert Stream(next) == Stream(log) + [bs[0]];
      FeedRebuilds(next, bs[1..]);
      assert Stream(log) + [bs[0]] + bs[1..] == Stream(log) + bs;
    }
  }

  /** There is only one way to cut a stream into entries and a partial line. */
  lemma {:induction false} CutIsUnique(a: Log, b: Log)
    requires Split(a) && Split(b) && Stream(a) == Stream(b)
    ensures a == b
    decreases |a.entries|
  {
    LastLineBreak(a, b);
    LastLineBreak(b, a);
    assert Unlines(a.entries) == Stream(a)[..|Unlines(a.entries)|];
    assert Unlines(b.entries) == Stream(b)[..|Unlines(b.entries)|];
    assert a.partial == Stream(a)[|Unlines(a.entries)|..];
    assert b.partial == Stream(b)[|Unlines(b.entries)|..];
    if a.entries != [] && b.entries != [] {
      var a', b' := FrontLog(a), FrontLog(b);
      assert Unlines(a.entries) == Stream(a') + "\n" && Unlines(b.entries) == Stream(b') + "\n";
      assert Stream(a') == (Stream(a') + "\n")[..|Stream(a')|];
      assert Stream(b') == (Stream(b') + "\n")[..|Stream(b')|];
      assert a.entries[|a.entries| - 1] in a.entries && b.entries[|b.entries| - 1] in b.entries;
      CutIsUnique(a', b');
      assert a.entries == a'.entries + [a'.partial] && b.entries == b'.entries + [b'.partial];
    }
  }

  /** The log before its last entry was completed. */
  function FrontLog(log: Log): Log
    requires log.entries != []
  {
    Log(log.entries[..|log.entries| - 1], log.entries[|log.entries| - 1])
  }

  lemma LastLineBreak(a: Log, b: Log)
    requires Split(b) && Stream(a) == Stream(b)
    ensures |Unlines(a.entries)| <= |Unlines(b.entries)|
  {
    if a.entries != [] {
      var i := |Unlines(a.entries)| - 1;
      assert Unlines(a.entries)[i] == '\n';
      assert Stream(b)[i] == '\n';
    }
  }

  // ----- Runs -----

  datatype Op = Write(bs: string) | Sync

  function Run(log: Log, ops: seq<Op>): Log
    decreases |ops|
  {
    if ops == [] then log else Run(Do(log, ops[0]), ops[1..])
  }

  function Do(log: Log, op: Op): Log {
    match op
    case Write(bs) => Feed(log, bs)
    case Sync => Flushed(log)
  }

  function Written(op: Op): string {
    if op.Write? then op.bs else ""
  }

  /** Everything written during the run. */
  function Input(ops: seq<Op>): string {
    if ops == [] then "" else Written(ops[0]) + Input(ops[1..])
  }

  /** How a stream is cut into writes does not matter. */
  lemma {:induction false} RunIsOneWrite(log: Log, ops: seq<Op>)
    requires Sync !in ops
    ensures Run(log, ops) == Feed(log, Input(ops))
    decreases |ops|
  {
    if ops != [] {
      assert ops[0] in ops;
      RunIsOneWrite(Feed(log, ops[0].bs), ops[1..]);
      FeedConcat(log, ops[0].bs, Input(ops[1..]));
    }
  }

  function WithoutNewlines(s: string): string {
    if s == "" then "" else (if s[0] == '\n' then "" else [s[0]]) + WithoutNewlines(s[1..])
  }

  function Flatten(entries: seq<string>): string {
    if entries == [] then "" else Flatten(entries[..|entries| - 1]) + entries[|entries| - 1]
  }

  /** All bytes that are logged or buffered, in order. */
  function Bytes(log: Log): string {
    Flatten(log.entries) + log.partial
  }

  lemma {:induction false} WithoutNewlinesConcat(a: string, b: string)
    ensures WithoutNewlines(a + b) == WithoutNewlines(a) + WithoutNewlines(b)
  {
    if a == "" {
      assert a + b == b;
    } else {
      assert (a + b)[1..] == a[1..] + b;
      WithoutNewlinesConcat(a[1..], b);
    }
  }

  lemma FeedByteKeepsBytes(log: Log, b: char)
    ensures Bytes(FeedByte(log, b)) == Bytes(log) + if b == '\n' then "" else [b]
  {
    var next := FeedByte(log, b);
    if b == '\n' {
      assert next.entries[..|next.entries| - 1] == log.entries;
    } else {
      assert Flatten(log.entries) + (log.partial + [b]) == Bytes(log) + [b];
    }
  }

  lemma {:induction false} FeedKeepsBytes(log: Log, bs: string)
    ensures Bytes(Feed(log, bs)) == Bytes(log) + WithoutNewlines(bs)
    decreases |bs|
  {
    if bs != "" {
      var first := if bs[0] == '\n' then "" else [bs[0]];
      FeedByteKeepsBytes(log, bs[0]);
      FeedKeepsBytes(FeedByte(log, bs[0]), bs[1..]);
      assert Bytes(log) + (first + WithoutNewlines(bs[1..])) == (Bytes(log) + first) + WithoutNewlines(bs[1..]);
    }
  }

  lemma FlushedKeepsBytes(log: Log)
    ensures Bytes(Flushed(log)) == Bytes(log)
    ensures Flushed(log).partial == ""
  {
    if log.partial != "" {
      assert Flushed(log).entries[..|Flushed(log).entries| - 1] == log.entries;
      assert Bytes(Flushed(log)) == Flatten(log.entries) + log.partial + "";
    }
  }

  lemma DoKeepsBytes(log: Log, op: Op)
    ensures Bytes(Do(log, op)) == Bytes(log) + WithoutNewlines(Written(op))
    ensures Split(log) ==> Split(Do(log, op))
  {
    match op {
      case Write(bs) =>
        FeedKeepsBytes(log, bs);
        if Split(log) {
          FeedSplits(log, bs);
        }
      case Sync =>
        FlushedKeepsBytes(log);
    }
  }

  /** Wherever flushes come, no byte but the newlines is lost, reordered or invented. */
  lemma {:induction false} RunKeepsBytes(log: Log, ops: seq<Op>)
    ensures Bytes(Run(log, ops)) == Bytes(log) + WithoutNewlines(Input(ops))
    ensures Split(log) ==> Split(Run(log, ops))
    decreases |ops|
  {
    if ops != [] {
      var w, rest := Written(ops[0]), Input(ops[1..]);
      DoKeepsBytes(log, ops[0]);
      RunKeepsBytes(Do(log, ops[0]), ops[1..]);
      WithoutNewlinesConcat(w, rest);
      assert Bytes(log) + WithoutNewlines(w) + WithoutNewlines(rest)
          == Bytes(log) + (WithoutNewlines(w) + WithoutNewlines(rest));
    }
  }

  /** After a run that ends in a flush, as `Close` does, everything is logged. */
  lemma ClosedRunIsLogged(log: Log, ops: seq<Op>)
    ensures Run(log, ops + [Sync]).partial == ""
    ensures Flatten(Run(log, ops + [Sync]).entries) == Bytes(log) + WithoutNewlines(Input(ops))
  {
    RunThenSync(log, ops);
    RunKeepsBytes(log, ops);
    FlushedKeepsBytes(Run(log, ops));
    var closed := Run(log, ops + [Sync]);
    assert Bytes(closed) == Flatten(closed.entries) + "";
  }

  lemma {:induction false} RunThenSync(log: Log, ops: seq<Op>)
    ensures Run(log, ops + [Sync]) == Flushed(Run(log, ops))
    decreases |ops|
  {
    if ops == [] {
      assert ops + [Sync] == [Sync];
      assert [Sync][1..] == [];
    } else {
      assert (ops + [Sync])[1..] == ops[1..] + [Sync];
      RunThenSync(Do(log, ops[0]), ops[1..]);
    }
  }
}
