/**
 Which files a change touched, read from a unified diff or from GitLab's list: pkg/diffmanager/setup.go.
 */
module Diff {
  import opened Wrappers
  import opened Text

  const FILE_ADDED: nat := 1
  const FILE_REMOVED: nat := 2
  const FILE_MODIFIED: nat := 3

  // ----- The map of changes -----

  /** Go's `|` on numbers that are not negative. */
  function BitOr(a: nat, b: nat): nat
    decreases a + b
  {
    if a == 0 then b else if b == 0 then a
    else (if a % 2 == 1 || b % 2 == 1 then 1 else 0) + 2 * BitOr(a / 2, b / 2)
  }

  datatype Update = Update(key: string, value: nat)

  function At(m: map<string, nat>, key: string): nat {
    if key in m then m[key] else 0
  }

  function Or(m: map<string, nat>, u: Update): map<string, nat> {
    m[u.key := BitOr(At(m, u.key), u.value)]
  }

  function OrAll(m: map<string, nat>, us: seq<Update>): map<string, nat>
    decreases |us|
  {
    if us == [] then m else OrAll(Or(m, us[0]), us[1..])
  }

  class ChangeMap {
    var m: map<string, nat>

    constructor ()
      ensures m == map[]
    {
      m := map[];
    }

    method UpdateWithOr(key: string, value: nat)
      modifies this
      ensures m == Or(old(m), Update(key, value))
    {
      if key !in m {
        m := m[key := 0];
      }
      m := m[key := BitOr(m[key], value)];
    }
  }

  lemma {:induction false} OrAllConcat(m: map<string, nat>, a: seq<Update>, b: seq<Update>)
    ensures OrAll(m, a + b) == OrAll(OrAll(m, a), b)
    decreases |a|
  {
    if a == [] {
      assert a + b == b;
    } else {
      assert (a + b)[1..] == a[1..] + b;
      OrAllConcat(Or(m, a[0]), a[1..], b);
    }
  }

  /** The last bit of a union, and the union of what is above it. */
  lemma BitOrUnfolds(a: nat, b: nat)
    ensures BitOr(a, b) % 2 == (if a % 2 == 1 || b % 2 == 1 then 1 else 0)
    ensures BitOr(a, b) / 2 == BitOr(a / 2, b / 2)
  {
  }

  lemma {:induction false} BitOrExchange(x: nat, a: nat, b: nat)
    ensures BitOr(BitOr(x, a), b) == BitOr(BitOr(x, b), a)
    decreases x + a + b
  {
    if x + a + b > 0 {
      BitOrUnfolds(x, a);
      BitOrUnfolds(BitOr(x, a), b);
      BitOrUnfolds(x, b);
      BitOrUnfolds(BitOr(x, b), a);
      BitOrExchange(x / 2, a / 2, b / 2);
    }
  }

  lemma OrCommutes(m: map<string, nat>, u: Update, w: Update)
    ensures Or(Or(m, u), w) == Or(Or(m, w), u)
  {
    BitOrExchange(At(m, u.key), u.value, w.value);
  }

  lemma {:induction false} OrFirst(m: map<string, nat>, us: seq<Update>, i: nat)
    requires i < |us|
    ensures OrAll(m, us) == OrAll(Or(m, us[i]), us[..i] + us[i + 1..])
    decreases |us|
  {
    if i == 0 {
      assert us[..0] + us[1..] == us[1..];
    } else {
      OrFirst(Or(m, us[0]), us[1..], i - 1);
      OrCommutes(m, us[0], us[i]);
      var rest := us[..i] + us[i + 1..];
      assert us[1..][..i - 1] + us[1..][i..] == rest[1..];
    }
  }

  lemma PutBack<T>(us: seq<T>, i: nat)
    requires i < |us|
    ensures multiset(us) == multiset{us[i]} + multiset(us[..i] + us[i + 1..])
  {
    assert us == us[..i] + [us[i]] + us[i + 1..];
  }

  lemma Cancel<T>(x: T, p: multiset<T>, q: multiset<T>)
    requires multiset{x} + p == multiset{x} + q
    ensures p == q
  {
    assert p == (multiset{x} + p) - multiset{x};
    assert q == (multiset{x} + q) - multiset{x};
  }

  /** Two lists of the same elements: the first element of one, and the rest of the other without it. */
  lemma TakeOut<T>(us: seq<T>, ws: seq<T>) returns (i: nat)
    requires us != [] && multiset(us) == multiset(ws)
    ensures i < |ws| && ws[i] == us[0]
    ensures multiset(us[1..]) == multiset(ws[..i] + ws[i + 1..])
  {
    assert us[0] in multiset(ws);
    i :| 0 <= i < |ws| && ws[i] == us[0];
    PutBack(ws, i);
    PutBack(us, 0);
    assert us[..0] + us[1..] == us[1..];
    Cancel(us[0], multiset(us[1..]), multiset(ws[..i] + ws[i + 1..]));
  }

  /** The order of the updates does not matter. */
  lemma {:induction false} OrderIrrelevant(m: map<string, nat>, us: seq<Update>, ws: seq<Update>)
    requires multiset(us) == multiset(ws)
    ensures OrAll(m, us) == OrAll(m, ws)
    decreases |us|
  {
    if us == [] {
      assert |multiset(ws)| == |ws|;
    } else {
      var i := TakeOut(us, ws);
      OrFirst(m, ws, i);
      OrderIrrelevant(Or(m, us[0]), us[1..], ws[..i] + ws[i + 1..]);
    }
  }

  // ----- The unified diff -----

  /** The lines a scanner yields: a final newline ends the last line. */
  function Lines(s: string): seq<string> {
    var parts := Split(s, '\n');
    if parts[|parts| - 1] == "" then parts[..|parts| - 1] else parts
  }

  /** The update a line of a unified diff stands for, if it is a file header. */
  function LineUpdate(line: string): seq<Update> {
    if "--- a/" <= line then [Update(line[6..], FILE_REMOVED)]
    else if "+++ b/" <= line then [Update(line[6..], FILE_ADDED)]
    else []
  }

  function LineUpdates(lines: seq<string>): seq<Update> {
    if lines == [] then [] else LineUpdate(lines[0]) + LineUpdates(lines[1..])
  }

  lemma OneUpdate(m: map<string, nat>, u: Update)
    ensures OrAll(m, [u]) == Or(m, u)
  {
    assert [u][1..] == [];
  }

  /** The map after one line, for any two prefixes. */
  function ReadOne(m: map<string, nat>, line: string, removed: string, added: string): map<string, nat> {
    if removed <= line then Or(m, Update(line[|removed|..], FILE_REMOVED))
    else if added <= line then Or(m, Update(line[|added|..], FILE_ADDED))
    else m
  }

  function ReadAll(m: map<string, nat>, lines: seq<string>, removed: string, added: string): map<string, nat>
    decreases |lines|
  {
    if lines == [] then m else ReadAll(ReadOne(m, lines[0], removed, added), lines[1..], removed, added)
  }

  lemma {:induction false} ReadAllIsOrAll(m: map<string, nat>, lines: seq<string>)
    ensures ReadAll(m, lines, "--- a/", "+++ b/") == OrAll(m, LineUpdates(lines))
    decreases |lines|
  {
    if lines != [] {
      OrAllConcat(m, LineUpdate(lines[0]), LineUpdates(lines[1..]));
      if LineUpdate(lines[0]) != [] {
        OneUpdate(m, LineUpdate(lines[0])[0]);
      }
      ReadAllIsOrAll(ReadOne(m, lines[0], "--- a/", "+++ b/"), lines[1..]);
    }
  }

  /** The entry of `key`: there is one if either kind of change is seen, an addition counts 1 and a removal 2. */
  ghost predicate Marks(m: map<string, nat>, key: string, added: bool, removed: bool) {
    && (key in m <==> added || removed)
    && (key in m ==> m[key] == (if added then 1 else 0) + (if removed then 2 else 0))
  }

  lemma OrOfTwoBits(a: nat, b: nat)
    requires a <= 3 && b <= 3
    ensures BitOr(a, b) == (if a % 2 == 1 || b % 2 == 1 then 1 else 0) + (if a >= 2 || b >= 2 then 2 else 0)
  {
    BitOrUnfolds(a, b);
    BitOrUnfolds(a / 2, b / 2);
  }

  lemma OrMarks(m: map<string, nat>, u: Update, key: string, added: bool, removed: bool)
    requires Marks(m, key, added, removed) && 1 <= u.value <= 3
    ensures Marks(Or(m, u), key, added || (u.key == key && u.value % 2 == 1), removed || (u.key == key && u.value >= 2))
  {
    if u.key == key {
      OrOfTwoBits(At(m, key), u.value);
    }
  }

  predicate Differ(removed: string, added: string) {
    |removed| == |added| && removed != added
  }

  lemma StartsWith(line: string, head: string, key: string)
    ensures head <= line ==> (line == head + key <==> line[|head|..] == key)
    ensures !(head <= line) ==> line != head + key
  {
    if head <= line {
      assert line == head + line[|head|..];
    } else {
      assert head <= head + key;
    }
  }

  lemma ReadOneMarks(m: map<string, nat>, line: string, removed: string, added: string, key: string, a: bool, r: bool)
    requires Differ(removed, added) && Marks(m, key, a, r)
    ensures Marks(ReadOne(m, line, removed, added), key, a || line == added + key, r || line == removed + key)
  {
    StartsWith(line, removed, key);
    StartsWith(line, added, key);
    if removed <= line {
      OrMarks(m, Update(line[|removed|..], 2), key, a, r);
    } else if added <= line {
      OrMarks(m, Update(line[|added|..], 1), key, a, r);
    }
  }

  lemma {:induction false} ReadAllMarks(m: map<string, nat>, lines: seq<string>, removed: string, added: string,
                                        key: string, a: bool, r: bool)
    requires Differ(removed, added) && Marks(m, key, a, r)
    ensures Marks(ReadAll(m, lines, removed, added), key, a || added + key in lines, r || removed + key in lines)
    decreases |lines|
  {
    if lines != [] {
      var next := ReadOne(m, lines[0], removed, added);
      ReadOneMarks(m, lines[0], removed, added, key, a, r);
      ReadAllMarks(next, lines[1..], removed, added, key, a || lines[0] == added + key, r || lines[0] == removed + key);
      InFirstOrRest(lines, added + key);
      InFirstOrRest(lines, removed + key);
    }
  }

  lemma InFirstOrRest(lines: seq<string>, line: string)
    requires lines != []
    ensures line in lines <==> line == lines[0] || line in lines[1..]
  {
  }

  /** The map has an entry for every path that follows one of the two heads on a line of the text. */
  ghost predicate MapOfText(diff: string, m: map<string, nat>, removed: string, added: string) {
    forall key :: Marks(m, key, HasPiece(diff, '\n', added + key), HasPiece(diff, '\n', removed + key))
  }

  lemma InLines(s: string, line: string)
    requires line != ""
    ensures line in Lines(s) <==> HasPiece(s, '\n', line)
  {
    InSplit(s, '\n', line);
    var parts := Split(s, '\n');
    assert parts == parts[..|parts| - 1] + [parts[|parts| - 1]];
  }

  lemma ReadAllIsMapOfText(diff: string, removed: string, added: string)
    requires Differ(removed, added)
    ensures MapOfText(diff, ReadAll(map[], Lines(diff), removed, added), removed, added)
  {
    var m := ReadAll(map[], Lines(diff), removed, added);
    forall key ensures Marks(m, key, HasPiece(diff, '\n', added + key), HasPiece(diff, '\n', removed + key)) {
      ReadAllMarks(map[], Lines(diff), removed, added, key, false, false);
      InLines(diff, added + key);
      InLines(diff, removed + key);
    }
  }

  method ParseLines(lines: seq<string>, removed: string, added: string) returns (m: map<string, nat>)
    ensures m == ReadAll(map[], lines, removed, added)
  {
    var result := new ChangeMap();
    var i := 0;
    while i < |lines|
      invariant i <= |lines|
      invariant ReadAll(result.m, lines[i..], removed, added) == ReadAll(map[], lines, removed, added)
    {
      var line := lines[i];
      assert lines[i..][1..] == lines[i + 1..];
      if removed <= line {
        result.UpdateWithOr(line[|removed|..], FILE_REMOVED);
      } else if added <= line {
        result.UpdateWithOr(line[|added|..], FILE_ADDED);
      }
      i := i + 1;
    }
    return result.m;
  }

  method ParseDiff(diff: string) returns (m: map<string, nat>)
    ensures m == OrAll(map[], LineUpdates(Lines(diff)))
    ensures MapOfText(diff, m, "--- a/", "+++ b/")
  {
    m := ParseLines(Lines(diff), "--- a/", "+++ b/");
    assert "--- a/"[0] != "+++ b/"[0];
    ReadAllIsMapOfText(diff, "--- a/", "+++ b/");
    ReadAllIsOrAll(map[], Lines(diff));
  }

  // ----- GitLab's list -----

  datatype Record = Record(oldPath: string, newPath: string, newFile: bool, renamedFile: bool, deletedFile: bool)

  /** The decoded response: one list for a push, one for a merge request. */
  datatype DiffList = DiffList(commitDiff: seq<Record>, prDiff: seq<Record>)

  datatype Event = Push | PullRequest

  function RecordUpdate(r: Record): Update {
    if r.deletedFile then Update(r.oldPath, FILE_REMOVED)
    else if r.newFile then Update(r.newPath, FILE_ADDED)
    else Update(r.newPath, FILE_MODIFIED)
  }

  function RecordUpdates(rs: seq<Record>): seq<Update> {
    seq(|rs|, i requires 0 <= i < |rs| => RecordUpdate(rs[i]))
  }

  /** A record adds what it does not delete, and removes what it deletes; one that does neither counts as both. */
  ghost predicate MapOfRecords(rs: seq<Record>, m: map<string, nat>) {
    forall key :: Marks(m, key, AddsPath(rs, key), RemovesPath(rs, key))
  }

  predicate AddsPath(rs: seq<Record>, path: string) {
    exists r :: r in rs && !r.deletedFile && r.newPath == path
  }

  predicate RemovesPath(rs: seq<Record>, path: string) {
    exists r :: r in rs && if r.deletedFile then r.oldPath == path else !r.newFile && r.newPath == path
  }

  lemma {:induction false} RecordsMark(m: map<string, nat>, rs: seq<Record>, key: string, a: bool, r: bool)
    requires Marks(m, key, a, r)
    ensures Marks(OrAll(m, RecordUpdates(rs)), key, a || AddsPath(rs, key), r || RemovesPath(rs, key))
    decreases |rs|
  {
    if rs != [] {
      var u := RecordUpdate(rs[0]);
      OrMarks(m, u, key, a, r);
      assert RecordUpdates(rs)[1..] == RecordUpdates(rs[1..]) && RecordUpdates(rs)[0] == u;
      assert forall x :: x in rs <==> x == rs[0] || x in rs[1..];
      RecordsMark(Or(m, u), rs[1..], key, a || (u.key == key && u.value % 2 == 1), r || (u.key == key && u.value >= 2));
    }
  }

  /** `decoded` is what decoding the body gave. */
  method ParseGitLabDiff(event: Event, decoded: Result<DiffList, string>) returns (r: Result<map<string, nat>, string>)
    ensures decoded.Err? ==> r == Err(decoded.error)
    ensures decoded.Ok? ==>
              var records := if event.Push? then decoded.value.commitDiff else decoded.value.prDiff;
              r == Ok(OrAll(map[], RecordUpdates(records))) && MapOfRecords(records, r.value)
  {
    if decoded.Err? {
      return Err(decoded.error);
    }
    var diffs := if event.Push? then decoded.value.commitDiff else decoded.value.prDiff;
    ghost var us := RecordUpdates(diffs);
    var result := new ChangeMap();
    var i := 0;
    while i < |diffs|
      invariant i <= |diffs|
      invariant OrAll(result.m, us[i..]) == OrAll(map[], us)
    {
      var diff := diffs[i];
      assert us[i..][1..] == us[i + 1..];
      if diff.deletedFile {
        result.UpdateWithOr(diff.oldPath, FILE_REMOVED);
      } else if diff.newFile {
        result.UpdateWithOr(diff.newPath, FILE_ADDED);
      } else {
        result.UpdateWithOr(diff.newPath, FILE_MODIFIED);
      }
      i := i + 1;
    }
    forall key ensures Marks(result.m, key, AddsPath(diffs, key), RemovesPath(diffs, key)) {
      RecordsMark(map[], diffs, key, false, false);
    }
    return Ok(result.m);
  }

  // ----- Both views of one list of changes -----

  datatype Kind = Added | Deleted | Modified

  /**
   One change; a modified file is renamed when its paths differ.  `preamble` are the lines between the first one and
   the file headers, `hunks` those after; a binary, empty or mode-only change has no file headers.
   */
  datatype Change = Change(
    kind: Kind,
    oldPath: string,
    newPath: string,
    preamble: seq<string>,
    hunks: seq<string>,
    textual: bool)

  predicate Renamed(c: Change) {
    c.oldPath != c.newPath
  }

  function Headers(c: Change): seq<string> {
    if !c.textual then []
    else
      [if c.kind.Added? then "--- /dev/null" else "--- a/" + c.oldPath,
       if c.kind.Deleted? then "+++ /dev/null" else "+++ b/" + c.newPath]
  }

  function Render(c: Change): seq<string> {
    ["diff --git a/" + c.oldPath + " b/" + c.newPath] + c.preamble + Headers(c) + c.hunks
  }

  function RenderAll(cs: seq<Change>): seq<string> {
    if cs == [] then [] else Render(cs[0]) + RenderAll(cs[1..])
  }

  /** The diff as text, each line ended by a newline. */
  function DiffText(cs: seq<Change>): string {
    Join(RenderAll(cs) + [""], '\n')
  }

  function RecordOf(c: Change): Record {
    Record(c.oldPath, c.newPath, c.kind.Added?, Renamed(c), c.kind.Deleted?)
  }

  function RecordsOf(cs: seq<Change>): seq<Record> {
    seq(|cs|, i requires 0 <= i < |cs| => RecordOf(cs[i]))
  }

  /** The map read from the diff text, and the one read from GitLab's list. */
  function FromText(cs: seq<Change>): map<string, nat> {
    OrAll(map[], LineUpdates(Lines(DiffText(cs))))
  }

  function FromRecords(cs: seq<Change>): map<string, nat> {
    OrAll(map[], RecordUpdates(RecordsOf(cs)))
  }

  predicate NoNewline(lines: seq<string>) {
    forall line :: line in lines ==> '\n' !in line
  }

  /** Only a modified file can be renamed, and no line holds a line break. */
  predicate Proper(c: Change) {
    && (Renamed(c) ==> c.kind.Modified?)
    && '\n' !in c.oldPath && '\n' !in c.newPath && NoNewline(c.preamble) && NoNewline(c.hunks)
  }

  predicate AllProper(cs: seq<Change>) {
    forall c :: c in cs ==> Proper(c)
  }

  // ----- What the lines of a change say -----

  lemma {:induction false} LineUpdatesConcat(a: seq<string>, b: seq<string>)
    ensures LineUpdates(a + b) == LineUpdates(a) + LineUpdates(b)
  {
    if a == [] {
      assert a + b == b;
    } else {
      assert (a + b)[1..] == a[1..] + b;
      LineUpdatesConcat(a[1..], b);
    }
  }

  /** What the file headers of a change say. */
  function FileUpdates(c: Change): seq<Update> {
    if !c.textual then []
    else
      (if c.kind.Added? then [] else [Update(c.oldPath, FILE_REMOVED)])
      + (if c.kind.Deleted? then [] else [Update(c.newPath, FILE_ADDED)])
  }

  /** What lines that are no file headers say by looking like one. */
  function LookAlikes(c: Change): seq<Update> {
    LineUpdates(c.preamble) + LineUpdates(c.hunks)
  }

  function Said(c: Change): seq<Update> {
    LineUpdates(Render(c))
  }

  lemma LineUpdatesOfTwo(first: string, second: string)
    ensures LineUpdates([first, second]) == LineUpdate(first) + LineUpdate(second)
  {
    assert [first, second] == [first] + [second] && [first][1..] == [] && [second][1..] == [];
    LineUpdatesConcat([first], [second]);
  }

  lemma RemovedHeader(path: string)
    ensures LineUpdate("--- a/" + path) == [Update(path, FILE_REMOVED)]
  {
    assert ("--- a/" + path)[6..] == path;
  }

  lemma AddedHeader(path: string)
    ensures LineUpdate("+++ b/" + path) == [Update(path, FILE_ADDED)]
  {
    var line := "+++ b/" + path;
    assert line[6..] == path && line[0] == '+';
  }

  lemma NoFileHeaders()
    ensures LineUpdate("--- /dev/null") == [] && LineUpdate("+++ /dev/null") == []
  {
    assert "--- /dev/null"[4] == '/' && "+++ /dev/null"[4] == '/';
    assert "--- /dev/null"[0] == '-' && "+++ /dev/null"[0] == '+';
    assert "--- a/"[4] == 'a' && "+++ b/"[4] == 'b';
  }

  lemma HeadersSay(c: Change)
    ensures LineUpdates(Headers(c)) == FileUpdates(c)
  {
    if c.textual {
      var hs := Headers(c);
      LineUpdatesOfTwo(hs[0], hs[1]);
      NoFileHeaders();
      RemovedHeader(c.oldPath);
      AddedHeader(c.newPath);
    }
  }

  lemma FirstLineSaysNothing(line: string)
    requires line != "" && line[0] == 'd'
    ensures LineUpdates([line]) == []
  {
    assert LineUpdates([line][1..]) == [];
  }

  lemma FourParts(first: seq<string>, preamble: seq<string>, headers: seq<string>, hunks: seq<string>)
    requires LineUpdates(first) == []
    ensures LineUpdates(first + preamble + headers + hunks)
         == LineUpdates(preamble) + LineUpdates(headers) + LineUpdates(hunks)
  {
    LineUpdatesConcat(first + preamble + headers, hunks);
    LineUpdatesConcat(first + preamble, headers);
    LineUpdatesConcat(first, preamble);
    assert [] + LineUpdates(preamble) == LineUpdates(preamble);
  }

  lemma RenderedSays(c: Change)
    ensures Said(c) == LineUpdates(c.preamble) + FileUpdates(c) + LineUpdates(c.hunks)
  {
    var first := "diff --git a/" + c.oldPath + " b/" + c.newPath;
    FirstLineSaysNothing(first);
    FourParts([first], c.preamble, Headers(c), c.hunks);
    HeadersSay(c);
  }

  lemma SaidIsBoth(c: Change)
    ensures multiset(Said(c)) == multiset(FileUpdates(c)) + multiset(LookAlikes(c))
  {
    RenderedSays(c);
    ThreeBags(LineUpdates(c.preamble), FileUpdates(c), LineUpdates(c.hunks));
  }

  lemma ThreeBags(a: seq<Update>, b: seq<Update>, c: seq<Update>)
    ensures multiset(a + b + c) == multiset(b) + multiset(a + c)
  {
  }

  // ----- Lists of changes -----

  /** What `g` makes of each change, in order. */
  function Flat(g: Change -> seq<Update>, cs: seq<Change>): seq<Update> {
    if cs == [] then [] else g(cs[0]) + Flat(g, cs[1..])
  }

  lemma {:induction false} FlatWithout(g: Change -> seq<Update>, cs: seq<Change>, i: nat)
    requires i < |cs|
    ensures multiset(Flat(g, cs)) == multiset(g(cs[i])) + multiset(Flat(g, cs[..i] + cs[i + 1..]))
  {
    var rest := cs[..i] + cs[i + 1..];
    if i == 0 {
      assert rest == cs[1..];
    } else {
      FlatWithout(g, cs[1..], i - 1);
      assert cs[1..][..i - 1] + cs[1..][i..] == rest[1..];
    }
  }

  /** The order of the changes does not matter to what they say together. */
  lemma {:induction false} FlatPermuted(g: Change -> seq<Update>, cs: seq<Change>, ds: seq<Change>)
    requires multiset(cs) == multiset(ds)
    ensures multiset(Flat(g, cs)) == multiset(Flat(g, ds))
    decreases |cs|
  {
    if cs == [] {
      assert |multiset(ds)| == |ds|;
    } else {
      var i := TakeOut(cs, ds);
      FlatPermuted(g, cs[1..], ds[..i] + ds[i + 1..]);
      FlatWithout(g, ds, i);
    }
  }

  lemma {:induction false} FlatSplits(cs: seq<Change>)
    ensures multiset(Flat(Said, cs)) == multiset(Flat(FileUpdates, cs)) + multiset(Flat(LookAlikes, cs))
  {
    if cs != [] {
      SaidIsBoth(cs[0]);
      FlatSplits(cs[1..]);
    }
  }

  lemma {:induction false} FlatMembers(g: Change -> seq<Update>, cs: seq<Change>, u: Update)
    ensures u in Flat(g, cs) <==> exists c :: c in cs && u in g(c)
  {
    if cs != [] {
      FlatMembers(g, cs[1..], u);
      assert forall c :: c in cs <==> c == cs[0] || c in cs[1..];
    }
  }

  lemma {:induction false} RenderedFlat(cs: seq<Change>)
    ensures LineUpdates(RenderAll(cs)) == Flat(Said, cs)
  {
    if cs != [] {
      LineUpdatesConcat(Render(cs[0]), RenderAll(cs[1..]));
      RenderedFlat(cs[1..]);
    }
  }

  function Recorded(c: Change): seq<Update> {
    [RecordUpdate(RecordOf(c))]
  }

  lemma {:induction false} RecordedFlat(cs: seq<Change>)
    ensures RecordUpdates(RecordsOf(cs)) == Flat(Recorded, cs)
  {
    if cs != [] {
      RecordedFlat(cs[1..]);
      assert RecordUpdates(RecordsOf(cs)) == Recorded(cs[0]) + RecordUpdates(RecordsOf(cs[1..]));
    }
  }

  lemma NoNewlineInHeaders(c: Change)
    requires Proper(c)
    ensures NoNewline(Headers(c))
  {
    if c.textual {
      assert '\n' !in Headers(c)[0];
      assert '\n' !in Headers(c)[1];
      assert Headers(c) == [Headers(c)[0], Headers(c)[1]];
    }
  }

  lemma NoNewlineTogether(a: seq<string>, b: seq<string>)
    requires NoNewline(a) && NoNewline(b)
    ensures NoNewline(a + b)
  {
  }

  lemma RenderedLine(c: Change)
    requires Proper(c)
    ensures NoNewline(Render(c))
  {
    var first := "diff --git a/" + c.oldPath + " b/" + c.newPath;
    assert '\n' !in first;
    assert NoNewline([first]);
    NoNewlineInHeaders(c);
    NoNewlineTogether([first], c.preamble);
    NoNewlineTogether([first] + c.preamble, Headers(c));
    NoNewlineTogether([first] + c.preamble + Headers(c), c.hunks);
  }

  lemma {:induction false} RenderedLines(cs: seq<Change>)
    requires AllProper(cs)
    ensures NoNewline(RenderAll(cs))
  {
    if cs != [] {
      assert Proper(cs[0]);
      RenderedLine(cs[0]);
      RenderedLines(cs[1..]);
      NoNewlineTogether(Render(cs[0]), RenderAll(cs[1..]));
    }
  }

  lemma TextIsSaid(cs: seq<Change>)
    requires AllProper(cs)
    ensures FromText(cs) == OrAll(map[], Flat(Said, cs))
  {
    RenderedLines(cs);
    var lines := RenderAll(cs);
    assert NoNewline(lines + [""]);
    JoinSplit(lines + [""], '\n');
    assert Lines(DiffText(cs)) == lines;
    RenderedFlat(cs);
  }

  /** The text's map is the or of what the file headers say and of what merely looks like a header. */
  lemma TextIsHeadersAndLookAlikes(cs: seq<Change>)
    requires AllProper(cs)
    ensures FromText(cs) == OrAll(OrAll(map[], Flat(FileUpdates, cs)), Flat(LookAlikes, cs))
  {
    TextIsSaid(cs);
    FlatSplits(cs);
    var both := Flat(FileUpdates, cs) + Flat(LookAlikes, cs);
    assert multiset(both) == multiset(Flat(Said, cs));
    OrderIrrelevant(map[], Flat(Said, cs), both);
    OrAllConcat(map[], Flat(FileUpdates, cs), Flat(LookAlikes, cs));
  }

  /** Neither map depends on the order in which the changes are listed. */
  lemma ChangesInAnyOrder(cs: seq<Change>, ds: seq<Change>)
    requires multiset(cs) == multiset(ds)
    ensures FromRecords(cs) == FromRecords(ds)
    ensures AllProper(cs) ==> FromText(cs) == FromText(ds)
  {
    RecordedFlat(cs);
    RecordedFlat(ds);
    FlatPermuted(Recorded, cs, ds);
    OrderIrrelevant(map[], Flat(Recorded, cs), Flat(Recorded, ds));
    if AllProper(cs) {
      assert forall d :: d in ds ==> d in multiset(cs);
      TextIsSaid(cs);
      TextIsSaid(ds);
      FlatPermuted(Said, cs, ds);
      OrderIrrelevant(map[], Flat(Said, cs), Flat(Said, ds));
    }
  }

  // ----- Where the two agree -----

  /** Removed and added in one go is modified. */
  lemma RemovedThenAdded(m: map<string, nat>, path: string)
    ensures OrAll(m, [Update(path, FILE_REMOVED)] + [Update(path, FILE_ADDED)]) == Or(m, Update(path, FILE_MODIFIED))
  {
    var a, b := Update(path, FILE_REMOVED), Update(path, FILE_ADDED);
    OrAllConcat(m, [a], [b]);
    OneUpdate(m, a);
    OneUpdate(Or(m, a), b);
    TwoThenOne(At(m, path));
  }

  lemma TwoThenOne(x: nat)
    ensures BitOr(BitOr(x, 2), 1) == BitOr(x, 3)
  {
    BitOrUnfolds(x, 2);
    BitOrUnfolds(BitOr(x, 2), 1);
    BitOrUnfolds(x, 3);
  }

  /** Without a rename the headers of a change say together what its record says. */
  lemma HeadersSayTheRecord(m: map<string, nat>, c: Change)
    requires c.textual && !Renamed(c)
    ensures OrAll(m, FileUpdates(c)) == Or(m, RecordUpdate(RecordOf(c)))
  {
    var removed, added := [Update(c.oldPath, FILE_REMOVED)], [Update(c.oldPath, FILE_ADDED)];
    assert [] + added == added && removed + [] == removed;
    match c.kind {
      case Added => OneUpdate(m, Update(c.newPath, FILE_ADDED));
      case Deleted => OneUpdate(m, Update(c.oldPath, FILE_REMOVED));
      case Modified => RemovedThenAdded(m, c.oldPath);
    }
  }

  function Textual(cs: seq<Change>): seq<Change> {
    if cs == [] then [] else (if cs[0].textual then [cs[0]] else []) + Textual(cs[1..])
  }

  lemma {:induction false} AllTextual(cs: seq<Change>)
    requires forall c :: c in cs ==> c.textual
    ensures Textual(cs) == cs
  {
    if cs != [] {
      assert cs[0] in cs;
      AllTextual(cs[1..]);
      assert cs == [cs[0]] + cs[1..];
    }
  }

  lemma {:induction false} HeadersAreRecords(m: map<string, nat>, cs: seq<Change>)
    requires forall c :: c in cs ==> !Renamed(c)
    ensures OrAll(m, Flat(FileUpdates, cs)) == OrAll(m, Flat(Recorded, Textual(cs)))
    decreases |cs|
  {
    if cs != [] {
      var c, rest := cs[0], cs[1..];
      assert c in cs;
      OrAllConcat(m, FileUpdates(c), Flat(FileUpdates, rest));
      if c.textual {
        HeadersSayTheRecord(m, c);
        HeadersAreRecords(Or(m, RecordUpdate(RecordOf(c))), rest);
        assert Textual(cs)[1..] == Textual(rest);
        OrAllConcat(m, Recorded(c), Flat(Recorded, Textual(rest)));
        OneUpdate(m, RecordUpdate(RecordOf(c)));
      } else {
        HeadersAreRecords(m, rest);
        assert Textual(cs) == Textual(rest);
      }
    }
  }

  /**
   Without renames the text is read as GitLab's list of those changes that have file headers, or-ed with whatever
   lines look like headers.
   */
  lemma ParsersAgree(cs: seq<Change>)
    requires AllProper(cs) && forall c :: c in cs ==> !Renamed(c)
    ensures FromText(cs) == OrAll(FromRecords(Textual(cs)), Flat(LookAlikes, cs))
    ensures (forall c :: c in cs ==> c.textual) ==> Textual(cs) == cs
  {
    TextIsHeadersAndLookAlikes(cs);
    HeadersAreRecords(map[], cs);
    RecordedFlat(Textual(cs));
    if forall c :: c in cs ==> c.textual {
      AllTextual(cs);
    }
  }

  /** The update would change nothing. */
  predicate Holds(m: map<string, nat>, u: Update) {
    u.key in m && BitOr(m[u.key], u.value) == m[u.key]
  }

  lemma {:induction false} BitOrGrows(a: nat, b: nat)
    ensures a <= BitOr(a, b) && b <= BitOr(a, b)
    decreases a + b
  {
    if a != 0 && b != 0 {
      BitOrGrows(a / 2, b / 2);
    }
  }

  /** Updates only add keys and bits. */
  lemma {:induction false} OrAllGrows(m: map<string, nat>, us: seq<Update>, key: string)
    requires key in m
    ensures key in OrAll(m, us) && m[key] <= OrAll(m, us)[key]
    decreases |us|
  {
    if us != [] {
      BitOrGrows(At(m, us[0].key), us[0].value);
      OrAllGrows(Or(m, us[0]), us[1..], key);
    }
  }

  lemma {:induction false} OrAllChangesNothing(m: map<string, nat>, us: seq<Update>)
    ensures OrAll(m, us) == m <==> forall u :: u in us ==> Holds(m, u)
    decreases |us|
  {
    if us != [] {
      var u := us[0];
      assert forall w :: w in us <==> w == u || w in us[1..];
      if Holds(m, u) {
        assert Or(m, u) == m;
        OrAllChangesNothing(m, us[1..]);
      } else {
        BitOrGrows(At(m, u.key), u.value);
        OrAllGrows(Or(m, u), us[1..], u.key);
      }
    }
  }

  /** When all changes have headers and none is renamed: agreement holds exactly if no look-alike adds anything. */
  lemma AgreeIffAbsorbed(cs: seq<Change>)
    requires AllProper(cs) && forall c :: c in cs ==> c.textual && !Renamed(c)
    ensures FromText(cs) == FromRecords(cs) <==> forall u :: u in Flat(LookAlikes, cs) ==> Holds(FromRecords(cs), u)
  {
    ParsersAgree(cs);
    OrAllChangesNothing(FromRecords(cs), Flat(LookAlikes, cs));
  }

  lemma {:induction false} KeysOfAll(m: map<string, nat>, us: seq<Update>, key: string)
    ensures key in OrAll(m, us) <==> key in m || exists u :: u in us && u.key == key
    decreases |us|
  {
    if us != [] {
      KeysOfAll(Or(m, us[0]), us[1..], key);
      assert forall u :: u in us <==> u == us[0] || u in us[1..];
    }
  }

  predicate Touches(c: Change, path: string) {
    path == c.oldPath || path == c.newPath
  }

  /** No path belongs to two changes. */
  ghost predicate DistinctPaths(cs: seq<Change>) {
    forall i, j, path :: 0 <= i < j < |cs| && Touches(cs[i], path) ==> !Touches(cs[j], path)
  }

  lemma OnlyOneTouches(cs: seq<Change>, c: Change, d: Change, path: string)
    requires DistinctPaths(cs) && c in cs && d in cs && Touches(c, path) && Touches(d, path)
    ensures c == d
  {
  }

  /** A path is in the map of the headers only if its own change has them. */
  lemma HeadersOnly(cs: seq<Change>, c: Change, path: string)
    requires DistinctPaths(cs) && c in cs && Touches(c, path)
    ensures path in OrAll(map[], Flat(FileUpdates, cs)) <==> exists u :: u in FileUpdates(c) && u.key == path
  {
    KeysOfAll(map[], Flat(FileUpdates, cs), path);
    forall u: Update | u.key == path ensures u in Flat(FileUpdates, cs) <==> u in FileUpdates(c) {
      FlatMembers(FileUpdates, cs, u);
      forall d | d in cs && u in FileUpdates(d) ensures d == c {
        OnlyOneTouches(cs, c, d, path);
      }
    }
  }

  lemma RecordsOnly(cs: seq<Change>, c: Change, path: string)
    requires DistinctPaths(cs) && c in cs && Touches(c, path)
    ensures path in FromRecords(cs) <==> RecordUpdate(RecordOf(c)).key == path
  {
    RecordedFlat(cs);
    KeysOfAll(map[], Flat(Recorded, cs), path);
    forall u: Update | u.key == path ensures u in Flat(Recorded, cs) <==> u in Recorded(c) {
      FlatMembers(Recorded, cs, u);
      forall d | d in cs && u in Recorded(d) ensures d == c {
        OnlyOneTouches(cs, c, d, path);
      }
    }
    if RecordUpdate(RecordOf(c)).key == path {
      assert RecordUpdate(RecordOf(c)) in Recorded(c);
    }
  }

  /** A path at which the two maps differ if the change has no headers or is renamed. */
  lemma DiffersAt(cs: seq<Change>, c: Change) returns (path: string)
    requires DistinctPaths(cs) && c in cs && Proper(c) && (!c.textual || Renamed(c))
    ensures path in OrAll(map[], Flat(FileUpdates, cs)) <==> path !in FromRecords(cs)
  {
    path := if c.textual then c.oldPath else RecordUpdate(RecordOf(c)).key;
    HeadersOnly(cs, c, path);
    RecordsOnly(cs, c, path);
    if c.textual {
      assert Update(c.oldPath, FILE_REMOVED) in FileUpdates(c);
    }
  }

  /**
   Without look-alikes and with one change a path: agreement holds exactly if every change has file headers and none
   is renamed.
   */
  lemma AgreeIffTextual(cs: seq<Change>)
    requires AllProper(cs) && DistinctPaths(cs) && Flat(LookAlikes, cs) == []
    ensures FromText(cs) == FromRecords(cs) <==> forall c :: c in cs ==> c.textual && !Renamed(c)
  {
    TextIsHeadersAndLookAlikes(cs);
    if c :| c in cs && (!c.textual || Renamed(c)) {
      var path := DiffersAt(cs, c);
    } else {
      ParsersAgree(cs);
    }
  }

  /** A renamed file is two entries for one parser and one for the other. */
  lemma RenameDiffers(c: Change)
    requires Proper(c) && c.textual && Renamed(c) && LookAlikes(c) == []
    ensures FromText([c]) == map[c.oldPath := FILE_REMOVED, c.newPath := FILE_ADDED]
    ensures FromRecords([c]) == map[c.newPath := FILE_MODIFIED]
  {
    TextIsHeadersAndLookAlikes([c]);
    assert Flat(FileUpdates, [c][1..]) == [] && Flat(LookAlikes, [c][1..]) == [];
    var u, w := Update(c.oldPath, FILE_REMOVED), Update(c.newPath, FILE_ADDED);
    assert Flat(FileUpdates, [c]) == [u] + [w] && Flat(LookAlikes, [c]) == [];
    OrAllConcat(map[], [u], [w]);
    OneUpdate(map[], u);
    OneUpdate(Or(map[], u), w);
    assert RecordUpdates(RecordsOf([c])) == [Update(c.newPath, FILE_MODIFIED)];
    OneUpdate(map[], Update(c.newPath, FILE_MODIFIED));
  }

  /** A removed line of text that looks like a header reports a file that no record names. */
  lemma LookAlikeCounts(c: Change, i: nat, path: string)
    requires Proper(c) && c.textual && !Renamed(c)
    requires i < |c.hunks| && c.hunks[i] == "-" + ("-- a/" + path) && path != c.newPath
    ensures path in FromText([c]) && path !in FromRecords([c])
  {
    assert "-" + ("-- a/" + path) == "--- a/" + path;
    RemovedHeader(path);
    LineSays(c.hunks, i);
    var u := Update(path, FILE_REMOVED);
    assert u in LookAlikes(c);
    FlatMembers(LookAlikes, [c], u);
    ParsersAgree([c]);
    KeysOfAll(FromRecords(Textual([c])), Flat(LookAlikes, [c]), path);
    assert RecordUpdates(RecordsOf([c])) == [RecordUpdate(RecordOf(c))];
    KeysOfAll(map[], RecordUpdates(RecordsOf([c])), path);
  }

  lemma {:induction false} LineSays(lines: seq<string>, i: nat)
    requires i < |lines|
    ensures forall u :: u in LineUpdate(lines[i]) ==> u in LineUpdates(lines)
  {
    if i > 0 {
      LineSays(lines[1..], i - 1);
    }
  }
}
