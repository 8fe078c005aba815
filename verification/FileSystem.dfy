/**
 The directory copy of pkg/fileutils/fileutils.go over a file system keyed by path.

 A path is the sequence of names from the root, so `filepath.Join` is concatenation and a cleaned
 path is its own representation.  Every call that reaches the operating system may fail.
 */
module FileSystem {
  import opened Wrappers

  type Name = string
  type Path = seq<Name>

  datatype Node = Dir | File(content: string) | Symlink(target: string)

  type Tree = map<Path, Node>

  datatype Error = NotExist | NotADirectory | AlreadyExists | IsADirectory | IoFailure | NoCoverage

  function Lookup(t: Tree, p: Path): Option<Node> {
    if p in t then Some(t[p]) else None
  }

  function Parent(p: Path): Path
    requires p != []
  {
    p[..|p| - 1]
  }

  ghost predicate LiesInDirectory(t: Tree, p: Path) {
    p in t && p != [] ==> Lookup(t, Parent(p)) == Some(Dir)
  }

  /** The root is a directory, and whatever exists lies in a directory. */
  ghost predicate WellFormed(t: Tree) {
    && Lookup(t, []) == Some(Dir)
    && forall p: Path {:trigger LiesInDirectory(t, p)} :: LiesInDirectory(t, p)
  }

  /** `os.Lstat`; a file among the ancestors is a different error from a missing path. */
  function Lstat(t: Tree, p: Path): Result<Node, Error> {
    if p in t then Ok(t[p])
    else if exists i | 0 <= i < |p| :: p[..i] in t && t[p[..i]].File? then Err(NotADirectory)
    else Err(NotExist)
  }

  /** Everything at or below `p`. */
  function Subtree(t: Tree, p: Path): set<Path> {
    set q | q in t && p <= q
  }

  function NoSymlink(n: Option<Node>): Option<Node> {
    if n.Some? && n.value.Symlink? then None else n
  }

  /** What a successful copy of `src` to `dst` leaves at `p`. */
  function AfterCopy(before: Tree, src: Path, dst: Path, p: Path): Option<Node> {
    if dst <= p then NoSymlink(Lookup(before, src + p[|dst|..]))
    else if p <= dst then Some(Dir)
    else Lookup(before, p)
  }

  /** `dst` holds the tree at `src` without its symbolic links, and nothing else has changed. */
  ghost predicate Copied(before: Tree, after: Tree, src: Path, dst: Path) {
    forall p: Path {:trigger Lookup(after, p)} :: Lookup(after, p) == AfterCopy(before, src, dst, p)
  }

  /** Outside `dst`, at most missing ancestors of `dst` have been created. */
  ghost predicate OnlyAt(before: Tree, after: Tree, dst: Path) {
    forall p: Path {:trigger Lookup(after, p)} :: SameOutside(before, after, dst, p)
  }

  ghost predicate SameOutside(before: Tree, after: Tree, dst: Path, p: Path) {
    || dst <= p
    || Lookup(after, p) == Lookup(before, p)
    || (p < dst && p !in before && Lookup(after, p) == Some(Dir))
  }

  // ----- Paths and well-formed trees -----

  lemma Comparable(a: Path, b: Path, p: Path)
    requires a <= p && b <= p
    ensures a <= b || b <= a
  {
    if |a| <= |b| {
      assert a == p[..|a|] == b[..|a|];
    } else {
      assert b == p[..|b|] == a[..|b|];
    }
  }

  lemma {:induction false} AncestorIsDir(t: Tree, a: Path, p: Path)
    requires WellFormed(t) && p in t && a < p
    ensures Lookup(t, a) == Some(Dir)
    decreases |p|
  {
    assert LiesInDirectory(t, p);
    if a != Parent(p) {
      AncestorIsDir(t, a, Parent(p));
    }
  }

  lemma NothingBelow(t: Tree, a: Path, p: Path)
    requires WellFormed(t) && a <= p
    requires a !in t || (|a| < |p| && t[a] != Dir)
    ensures p !in t
  {
    if |a| == |p| {
      assert a == p;
    } else if p in t {
      AncestorIsDir(t, a, p);
    }
  }

  /** The entry of `dir` through which the path to `p` leads. */
  lemma ChildOnTheWay(t: Tree, dir: Path, p: Path)
    requires WellFormed(t) && dir < p && p in t
    ensures var child := dir + [p[|dir|]];
            && child <= p && child in t
            && (child == p || Lookup(t, child) == Some(Dir))
  {
    var child := dir + [p[|dir|]];
    assert child == p[..|dir| + 1];
    if |child| < |p| {
      AncestorIsDir(t, child, p);
    } else {
      assert child == p;
    }
  }

  // ----- What a copy means -----

  /** A copy is again a well-formed tree: dropping a link leaves no orphan. */
  lemma CopiedKeepsWellFormed(before: Tree, after: Tree, src: Path, dst: Path)
    requires WellFormed(before) && Lookup(before, src) == Some(Dir)
    requires Copied(before, after, src, dst)
    ensures WellFormed(after)
  {
    assert Lookup(after, []) == AfterCopy(before, src, dst, []) == Some(Dir) by {
      if dst == [] {
        assert src + [] == src;
      }
    }
    forall p: Path ensures LiesInDirectory(after, p) {
      if p in after && p != [] {
        assert Lookup(after, p) == AfterCopy(before, src, dst, p);
        assert Lookup(after, Parent(p)) == AfterCopy(before, src, dst, Parent(p));
        ParentAfterCopy(before, src, dst, p);
      }
    }
  }

  lemma ParentAfterCopy(before: Tree, src: Path, dst: Path, p: Path)
    requires WellFormed(before) && Lookup(before, src) == Some(Dir)
    requires p != [] && AfterCopy(before, src, dst, p).Some?
    ensures AfterCopy(before, src, dst, Parent(p)) == Some(Dir)
  {
    if dst <= p && |dst| < |p| {
      var from := src + p[|dst|..];
      assert dst <= Parent(p);
      assert Parent(from) == src + Parent(p)[|dst|..];
      assert LiesInDirectory(before, from);
    } else if p <= dst {
      assert Parent(p) < dst;
    } else {
      assert LiesInDirectory(before, p);
    }
  }

  /** Copying a copy gives the same tree as copying the original. */
  lemma CopyOfCopy(t0: Tree, t1: Tree, t2: Tree, src: Path, mid: Path, dst: Path, rel: Path)
    requires Copied(t0, t1, src, mid) && Copied(t1, t2, mid, dst)
    ensures Lookup(t2, dst + rel) == Lookup(t1, mid + rel) == NoSymlink(Lookup(t0, src + rel))
  {
    assert Lookup(t1, mid + rel) == AfterCopy(t0, src, mid, mid + rel);
    assert (mid + rel)[|mid|..] == rel;
    assert Lookup(t2, dst + rel) == AfterCopy(t1, mid, dst, dst + rel);
    assert (dst + rel)[|dst|..] == rel;
  }

  /** `CopyDir` on such a pair finds its own output among the entries it has still to copy. */
  predicate CopiesIntoItself(t: Tree, src: Path, dst: Path) {
    Lookup(t, src) == Some(Dir) && src < dst && Lstat(t, dst) == Err(NotExist)
  }

  /**
   Why `CopyDir` excludes such pairs: once the new directory is made, the child of the source that
   leads to it makes a pair of the same kind, so the recursion would never end.
   */
  lemma CopyIntoItselfRecurs(t: Tree, made: Tree, src: Path, dst: Path)
    requires WellFormed(t) && WellFormed(made) && CopiesIntoItself(t, src, dst)
    requires ClearWay(t, dst) && Made(t, made, dst)
    ensures var n := dst[|src|]; CopiesIntoItself(made, src + [n], dst + [n])
  {
    var n := dst[|src|];
    assert src + [n] == dst[..|src| + 1];
    assert Lookup(made, src + [n]) == Some(Dir);
    assert Lookup(made, dst + [n]) == Lookup(t, dst + [n]) == None by {
      NothingBelow(t, dst, dst + [n]);
    }
    forall i | 0 <= i < |dst + [n]| && (dst + [n])[..i] in made ensures !made[(dst + [n])[..i]].File? {
      assert (dst + [n])[..i] == dst[..i];
      assert Lookup(made, dst[..i]) == Some(Dir);
    }
  }

  // ----- The loop of CopyDir -----

  /** The state between two iterations: only the children in `done` have been copied. */
  function PartCopied(before: Tree, src: Path, dst: Path, done: set<Name>, p: Path): Option<Node> {
    if dst < p && p[|dst|] !in done then None else AfterCopy(before, src, dst, p)
  }

  ghost predicate PartWay(before: Tree, now: Tree, src: Path, dst: Path, done: set<Name>) {
    forall p: Path {:trigger Lookup(now, p)} :: Lookup(now, p) == PartCopied(before, src, dst, done, p)
  }

  ghost predicate Apart(before: Tree, src: Path, dst: Path) {
    && WellFormed(before)
    && Lookup(before, src) == Some(Dir)
    && dst !in before
    && !(src < dst)
    && ClearWay(before, dst)
  }

  /** No file or link stands where an ancestor of `p` has to be a directory. */
  ghost predicate ClearWay(t: Tree, p: Path) {
    forall q: Path {:trigger Lookup(t, q)} :: q <= p && q in t ==> Lookup(t, q) == Some(Dir)
  }

  lemma SourceUntouched(before: Tree, now: Tree, src: Path, dst: Path, done: set<Name>, p: Path)
    requires Apart(before, src, dst) && PartWay(before, now, src, dst, done)
    requires src <= p
    ensures Lookup(now, p) == Lookup(before, p)
  {
    assert Lookup(now, p) == PartCopied(before, src, dst, done, p);
    if dst <= p {
      Comparable(src, dst, p);
      NothingBelow(before, dst, src);
      assert false;
    }
  }

  lemma PartStart(before: Tree, now: Tree, src: Path, dst: Path)
    requires Apart(before, src, dst) && Made(before, now, dst)
    ensures PartWay(before, now, src, dst, {})
  {
    forall p: Path ensures Lookup(now, p) == PartCopied(before, src, dst, {}, p) {
      if dst < p {
        NothingBelow(before, dst, p);
      } else if p == dst {
        assert src + p[|dst|..] == src;
      }
    }
  }

  lemma PartDir(before: Tree, now: Tree, next: Tree, src: Path, dst: Path, done: set<Name>, n: Name)
    requires Apart(before, src, dst) && PartWay(before, now, src, dst, done) && n !in done
    requires Copied(now, next, src + [n], dst + [n])
    ensures PartWay(before, next, src, dst, done + {n})
  {
    forall p: Path ensures Lookup(next, p) == PartCopied(before, src, dst, done + {n}, p) {
      assert Lookup(next, p) == AfterCopy(now, src + [n], dst + [n], p);
      assert Lookup(now, p) == PartCopied(before, src, dst, done, p);
      if dst + [n] <= p {
        var below := src + [n] + p[|dst| + 1..];
        assert below == src + p[|dst|..];
        SourceUntouched(before, now, src, dst, done, below);
      } else if p <= dst + [n] {
        assert Parent(dst + [n]) == dst;
        OneLonger(p, dst + [n]);
        assert |p| == |dst| ==> p == dst && src + p[|dst|..] == src;
      }
    }
  }

  lemma PartFile(before: Tree, now: Tree, src: Path, dst: Path, done: set<Name>, n: Name)
    requires Apart(before, src, dst) && PartWay(before, now, src, dst, done) && n !in done
    requires src + [n] in before && before[src + [n]].File?
    ensures PartWay(before, now[dst + [n] := before[src + [n]]], src, dst, done + {n})
  {
    var next := now[dst + [n] := before[src + [n]]];
    forall p: Path ensures Lookup(next, p) == PartCopied(before, src, dst, done + {n}, p) {
      assert Lookup(now, p) == PartCopied(before, src, dst, done, p);
      if dst < p && p[|dst|] == n {
        assert src + p[|dst|..] == src + [n] + p[|dst| + 1..];
        if p == dst + [n] {
          assert src + p[|dst|..] == src + [n];
        } else {
          NothingBelow(before, src + [n], src + [n] + p[|dst| + 1..]);
        }
      }
    }
  }

  lemma PartSymlink(before: Tree, now: Tree, src: Path, dst: Path, done: set<Name>, n: Name)
    requires Apart(before, src, dst) && PartWay(before, now, src, dst, done) && n !in done
    requires src + [n] in before && before[src + [n]].Symlink?
    ensures PartWay(before, now, src, dst, done + {n})
  {
    forall p: Path ensures Lookup(now, p) == PartCopied(before, src, dst, done + {n}, p) {
      assert Lookup(now, p) == PartCopied(before, src, dst, done, p);
      if dst < p && p[|dst|] == n {
        assert src + p[|dst|..] == src + [n] + p[|dst| + 1..];
        if p == dst + [n] {
          assert src + p[|dst|..] == src + [n];
        } else {
          NothingBelow(before, src + [n], src + [n] + p[|dst| + 1..]);
        }
      }
    }
  }

  lemma PartEnd(before: Tree, now: Tree, src: Path, dst: Path, done: set<Name>)
    requires Apart(before, src, dst) && PartWay(before, now, src, dst, done)
    requires forall n: Name :: src + [n] in before ==> n in done
    ensures Copied(before, now, src, dst)
  {
    forall p: Path ensures Lookup(now, p) == AfterCopy(before, src, dst, p) {
      assert Lookup(now, p) == PartCopied(before, src, dst, done, p);
      if dst < p && p[|dst|] !in done {
        assert src + p[|dst|..] == src + [p[|dst|]] + p[|dst| + 1..];
        NothingBelow(before, src + [p[|dst|]], src + [p[|dst|]] + p[|dst| + 1..]);
      }
    }
  }

  lemma PartOnlyAt(before: Tree, now: Tree, src: Path, dst: Path, done: set<Name>)
    requires Apart(before, src, dst) && PartWay(before, now, src, dst, done)
    ensures OnlyAt(before, now, dst)
  {
    forall p: Path ensures SameOutside(before, now, dst, p) {
      assert Lookup(now, p) == PartCopied(before, src, dst, done, p);
      assert p <= dst && p in before ==> Lookup(before, p) == Some(Dir);
    }
  }

  lemma OnlyAtSelf(t: Tree, dst: Path)
    ensures OnlyAt(t, t, dst)
  {
    forall p: Path ensures SameOutside(t, t, dst, p) {
    }
  }

  lemma OnlyAtThenBelow(t0: Tree, t1: Tree, t2: Tree, dst: Path, below: Path)
    requires OnlyAt(t0, t1, dst) && OnlyAt(t1, t2, below) && dst <= below
    ensures OnlyAt(t0, t2, dst)
  {
    forall p: Path ensures SameOutside(t0, t2, dst, p) {
      assert SameOutside(t0, t1, dst, p);
      assert SameOutside(t1, t2, below, p);
      if p < below && !(dst <= p) {
        Comparable(p, dst, below);
      }
    }
  }

  /** `p` and the directories above it exist; nothing else differs. */
  ghost predicate Made(before: Tree, after: Tree, p: Path) {
    forall q: Path {:trigger Lookup(after, q)} ::
      Lookup(after, q) == if q <= p then Some(Dir) else Lookup(before, q)
  }

  lemma MadeOneMore(before: Tree, now: Tree, p: Path)
    requires WellFormed(now) && p != []
    requires Made(before, now, Parent(p)) && ClearWay(before, Parent(p))
    requires p in now ==> now[p] == Dir
    ensures Made(before, now[p := Dir], p) && ClearWay(before, p) && WellFormed(now[p := Dir])
  {
    var next := now[p := Dir];
    assert Lookup(now, p) == if p <= Parent(p) then Some(Dir) else Lookup(before, p);
    forall q: Path ensures Lookup(next, q) == if q <= p then Some(Dir) else Lookup(before, q) {
      assert Lookup(now, q) == if q <= Parent(p) then Some(Dir) else Lookup(before, q);
      OneLonger(q, p);
    }
    forall q: Path | q <= p && q in before ensures Lookup(before, q) == Some(Dir) {
      OneLonger(q, p);
    }
    assert Lookup(now, Parent(p)) == Some(Dir);
    forall q: Path ensures LiesInDirectory(next, q) {
      assert LiesInDirectory(now, q);
    }
    assert Lookup(now, []) == Some(Dir);
  }

  lemma MadePartWay(before: Tree, now: Tree, dst: Path)
    requires exists q: Path :: q <= dst && Made(before, now, q) && ClearWay(before, q)
    ensures OnlyAt(before, now, dst)
  {
    var q: Path :| q <= dst && Made(before, now, q) && ClearWay(before, q);
    forall p: Path ensures SameOutside(before, now, dst, p) {
      assert Lookup(now, p) == if p <= q then Some(Dir) else Lookup(before, p);
      assert Lookup(before, p) == Lookup(before, p);
      if p <= q {
        assert p <= dst;
        if |p| == |dst| {
          assert p == dst;
        }
      }
    }
  }

  lemma OneLonger(q: Path, p: Path)
    requires p != []
    ensures q <= p <==> q <= Parent(p) || q == p
  {
    if q <= p && |q| < |p| {
      assert q == p[..|q|] == Parent(p)[..|q|];
    }
  }

  /** A directory listing: the name and kind of each entry. */
  datatype Entry = Entry(name: Name, node: Node)

  function Names(entries: seq<Entry>): set<Name> {
    set i | 0 <= i < |entries| :: entries[i].name
  }

  ghost predicate Lists(t: Tree, dir: Path, entries: seq<Entry>) {
    ListsAllBut(t, dir, entries, {})
  }

  /** `entries` has each child of `dir` once, except those in `todo`. */
  ghost predicate ListsAllBut(t: Tree, dir: Path, entries: seq<Entry>, todo: set<Name>) {
    && (forall i :: 0 <= i < |entries| ==> Lookup(t, dir + [entries[i].name]) == Some(entries[i].node))
    && (forall i, j :: 0 <= i < j < |entries| ==> entries[i].name != entries[j].name)
    && (forall n: Name :: dir + [n] in t <==> n in Names(entries) || n in todo)
    && Names(entries) !! todo
  }

  lemma ListOneMore(t: Tree, dir: Path, entries: seq<Entry>, todo: set<Name>, n: Name)
    requires ListsAllBut(t, dir, entries, todo) && n in todo
    ensures ListsAllBut(t, dir, entries + [Entry(n, t[dir + [n]])], todo - {n})
  {
    var next := entries + [Entry(n, t[dir + [n]])];
    NamesGrow(next, |entries|);
    assert next[..|entries|] == entries && next[..|entries| + 1] == next;
  }

  lemma NamesGrow(entries: seq<Entry>, i: nat)
    requires i < |entries|
    ensures Names(entries[..i + 1]) == Names(entries[..i]) + {entries[i].name}
  {
    var next := entries[..i + 1];
    assert next[i] == entries[i];
    forall n | n in Names(entries[..i]) ensures n in Names(next) {
      var k :| 0 <= k < i && entries[..i][k].name == n;
      assert next[k].name == n;
    }
  }

  /** Replacing a file, or adding one to a directory, keeps the tree well-formed. */
  /** The entries of a listing have different names. */
  lemma NextEntry(t: Tree, dir: Path, entries: seq<Entry>, todo: set<Name>, i: nat)
    requires ListsAllBut(t, dir, entries, todo) && i < |entries|
    ensures entries[i].name !in Names(entries[..i])
    ensures Names(entries[..i + 1]) == Names(entries[..i]) + {entries[i].name}
  {
    NamesGrow(entries, i);
    forall k | 0 <= k < i ensures entries[..i][k].name != entries[i].name {
    }
  }

  lemma SubtreeBelow(t: Tree, dir: Path, n: Name)
    requires dir in t
    ensures Subtree(t, dir + [n]) < Subtree(t, dir)
  {
    assert dir in Subtree(t, dir) && dir !in Subtree(t, dir + [n]);
    assert dir <= dir + [n];
  }

  lemma OverwriteKeepsWellFormed(t: Tree, p: Path, n: Node)
    requires WellFormed(t) && p != [] && Lookup(t, Parent(p)) == Some(Dir) && Lookup(t, p) != Some(Dir)
    ensures WellFormed(t[p := n])
  {
    var next := t[p := n];
    forall q: Path ensures LiesInDirectory(next, q) {
      assert LiesInDirectory(t, q);
    }
  }

  lemma ListingUnchanged(before: Tree, now: Tree, src: Path, dst: Path, entries: seq<Entry>)
    requires Apart(before, src, dst) && PartWay(before, now, src, dst, {}) && Lists(now, src, entries)
    ensures Lists(before, src, entries)
  {
    forall n: Name ensures Lookup(now, src + [n]) == Lookup(before, src + [n]) {
      SourceUntouched(before, now, src, dst, {}, src + [n]);
    }
    forall n: Name ensures src + [n] in before <==> n in Names(entries) {
      assert Lookup(now, src + [n]) == Lookup(before, src + [n]);
    }
  }

  lemma StillApart(before: Tree, src: Path, dst: Path, n: Name)
    requires Apart(before, src, dst)
    ensures !(src + [n] < dst + [n])
  {
    if |src| < |dst| && !(src < dst) {
      var k :| 0 <= k < |src| && src[k] != dst[k];
      assert (src + [n])[k] != (dst + [n])[k];
    }
  }

  lemma PartialFile(before: Tree, after: Tree, p: Path)
    requires after == before || exists c :: after == before[p := File(c)]
    ensures OnlyAt(before, after, p)
  {
    forall q: Path ensures SameOutside(before, after, p, q) {
    }
  }

  class Disk {
    var nodes: Tree
    /** Whether the operating system refuses no call of its own accord. */
    const reliable: bool
    /** Whether every directory can be listed to its end. */
    const listable: bool

    constructor (t: Tree, reliable: bool, listable: bool)
      ensures nodes == t && this.reliable == reliable && this.listable == (reliable || listable)
    {
      nodes := t;
      this.reliable := reliable;
      this.listable := reliable || listable;
    }

    /** Whether the operating system refuses the next call. */
    method Refused() returns (refused: bool)
      ensures reliable ==> !refused
    {
      refused := *;
      if reliable {
        refused := false;
      }
    }

    /** `os.MkdirAll`: creates the missing directories on the way to `p`. */
    method MkdirAll(p: Path) returns (err: Option<Error>)
      requires WellFormed(nodes)
      modifies this
      ensures WellFormed(nodes)
      ensures err.None? ==> ClearWay(old(nodes), p) && Made(old(nodes), nodes, p)
      ensures err.Some? ==> exists q: Path :: q <= p && Made(old(nodes), nodes, q) && ClearWay(old(nodes), q)
      ensures reliable && ClearWay(old(nodes), p) ==> err.None?
    {
      var i := 0;
      assert Made(nodes, nodes, p[..0]) && ClearWay(nodes, p[..0]) by {
        assert Lookup(nodes, []) == Some(Dir);
      }
      while i < |p|
        invariant i <= |p|
        invariant WellFormed(nodes)
        invariant Made(old(nodes), nodes, p[..i]) && ClearWay(old(nodes), p[..i])
      {
        var here := p[..i + 1];
        assert Parent(here) == p[..i];
        assert Lookup(nodes, here) == if here <= Parent(here) then Some(Dir) else Lookup(old(nodes), here);
        if here in nodes && nodes[here] != Dir {
          assert Lookup(old(nodes), here) != Some(Dir) && here <= p;
          return Some(NotADirectory);
        }
        var refused := Refused();
        if refused {
          return Some(IoFailure);
        }
        MadeOneMore(old(nodes), nodes, here);
        nodes := nodes[here := Dir];
        i := i + 1;
      }
      assert p[..i] == p;
      return None;
    }

    /** `os.ReadDir`: the entries in some order, each name once; on an error, those read before it. */
    method ReadDir(dir: Path) returns (entries: seq<Entry>, err: Option<Error>)
      ensures exists todo :: ListsAllBut(nodes, dir, entries, todo)
      ensures err.None? ==> Lists(nodes, dir, entries)
      ensures listable ==> err.None?
    {
      var todo := set q | q in nodes && |q| == |dir| + 1 && dir <= q :: q[|dir|];
      forall n: Name ensures dir + [n] in nodes <==> n in todo {
        if dir + [n] in nodes {
          assert (dir + [n])[|dir|] == n;
        }
        if n in todo {
          var q :| q in nodes && |q| == |dir| + 1 && dir <= q && q[|dir|] == n;
          assert q == dir + [n];
        }
      }
      entries := [];
      while todo != {}
        invariant ListsAllBut(nodes, dir, entries, todo)
        decreases todo
      {
        var broken: bool := *;
        if broken && !listable {
          return entries, Some(IoFailure);
        }
        var n :| n in todo;
        ListOneMore(nodes, dir, entries, todo, n);
        entries := entries + [Entry(n, nodes[dir + [n]])];
        todo := todo - {n};
      }
      return entries, None;
    }

    /** `CopyFile`: a failure part way leaves a truncated or partial file at `dst`. */
    method CopyFile(src: Path, dst: Path) returns (err: Option<Error>)
      requires WellFormed(nodes)
      requires src in nodes ==> !nodes[src].Symlink?
      requires dst in nodes ==> !nodes[dst].Symlink?
      modifies this
      ensures WellFormed(nodes)
      ensures err.None? ==> src in old(nodes) && old(nodes)[src].File?
                            && nodes == old(nodes)[dst := old(nodes)[src]]
      ensures err.Some? ==>
                nodes == old(nodes) || exists c :: nodes == old(nodes)[dst := File(c)]
      ensures src !in old(nodes) ==> err.Some? && nodes == old(nodes)
      ensures (reliable && src in old(nodes) && old(nodes)[src].File? && dst != []
               && Lookup(old(nodes), Parent(dst)) == Some(Dir) && Lookup(old(nodes), dst) != Some(Dir)) ==> err.None?
    {
      if src !in nodes {
        return Some(NotExist);
      }
      if dst == [] || Lookup(nodes, Parent(dst)) != Some(Dir) || Lookup(nodes, dst) == Some(Dir) {
        return Some(IsADirectory);
      }
      var refused := Refused();
      if refused {
        return Some(IoFailure);
      }
      var source := nodes[src];
      if source == Dir {
        OverwriteKeepsWellFormed(nodes, dst, File(""));
        nodes := nodes[dst := File("")];
        return Some(IsADirectory);
      }
      refused := Refused();
      if refused {
        var partial: string :| partial <= source.content;
        OverwriteKeepsWellFormed(nodes, dst, File(partial));
        nodes := nodes[dst := File(partial)];
        return Some(IoFailure);
      }
      OverwriteKeepsWellFormed(nodes, dst, source);
      nodes := nodes[dst := source];
      return None;
    }

    /** One iteration of `CopyDir`; `before` is the tree it started from and `done` what it has copied. */
    method CopyEntry(ghost before: Tree, src: Path, dst: Path, ghost done: set<Name>, entry: Entry)
      returns (err: Option<Error>)
      requires Apart(before, src, dst) && WellFormed(nodes) && PartWay(before, nodes, src, dst, done)
      requires Lookup(before, src + [entry.name]) == Some(entry.node) && entry.name !in done
      modifies this
      decreases Subtree(nodes, src + [entry.name]), 1
      ensures WellFormed(nodes)
      ensures err.None? ==> PartWay(before, nodes, src, dst, done + {entry.name})
      ensures err.Some? ==> OnlyAt(before, nodes, dst)
      ensures reliable && listable ==> err.None?
    {
      var name := entry.name;
      ghost var now := nodes;
      PartOnlyAt(before, nodes, src, dst, done);
      SourceUntouched(before, nodes, src, dst, done, src + [name]);
      ChildMissing(before, nodes, src, dst, done, name);
      err := None;
      match entry.node {
        case Dir =>
          StillApart(before, src, dst, name);
          err := CopyDir(src + [name], dst + [name]);
          if err.None? {
            PartDir(before, now, nodes, src, dst, done, name);
          }
        case Symlink(_) =>
          PartSymlink(before, nodes, src, dst, done, name);
        case File(_) =>
          err := CopyFile(src + [name], dst + [name]);
          if err.None? {
            PartFile(before, now, src, dst, done, name);
          } else {
            PartialFile(now, nodes, dst + [name]);
          }
      }
      if err.Some? {
        OnlyAtThenBelow(before, now, nodes, dst, dst + [name]);
      }
    }

    /** Recursively copies a directory tree, skipping symbolic links. */
    method CopyDir(src: Path, dst: Path) returns (err: Option<Error>)
      requires WellFormed(nodes)
      requires !CopiesIntoItself(nodes, src, dst)
      modifies this
      decreases Subtree(nodes, src), 0
      ensures WellFormed(nodes)
      ensures Lookup(old(nodes), src) != Some(Dir) || Lstat(old(nodes), dst) != Err(NotExist) ==>
                err.Some? && nodes == old(nodes)
      ensures Lstat(old(nodes), src).Err? ==> err == Some(Lstat(old(nodes), src).error)
      ensures err.None? ==> Copied(old(nodes), nodes, src, dst)
      ensures err.Some? ==> OnlyAt(old(nodes), nodes, dst)
      ensures reliable && listable ==>
                (err.None? <==> Lookup(old(nodes), src) == Some(Dir)
                                && Lstat(old(nodes), dst) == Err(NotExist) && ClearWay(old(nodes), dst))
    {
      OnlyAtSelf(nodes, dst);
      if Lstat(nodes, src).Err? {
        return Some(Lstat(nodes, src).error);
      }
      if nodes[src] != Dir {
        return Some(NotADirectory);
      }
      var there := Lstat(nodes, dst);
      if there.Err? && there.error != NotExist {
        return Some(there.error);
      }
      if there.Ok? {
        return Some(AlreadyExists);
      }

      ghost var before := nodes;
      err := MkdirAll(dst);
      if err.Some? {
        MadePartWay(before, nodes, dst);
        return;
      }
      PartStart(before, nodes, src, dst);
      PartOnlyAt(before, nodes, src, dst, {});
      var entries, listingErr := ReadDir(src);
      if listingErr.Some? {
        return listingErr;
      }
      ListingUnchanged(before, nodes, src, dst, entries);

      var i := 0;
      while i < |entries|
        invariant i <= |entries|
        invariant WellFormed(nodes) && PartWay(before, nodes, src, dst, Names(entries[..i]))
      {
        ghost var done := Names(entries[..i]);
        NamesGrow(entries, i);
        assert entries[i].name !in done by {
          forall k | 0 <= k < i ensures entries[..i][k].name != entries[i].name {
          }
        }
        SubtreeShrinks(before, nodes, src, dst, done, entries[i].name);
        err := CopyEntry(before, src, dst, done, entries[i]);
        if err.Some? {
          return;
        }
        i := i + 1;
      }
      assert entries[..i] == entries;
      PartEnd(before, nodes, src, dst, Names(entries));
      return None;
    }
  }

  lemma ChildMissing(before: Tree, now: Tree, src: Path, dst: Path, done: set<Name>, n: Name)
    requires Apart(before, src, dst) && PartWay(before, now, src, dst, done) && n !in done
    ensures Parent(dst + [n]) == dst && Lookup(now, dst) == Some(Dir)
    ensures Lstat(now, dst + [n]) == Err(NotExist)
    ensures ClearWay(now, dst + [n])
  {
    assert Lookup(now, dst + [n]) == PartCopied(before, src, dst, done, dst + [n]) == None;
    assert Lookup(now, dst) == PartCopied(before, src, dst, done, dst) == Some(Dir) by {
      assert src + dst[|dst|..] == src;
    }
    forall q: Path | q <= dst + [n] && q in now ensures Lookup(now, q) == Some(Dir) {
      OneLonger(q, dst + [n]);
      assert Lookup(now, q) == PartCopied(before, src, dst, done, q);
    }
    forall i | 0 <= i < |dst + [n]| && (dst + [n])[..i] in now ensures !now[(dst + [n])[..i]].File? {
      assert Lookup(now, (dst + [n])[..i]) == Some(Dir);
    }
  }

  /** The recursion is on the part of the tree still to be copied. */
  lemma SubtreeShrinks(before: Tree, now: Tree, src: Path, dst: Path, done: set<Name>, n: Name)
    requires Apart(before, src, dst) && PartWay(before, now, src, dst, done)
    ensures Subtree(now, src + [n]) < Subtree(before, src)
  {
    forall p | p in Subtree(now, src + [n]) ensures p in Subtree(before, src) {
      assert src <= src + [n] <= p;
      SourceUntouched(before, now, src, dst, done, p);
    }
    assert src in Subtree(before, src) && src !in Subtree(now, src + [n]);
  }
}
