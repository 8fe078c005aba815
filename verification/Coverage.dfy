/**
 Carrying coverage forward over the commits of a push: pkg/service/coverage/coverage.go.

 Each commit owns a directory under the repository's coverage directory.  It inherits the test
 directories of the commit before it, except the removed ones and those it has itself.
 */
module Coverage {
  import opened Wrappers
  import opened FileSystem

  const COVERAGE_JSON: Name := "coverage-final.json"
  const MERGED_JSON: Name := "coverage-merged.json"
  const MANIFEST_JSON: Name := "manifest.json"

  function Base(p: Path): Name
    requires p != []
  {
    p[|p| - 1]
  }

  // ----- The in-place list of removed files -----

  /** The slice `removedFiles`: a backing array of which the first `live` elements count. */
  class RemovedFiles {
    const elems: array<Name>
    var live: nat

    ghost predicate Valid()
      reads this
    {
      live <= elems.Length
    }

    ghost function View(): seq<Name>
      reads this, elems
      requires Valid()
    {
      elems[..live]
    }

    constructor (names: seq<Name>)
      ensures Valid() && View() == names && fresh(elems)
    {
      elems := new Name[|names|](i requires 0 <= i < |names| => names[i]);
      live := |names|;
    }

    /** Cuts one element out of the list by moving those after it forward in the shared array. */
    method Splice(index: nat)
      requires Valid() && index < live
      modifies this, elems
      ensures Valid() && View() == old(View())[..index] + old(View())[index + 1..]
    {
      var i := index;
      while i + 1 < live
        invariant index <= i < live && live == old(live)
        invariant forall k :: 0 <= k < index || i <= k < live ==> elems[k] == old(elems[k])
        invariant forall k :: index <= k < i ==> elems[k] == old(elems[k + 1])
      {
        elems[i] := elems[i + 1];
        i := i + 1;
      }
      live := live - 1;
    }
  }

  // ----- Which directories are inherited -----

  /** What the walk has done so far: names still to be skipped, and what was copied from where. */
  datatype Progress = Progress(removed: seq<Name>, copied: map<Name, Path>)

  function RemoveFirst(names: seq<Name>, n: Name): seq<Name> {
    if names == [] then []
    else if names[0] == n then names[1..]
    else [names[0]] + RemoveFirst(names[1..], n)
  }

  function Step(t: Tree, commitDir: Path, s: Progress, c: Path): Progress
    requires c != []
  {
    var n := Base(c);
    if n in s.removed then s.(removed := RemoveFirst(s.removed, n))
    else if commitDir + [n] in t || n in s.copied then s
    else s.(copied := s.copied[n := c])
  }

  function Steps(t: Tree, commitDir: Path, s: Progress, cs: seq<Path>): Progress
    requires [] !in cs
  {
    if cs == [] then s else Step(t, commitDir, Steps(t, commitDir, s, cs[..|cs| - 1]), cs[|cs| - 1])
  }

  function Bases(cs: seq<Path>): seq<Name>
    requires [] !in cs
  {
    seq(|cs|, i requires 0 <= i < |cs| => Base(cs[i]))
  }

  lemma {:induction false} RemoveFirstAt(names: seq<Name>, k: nat)
    requires k < |names| && names[k] !in names[..k]
    ensures RemoveFirst(names, names[k]) == names[..k] + names[k + 1..]
  {
    if k > 0 {
      assert names[0] == names[..k][0];
      assert names[1..][..k - 1] == names[..k][1..];
      RemoveFirstAt(names[1..], k - 1);
      assert names == [names[0]] + names[1..];
    }
  }

  lemma {:induction false} RemoveFirstCount(names: seq<Name>, n: Name, m: Name)
    requires n in names
    ensures multiset(RemoveFirst(names, n))[m] == multiset(names)[m] - if m == n then 1 else 0
  {
    assert names == [names[0]] + names[1..];
    if names[0] != n {
      RemoveFirstCount(names[1..], n, m);
    }
  }

  /**
   A name is inherited exactly when the commit does not have it and the walk meets it more often
   than the manifest lists it as removed.
   */
  lemma {:induction false} InheritedNames(t: Tree, commitDir: Path, removed: seq<Name>, cs: seq<Path>, n: Name)
    requires [] !in cs
    ensures var s := Steps(t, commitDir, Progress(removed, map[]), cs);
            var met, listed := multiset(Bases(cs))[n], multiset(removed)[n];
            && multiset(s.removed)[n] == (if met < listed then listed - met else 0)
            && (n in s.copied <==> commitDir + [n] !in t && listed < met)
            && (n in s.copied ==> s.copied[n] in cs && Base(s.copied[n]) == n)
  {
    if cs != [] {
      var front, c := cs[..|cs| - 1], cs[|cs| - 1];
      var s := Steps(t, commitDir, Progress(removed, map[]), front);
      InheritedNames(t, commitDir, removed, front, n);
      assert Bases(cs) == Bases(front) + [Base(c)];
      assert n in s.removed <==> multiset(s.removed)[n] > 0;
      if Base(c) in s.removed {
        RemoveFirstCount(s.removed, Base(c), n);
      }
    }
  }

  /** The walk stops at the first directory whose name differs from the parent directory's own. */
  ghost predicate IsCandidate(t: Tree, parentDir: Path, c: Path)
    requires parentDir != []
  {
    && parentDir < c
    && Lookup(t, c) == Some(Dir)
    && Base(c) != Base(parentDir)
    && forall i :: |parentDir| <= i < |c| - 1 ==> c[i] == Base(parentDir)
  }

  ghost predicate NoRepeats<T>(s: seq<T>) {
    forall i, j :: 0 <= i < j < |s| ==> s[i] != s[j]
  }

  ghost predicate WalkOrder(t: Tree, parentDir: Path, cs: seq<Path>)
    requires parentDir != []
  {
    && NoRepeats(cs)
    && forall c: Path :: c in cs <==> IsCandidate(t, parentDir, c)
  }

  /** A directory holding one that is named like itself is walked differently from all others. */
  predicate HoldsNamesake(t: Tree, dir: Path)
    requires dir != []
  {
    Lookup(t, dir + [Base(dir)]) == Some(Dir)
  }

  lemma CandidatesAreChildren(t: Tree, parentDir: Path, c: Path)
    requires parentDir != [] && WellFormed(t) && !HoldsNamesake(t, parentDir)
    ensures IsCandidate(t, parentDir, c) <==>
              exists n: Name :: c == parentDir + [n] && Lookup(t, c) == Some(Dir)
  {
    if IsCandidate(t, parentDir, c) {
      var n := c[|parentDir|];
      if |c| > |parentDir| + 1 {
        assert parentDir + [n] == c[..|parentDir| + 1];
        AncestorIsDir(t, parentDir + [n], c);
        assert false;
      }
      assert c == parentDir + [n];
    }
  }

  /** What is meant: the parent's directories, minus the removed ones, minus the commit's own. */
  predicate AsIntended(t: Tree, parentDir: Path, commitDir: Path, removed: seq<Name>, copied: map<Name, Path>,
                       n: Name) {
    n in copied <==> Lookup(t, parentDir + [n]) == Some(Dir) && n !in removed && commitDir + [n] !in t
  }

  /** Without a namesake the result is the one intended, whatever else the list of removed files holds. */
  lemma InheritedAsIntended(t: Tree, parentDir: Path, commitDir: Path, removed: seq<Name>, cs: seq<Path>, n: Name)
    requires parentDir != [] && WellFormed(t) && !HoldsNamesake(t, parentDir)
    requires WalkOrder(t, parentDir, cs) && [] !in cs
    ensures var copied := Steps(t, commitDir, Progress(removed, map[]), cs).copied;
            && AsIntended(t, parentDir, commitDir, removed, copied, n)
            && (n in copied ==> copied[n] == parentDir + [n])
  {
    InheritedNames(t, commitDir, removed, cs, n);
    CandidatesAreChildren(t, parentDir, parentDir + [n]);
    forall c | c in cs ensures c == parentDir + [Base(c)] {
      CandidatesAreChildren(t, parentDir, c);
    }
    forall i, j | 0 <= i < j < |cs| ensures Bases(cs)[i] != Bases(cs)[j] {
      assert cs[i] == parentDir + [Base(cs[i])] && cs[j] == parentDir + [Base(cs[j])];
    }
    CountOfDistinct(Bases(cs), n);
    if parentDir + [n] in cs {
      var k :| 0 <= k < |cs| && cs[k] == parentDir + [n];
      assert Bases(cs)[k] == n;
    }
    if n in Bases(cs) {
      var k :| 0 <= k < |cs| && Bases(cs)[k] == n;
      assert cs[k] == parentDir + [n];
    }
    assert n in removed <==> multiset(removed)[n] > 0;
  }

  lemma {:induction false} CountOfDistinct(names: seq<Name>, n: Name)
    requires NoRepeats(names)
    ensures multiset(names)[n] == if n in names then 1 else 0
  {
    if names != [] {
      assert names == [names[0]] + names[1..];
      CountOfDistinct(names[1..], n);
    }
  }

  /** No candidate is called like the parent, so a directory of that name is never inherited. */
  lemma NamesakeNotInherited(t: Tree, parentDir: Path, commitDir: Path, removed: seq<Name>, cs: seq<Path>)
    requires parentDir != [] && WalkOrder(t, parentDir, cs) && [] !in cs
    ensures Base(parentDir) !in Steps(t, commitDir, Progress(removed, map[]), cs).copied
  {
    forall c | c in cs ensures Base(c) != Base(parentDir) {
      assert IsCandidate(t, parentDir, c);
    }
    InheritedNames(t, commitDir, removed, cs, Base(parentDir));
  }

  /**
   For a commit that neither has nor removes a directory called like its parent's own, every name is inherited as
   intended exactly when the parent does not hold such a directory.
   */
  lemma IntendedIffNoNamesake(t: Tree, parentDir: Path, commitDir: Path, removed: seq<Name>, cs: seq<Path>)
    requires parentDir != [] && WellFormed(t) && WalkOrder(t, parentDir, cs) && [] !in cs
    requires Base(parentDir) !in removed && commitDir + [Base(parentDir)] !in t
    ensures var copied := Steps(t, commitDir, Progress(removed, map[]), cs).copied;
            (forall n: Name :: AsIntended(t, parentDir, commitDir, removed, copied, n))
                      <==> !HoldsNamesake(t, parentDir)
  {
    var copied := Steps(t, commitDir, Progress(removed, map[]), cs).copied;
    if HoldsNamesake(t, parentDir) {
      NamesakeNotInherited(t, parentDir, commitDir, removed, cs);
      assert !AsIntended(t, parentDir, commitDir, removed, copied, Base(parentDir));
    } else {
      forall n: Name ensures AsIntended(t, parentDir, commitDir, removed, copied, n) {
        InheritedAsIntended(t, parentDir, commitDir, removed, cs, n);
      }
    }
  }

  /**
   With a namesake the intention fails: the namesake is not inherited, the directories inside it
   are, and a removed name can come back.
   */
  lemma NamesakeResurrects(p: Name, x: Name, c: Name)
    requires p != x && c != p && c != x
    ensures
      var t: Tree := NamesakeTree(p, x, c);
      var cs: seq<Path> := [[p, p, x], [p, x]];
      && WellFormed(t) && HoldsNamesake(t, [p]) && WalkOrder(t, [p], cs) && [] !in cs
      && Steps(t, [c], Progress([x], map[]), cs).copied == map[x := [p, x]]
  {
    var t: Tree := NamesakeTree(p, x, c);
    var cs: seq<Path> := [[p, p, x], [p, x]];
    forall q: Path ensures LiesInDirectory(t, q) {
      if q in t && q != [] {
        if |q| == 1 {
          assert Parent(q) == [];
        } else if |q| == 2 {
          assert Parent(q) == [p];
        } else {
          assert Parent(q) == [p, p];
        }
      }
    }
    assert [p] + [Base([p])] == [p, p];
    forall c: Path ensures c in cs <==> IsCandidate(t, [p], c) {
    }
    var s0 := Progress([x], map[]);
    var s1 := Progress([], map[]);
    assert cs[..1] == [[p, p, x]] && cs[..1][..0] == [];
    assert Steps(t, [c], s0, cs[..1]) == Step(t, [c], s0, [p, p, x]) == s1;
    assert [c] + [x] == [c, x];
  }

  function NamesakeTree(p: Name, x: Name, c: Name): Tree {
    map[[] := Dir, [c] := Dir, [p] := Dir, [p, x] := Dir, [p, p] := Dir, [p, p, x] := Dir]
  }

  // ----- The effect on the file system -----

  function InheritedAt(before: Tree, commitDir: Path, copied: map<Name, Path>, p: Path): Option<Node> {
    if commitDir < p && p[|commitDir|] in copied
    then NoSymlink(Lookup(before, copied[p[|commitDir|]] + p[|commitDir| + 1..]))
    else Lookup(before, p)
  }

  ghost predicate Inherited(before: Tree, now: Tree, commitDir: Path, copied: map<Name, Path>) {
    forall p: Path {:trigger Lookup(now, p)} :: Lookup(now, p) == InheritedAt(before, commitDir, copied, p)
  }

  /** Only names that the commit did not have can have changed below its directory. */
  ghost predicate OwnKept(before: Tree, now: Tree, commitDir: Path) {
    forall p: Path {:trigger Lookup(now, p)} ::
      (commitDir < p && commitDir + [p[|commitDir|]] !in before) || Lookup(now, p) == Lookup(before, p)
  }

  ghost predicate Separate(p: Path, q: Path) {
    !(p <= q) && !(q <= p)
  }

  lemma SeparateBelow(p: Path, q: Path, below: Path)
    requires Separate(p, q) && p <= below
    ensures Separate(below, q)
  {
    if q <= below {
      Comparable(p, q, below);
    }
  }

  ghost predicate GoodProgress(before: Tree, parentDir: Path, commitDir: Path, s: Progress) {
    && (forall n :: n in s.copied ==> parentDir <= s.copied[n] && Lookup(before, s.copied[n]) == Some(Dir))
    && (forall n :: n in s.copied ==> commitDir + [n] !in before)
  }

  lemma InheritedOwnKept(before: Tree, now: Tree, parentDir: Path, commitDir: Path, s: Progress)
    requires GoodProgress(before, parentDir, commitDir, s) && Inherited(before, now, commitDir, s.copied)
    ensures OwnKept(before, now, commitDir)
  {
    forall p: Path
      ensures (commitDir < p && commitDir + [p[|commitDir|]] !in before) || Lookup(now, p) == Lookup(before, p)
    {
      assert Lookup(now, p) == InheritedAt(before, commitDir, s.copied, p);
    }
  }

  /** One more directory copied under a name that was free. */
  lemma InheritOneMore(before: Tree, now: Tree, next: Tree, parentDir: Path, commitDir: Path, s: Progress, c: Path)
    requires WellFormed(before) && Lookup(before, commitDir) == Some(Dir) && Separate(parentDir, commitDir)
    requires GoodProgress(before, parentDir, commitDir, s) && Inherited(before, now, commitDir, s.copied)
    requires parentDir < c && Lookup(before, c) == Some(Dir)
    requires commitDir + [Base(c)] !in before && Base(c) !in s.copied
    requires Copied(now, next, c, commitDir + [Base(c)])
    ensures GoodProgress(before, parentDir, commitDir, s.(copied := s.copied[Base(c) := c]))
    ensures Inherited(before, next, commitDir, s.copied[Base(c) := c])
  {
    var n := Base(c);
    var dst := commitDir + [n];
    forall p: Path ensures Lookup(next, p) == InheritedAt(before, commitDir, s.copied[n := c], p) {
      assert Lookup(next, p) == AfterCopy(now, c, dst, p);
      assert Lookup(now, p) == InheritedAt(before, commitDir, s.copied, p);
      if dst <= p {
        var from := c + p[|dst|..];
        assert c <= from;
        SeparateBelow(parentDir, commitDir, from);
        assert Lookup(now, from) == InheritedAt(before, commitDir, s.copied, from);
      } else if p <= dst {
        OneLonger(p, dst);
        assert Parent(dst) == commitDir;
        if |p| < |commitDir| {
          AncestorIsDir(before, p, commitDir);
        } else {
          assert p == commitDir;
        }
      }
    }
  }

  lemma CopyHasRoom(before: Tree, now: Tree, parentDir: Path, commitDir: Path, s: Progress, c: Path)
    requires WellFormed(before) && Lookup(before, commitDir) == Some(Dir) && Separate(parentDir, commitDir)
    requires GoodProgress(before, parentDir, commitDir, s) && Inherited(before, now, commitDir, s.copied)
    requires parentDir < c && Lookup(before, c) == Some(Dir)
    ensures Lookup(now, c) == Some(Dir)
    ensures commitDir + [Base(c)] in now <==> commitDir + [Base(c)] in before || Base(c) in s.copied
    ensures commitDir + [Base(c)] !in now ==>
              Lstat(now, commitDir + [Base(c)]) == Err(NotExist) && ClearWay(now, commitDir + [Base(c)])
    ensures !CopiesIntoItself(now, c, commitDir + [Base(c)])
  {
    var dst := commitDir + [Base(c)];
    SeparateBelow(parentDir, commitDir, c);
    assert Lookup(now, c) == InheritedAt(before, commitDir, s.copied, c);
    assert Lookup(now, dst) == InheritedAt(before, commitDir, s.copied, dst);
    if Base(c) in s.copied {
      assert s.copied[Base(c)] + dst[|commitDir| + 1..] == s.copied[Base(c)];
    }
    assert Parent(dst) == commitDir;
    if c < dst {
      OneLonger(c, dst);
    }
    forall q: Path | q <= dst && q in now && dst !in now ensures Lookup(now, q) == Some(Dir) {
      OneLonger(q, dst);
      assert Lookup(now, q) == InheritedAt(before, commitDir, s.copied, q);
      if |q| < |commitDir| {
        AncestorIsDir(before, q, commitDir);
      } else if q != dst {
        assert q == commitDir;
      }
    }
    forall i | 0 <= i < |dst| && dst[..i] in now && dst !in now ensures !now[dst[..i]].File? {
      assert Lookup(now, dst[..i]) == Some(Dir);
    }
  }

  lemma FailedCopyKeepsOwn(before: Tree, now: Tree, next: Tree, parentDir: Path, commitDir: Path, s: Progress, n: Name)
    requires WellFormed(now) && Lookup(now, commitDir) == Some(Dir) && commitDir + [n] !in before
    requires GoodProgress(before, parentDir, commitDir, s) && Inherited(before, now, commitDir, s.copied)
    requires OnlyAt(now, next, commitDir + [n])
    ensures OwnKept(before, next, commitDir)
  {
    InheritedOwnKept(before, now, parentDir, commitDir, s);
    var dst := commitDir + [n];
    forall p: Path
      ensures (commitDir < p && commitDir + [p[|commitDir|]] !in before) || Lookup(next, p) == Lookup(before, p)
    {
      assert SameOutside(now, next, dst, p);
      assert (commitDir < p && commitDir + [p[|commitDir|]] !in before) || Lookup(now, p) == Lookup(before, p);
      if p < dst && p !in now {
        OneLonger(p, dst);
        assert Parent(dst) == commitDir;
        if |p| < |commitDir| {
          AncestorIsDir(now, p, commitDir);
        } else {
          assert p == commitDir;
        }
      }
    }
  }

  // ----- The walk over the parent's directory -----

  /** The walk reaches `dir` through directories that all carry the parent directory's own name. */
  ghost predicate OnNamesakes(parentDir: Path, dir: Path)
    requires parentDir != []
  {
    && parentDir <= dir
    && forall i :: |parentDir| <= i < |dir| ==> dir[i] == Base(parentDir)
  }

  lemma {:induction false} StepsConcat(t: Tree, commitDir: Path, s: Progress, cs: seq<Path>, ds: seq<Path>)
    requires [] !in cs && [] !in ds
    ensures [] !in cs + ds
    ensures Steps(t, commitDir, s, cs + ds) == Steps(t, commitDir, Steps(t, commitDir, s, cs), ds)
    decreases |ds|
  {
    if ds == [] {
      assert cs + ds == cs;
    } else {
      var front := ds[..|ds| - 1];
      StepsConcat(t, commitDir, s, cs, front);
      assert (cs + ds)[..|cs + ds| - 1] == cs + front;
    }
  }

  /** The candidates found below `dir` under the names in `done`; all of them when `complete`. */
  ghost predicate Found(t: Tree, parentDir: Path, dir: Path, done: set<Name>, cs: seq<Path>, complete: bool)
    requires parentDir != []
  {
    && NoRepeats(cs)
    && (forall c :: c in cs ==> IsCandidate(t, parentDir, c) && dir < c && c[|dir|] in done)
    && (complete ==> forall c: Path {:trigger c in cs} ::
          IsCandidate(t, parentDir, c) && dir < c && c[|dir|] in done ==> c in cs)
  }

  lemma FoundNone(t: Tree, parentDir: Path, dir: Path, done: set<Name>, cs: seq<Path>, complete: bool, n: Name)
    requires parentDir != [] && WellFormed(t) && OnNamesakes(parentDir, dir)
    requires Found(t, parentDir, dir, done, cs, complete)
    requires Lookup(t, dir + [n]) != Some(Dir)
    ensures Found(t, parentDir, dir, done + {n}, cs, complete)
  {
    forall c: Path | IsCandidate(t, parentDir, c) && dir < c && c[|dir|] == n ensures false {
      ChildOnTheWay(t, dir, c);
    }
  }

  lemma FoundOne(t: Tree, parentDir: Path, dir: Path, done: set<Name>, cs: seq<Path>, complete: bool, n: Name)
    requires parentDir != [] && WellFormed(t) && OnNamesakes(parentDir, dir)
    requires Found(t, parentDir, dir, done, cs, complete) && n !in done
    requires Lookup(t, dir + [n]) == Some(Dir) && n != Base(parentDir)
    ensures Found(t, parentDir, dir, done + {n}, cs + [dir + [n]], complete)
  {
    var c' := dir + [n];
    assert c'[|dir|] == n && Base(c') == n;
    forall c: Path | IsCandidate(t, parentDir, c) && dir < c && c[|dir|] == n ensures c == c' {
    }
  }

  lemma FoundBelow(t: Tree, parentDir: Path, dir: Path, done: set<Name>, cs: seq<Path>, complete: bool,
                   n: Name, names: set<Name>, ds: seq<Path>)
    requires parentDir != [] && WellFormed(t) && OnNamesakes(parentDir, dir)
    requires Found(t, parentDir, dir, done, cs, complete) && n !in done
    requires n == Base(parentDir)
    requires Found(t, parentDir, dir + [n], names, ds, complete)
    requires complete ==> forall m :: dir + [n] + [m] in t ==> m in names
    ensures Found(t, parentDir, dir, done + {n}, cs + ds, complete)
  {
    var below := dir + [n];
    forall c | c in ds ensures dir < c && c[|dir|] == n && c !in cs {
      assert c[|dir|] == below[|dir|];
    }
    forall i, j | 0 <= i < j < |cs + ds| ensures (cs + ds)[i] != (cs + ds)[j] {
      if i < |cs| <= j {
        assert ds[j - |cs|] in ds && cs[i] in cs;
      }
    }
    forall c: Path | complete && IsCandidate(t, parentDir, c) && dir < c && c[|dir|] == n ensures c in ds {
      assert below == c[..|dir| + 1];
      assert below != c;
      var m := c[|below|];
      ChildOnTheWay(t, below, c);
    }
  }

  /** Listing below the parent is not disturbed by what has been copied. */
  lemma ParentUntouched(before: Tree, now: Tree, parentDir: Path, commitDir: Path, s: Progress, dir: Path,
                        entries: seq<Entry>)
    requires Separate(parentDir, commitDir) && parentDir <= dir
    requires Inherited(before, now, commitDir, s.copied)
    ensures forall todo :: ListsAllBut(now, dir, entries, todo) ==> ListsAllBut(before, dir, entries, todo)
  {
    forall n: Name ensures Lookup(now, dir + [n]) == Lookup(before, dir + [n]) {
      SeparateBelow(parentDir, commitDir, dir + [n]);
      assert Lookup(now, dir + [n]) == InheritedAt(before, commitDir, s.copied, dir + [n]);
    }
    forall todo | ListsAllBut(now, dir, entries, todo) ensures ListsAllBut(before, dir, entries, todo) {
      forall n: Name ensures dir + [n] in before <==> n in Names(entries) || n in todo {
        assert Lookup(now, dir + [n]) == Lookup(before, dir + [n]);
      }
    }
  }

  /** What holds whenever the walk calls back: `s` sums up the walk since the tree `before`. */
  ghost predicate Walking(disk: Disk, removed: RemovedFiles, before: Tree, parentDir: Path, commitDir: Path,
                          s: Progress)
    reads disk, removed, removed.elems
  {
    && WellFormed(before) && Lookup(before, commitDir) == Some(Dir) && Separate(parentDir, commitDir)
    && WellFormed(disk.nodes) && Inherited(before, disk.nodes, commitDir, s.copied)
    && GoodProgress(before, parentDir, commitDir, s)
    && removed.Valid() && removed.View() == s.removed
  }

  /** The callback of the walk for a directory that is not named like the parent. */
  method Visit(disk: Disk, c: Path, commitDir: Path, removed: RemovedFiles,
               ghost before: Tree, ghost parentDir: Path, ghost s: Progress)
    returns (err: Option<Error>)
    requires Walking(disk, removed, before, parentDir, commitDir, s)
    requires parentDir < c && Lookup(before, c) == Some(Dir)
    modifies disk, removed, removed.elems
    ensures err.None? ==> Walking(disk, removed, before, parentDir, commitDir, Step(before, commitDir, s, c))
    ensures err.Some? ==> OwnKept(before, disk.nodes, commitDir)
    ensures disk.reliable && disk.listable ==> err.None?
  {
    var name := Base(c);
    var index := 0;
    while index < removed.live
      invariant index <= removed.live
      invariant name !in s.removed[..index]
    {
      if name == removed.elems[index] {
        assert s.removed[index] == name;
        RemoveFirstAt(s.removed, index);
        removed.Splice(index);
        return None;
      }
      assert s.removed[..index + 1] == s.removed[..index] + [s.removed[index]];
      index := index + 1;
    }
    assert s.removed[..index] == s.removed;

    var testfileDir := commitDir + [name];
    ghost var now := disk.nodes;
    CopyHasRoom(before, now, parentDir, commitDir, s, c);
    if Lstat(disk.nodes, testfileDir) == Err(NotExist) {
      err := disk.CopyDir(c, testfileDir);
      if err.Some? {
        assert Lookup(now, commitDir) == InheritedAt(before, commitDir, s.copied, commitDir);
        FailedCopyKeepsOwn(before, now, disk.nodes, parentDir, commitDir, s, name);
        return;
      }
      InheritOneMore(before, now, disk.nodes, parentDir, commitDir, s, c);
    }
    return None;
  }

  /** `filepath.WalkDir` below `dir`, descending only into directories named like the parent. */
  method Walk(disk: Disk, dir: Path, parentDir: Path, commitDir: Path, removed: RemovedFiles,
              ghost before: Tree, ghost s: Progress)
    returns (err: Option<Error>, ghost cs: seq<Path>, ghost names: set<Name>)
    requires parentDir != [] && OnNamesakes(parentDir, dir) && Lookup(before, dir) == Some(Dir)
    requires Walking(disk, removed, before, parentDir, commitDir, s)
    modifies disk, removed, removed.elems
    decreases Subtree(before, dir)
    ensures Found(before, parentDir, dir, names, cs, disk.listable) && [] !in cs
    ensures err.None? && disk.listable ==> forall n: Name :: dir + [n] in before ==> n in names
    ensures err.None? ==> Walking(disk, removed, before, parentDir, commitDir, Steps(before, commitDir, s, cs))
    ensures err.Some? ==> OwnKept(before, disk.nodes, commitDir)
    ensures disk.reliable && disk.listable ==> err.None?
  {
    cs, names := [], {};
    // The source calls back once more when the listing breaks off, and that call ignores the error.
    var entries, _ := disk.ReadDir(dir);
    ParentUntouched(before, disk.nodes, parentDir, commitDir, s, dir, entries);
    ghost var todo :| ListsAllBut(before, dir, entries, todo);
    ghost var now := s;
    var i := 0;
    while i < |entries|
      invariant i <= |entries|
      invariant names == Names(entries[..i])
      invariant Found(before, parentDir, dir, names, cs, disk.listable) && [] !in cs
      invariant now == Steps(before, commitDir, s, cs)
      invariant Walking(disk, removed, before, parentDir, commitDir, now)
    {
      var name := entries[i].name;
      NextEntry(before, dir, entries, todo, i);
      if entries[i].node != Dir {
        FoundNone(before, parentDir, dir, names, cs, disk.listable, name);
      } else if name != Base(parentDir) {
        err := Visit(disk, dir + [name], commitDir, removed, before, parentDir, now);
        if err.Some? {
          return;
        }
        FoundOne(before, parentDir, dir, names, cs, disk.listable, name);
        assert (cs + [dir + [name]])[..|cs|] == cs;
        cs := cs + [dir + [name]];
        now := Step(before, commitDir, now, dir + [name]);
      } else {
        ghost var ds, below;
        SubtreeBelow(before, dir, name);
        err, ds, below := Walk(disk, dir + [name], parentDir, commitDir, removed, before, now);
        if err.Some? {
          return;
        }
        FoundBelow(before, parentDir, dir, names, cs, disk.listable, name, below, ds);
        StepsConcat(before, commitDir, s, cs, ds);
        cs := cs + ds;
        now := Steps(before, commitDir, now, ds);
      }
      names := names + {name};
      i := i + 1;
    }
    assert entries[..i] == entries;
    return None, cs, names;
  }

  /** A parent that is a directory is walked, in the order `cs`; anything else has nothing to inherit. */
  ghost predicate InheritsFrom(before: Tree, after: Tree, parentDir: Path, commitDir: Path, removed: seq<Name>,
                               cs: seq<Path>, complete: bool)
    requires parentDir != []
  {
    if Lookup(before, parentDir) != Some(Dir) then after == before
    else
      && [] !in cs && NoRepeats(cs)
      && (forall c :: c in cs ==> IsCandidate(before, parentDir, c))
      && (complete ==> WalkOrder(before, parentDir, cs))
      && Inherited(before, after, commitDir, Steps(before, commitDir, Progress(removed, map[]), cs).copied)
  }

  /**
   `copyFromParentCommitDir`; `parentDir` is `None` for the empty path of a first commit without a
   base.  A path through a file, for which the walk's function gets no entry, cannot occur: parent and commit are
   siblings.  `cs` is the order in which the walk met the parent's directories.
   */
  method CopyFromParentCommitDir(disk: Disk, parentDir: Option<Path>, commitDir: Path, removedFiles: seq<Name>)
    returns (err: Option<Error>, ghost cs: seq<Path>)
    requires WellFormed(disk.nodes) && Lookup(disk.nodes, commitDir) == Some(Dir)
    requires parentDir.Some? ==>
               && parentDir.value != [] && Separate(parentDir.value, commitDir)
               && Lstat(disk.nodes, parentDir.value) != Err(NotADirectory)
    modifies disk
    ensures parentDir.None? || Lstat(old(disk.nodes), parentDir.value) == Err(NotExist) ==>
              err == Some(NotExist) && disk.nodes == old(disk.nodes)
    ensures err.None? ==>
              && WellFormed(disk.nodes)
              && InheritsFrom(old(disk.nodes), disk.nodes, parentDir.value, commitDir, removedFiles, cs, disk.listable)
    ensures OwnKept(old(disk.nodes), disk.nodes, commitDir)
    ensures disk.reliable && disk.listable && parentDir.Some? && parentDir.value in old(disk.nodes) ==> err.None?
  {
    cs := [];
    ghost var before := disk.nodes;
    if parentDir.None? || Lstat(disk.nodes, parentDir.value) == Err(NotExist) {
      return Some(NotExist), cs;
    }
    if Lookup(disk.nodes, parentDir.value) != Some(Dir) {
      return None, cs;
    }
    var dir := parentDir.value;
    var removed := new RemovedFiles(removedFiles);
    ghost var s := Progress(removedFiles, map[]);
    assert Inherited(before, disk.nodes, commitDir, s.copied);
    ghost var names;
    err, cs, names := Walk(disk, dir, dir, commitDir, removed, before, s);
    if err.None? {
      InheritedOwnKept(before, disk.nodes, dir, commitDir, Steps(before, commitDir, s, cs));
      forall c: Path | disk.listable && IsCandidate(before, dir, c) ensures c in cs {
        ChildOnTheWay(before, dir, c);
      }
    }
  }

  // ----- Merging the coverage files of one commit -----

  ghost predicate IsCoverageFile(t: Tree, dir: Path, p: Path) {
    dir <= p && p in t && p != [] && Base(p) == COVERAGE_JSON
  }

  lemma CoverageFilesByName(t: Tree, dir: Path, p: Path)
    ensures IsCoverageFile(t, dir, p) <==> dir <= p && p in t && p != [] && p[|p| - 1] == "coverage-final.json"
  {
  }

  /** The reports at `dir` itself and below the names in `done`; all of them when `complete`. */
  ghost predicate Collected(t: Tree, dir: Path, done: set<Name>, files: seq<Path>, complete: bool) {
    && NoRepeats(files)
    && (forall p :: p in files ==> IsCoverageFile(t, dir, p) && (p == dir || p[|dir|] in done))
    && (complete ==> forall p: Path {:trigger p in files} ::
          IsCoverageFile(t, dir, p) && (p == dir || p[|dir|] in done) ==> p in files)
  }

  lemma CollectOneMore(t: Tree, dir: Path, done: set<Name>, n: Name, files: seq<Path>, names: set<Name>,
                       more: seq<Path>, complete: bool)
    requires Collected(t, dir, done, files, complete) && n !in done
    requires Collected(t, dir + [n], names, more, complete)
    requires complete ==> forall p: Path :: IsCoverageFile(t, dir + [n], p) ==> p in more
    ensures Collected(t, dir, done + {n}, files + more, complete)
  {
    forall p | p in more ensures IsCoverageFile(t, dir, p) && p != dir && p[|dir|] == n && p !in files {
      assert p[|dir|] == (dir + [n])[|dir|];
    }
    forall p: Path | complete && IsCoverageFile(t, dir, p) && p != dir && p[|dir|] == n ensures p in more {
      assert dir + [n] == p[..|dir| + 1];
    }
    forall i, j | 0 <= i < j < |files + more| ensures (files + more)[i] != (files + more)[j] {
      if i < |files| <= j {
        assert more[j - |files|] in more && files[i] in files;
      }
    }
  }

  lemma CollectedAll(t: Tree, dir: Path, done: set<Name>, files: seq<Path>)
    requires WellFormed(t) && Collected(t, dir, done, files, true)
    requires Lookup(t, dir) != Some(Dir) || forall n: Name :: dir + [n] in t ==> n in done
    ensures forall p: Path :: IsCoverageFile(t, dir, p) ==> p in files
  {
    forall p: Path | IsCoverageFile(t, dir, p) ensures p in files {
      if |dir| < |p| {
        if Lookup(t, dir) != Some(Dir) {
          NothingBelow(t, dir, p);
        } else {
          ChildOnTheWay(t, dir, p);
        }
      } else {
        assert p == dir;
      }
    }
  }

  /** Before anything below it is visited a directory contributes itself, if it is called like a report. */
  lemma CollectedSelf(t: Tree, dir: Path, complete: bool)
    requires dir in t
    ensures Collected(t, dir, {}, if dir != [] && Base(dir) == COVERAGE_JSON then [dir] else [], complete)
  {
  }

  /** The walk of `mergeCodeCoverageFiles`: every entry named like a coverage report, each once. */
  method CollectCoverageFiles(disk: Disk, dir: Path) returns (files: seq<Path>, ghost names: set<Name>)
    requires WellFormed(disk.nodes) && dir in disk.nodes
    decreases Subtree(disk.nodes, dir)
    ensures Collected(disk.nodes, dir, names, files, disk.listable)
    ensures disk.listable ==> forall p: Path :: IsCoverageFile(disk.nodes, dir, p) ==> p in files
  {
    names := {};
    files := if dir != [] && Base(dir) == COVERAGE_JSON then [dir] else [];
    CollectedSelf(disk.nodes, dir, disk.listable);
    if disk.nodes[dir] == Dir {
      var entries, err := disk.ReadDir(dir);
      ghost var todo :| ListsAllBut(disk.nodes, dir, entries, todo) && (err.None? ==> todo == {});
      var i := 0;
      while i < |entries|
        invariant i <= |entries|
        invariant names == Names(entries[..i])
        invariant Collected(disk.nodes, dir, names, files, disk.listable)
      {
        NextEntry(disk.nodes, dir, entries, todo, i);
        var n := entries[i].name;
        SubtreeBelow(disk.nodes, dir, n);
        ghost var below;
        var more;
        more, below := CollectCoverageFiles(disk, dir + [n]);
        CollectOneMore(disk.nodes, dir, names, n, files, below, more, disk.listable);
        files := files + more;
        names := names + {n};
        i := i + 1;
      }
      assert entries[..i] == entries;
      assert disk.listable ==> forall n: Name :: dir + [n] in disk.nodes ==> n in names;
    }
    if disk.listable {
      CollectedAll(disk.nodes, dir, names, files);
    }
  }
}
