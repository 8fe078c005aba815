/**
 The commit loop of `MergeAndUpload` in pkg/service/coverage/coverage.go, and the history it computes:
 a test directory of a commit comes from the newest commit that had it, unless a commit in between
 removed it or ran all test files.
 */
module CarryForward {
  import opened Wrappers
  import opened FileSystem
  import opened Coverage

  /** The decoded manifest of a commit directory. */
  datatype Manifest = Manifest(removedFiles: seq<Name>, allFilesExecuted: bool)

  /** The commits of a push, oldest first, and the commit whose coverage was downloaded before them. */
  datatype Push = Push(repoDir: Path, base: Option<Name>, shas: seq<Name>)

  datatype CoverageData = CoverageData(commit: Name, blobLink: string, total: string)

  datatype Failure = Local(error: Error) | External | PostFailed

  /** The directory of commit `k`; index -1 stands for the base. */
  function DirOf(push: Push, k: int): Option<Path>
    requires -1 <= k < |push.shas|
  {
    if k >= 0 then Some(push.repoDir + [push.shas[k]])
    else if push.base.Some? then Some(push.repoDir + [push.base.value])
    else None
  }

  predicate IsName(push: Push, n: Name) {
    n in push.shas || push.base == Some(n)
  }

  ghost predicate Distinct(push: Push) {
    NoRepeats(push.shas) && (push.base.Some? ==> push.base.value !in push.shas)
  }

  /**
   No commit directory holds a directory named after its own or a later commit that is a parent; names of earlier
   commits do no harm.
   */
  ghost predicate NoNamesakes(t: Tree, push: Push) {
    forall j, k :: -1 <= j <= k < |push.shas| - 1 ==> NoNamesakeOf(t, push, j, k)
  }

  predicate NoNamesakeOf(t: Tree, push: Push, j: int, k: int)
    requires -1 <= j <= k < |push.shas|
  {
    DirOf(push, j).Some? && DirOf(push, k).Some? ==>
      Lookup(t, DirOf(push, j).value + [Base(DirOf(push, k).value)]) != Some(Dir)
  }

  function ManifestOf(t: Tree, decode: string -> Option<Manifest>, push: Push, k: nat): Option<Manifest>
    requires k < |push.shas|
  {
    match Lookup(t, push.repoDir + [push.shas[k]] + [MANIFEST_JSON])
    case Some(File(content)) => decode(content)
    case _ => None
  }

  predicate Blocks(m: Option<Manifest>, f: Name) {
    m.None? || m.value.allFilesExecuted || f in m.value.removedFiles
  }

  /** Where in the tree before the push the entry `f` of commit `k` comes from. */
  function Origin(t: Tree, decode: string -> Option<Manifest>, push: Push, k: int, f: Name): Option<Path>
    requires -1 <= k < |push.shas|
    decreases k + 1
  {
    var dir := DirOf(push, k);
    if dir.Some? && dir.value + [f] in t then Some(dir.value + [f])
    else if k == -1 || Blocks(ManifestOf(t, decode, push, k), f) then None
    else
      var o := Origin(t, decode, push, k - 1, f);
      if o.Some? && Lookup(t, o.value) == Some(Dir) then o else None
  }

  /** Commit `j` is the newest one up to `k` that had `f`, and nothing after it stops `f`. */
  ghost predicate NewestWith(t: Tree, decode: string -> Option<Manifest>, push: Push, k: int, f: Name, j: int)
    requires -1 <= j <= k < |push.shas|
  {
    && DirOf(push, j).Some? && DirOf(push, j).value + [f] in t
    && (j < k ==> Lookup(t, DirOf(push, j).value + [f]) == Some(Dir))
    && forall i :: j < i <= k ==>
         DirOf(push, i).value + [f] !in t && !Blocks(ManifestOf(t, decode, push, i), f)
  }

  lemma NewestBefore(t: Tree, decode: string -> Option<Manifest>, push: Push, k: int, f: Name, j: int)
    requires 0 <= k < |push.shas| && -1 <= j < k && DirOf(push, k).value + [f] !in t
    ensures NewestWith(t, decode, push, k, f, j) <==>
              && NewestWith(t, decode, push, k - 1, f, j)
              && !Blocks(ManifestOf(t, decode, push, k), f)
              && Lookup(t, DirOf(push, j).value + [f]) == Some(Dir)
  {
  }

  /** The recursion over the commits says "the newest commit that ran this test wins". */
  lemma {:induction false} OriginIsNewest(t: Tree, decode: string -> Option<Manifest>, push: Push, k: int, f: Name)
    requires -1 <= k < |push.shas|
    ensures forall j :: -1 <= j <= k && NewestWith(t, decode, push, k, f, j) ==>
              Origin(t, decode, push, k, f) == Some(DirOf(push, j).value + [f])
    ensures Origin(t, decode, push, k, f).Some? ==>
              exists j :: -1 <= j <= k && NewestWith(t, decode, push, k, f, j)
    decreases k + 1
  {
    var dir := DirOf(push, k);
    if dir.Some? && dir.value + [f] in t {
      assert NewestWith(t, decode, push, k, f, k);
    } else if k >= 0 {
      OriginIsNewest(t, decode, push, k - 1, f);
      forall j | -1 <= j < k
        ensures NewestWith(t, decode, push, k, f, j) <==>
                  && NewestWith(t, decode, push, k - 1, f, j)
                  && !Blocks(ManifestOf(t, decode, push, k), f)
                  && Lookup(t, DirOf(push, j).value + [f]) == Some(Dir)
      {
        NewestBefore(t, decode, push, k, f, j);
      }
    }
  }

  /** What lies at `rel` below entry `f` of commit `k` once the push has been processed. */
  function Carried(t: Tree, decode: string -> Option<Manifest>, push: Push, k: int, f: Name, rel: Path): Option<Node>
    requires -1 <= k < |push.shas|
  {
    match Origin(t, decode, push, k, f)
    case None => None
    case Some(o) =>
      if DirOf(push, k).Some? && o == DirOf(push, k).value + [f] then Lookup(t, o + rel)
      else NoSymlink(Lookup(t, o + rel))
  }

  function At(dir: Path, f: Name, rel: Path): Path {
    dir + [f] + rel
  }

  /** Commit `k` holds under `f` what the history says. */
  ghost predicate HoldsCarried(t: Tree, now: Tree, decode: string -> Option<Manifest>, push: Push, k: int, f: Name)
    requires -1 <= k < |push.shas|
  {
    DirOf(push, k).Some? ==>
      forall rel: Path {:trigger At(DirOf(push, k).value, f, rel)} ::
        Lookup(now, At(DirOf(push, k).value, f, rel)) == Carried(t, decode, push, k, f, rel)
  }

  ghost predicate SameOutsideDir(before: Tree, now: Tree, dir: Path) {
    forall p: Path {:trigger Lookup(now, p)} :: dir <= p || Lookup(now, p) == Lookup(before, p)
  }

  lemma OriginShape(t: Tree, decode: string -> Option<Manifest>, push: Push, k: int, f: Name)
    requires -1 <= k < |push.shas| && Origin(t, decode, push, k, f).Some?
    ensures exists j :: -1 <= j <= k && DirOf(push, j).Some?
              && Origin(t, decode, push, k, f) == Some(DirOf(push, j).value + [f])
              && DirOf(push, j).value + [f] in t
  {
    OriginIsNewest(t, decode, push, k, f);
  }

  lemma SiblingsApart(push: Push, j: int, k: int)
    requires Distinct(push) && -1 <= j < k < |push.shas| && DirOf(push, j).Some?
    ensures Separate(DirOf(push, j).value, DirOf(push, k).value)
    ensures DirOf(push, j) != DirOf(push, k)
  {
    var a, b := DirOf(push, j).value, DirOf(push, k).value;
    assert a[|push.repoDir|] != b[|push.repoDir|];
  }

  /** Only directories are on the way to a sibling of a directory. */
  lemma SiblingReachable(t: Tree, push: Push, j: int, k: int)
    requires WellFormed(t) && -1 <= j < k < |push.shas| && DirOf(push, j).Some?
    requires Lookup(t, DirOf(push, k).value) == Some(Dir)
    ensures Lstat(t, DirOf(push, j).value) != Err(NotADirectory)
  {
    var p, q := DirOf(push, j).value, DirOf(push, k).value;
    forall i | 0 <= i < |p| ensures Lookup(t, p[..i]) == Some(Dir) {
      assert p[..i] == q[..i];
      AncestorIsDir(t, q[..i], q);
    }
  }

  /** The name of the parent is not among the directories inherited so far. */
  lemma NoNamesakeInParent(t: Tree, now: Tree, decode: string -> Option<Manifest>, push: Push, k: int)
    requires -1 <= k < |push.shas| - 1 && DirOf(push, k).Some? && NoNamesakes(t, push)
    requires var n := Base(DirOf(push, k).value);
             || HoldsCarried(t, now, decode, push, k, n)
             || Lookup(now, DirOf(push, k).value + [n]) != Some(Dir)
    ensures !HoldsNamesake(now, DirOf(push, k).value)
  {
    var dir := DirOf(push, k).value;
    var n := Base(dir);
    forall j | -1 <= j <= k && DirOf(push, j).Some? ensures Lookup(t, DirOf(push, j).value + [n] + []) != Some(Dir) {
      assert NoNamesakeOf(t, push, j, k);
      assert DirOf(push, j).value + [n] + [] == DirOf(push, j).value + [n];
    }
    if HoldsNamesake(now, dir) {
      assert At(dir, n, []) == dir + [n];
      assert Carried(t, decode, push, k, n, []) == Some(Dir);
      OriginShape(t, decode, push, k, n);
    }
  }

  /** One commit: inheriting from a parent that holds its history extends the history by one. */
  lemma CarryStep(t: Tree, before: Tree, now: Tree, decode: string -> Option<Manifest>, push: Push, k: nat,
                  cs: seq<Path>, f: Name)
    requires k < |push.shas| && Distinct(push) && WellFormed(before)
    requires ManifestOf(t, decode, push, k).Some? && !ManifestOf(t, decode, push, k).value.allFilesExecuted
    requires DirOf(push, k - 1).Some? && Lookup(before, DirOf(push, k - 1).value) == Some(Dir)
    requires !HoldsNamesake(before, DirOf(push, k - 1).value)
    requires WalkOrder(before, DirOf(push, k - 1).value, cs) && [] !in cs
    requires Inherited(before, now, DirOf(push, k).value,
                       Steps(before, DirOf(push, k).value,
                             Progress(ManifestOf(t, decode, push, k).value.removedFiles, map[]), cs).copied)
    requires HoldsCarried(t, before, decode, push, k - 1, f)
    requires forall p: Path :: DirOf(push, k).value <= p ==> Lookup(before, p) == Lookup(t, p)
    ensures HoldsCarried(t, now, decode, push, k, f)
  {
    var parent, dir := DirOf(push, k - 1).value, DirOf(push, k).value;
    var removed := ManifestOf(t, decode, push, k).value.removedFiles;
    var copied := Steps(before, dir, Progress(removed, map[]), cs).copied;
    InheritedAsIntended(before, parent, dir, removed, cs, f);
    assert Lookup(before, dir + [f]) == Lookup(t, dir + [f]);
    SiblingsApart(push, k - 1, k);
    assert At(parent, f, []) == parent + [f];
    var o := Origin(t, decode, push, k - 1, f);
    assert o.Some? ==> o.value + [] == o.value;
    forall rel: Path
      ensures Lookup(now, At(dir, f, rel)) == Carried(t, decode, push, k, f, rel)
    {
      var p := At(dir, f, rel);
      assert p[|dir|] == f && p[|dir| + 1..] == rel && dir < p;
      assert Lookup(now, p) == InheritedAt(before, dir, copied, p);
      assert Lookup(before, p) == Lookup(t, p);
      if f in copied {
        assert parent + [f] + rel == At(parent, f, rel);
        OriginIsNotHere(t, decode, push, k, f);
      } else if dir + [f] !in t {
        NothingBelow(before, dir + [f], p);
      }
    }
  }

  lemma OriginIsNotHere(t: Tree, decode: string -> Option<Manifest>, push: Push, k: nat, f: Name)
    requires k < |push.shas| && Distinct(push)
    requires Origin(t, decode, push, k - 1, f).Some?
    ensures Origin(t, decode, push, k - 1, f).value != DirOf(push, k).value + [f]
  {
    OriginShape(t, decode, push, k - 1, f);
    var j :| -1 <= j <= k - 1 && DirOf(push, j).Some?
      && Origin(t, decode, push, k - 1, f) == Some(DirOf(push, j).value + [f])
      && DirOf(push, j).value + [f] in t;
    SiblingsApart(push, j, k);
    assert (DirOf(push, j).value + [f])[|push.repoDir|] != (DirOf(push, k).value + [f])[|push.repoDir|];
  }

  /** A commit that ran all its tests, or whose parent is not a directory, has only what it brought. */
  lemma CarryNothing(t: Tree, before: Tree, decode: string -> Option<Manifest>, push: Push, k: nat, f: Name)
    requires k < |push.shas| && WellFormed(before) && ManifestOf(t, decode, push, k).Some?
    requires ManifestOf(t, decode, push, k).value.allFilesExecuted
             || (DirOf(push, k - 1).Some? && Lookup(before, DirOf(push, k - 1).value) != Some(Dir)
                 && HoldsCarried(t, before, decode, push, k - 1, f))
    requires forall p: Path :: DirOf(push, k).value <= p ==> Lookup(before, p) == Lookup(t, p)
    ensures HoldsCarried(t, before, decode, push, k, f)
  {
    var dir := DirOf(push, k).value;
    if !ManifestOf(t, decode, push, k).value.allFilesExecuted {
      var parent := DirOf(push, k - 1).value;
      NothingBelow(before, parent, At(parent, f, []));
      var o := Origin(t, decode, push, k - 1, f);
      assert o.Some? ==> o.value + [] == o.value;
    }
    forall rel: Path ensures Lookup(before, At(dir, f, rel)) == Carried(t, decode, push, k, f, rel) {
      var p := At(dir, f, rel);
      assert Lookup(before, p) == Lookup(t, p);
      assert Lookup(before, dir + [f]) == Lookup(t, dir + [f]);
      if dir + [f] !in t {
        NothingBelow(before, dir + [f], p);
      }
    }
  }

  /** The directories of other commits keep what they hold. */
  lemma CarriedFrame(t: Tree, before: Tree, now: Tree, decode: string -> Option<Manifest>, push: Push, j: int,
                     k: nat, f: Name)
    requires -1 <= j < k < |push.shas| && Distinct(push)
    requires HoldsCarried(t, before, decode, push, j, f)
    requires SameOutsideDir(before, now, DirOf(push, k).value)
    ensures HoldsCarried(t, now, decode, push, j, f)
  {
    if DirOf(push, j).Some? {
      var dir := DirOf(push, j).value;
      SiblingsApart(push, j, k);
      forall rel: Path ensures Lookup(now, At(dir, f, rel)) == Carried(t, decode, push, j, f, rel) {
        SeparateBelow(dir, DirOf(push, k).value, At(dir, f, rel));
        assert Lookup(now, At(dir, f, rel)) == Lookup(before, At(dir, f, rel));
      }
    }
  }

  /** What the push needs to go through on a machine where nothing fails by itself. */
  ghost predicate Ready(t: Tree, decode: string -> Option<Manifest>, push: Push) {
    && (forall k :: 0 <= k < |push.shas| ==> ManifestOf(t, decode, push, k).Some?)
    && (forall k :: 0 <= k < |push.shas| ==>
          exists p :: IsCoverageFile(t, push.repoDir + [push.shas[k]], p))
    && (|push.shas| > 0 && !ManifestOf(t, decode, push, 0).value.allFilesExecuted ==>
          push.base.Some? && push.repoDir + [push.base.value] in t)
    && (forall x :: IsName(push, x) ==> Lookup(t, push.repoDir + [x] + [MERGED_JSON]) != Some(Dir))
  }

  predicate IsFile(n: Option<Node>) {
    n.Some? && n.value.File?
  }

  /** The state before commit `i`: the commits before it hold their history, the others are as they were. */
  ghost predicate Processed(t: Tree, now: Tree, decode: string -> Option<Manifest>, push: Push, i: nat, listable: bool)
    requires i <= |push.shas|
  {
    && WellFormed(now)
    && (forall p: Path {:trigger Lookup(now, p)} ::
          (exists j :: 0 <= j < i && DirOf(push, j).value <= p) || Lookup(now, p) == Lookup(t, p))
    && (forall j :: 0 <= j < i ==> IsFile(Lookup(now, DirOf(push, j).value + [MERGED_JSON])))
    && (listable && NoNamesakes(t, push) ==>
          forall j, f :: -1 <= j < i && f != MERGED_JSON ==> HoldsCarried(t, now, decode, push, j, f))
  }

  // ----- The history in terms of the tree before the push -----

  /** The directory of commit `j`, or of the base for -1. */
  function Place(push: Push, j: int): Path
    requires -1 <= j < |push.shas| && (j >= 0 || push.base.Some?)
  {
    push.repoDir + [if j >= 0 then push.shas[j] else push.base.value]
  }

  /** Commit `i` has no `f` of its own, and its manifest neither removes it nor says that all test files were run. */
  ghost predicate PassesOn(t: Tree, decode: string -> Option<Manifest>, push: Push, i: nat, f: Name)
    requires i < |push.shas|
  {
    && Place(push, i) + [f] !in t
    && exists content, m ::
         && Lookup(t, Place(push, i) + ["manifest.json"]) == Some(File(content)) && decode(content) == Some(m)
         && !m.allFilesExecuted && f !in m.removedFiles
  }

  /** Commit `j` had `f`, a directory if it is to go further, and every later one up to `k` passes it on. */
  ghost predicate ComesFrom(t: Tree, decode: string -> Option<Manifest>, push: Push, k: nat, f: Name, j: int)
    requires k < |push.shas|
  {
    && -1 <= j <= k && (j >= 0 || push.base.Some?)
    && Place(push, j) + [f] in t && (j < k ==> t[Place(push, j) + [f]] == Dir)
    && forall i :: j < i <= k ==> PassesOn(t, decode, push, i, f)
  }

  lemma PassesOnIs(t: Tree, decode: string -> Option<Manifest>, push: Push, i: nat, f: Name)
    requires i < |push.shas|
    ensures PassesOn(t, decode, push, i, f) <==>
              DirOf(push, i).value + [f] !in t && !Blocks(ManifestOf(t, decode, push, i), f)
  {
  }

  lemma ComesFromIsNewest(t: Tree, decode: string -> Option<Manifest>, push: Push, k: nat, f: Name, j: int)
    requires -1 <= j <= k < |push.shas|
    ensures ComesFrom(t, decode, push, k, f, j) <==> NewestWith(t, decode, push, k, f, j)
  {
    forall i | j < i <= k
      ensures PassesOn(t, decode, push, i, f) <==>
                DirOf(push, i).value + [f] !in t && !Blocks(ManifestOf(t, decode, push, i), f)
    {
      PassesOnIs(t, decode, push, i, f);
    }
  }

  /**
   The newest commit that has a test directory wins: once `n` commits are processed, each of them has under every name
   but the merged report's exactly what the commit it comes from had there before the push, without symbolic links if
   that is another commit, and nothing if it comes from none.
   */
  lemma NewestCommitWins(t: Tree, now: Tree, decode: string -> Option<Manifest>, push: Push, n: nat, k: nat, f: Name,
                         rel: Path)
    requires n <= |push.shas| && Processed(t, now, decode, push, n, true) && NoNamesakes(t, push)
    requires k < n && f != "coverage-merged.json"
    ensures forall j :: ComesFrom(t, decode, push, k, f, j) ==>
              var was := Lookup(t, Place(push, j) + [f] + rel);
              Lookup(now, Place(push, k) + [f] + rel)
              == if j < k && was.Some? && was.value.Symlink? then None else was
    ensures (forall j :: !ComesFrom(t, decode, push, k, f, j)) ==> Lookup(now, Place(push, k) + [f] + rel) == None
  {
    OriginIsNewest(t, decode, push, k, f);
    assert HoldsCarried(t, now, decode, push, k, f);
    assert Lookup(now, At(DirOf(push, k).value, f, rel)) == Carried(t, decode, push, k, f, rel);
    forall j | -1 <= j <= k ensures ComesFrom(t, decode, push, k, f, j) <==> NewestWith(t, decode, push, k, f, j) {
      ComesFromIsNewest(t, decode, push, k, f, j);
    }
    forall j | ComesFrom(t, decode, push, k, f, j)
      ensures var was := Lookup(t, Place(push, j) + [f] + rel);
              Carried(t, decode, push, k, f, rel) == if j < k && was.Some? && was.value.Symlink? then None else was
    {
      assert Place(push, j) + [f] == DirOf(push, j).value + [f];
    }
  }

  /** The merged report of every processed commit is a file of its own. */
  lemma ReportsWritten(t: Tree, now: Tree, decode: string -> Option<Manifest>, push: Push, n: nat, k: nat,
                       listable: bool)
    requires n <= |push.shas| && Processed(t, now, decode, push, n, listable) && k < n
    ensures var report := Lookup(now, Place(push, k) + ["coverage-merged.json"]); report.Some? && report.value.File?
  {
    assert IsFile(Lookup(now, DirOf(push, k).value + [MERGED_JSON]));
  }

  lemma ProcessedStart(t: Tree, decode: string -> Option<Manifest>, push: Push, listable: bool)
    requires WellFormed(t)
    ensures Processed(t, t, decode, push, 0, listable)
  {
    forall f ensures HoldsCarried(t, t, decode, push, -1, f) {
      if push.base.Some? {
        var dir := push.repoDir + [push.base.value];
        forall rel: Path ensures Lookup(t, At(dir, f, rel)) == Carried(t, decode, push, -1, f, rel) {
          if dir + [f] !in t {
            NothingBelow(t, dir + [f], At(dir, f, rel));
          }
        }
      }
    }
  }

  lemma NotYetTouched(t: Tree, now: Tree, decode: string -> Option<Manifest>, push: Push, k: nat, listable: bool)
    requires k < |push.shas| && Distinct(push) && Processed(t, now, decode, push, k, listable)
    ensures forall p: Path :: DirOf(push, k).value <= p ==> Lookup(now, p) == Lookup(t, p)
    ensures ManifestOf(now, decode, push, k) == ManifestOf(t, decode, push, k)
  {
    var dir := DirOf(push, k).value;
    forall p: Path | dir <= p ensures Lookup(now, p) == Lookup(t, p) {
      if j :| 0 <= j < k && DirOf(push, j).value <= p {
        SiblingsApart(push, j, k);
      }
    }
    assert dir <= dir + [MANIFEST_JSON];
  }

  lemma BaseUntouched(t: Tree, now: Tree, decode: string -> Option<Manifest>, push: Push, i: nat, listable: bool,
                      p: Path)
    requires i <= |push.shas| && Distinct(push) && Processed(t, now, decode, push, i, listable)
    requires DirOf(push, -1).Some? && DirOf(push, -1).value <= p
    ensures Lookup(now, p) == Lookup(t, p)
  {
    if j :| 0 <= j < i && DirOf(push, j).value <= p {
      SiblingsApart(push, -1, j);
    }
  }

  /** The report that was merged into a commit's directory is no directory. */
  lemma ReportIsNoNamesake(t: Tree, now: Tree, decode: string -> Option<Manifest>, push: Push, k: nat, listable: bool)
    requires 0 < k < |push.shas| && Processed(t, now, decode, push, k, listable)
    requires Base(DirOf(push, k - 1).value) == MERGED_JSON
    ensures !HoldsNamesake(now, DirOf(push, k - 1).value)
  {
    assert IsFile(Lookup(now, DirOf(push, k - 1).value + [MERGED_JSON]));
  }

  lemma BaseIsNoNamesake(t: Tree, now: Tree, decode: string -> Option<Manifest>, push: Push, listable: bool)
    requires |push.shas| > 0 && Distinct(push) && Processed(t, now, decode, push, 0, listable)
    requires NoNamesakes(t, push) && DirOf(push, -1).Some?
    ensures !HoldsNamesake(now, DirOf(push, -1).value)
  {
    var dir := DirOf(push, -1).value;
    assert NoNamesakeOf(t, push, -1, -1);
    BaseUntouched(t, now, decode, push, 0, listable, dir + [Base(dir)]);
  }

  lemma NamesakesKeptOut(t: Tree, now: Tree, decode: string -> Option<Manifest>, push: Push, k: nat, listable: bool)
    requires k < |push.shas| && Distinct(push) && Processed(t, now, decode, push, k, listable)
    requires listable && NoNamesakes(t, push) && DirOf(push, k - 1).Some?
    ensures !HoldsNamesake(now, DirOf(push, k - 1).value)
  {
    var n := Base(DirOf(push, k - 1).value);
    if k == 0 {
      BaseIsNoNamesake(t, now, decode, push, listable);
    } else if n == MERGED_JSON {
      ReportIsNoNamesake(t, now, decode, push, k, listable);
    } else {
      HistoryHeld(t, now, decode, push, k, listable, n);
      NoNamesakeInParent(t, now, decode, push, k - 1);
    }
  }

  lemma HistoryHeld(t: Tree, now: Tree, decode: string -> Option<Manifest>, push: Push, k: nat, listable: bool, f: Name)
    requires k < |push.shas| && Processed(t, now, decode, push, k, listable)
    requires listable && NoNamesakes(t, push) && f != MERGED_JSON
    ensures HoldsCarried(t, now, decode, push, k - 1, f)
  {
  }

  /** After commit `k` inherited and its merged report was written. */
  lemma ProcessedStep(t: Tree, before: Tree, inherited: Tree, report: string, decode: string -> Option<Manifest>,
                      push: Push, k: nat, listable: bool)
    requires k < |push.shas| && Distinct(push) && Processed(t, before, decode, push, k, listable)
    requires SameOutsideDir(before, inherited, DirOf(push, k).value)
    requires listable && NoNamesakes(t, push) ==>
               forall f :: f != MERGED_JSON ==> HoldsCarried(t, inherited, decode, push, k, f)
    requires WellFormed(inherited[DirOf(push, k).value + [MERGED_JSON] := File(report)])
    ensures Processed(t, inherited[DirOf(push, k).value + [MERGED_JSON] := File(report)], decode, push, k + 1, listable)
  {
    var dir := DirOf(push, k).value;
    var now := inherited[dir + [MERGED_JSON] := File(report)];
    ReportOnlyInside(before, inherited, dir, report);
    OthersKept(t, before, now, decode, push, k, listable);
    if listable && NoNamesakes(t, push) {
      forall j, f | -1 <= j < k + 1 && f != MERGED_JSON ensures HoldsCarried(t, now, decode, push, j, f) {
        if j < k {
          CarriedFrame(t, before, now, decode, push, j, k, f);
        } else {
          ReportApart(t, inherited, report, decode, push, k, f);
        }
      }
    }
  }

  lemma ReportOnlyInside(before: Tree, inherited: Tree, dir: Path, report: string)
    requires SameOutsideDir(before, inherited, dir)
    ensures SameOutsideDir(before, inherited[dir + [MERGED_JSON] := File(report)], dir)
  {
    var now := inherited[dir + [MERGED_JSON] := File(report)];
    forall p: Path ensures dir <= p || Lookup(now, p) == Lookup(before, p) {
      assert dir <= p || Lookup(inherited, p) == Lookup(before, p);
    }
  }

  lemma ReportApart(t: Tree, inherited: Tree, report: string, decode: string -> Option<Manifest>, push: Push,
                    k: nat, f: Name)
    requires k < |push.shas| && f != MERGED_JSON && HoldsCarried(t, inherited, decode, push, k, f)
    ensures HoldsCarried(t, inherited[DirOf(push, k).value + [MERGED_JSON] := File(report)], decode, push, k, f)
  {
    var dir := DirOf(push, k).value;
    var now := inherited[dir + [MERGED_JSON] := File(report)];
    forall rel: Path ensures Lookup(now, At(dir, f, rel)) == Carried(t, decode, push, k, f, rel) {
      assert At(dir, f, rel)[|dir|] == f;
      assert Lookup(inherited, At(dir, f, rel)) == Carried(t, decode, push, k, f, rel);
    }
  }

  lemma OthersKept(t: Tree, before: Tree, now: Tree, decode: string -> Option<Manifest>, push: Push, k: nat,
                   listable: bool)
    requires k < |push.shas| && Distinct(push) && Processed(t, before, decode, push, k, listable)
    requires SameOutsideDir(before, now, DirOf(push, k).value)
    ensures forall p: Path {:trigger Lookup(now, p)} ::
              (exists j :: 0 <= j < k + 1 && DirOf(push, j).value <= p) || Lookup(now, p) == Lookup(t, p)
    ensures forall j :: 0 <= j < k ==> IsFile(Lookup(now, DirOf(push, j).value + [MERGED_JSON]))
  {
    var dir := DirOf(push, k).value;
    forall p: Path
      ensures (exists j :: 0 <= j < k + 1 && DirOf(push, j).value <= p) || Lookup(now, p) == Lookup(t, p)
    {
      assert dir <= p || Lookup(now, p) == Lookup(before, p);
      assert (exists j :: 0 <= j < k && DirOf(push, j).value <= p) || Lookup(before, p) == Lookup(t, p);
    }
    forall j | 0 <= j < k ensures IsFile(Lookup(now, DirOf(push, j).value + [MERGED_JSON])) {
      var p := DirOf(push, j).value + [MERGED_JSON];
      SiblingsApart(push, j, k);
      SeparateBelow(DirOf(push, j).value, dir, p);
      assert Lookup(now, p) == Lookup(before, p);
    }
  }

  /** The parts of the service outside this model: the merge command, the blob store and the API. */
  class CoverageService {
    const disk: Disk
    const decode: string -> Option<Manifest>
    /** Whether the merge command, every upload and the API succeed. */
    const servicesUp: bool
    /** The bodies posted to the API, in order. */
    var posted: seq<seq<CoverageData>>

    constructor (disk: Disk, decode: string -> Option<Manifest>, servicesUp: bool)
      ensures this.disk == disk && this.decode == decode && this.servicesUp == servicesUp && posted == []
    {
      this.disk := disk;
      this.decode := decode;
      this.servicesUp := servicesUp;
      posted := [];
    }

    method Fails() returns (fails: bool)
      ensures servicesUp ==> !fails
    {
      fails := *;
      if servicesUp {
        fails := false;
      }
    }

    /** `mergeCodeCoverageFiles`: collects the reports and has a command merge them into one file. */
    method MergeCoverageFiles(commitDir: Path) returns (err: Option<Failure>, report: string)
      requires WellFormed(disk.nodes) && commitDir != []
      modifies disk
      ensures WellFormed(disk.nodes)
      ensures err.None? && commitDir in old(disk.nodes) ==>
                disk.nodes == old(disk.nodes)[commitDir + [MERGED_JSON] := File(report)]
      ensures err != Some(PostFailed)
      ensures commitDir !in old(disk.nodes) ==> err.None?
      ensures err.None? && commitDir !in old(disk.nodes) ==> disk.nodes == old(disk.nodes)
      ensures SameOutsideDir(old(disk.nodes), disk.nodes, commitDir)
      ensures err.None? && commitDir in old(disk.nodes) && disk.listable ==>
                exists p :: IsCoverageFile(old(disk.nodes), commitDir, p)
      ensures servicesUp && disk.listable && CanMerge(old(disk.nodes), commitDir) ==> err.None?
    {
      report := *;
      if commitDir !in disk.nodes {
        return None, report;
      }
      var coverageFiles, _ := CollectCoverageFiles(disk, commitDir);
      if |coverageFiles| < 1 {
        return Some(Local(NoCoverage)), report;
      }
      assert coverageFiles[0] in coverageFiles;
      var merged := commitDir + [MERGED_JSON];
      if disk.nodes[commitDir] != Dir || Lookup(disk.nodes, merged) == Some(Dir) {
        return Some(External), report;
      }
      var fails := Fails();
      if fails {
        return Some(External), report;
      }
      assert Parent(merged) == commitDir;
      OverwriteKeepsWellFormed(disk.nodes, merged, File(report));
      disk.nodes := disk.nodes[merged := File(report)];
      return None, report;
    }

    /** The step before merging: unless all files were executed the commit inherits from the one before. */
    method Inherit(push: Push, k: nat, commitDir: Path, manifest: Manifest, ghost t: Tree) returns (err: Option<Error>)
      requires k < |push.shas| && Distinct(push) && Processed(t, disk.nodes, decode, push, k, disk.listable)
      requires DirOf(push, k) == Some(commitDir) && Lookup(disk.nodes, commitDir) == Some(Dir)
      requires ManifestOf(t, decode, push, k) == Some(manifest)
      modifies disk
      ensures err.None? ==> WellFormed(disk.nodes) && Lookup(disk.nodes, commitDir) == Some(Dir)
      ensures SameOutsideDir(old(disk.nodes), disk.nodes, commitDir)
      ensures err.None? && disk.listable && NoNamesakes(t, push) ==>
                && (forall f :: f != MERGED_JSON ==> HoldsCarried(t, disk.nodes, decode, push, k, f))
                && (Ready(t, decode, push) ==> CanMerge(disk.nodes, commitDir))
      ensures disk.reliable && disk.listable && Ready(t, decode, push) ==> err.None?
    {
      ghost var before := disk.nodes;
      if manifest.allFilesExecuted {
        CommitComplete(t, before, decode, push, k, disk.listable);
        return None;
      }
      if DirOf(push, k - 1).Some? {
        SiblingsApart(push, k - 1, k);
        SiblingReachable(before, push, k - 1, k);
      }
      ParentReady(t, before, decode, push, k, disk.listable);
      ghost var cs;
      err, cs := CopyFromParentCommitDir(disk, DirOf(push, k - 1), commitDir, manifest.removedFiles);
      if err.None? {
        CommitInherited(t, before, disk.nodes, decode, push, k, cs, disk.listable);
      }
    }

    /** Everything done for one commit up to its entry in the payload. */
    method ProcessCommit(push: Push, k: nat, ghost t: Tree) returns (r: Result<CoverageData, Failure>)
      requires k < |push.shas| && Distinct(push) && Processed(t, disk.nodes, decode, push, k, disk.listable)
      modifies disk
      ensures r.Ok? ==> r.value.commit == push.shas[k]
                        && Processed(t, disk.nodes, decode, push, k + 1, disk.listable)
      ensures r != Err(PostFailed)
      ensures SameOutsideDir(old(disk.nodes), disk.nodes, DirOf(push, k).value)
      ensures servicesUp && disk.reliable && disk.listable && Ready(t, decode, push) && NoNamesakes(t, push) ==> r.Ok?
    {
      var before := disk.nodes;
      var commitDir := push.repoDir + [push.shas[k]];
      NotYetTouched(t, before, decode, push, k, disk.listable);
      var manifest := ManifestOf(disk.nodes, decode, push, k);
      if manifest.None? {
        return Err(Local(NotExist));
      }
      AncestorIsDir(before, commitDir, commitDir + [MANIFEST_JSON]);
      var err := Inherit(push, k, commitDir, manifest.value, t);
      if err.Some? {
        return Err(Local(err.value));
      }
      ghost var inherited := disk.nodes;
      var mergeErr, report := MergeCoverageFiles(commitDir);
      if mergeErr.Some? {
        return Err(mergeErr.value);
      }
      assert disk.nodes == inherited[commitDir + [MERGED_JSON] := File(report)];
      ProcessedStep(t, before, inherited, report, decode, push, k, disk.listable);
      var uploadFails := Fails();
      if uploadFails {
        return Err(External);
      }
      var blobLink: string, total: string := *, *;
      return Ok(CoverageData(push.shas[k], blobLink, total));
    }

    /**
     The commit loop.  An entry is posted for each commit in order, all in one body, once the last
     commit has been processed; any failure before that posts nothing.
     */
    method MergeAndUpload(push: Push) returns (err: Option<Failure>)
      requires WellFormed(disk.nodes) && Distinct(push)
      modifies disk, this`posted
      ensures err.None? || err == Some(PostFailed) ==>
                && |posted| == |old(posted)| + 1 && posted[..|old(posted)|] == old(posted)
                && Commits(posted[|old(posted)|]) == push.shas
                && |posted[|old(posted)|]| == |push.shas|
                && (forall i :: 0 <= i < |push.shas| ==> posted[|old(posted)|][i].commit == push.shas[i])
                && Processed(old(disk.nodes), disk.nodes, decode, push, |push.shas|, disk.listable)
      ensures err.Some? && err != Some(PostFailed) ==> posted == old(posted)
      ensures forall p: Path :: (forall k :: 0 <= k < |push.shas| ==> !(DirOf(push, k).value <= p)) ==>
                Lookup(disk.nodes, p) == Lookup(old(disk.nodes), p)
      ensures (servicesUp && disk.reliable && disk.listable
               && Ready(old(disk.nodes), decode, push) && NoNamesakes(old(disk.nodes), push)) ==> err.None?
    {
      ghost var t := disk.nodes;
      ProcessedStart(t, decode, push, disk.listable);
      var coveragePayload: seq<CoverageData> := [];
      var k := 0;
      while k < |push.shas|
        invariant k <= |push.shas| && posted == old(posted)
        invariant Processed(t, disk.nodes, decode, push, k, disk.listable)
        invariant Commits(coveragePayload) == push.shas[..k]
      {
        ghost var before := disk.nodes;
        var entry := ProcessCommit(push, k, t);
        if entry.Err? {
          forall p: Path | forall j :: 0 <= j < |push.shas| ==> !(DirOf(push, j).value <= p)
            ensures Lookup(disk.nodes, p) == Lookup(t, p)
          {
            assert DirOf(push, k).value <= p || Lookup(disk.nodes, p) == Lookup(before, p);
          }
          return Some(entry.error);
        }
        assert Commits(coveragePayload + [entry.value]) == Commits(coveragePayload) + [push.shas[k]];
        coveragePayload := coveragePayload + [entry.value];
        k := k + 1;
      }
      assert push.shas[..k] == push.shas;
      CommitsInOrder(coveragePayload);
      posted := posted + [coveragePayload];
      var postFails := Fails();
      return if postFails then Some(PostFailed) else None;
    }
  }

  function Commits(payload: seq<CoverageData>): seq<Name> {
    seq(|payload|, i requires 0 <= i < |payload| => payload[i].commit)
  }

  lemma CommitsInOrder(payload: seq<CoverageData>)
    ensures |Commits(payload)| == |payload|
    ensures forall i :: 0 <= i < |payload| ==> Commits(payload)[i] == payload[i].commit
  {
  }

  ghost predicate CanMerge(t: Tree, commitDir: Path) {
    && Lookup(t, commitDir) == Some(Dir)
    && Lookup(t, commitDir + [MERGED_JSON]) != Some(Dir)
    && exists p :: IsCoverageFile(t, commitDir, p)
  }

  lemma CommitInherited(t: Tree, before: Tree, after: Tree, decode: string -> Option<Manifest>, push: Push, k: nat,
                        cs: seq<Path>, listable: bool)
    requires k < |push.shas| && Distinct(push) && Processed(t, before, decode, push, k, listable)
    requires ManifestOf(t, decode, push, k).Some? && !ManifestOf(t, decode, push, k).value.allFilesExecuted
    requires Lookup(before, DirOf(push, k).value) == Some(Dir) && DirOf(push, k - 1).Some?
    requires InheritsFrom(before, after, DirOf(push, k - 1).value, DirOf(push, k).value,
                          ManifestOf(t, decode, push, k).value.removedFiles, cs, listable)
    requires OwnKept(before, after, DirOf(push, k).value)
    ensures SameOutsideDir(before, after, DirOf(push, k).value)
    ensures Lookup(after, DirOf(push, k).value) == Some(Dir)
    ensures listable && NoNamesakes(t, push) ==>
              forall f :: f != MERGED_JSON ==> HoldsCarried(t, after, decode, push, k, f)
    ensures listable && NoNamesakes(t, push) && Ready(t, decode, push) ==> CanMerge(after, DirOf(push, k).value)
  {
    var parent, dir := DirOf(push, k - 1).value, DirOf(push, k).value;
    assert SameOutsideDir(before, after, dir);
    assert Lookup(after, dir) == Lookup(before, dir);
    if listable && NoNamesakes(t, push) {
      NotYetTouched(t, before, decode, push, k, listable);
      NamesakesKeptOut(t, before, decode, push, k, listable);
      forall f | f != MERGED_JSON ensures HoldsCarried(t, after, decode, push, k, f) {
        if Lookup(before, parent) == Some(Dir) {
          CarryStep(t, before, after, decode, push, k, cs, f);
        } else {
          CarryNothing(t, before, decode, push, k, f);
        }
      }
      if Ready(t, decode, push) {
        OwnReport(t, before, after, decode, push, k);
        MergedStaysFree(t, before, after, decode, push, k, cs, listable);
      }
    }
  }

  lemma OwnReport(t: Tree, before: Tree, after: Tree, decode: string -> Option<Manifest>, push: Push, k: nat)
    requires k < |push.shas| && Ready(t, decode, push) && WellFormed(before)
    requires forall p: Path :: DirOf(push, k).value <= p ==> Lookup(before, p) == Lookup(t, p)
    requires OwnKept(before, after, DirOf(push, k).value)
    ensures exists p :: IsCoverageFile(after, DirOf(push, k).value, p)
    ensures Lookup(after, DirOf(push, k).value) == Lookup(before, DirOf(push, k).value)
  {
    var dir := DirOf(push, k).value;
    var p :| IsCoverageFile(t, dir, p);
    assert Lookup(before, p) == Lookup(t, p);
    if dir < p {
      ChildOnTheWay(before, dir, p);
    }
    assert Lookup(after, p) == Lookup(before, p);
    assert IsCoverageFile(after, dir, p);
  }

  lemma MergedStaysFree(t: Tree, before: Tree, after: Tree, decode: string -> Option<Manifest>, push: Push, k: nat,
                        cs: seq<Path>, listable: bool)
    requires k < |push.shas| && Distinct(push) && Processed(t, before, decode, push, k, listable)
    requires ManifestOf(t, decode, push, k).Some? && DirOf(push, k - 1).Some? && Ready(t, decode, push)
    requires !HoldsNamesake(before, DirOf(push, k - 1).value)
    requires forall p: Path :: DirOf(push, k).value <= p ==> Lookup(before, p) == Lookup(t, p)
    requires InheritsFrom(before, after, DirOf(push, k - 1).value, DirOf(push, k).value,
                          ManifestOf(t, decode, push, k).value.removedFiles, cs, true)
    ensures Lookup(after, DirOf(push, k).value + [MERGED_JSON]) != Some(Dir)
  {
    var parent, dir := DirOf(push, k - 1).value, DirOf(push, k).value;
    var p := dir + [MERGED_JSON];
    assert IsName(push, push.shas[k]) && Lookup(before, p) == Lookup(t, p);
    if Lookup(before, parent) == Some(Dir) {
      var removed := ManifestOf(t, decode, push, k).value.removedFiles;
      InheritedAsIntended(before, parent, dir, removed, cs, MERGED_JSON);
      assert Lookup(after, p) == InheritedAt(before, dir, Steps(before, dir, Progress(removed, map[]), cs).copied, p);
      if k == 0 {
        BaseUntouched(t, before, decode, push, k, listable, parent + [MERGED_JSON]);
        assert IsName(push, push.base.value);
      } else {
        assert IsFile(Lookup(before, parent + [MERGED_JSON]));
      }
    }
  }

  lemma CommitComplete(t: Tree, before: Tree, decode: string -> Option<Manifest>, push: Push, k: nat, listable: bool)
    requires k < |push.shas| && Distinct(push) && Processed(t, before, decode, push, k, listable)
    requires ManifestOf(t, decode, push, k).Some? && ManifestOf(t, decode, push, k).value.allFilesExecuted
    requires Lookup(before, DirOf(push, k).value) == Some(Dir)
    ensures forall f :: HoldsCarried(t, before, decode, push, k, f)
    ensures Ready(t, decode, push) ==> CanMerge(before, DirOf(push, k).value)
  {
    var dir := DirOf(push, k).value;
    NotYetTouched(t, before, decode, push, k, listable);
    forall f ensures HoldsCarried(t, before, decode, push, k, f) {
      CarryNothing(t, before, decode, push, k, f);
    }
    if Ready(t, decode, push) {
      OwnReport(t, before, before, decode, push, k);
      assert IsName(push, push.shas[k]) && dir <= dir + [MERGED_JSON];
    }
  }

  lemma ParentReady(t: Tree, now: Tree, decode: string -> Option<Manifest>, push: Push, k: nat, listable: bool)
    requires k < |push.shas| && Distinct(push) && Processed(t, now, decode, push, k, listable)
    requires ManifestOf(t, decode, push, k).Some? && !ManifestOf(t, decode, push, k).value.allFilesExecuted
    ensures Ready(t, decode, push) ==> DirOf(push, k - 1).Some? && DirOf(push, k - 1).value in now
  {
    if Ready(t, decode, push) {
      var dir := DirOf(push, k - 1).value;
      if k == 0 {
        BaseUntouched(t, now, decode, push, k, listable, dir);
      } else {
        assert IsFile(Lookup(now, dir + [MERGED_JSON]));
        AncestorIsDir(now, dir, dir + [MERGED_JSON]);
      }
    }
  }
}
