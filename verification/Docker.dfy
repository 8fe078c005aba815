/**
 The list of running containers: pkg/runner/docker/docker.go.
 */
module Docker {
  import opened Wrappers

  /** The options of one container, as far as the list needs them; the id is known once it has been created. */
  datatype Runner = Runner(containerID: string, buildID: string)

  datatype Status = Status(done: bool, error: string)

  // ----- What the list functions compute -----

  /** The list without the first container of this id. */
  function RemoveFirst(rs: seq<Runner>, id: string): seq<Runner> {
    if rs == [] then [] else if rs[0].containerID == id then rs[1..] else [rs[0]] + RemoveFirst(rs[1..], id)
  }

  /** The first container of a build. */
  function FirstOf(rs: seq<Runner>, build: string): Option<Runner> {
    if rs == [] then None else if rs[0].buildID == build then Some(rs[0]) else FirstOf(rs[1..], build)
  }

  function Ids(rs: seq<Runner>): (ids: seq<string>)
    ensures |ids| == |rs|
  {
    seq(|rs|, i requires 0 <= i < |rs| => rs[i].containerID)
  }

  lemma IdsUnfold(rs: seq<Runner>, r: Runner)
    ensures Ids(rs + [r]) == Ids(rs) + [r.containerID]
  {
  }

  predicate NoRepeats(rs: seq<Runner>) {
    forall i, j :: 0 <= i < j < |rs| ==> rs[i].containerID != rs[j].containerID
  }

  predicate Lists(rs: seq<Runner>, id: string) {
    exists r :: r in rs && r.containerID == id
  }

  lemma {:induction false} RemoveFirstAt(rs: seq<Runner>, id: string, k: nat)
    requires k < |rs| && rs[k].containerID == id
    requires forall i :: 0 <= i < k ==> rs[i].containerID != id
    ensures RemoveFirst(rs, id) == rs[..k] + rs[k + 1..]
  {
    if k > 0 {
      RemoveFirstAt(rs[1..], id, k - 1);
      assert rs[..k] == [rs[0]] + rs[1..][..k - 1];
    }
  }

  lemma {:induction false} RemoveFirstNone(rs: seq<Runner>, id: string)
    requires forall i :: 0 <= i < |rs| ==> rs[i].containerID != id
    ensures RemoveFirst(rs, id) == rs
  {
    if rs != [] {
      RemoveFirstNone(rs[1..], id);
    }
  }

  lemma {:induction false} RemoveFirstMembers(rs: seq<Runner>, id: string, r: Runner)
    requires NoRepeats(rs)
    ensures r in RemoveFirst(rs, id) <==> r in rs && r.containerID != id
  {
    if rs != [] {
      assert NoRepeats(rs[1..]);
      RemoveFirstMembers(rs[1..], id, r);
      assert r in rs <==> r == rs[0] || r in rs[1..];
      assert r in rs[1..] ==> rs[0].containerID != r.containerID;
    }
  }

  /** In a list without repeats exactly the container of this id goes. */
  lemma {:induction false} RemoveFirstOfList(rs: seq<Runner>, id: string)
    requires NoRepeats(rs)
    ensures NoRepeats(RemoveFirst(rs, id))
    ensures forall r :: r in RemoveFirst(rs, id) <==> r in rs && r.containerID != id
  {
    forall r: Runner ensures r in RemoveFirst(rs, id) <==> r in rs && r.containerID != id {
      RemoveFirstMembers(rs, id, r);
    }
    if k :| 0 <= k < |rs| && rs[k].containerID == id {
      RemoveFirstAt(rs, id, k);
    } else {
      RemoveFirstNone(rs, id);
    }
  }

  /** A container that was appended and is then removed leaves the list as it was. */
  lemma AppendedThenRemoved(rs: seq<Runner>, r: Runner)
    requires !Lists(rs, r.containerID)
    ensures RemoveFirst(rs + [r], r.containerID) == rs
  {
    forall i | 0 <= i < |rs| ensures (rs + [r])[i].containerID != r.containerID {
      assert rs[i] in rs;
    }
    RemoveFirstAt(rs + [r], r.containerID, |rs|);
    assert (rs + [r])[..|rs|] + (rs + [r])[|rs| + 1..] == rs;
  }

  predicate IsFirstOf(rs: seq<Runner>, build: string, i: int) {
    0 <= i < |rs| && rs[i].buildID == build && forall j :: 0 <= j < i ==> rs[j].buildID != build
  }

  /** A kill by build picks the first container of that build, if the list has one. */
  lemma {:induction false} FirstOfIsOfBuild(rs: seq<Runner>, build: string)
    ensures FirstOf(rs, build).Some? ==> FirstOf(rs, build).value in rs && FirstOf(rs, build).value.buildID == build
    ensures FirstOf(rs, build).None? <==> forall r :: r in rs ==> r.buildID != build
    ensures forall i :: IsFirstOf(rs, build, i) ==> FirstOf(rs, build) == Some(rs[i])
  {
    if rs != [] {
      FirstOfIsOfBuild(rs[1..], build);
      assert rs == [rs[0]] + rs[1..];
      forall i | IsFirstOf(rs, build, i)
        ensures FirstOf(rs, build) == Some(rs[i])
      {
        if i > 0 {
          assert rs[0].buildID != build && rs[1..][i - 1] == rs[i];
          assert IsFirstOf(rs[1..], build, i - 1);
        }
      }
    }
  }

  // ----- Slices -----

  /** A Go slice: the first `len` elements of an array that other slices may share. */
  datatype Slice = Slice(a: array<Runner>, len: nat)

  ghost predicate Valid(s: Slice) {
    s.len <= s.a.Length
  }

  ghost function View(s: Slice): seq<Runner>
    requires Valid(s)
    reads s.a
  {
    s.a[..s.len]
  }

  /** `append`: in place if there is room behind the slice, and otherwise to a larger copy. */
  method Append(s: Slice, r: Runner) returns (t: Slice)
    requires Valid(s)
    modifies s.a
    ensures Valid(t) && View(t) == old(View(s)) + [r]
    ensures t.a == s.a || fresh(t.a)
    ensures View(s) == old(View(s))
  {
    if s.len < s.a.Length {
      s.a[s.len] := r;
      return Slice(s.a, s.len + 1);
    }
    var a := new Runner[2 * s.len + 1];
    forall i | 0 <= i < s.len {
      a[i] := s.a[i];
    }
    a[s.len] := r;
    return Slice(a, s.len + 1);
  }

  /** `append(s, from[lo:hi]...)`. */
  method AppendRange(s: Slice, from: Slice, lo: nat, hi: nat) returns (t: Slice)
    requires Valid(s) && Valid(from) && lo <= hi <= from.len && s.a != from.a
    modifies s.a
    ensures Valid(t) && View(t) == old(View(s)) + View(from)[lo..hi]
    ensures t.a == s.a || fresh(t.a)
  {
    t := s;
    var i := lo;
    while i < hi
      invariant lo <= i <= hi
      invariant Valid(t) && (t.a == s.a || fresh(t.a))
      invariant View(t) == old(View(s)) + old(View(from))[lo..i]
      invariant View(from) == old(View(from))
    {
      assert old(View(from))[lo..i + 1] == old(View(from))[lo..i] + [from.a[i]];
      t := Append(t, from.a[i]);
      i := i + 1;
    }
  }

  /** The slice it is given stays as it is: either nothing is to be removed or the result is a new array. */
  method RemoveContainerID(slice: Slice, r: Runner) returns (t: Slice)
    requires Valid(slice)
    ensures Valid(t) && View(t) == RemoveFirst(View(slice), r.containerID)
    ensures t == slice || fresh(t.a)
  {
    ghost var view := View(slice);
    var index := -1;
    var i := 0;
    while i < slice.len
      invariant i <= slice.len && index == -1
      invariant forall k :: 0 <= k < i ==> view[k].containerID != r.containerID
    {
      if slice.a[i].containerID == r.containerID {
        index := i;
        break;
      }
      i := i + 1;
    }
    if index == -1 {
      RemoveFirstNone(view, r.containerID);
      return slice;
    }
    RemoveFirstAt(view, r.containerID, index);
    var a := new Runner[0];
    t := Slice(a, 0);
    assert View(t) == [];
    t := AppendRange(t, slice, 0, index);
    assert View(t) == view[..index];
    if index != slice.len - 1 {
      t := AppendRange(t, slice, index + 1, slice.len);
    }
    assert View(t) == view[..index] + view[index + 1..];
  }

  // ----- The runner -----

  /** A channel of statuses, with all that has been sent on it. */
  class StatusChan {
    var sent: seq<Status>

    constructor ()
      ensures sent == []
    {
      sent := [];
    }

    method Send(s: Status)
      modifies this
      ensures sent == old(sent) + [s]
    {
      sent := sent + [s];
    }
  }

  class DockerRunner {
    var running: Slice
    /** The containers that were asked to stop, and those removed after that. */
    var stopped: seq<string>
    var removed: seq<string>

    /** What docker answers. */
    const stopError: string -> Option<string>
    const removeError: string -> Option<string>
    /** The environment's setting, if it can be read. */
    const autoRemove: Option<bool>

    constructor (stopError: string -> Option<string>, removeError: string -> Option<string>, autoRemove: Option<bool>)
      ensures Valid(running) && View(running) == [] && stopped == [] && removed == []
    {
      var a := new Runner[0];
      running := Slice(a, 0);
      stopped, removed := [], [];
      this.stopError, this.removeError, this.autoRemove := stopError, removeError, autoRemove;
    }

    function DestroyError(id: string): Option<string> {
      if stopError(id).Some? then stopError(id)
      else if autoRemove.None? then Some("error reading AutoRemove os env error")
      else if autoRemove.value then None
      else removeError(id)
    }

    /** The containers that have to be removed after they were stopped: docker does not do it by itself. */
    function Removals(rs: seq<Runner>): seq<string> {
      if rs == [] then []
      else
        var r := rs[|rs| - 1];
        Removals(rs[..|rs| - 1])
        + (if stopError(r.containerID).None? && autoRemove == Some(false) then [r.containerID] else [])
    }

    lemma RemovalsUnfold(rs: seq<Runner>, r: Runner)
      ensures Removals(rs + [r]) == Removals(rs) + Removals([r])
    {
      assert (rs + [r])[..|rs|] == rs && Removals([r][..0]) == [];
    }

    /** It has stopped and docker does not remove it by itself. */
    predicate ToRemove(r: Runner) {
      stopError(r.containerID) == None && autoRemove == Some(false)
    }

    /** `gone` are the ids, in list order, of exactly those of the first `n` containers that have to be removed. */
    ghost predicate AreRemovals(rs: seq<Runner>, n: nat, gone: seq<string>, at: seq<nat>)
      requires n <= |rs|
    {
      && |at| == |gone|
      && (forall k, l :: 0 <= k < l < |at| ==> at[k] < at[l])
      && (forall k :: 0 <= k < |at| ==> at[k] < n && ToRemove(rs[at[k]]) && gone[k] == rs[at[k]].containerID)
      && (forall i :: 0 <= i < n && ToRemove(rs[i]) ==> i in at)
    }

    lemma OneMoreRemoval(rs: seq<Runner>, n: nat, gone: seq<string>, at: seq<nat>)
      requires n < |rs| && AreRemovals(rs, n, gone, at)
      ensures ToRemove(rs[n]) ==> AreRemovals(rs, n + 1, gone + [rs[n].containerID], at + [n])
      ensures !ToRemove(rs[n]) ==> AreRemovals(rs, n + 1, gone, at)
    {
    }

    lemma {:induction false} RemovalsAre(rs: seq<Runner>, n: nat) returns (at: seq<nat>)
      requires n <= |rs|
      ensures AreRemovals(rs, n, Removals(rs[..n]), at)
    {
      at := [];
      if n > 0 {
        at := RemovalsAre(rs, n - 1);
        OneMoreRemoval(rs, n - 1, Removals(rs[..n - 1]), at);
        assert rs[..n] == rs[..n - 1] + [rs[n - 1]];
        RemovalsUnfold(rs[..n - 1], rs[n - 1]);
        RemovalsOfOne(rs[n - 1]);
        if ToRemove(rs[n - 1]) {
          at := at + [n - 1];
        } else {
          assert Removals(rs[..n - 1]) + [] == Removals(rs[..n - 1]);
        }
      }
    }

    lemma RemovalsOfOne(r: Runner)
      ensures Removals([r]) == if ToRemove(r) then [r.containerID] else []
    {
      assert Removals([r][..0]) == [];
    }

    /** What killing `rs` removes: the ids of those that stopped, in order, unless docker removes them by itself. */
    ghost predicate KilledAll(rs: seq<Runner>, gone: seq<string>) {
      exists at :: AreRemovals(rs, |rs|, gone, at)
    }

    lemma RemovalsKilledAll(rs: seq<Runner>, before: seq<string>, after: seq<string>)
      requires after == before + Removals(rs)
      ensures |before| <= |after| && KilledAll(rs, after[|before|..])
    {
      var at := RemovalsAre(rs, |rs|);
      assert rs[..|rs|] == rs && after[|before|..] == Removals(rs);
    }

    /**
     The container is asked to stop.  Only if that went well and docker does not remove it by itself is it removed; the
     error is that of the first of these steps that fails.
     */
    method Destroy(r: Runner) returns (err: Option<string>)
      modifies this`stopped, this`removed
      ensures err == DestroyError(r.containerID)
      ensures stopped == old(stopped) + [r.containerID]
      ensures removed == old(removed) + Removals([r])
      ensures err == match (stopError(r.containerID), autoRemove)
                     case (Some(e), _) => Some(e)
                     case (None, None) => Some("error reading AutoRemove os env error")
                     case (None, Some(true)) => None
                     case (None, Some(false)) => removeError(r.containerID)
      ensures removed == if stopError(r.containerID) == None && autoRemove == Some(false)
                         then old(removed) + [r.containerID] else old(removed)
    {
      stopped := stopped + [r.containerID];
      if stopError(r.containerID).Some? {
        return stopError(r.containerID);
      }
      if autoRemove.None? {
        return Some("error reading AutoRemove os env error");
      }
      if autoRemove.value {
        return None;
      }
      removed := removed + [r.containerID];
      return removeError(r.containerID);
    }

    /** `started` is the error of starting the container, if any. */
    method Run(r: Runner, started: Option<string>) returns (status: Status)
      requires Valid(running)
      modifies this`running, running.a
      ensures Valid(running) && (running.a == old(running.a) || fresh(running.a))
      ensures Tells(status, started)
      ensures View(running) == if started.None? then old(View(running)) + [r] else old(View(running))
      ensures View(old(running)) == old(View(running))
    {
      if started.Some? {
        return Status(false, started.value);
      }
      running := Append(running, r);
      return Status(true, "");
    }

    static function FirstError(created: Result<string, string>, started: Option<string>,
                               waited: Option<string>): Option<string> {
      if created.Err? then Some(created.error) else if started.Some? then started else waited
    }

    static predicate Tells(s: Status, err: Option<string>) {
      s.done == err.None? && (err.Some? ==> s.error == err.value)
    }

    /**
     `created`, `started` and `waited` are what creating, starting and waiting for the container end with.  Whatever
     they are, one status is sent, it is done exactly when all three went well and else tells the first error, and
     the list is left without the container; a slice of the list taken before is not changed.
     */
    method Initiate(buildID: string, created: Result<string, string>, started: Option<string>, waited: Option<string>,
                    statusChan: StatusChan)
      requires Valid(running)
      modifies this`running, running.a, statusChan
      ensures Valid(running)
      ensures exists s :: statusChan.sent == old(statusChan.sent) + [s]
                && Tells(s, FirstError(created, started, waited))
      ensures View(running) ==
              if created.Ok? && started.None?
              then RemoveFirst(old(View(running)) + [Runner(created.value, buildID)], created.value)
              else old(View(running))
      ensures created.Ok? && !Lists(old(View(running)), created.value) ==> View(running) == old(View(running))
      ensures View(old(running)) == old(View(running))
      ensures |statusChan.sent| == |old(statusChan.sent)| + 1
      ensures var s := statusChan.sent[|old(statusChan.sent)|];
              && (s.done <==> created.Ok? && started == None && waited == None)
              && (created.Err? ==> s.error == created.error)
              && (created.Ok? && started.Some? ==> s.error == started.value)
              && (created.Ok? && started == None && waited.Some? ==> s.error == waited.value)
    {
      if created.Err? {
        statusChan.Send(Status(false, created.error));
        return;
      }
      var r := Runner(created.value, buildID);
      if !Lists(View(running), r.containerID) {
        AppendedThenRemoved(View(running), r);
      }
      var status := Run(r, started);
      if !status.done {
        statusChan.Send(status);
        return;
      }
      var containerStatus := Status(true, "");
      if waited.Some? {
        containerStatus := Status(false, waited.value);
        running := RemoveContainerID(running, r);
        statusChan.Send(containerStatus);
        return;
      }
      running := RemoveContainerID(running, r);
      statusChan.Send(containerStatus);
    }

    /** Every listed container is asked to stop, whatever the others answer. */
    method KillRunningDocker()
      requires Valid(running)
      modifies this`stopped, this`removed
      ensures stopped == old(stopped) + Ids(View(running))
      ensures removed == old(removed) + Removals(View(running))
      ensures |old(removed)| <= |removed| && KilledAll(View(running), removed[|old(removed)|..])
    {
      var slice := running;
      var i := 0;
      while i < slice.len
        invariant i <= slice.len
        invariant stopped == old(stopped) + Ids(View(slice)[..i])
        invariant removed == old(removed) + Removals(View(slice)[..i])
      {
        assert View(slice)[..i + 1] == View(slice)[..i] + [slice.a[i]];
        RemovalsUnfold(View(slice)[..i], slice.a[i]);
        IdsUnfold(View(slice)[..i], slice.a[i]);
        var err := Destroy(slice.a[i]);
        i := i + 1;
      }
      assert View(slice)[..slice.len] == View(slice);
      RemovalsKilledAll(View(slice), old(removed), removed);
    }

    /** Only the first listed container of the build is asked to stop, and its error is the result. */
    method KillContainerForBuildID(buildID: string) returns (err: Option<string>)
      requires Valid(running)
      modifies this`stopped, this`removed
      ensures match FirstOf(View(running), buildID)
              case None => err.None? && stopped == old(stopped) && removed == old(removed)
              case Some(r) =>
                && err == (match (stopError(r.containerID), autoRemove)
                           case (Some(e), _) => Some(e)
                           case (None, None) => Some("error reading AutoRemove os env error")
                           case (None, Some(true)) => None
                           case (None, Some(false)) => removeError(r.containerID))
                && stopped == old(stopped) + [r.containerID] && removed == old(removed) + Removals([r])
    {
      var slice := running;
      var i := 0;
      while i < slice.len
        invariant i <= slice.len && stopped == old(stopped) && removed == old(removed)
        invariant FirstOf(View(slice), buildID) == FirstOf(View(slice)[i..], buildID)
      {
        var r := slice.a[i];
        assert View(slice)[i..][0] == r && View(slice)[i..][1..] == View(slice)[i + 1..];
        if r.buildID == buildID {
          err := Destroy(r);
          return err;
        }
        i := i + 1;
      }
      return None;
    }
  }
}
