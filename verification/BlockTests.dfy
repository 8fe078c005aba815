/**
 The blocklist: locators filed under the file they belong to, once for the whole run.
 Models pkg/blocktestservice/setup.go.
 */
module BlockTests {
  import opened Wrappers

  const DELIMITER: string := "##"

  // ----- Locators -----

  predicate EndsWith(s: string, suffix: string) {
    |suffix| <= |s| && s[|s| - |suffix|..] == suffix
  }

  /** `strings.Index`: where `d` first occurs in `s`, or -1. */
  function Index(s: string, d: string): int {
    if d <= s then 0
    else if s == "" then -1
    else
      var rest := Index(s[1..], d);
      if rest < 0 then -1 else rest + 1
  }

  lemma {:induction false} IndexIsFirst(s: string, d: string)
    ensures -1 <= Index(s, d) <= |s|
    ensures Index(s, d) >= 0 ==> d <= s[Index(s, d)..]
    ensures forall j :: 0 <= j <= |s| && (Index(s, d) < 0 || j < Index(s, d)) ==> !(d <= s[j..])
  {
    if !(d <= s) && s != "" {
      IndexIsFirst(s[1..], d);
      var i := Index(s, d);
      assert i >= 0 ==> s[i..] == s[1..][i - 1..];
      forall j | 0 <= j <= |s| && (i < 0 || j < i) ensures !(d <= s[j..]) {
        if j > 0 {
          assert s[j..] == s[1..][j - 1..];
        }
      }
    }
  }

  function Normalised(locator: string): string {
    if EndsWith(locator, DELIMITER) then locator else locator + DELIMITER
  }

  /** A normalised locator holds the delimiter, so the slice below is in range. */
  lemma DelimiterFound(locator: string)
    ensures EndsWith(Normalised(locator), DELIMITER)
    ensures 0 <= Index(Normalised(locator), DELIMITER) <= |Normalised(locator)|
    ensures Normalised(Normalised(locator)) == Normalised(locator)
  {
    var s := Normalised(locator);
    IndexIsFirst(s, DELIMITER);
    assert DELIMITER <= s[|s| - 2..];
  }

  /** The file a locator belongs to. */
  function KeyOf(locator: string): string {
    DelimiterFound(locator);
    Normalised(locator)[..Index(Normalised(locator), DELIMITER)]
  }

  /** The key is the text before the first delimiter. */
  lemma KeyIsBeforeDelimiter(locator: string)
    ensures KeyOf(locator) + DELIMITER <= Normalised(locator)
    ensures forall j :: 0 <= j < |KeyOf(locator)| ==> !(DELIMITER <= Normalised(locator)[j..])
    ensures KeyOf(Normalised(locator)) == KeyOf(locator)
  {
    var s := Normalised(locator);
    DelimiterFound(locator);
    IndexIsFirst(s, DELIMITER);
    var i := Index(s, DELIMITER);
    assert s == s[..i] + s[i..];
  }

  lemma FoundEarly(file: string)
    requires file != "" && file[|file| - 1] == '#'
    ensures Index(file + DELIMITER, DELIMITER) < |file|
  {
    var s := file + DELIMITER;
    IndexIsFirst(s, DELIMITER);
    assert s[|file| - 1..] == "###";
    assert DELIMITER <= s[|file| - 1..];
  }

  lemma Occurs(s: string, i: nat)
    requires i <= |s|
    ensures DELIMITER <= s[i..] <==> i + 1 < |s| && s[i] == '#' && s[i + 1] == '#'
  {
    if i + 1 < |s| && s[i] == '#' && s[i + 1] == '#' {
      assert s[i..][..2] == DELIMITER;
    }
  }

  lemma FoundAtTheEnd(file: string)
    requires Index(file, DELIMITER) < 0 && (file == "" || file[|file| - 1] != '#')
    ensures Index(file + DELIMITER, DELIMITER) == |file|
  {
    var s, n := file + DELIMITER, |file|;
    IndexIsFirst(s, DELIMITER);
    IndexIsFirst(file, DELIMITER);
    Occurs(s, Index(s, DELIMITER));
    Occurs(s, n);
    forall j | 0 <= j < n ensures j + 1 < n ==> !(file[j] == '#' && file[j + 1] == '#') {
      Occurs(file, j);
    }
  }

  /**
   A locator that names a file alone is filed under that file exactly when the name does not end in `#`: the
   appended delimiter would otherwise be found one character early.
   */
  lemma WholeFileKey(file: string)
    requires Index(file, DELIMITER) < 0
    ensures KeyOf(file) == file <==> (file == "" || file[|file| - 1] != '#')
  {
    IndexIsFirst(file, DELIMITER);
    assert |file| >= 2 ==> !(DELIMITER <= file[|file| - 2..]);
    assert Normalised(file) == file + DELIMITER;
    DelimiterFound(file);
    if file != "" && file[|file| - 1] == '#' {
      FoundEarly(file);
    } else {
      FoundAtTheEnd(file);
    }
  }

  // ----- Grouping -----

  datatype Entry = Entry(source: string, locator: string, status: string)

  /** An entry and the file it is filed under. */
  datatype Filed = Filed(key: string, entry: Entry)

  type Entities = map<string, seq<Entry>>

  function At(m: Entities, key: string): seq<Entry> {
    if key in m then m[key] else []
  }

  function File(m: Entities, f: Filed): Entities {
    m[f.key := At(m, f.key) + [f.entry]]
  }

  function Group(m: Entities, fs: seq<Filed>): Entities
    decreases |fs|
  {
    if fs == [] then m else Group(File(m, fs[0]), fs[1..])
  }

  /** The entries of one file, in the order they came in. */
  function Under(fs: seq<Filed>, key: string): seq<Entry> {
    if fs == [] then []
    else (if fs[0].key == key then [fs[0].entry] else []) + Under(fs[1..], key)
  }

  predicate Named(fs: seq<Filed>, key: string) {
    exists i :: 0 <= i < |fs| && fs[i].key == key
  }

  lemma NamedUnfolds(fs: seq<Filed>, key: string)
    requires fs != []
    ensures Named(fs, key) <==> fs[0].key == key || Named(fs[1..], key)
  {
    assert forall i :: 0 < i < |fs| ==> fs[i] == fs[1..][i - 1];
  }

  /** Grouping is stable: every file's list is its earlier list and then its own entries in input order. */
  lemma {:induction false} GroupIsStable(m: Entities, fs: seq<Filed>, key: string)
    ensures key in Group(m, fs) <==> key in m || Named(fs, key)
    ensures At(Group(m, fs), key) == At(m, key) + Under(fs, key)
    decreases |fs|
  {
    if fs != [] {
      GroupIsStable(File(m, fs[0]), fs[1..], key);
      NamedUnfolds(fs, key);
    }
  }

  function EntriesIn(fs: seq<Filed>): seq<Entry> {
    seq(|fs|, i requires 0 <= i < |fs| => fs[i].entry)
  }

  /** No entry is lost or counted twice: it is in the list of its own file as often as it came in. */
  lemma {:induction false} NoneLost(fs: seq<Filed>, f: Filed)
    requires forall i :: 0 <= i < |fs| && fs[i].entry == f.entry ==> fs[i].key == f.key
    ensures multiset(Under(fs, f.key))[f.entry] == multiset(EntriesIn(fs))[f.entry]
    ensures forall key :: key != f.key ==> f.entry !in Under(fs, key)
  {
    if fs != [] {
      NoneLost(fs[1..], f);
      assert EntriesIn(fs) == [fs[0].entry] + EntriesIn(fs[1..]);
    }
  }

  /** What the file lists of `yml` and `api` together are: the ones from the configuration come first. */
  lemma YmlBeforeApi(yml: seq<Filed>, api: seq<Filed>, key: string)
    ensures At(Group(Group(map[], yml), api), key) == Under(yml, key) + Under(api, key)
    ensures key in Group(Group(map[], yml), api) <==> Named(yml, key) || Named(api, key)
  {
    GroupIsStable(map[], yml, key);
    GroupIsStable(Group(map[], yml), api, key);
  }

  // ----- The service -----

  class Locator {
    var locator: string
    var status: string

    constructor (locator: string, status: string)
      ensures this.locator == locator && this.status == status
    {
      this.locator, this.status := locator, status;
    }
  }

  datatype Item = Item(locator: string, status: string)

  ghost function Items(ls: seq<Locator>): (items: seq<Item>)
    reads ls
    ensures |items| == |ls|
    ensures forall i :: 0 <= i < |ls| ==> items[i] == Item(ls[i].locator, ls[i].status)
  {
    seq(|ls|, i requires 0 <= i < |ls| reads ls => Item(ls[i].locator, ls[i].status))
  }

  function FiledAs(source: string, locator: string, status: string): Filed {
    Filed(KeyOf(locator), Entry(source, Normalised(locator), status))
  }

  lemma FiledAgain(source: string, locator: string, status: string)
    ensures FiledAs(source, FiledAs(source, locator, status).entry.locator, status) == FiledAs(source, locator, status)
  {
    KeyIsBeforeDelimiter(locator);
    DelimiterFound(locator);
  }

  function FiledOf(source: string, items: seq<Item>): (fs: seq<Filed>)
    ensures |fs| == |items|
  {
    seq(|items|, i requires 0 <= i < |items| => FiledAs(source, items[i].locator, items[i].status))
  }

  /** Entries are filed by their own locator, so equal entries are filed together. */
  lemma FiledTogether(source: string, items: seq<Item>)
    ensures forall i :: 0 <= i < |items| ==>
              FiledOf(source, items)[i].key == KeyOf(FiledOf(source, items)[i].entry.locator)
  {
    forall i | 0 <= i < |items|
      ensures FiledOf(source, items)[i].key == KeyOf(FiledOf(source, items)[i].entry.locator)
    {
      FiledAgain(source, items[i].locator, items[i].status);
    }
  }

  function FromYaml(locators: seq<string>): (items: seq<Item>)
    ensures |items| == |locators|
  {
    seq(|locators|, i requires 0 <= i < |locators| => Item(locators[i], "blocklisted"))
  }

  datatype ApiTest = ApiTest(name: string, testLocator: string, status: string)

  function FromApi(tests: seq<ApiTest>): (items: seq<Item>)
    ensures |items| == |tests|
  {
    seq(|tests|, i requires 0 <= i < |tests| => Item(tests[i].testLocator, tests[i].status))
  }

  ghost predicate FiledLike(source: string, l: Locator, f: Filed)
    reads l
  {
    FiledAs(source, l.locator, l.status) == f
  }

  /** What the remote call gives: a status code, a transport error or none, and the body as decoded. */
  datatype Response = Response(status: int, error: Option<string>, body: Result<seq<ApiTest>, string>)

  const NOT_FOUND: int := 404

  /** The error of fetching the remote list, if any. */
  function FetchError(resp: Response): Option<string> {
    if resp.status == NOT_FOUND then None
    else if resp.error.Some? then resp.error
    else if resp.body.Err? then Some(resp.body.error)
    else None
  }

  function Fetched(resp: Response): seq<Filed> {
    if resp.status != NOT_FOUND && FetchError(resp).None? then FiledOf("api", FromApi(resp.body.value)) else []
  }

  /** The first error of the one run: fetching, encoding, writing. */
  function Failure(resp: Response, encoding: Option<string>, writing: Option<string>): Option<string> {
    if FetchError(resp).Some? then FetchError(resp) else if encoding.Some? then encoding else writing
  }

  // ----- The written file read off its inputs -----

  /** The locators of the configuration and then those of the remote list. */
  predicate IsInput(yml: seq<string>, api: seq<ApiTest>, i: nat, source: string, locator: string, status: string) {
    if i < |yml| then source == "yml" && locator == yml[i] && status == "blocklisted"
    else i < |yml| + |api| && source == "api"
         && locator == api[i - |yml|].testLocator && status == api[i - |yml|].status
  }

  /** `full` is the locator, with the delimiter behind it unless it ends so, and `key` what precedes the first one. */
  predicate IsFiledUnder(locator: string, full: string, key: string) {
    && full == (if |locator| >= 2 && locator[|locator| - 2..] == "##" then locator else locator + "##")
    && key + "##" <= full
    && forall j :: 0 <= j < |key| ==> !("##" <= full[j..])
  }

  /** Input `i` belongs to the file `key`, and `e` is its entry. */
  ghost predicate IsEntry(yml: seq<string>, api: seq<ApiTest>, i: nat, key: string, e: Entry) {
    exists locator :: IsInput(yml, api, i, e.source, locator, e.status) && IsFiledUnder(locator, e.locator, key)
  }

  /** The list of one file: the entries of the inputs at `at`, which are all that belong to it, in input order. */
  ghost predicate ListsRight(yml: seq<string>, api: seq<ApiTest>, key: string, es: seq<Entry>, at: seq<nat>) {
    && |at| == |es|
    && (forall k, l :: 0 <= k < l < |at| ==> at[k] < at[l])
    && (forall k :: 0 <= k < |at| ==> IsEntry(yml, api, at[k], key, es[k]))
    && (forall i: nat, e :: IsEntry(yml, api, i, key, e) ==> i in at)
  }

  /** The file lists every input once, under its own file, and has no empty lists. */
  ghost predicate FileRight(yml: seq<string>, api: seq<ApiTest>, file: Entities) {
    && (forall key :: key in file ==> file[key] != [])
    && (forall key :: HasRightList(yml, api, key, file))
  }

  ghost predicate HasRightList(yml: seq<string>, api: seq<ApiTest>, key: string, file: Entities) {
    exists at :: ListsRight(yml, api, key, At(file, key), at)
  }

  lemma Regrouped(a: seq<Entry>, b: seq<Entry>, c: seq<Entry>)
    ensures a + (b + c) == (a + b) + c
  {
  }

  lemma {:induction false} UnderConcat(a: seq<Filed>, b: seq<Filed>, key: string)
    ensures Under(a + b, key) == Under(a, key) + Under(b, key)
  {
    if a == [] {
      assert a + b == b;
    } else {
      assert (a + b)[1..] == a[1..] + b && (a + b)[0] == a[0];
      UnderConcat(a[1..], b, key);
      if a[0].key == key {
        Regrouped([a[0].entry], Under(a[1..], key), Under(b, key));
      } else {
        assert Under(a, key) == Under(a[1..], key);
      }
    }
  }

  /** Where in the list the entries of one file come from. */
  ghost predicate ComeFrom(fs: seq<Filed>, key: string, es: seq<Entry>, at: seq<nat>) {
    && |at| == |es|
    && (forall k, l :: 0 <= k < l < |at| ==> at[k] < at[l])
    && (forall k :: 0 <= k < |at| ==> at[k] < |fs| && fs[at[k]] == Filed(key, es[k]))
    && (forall i: nat :: i < |fs| && fs[i].key == key ==> i in at)
  }

  lemma {:induction false} UnderComesFrom(fs: seq<Filed>, key: string) returns (at: seq<nat>)
    ensures ComeFrom(fs, key, Under(fs, key), at)
  {
    at := [];
    if fs != [] {
      var n := |fs| - 1;
      var front, f := fs[..n], fs[n];
      assert front + [f] == fs;
      UnderConcat(front, [f], key);
      assert [f][1..] == [];
      at := UnderComesFrom(front, key);
      if f.key == key {
        at := at + [n];
      }
    }
  }

  lemma Follows(full: string, d: string, key: string)
    requires key + d <= full
    ensures d <= full[|key|..] && key == full[..|key|]
  {
    assert full == (key + d) + full[|key + d|..];
  }

  lemma OneFirst(full: string, d: string, a: string, b: string)
    requires a + d <= full && forall j :: 0 <= j < |a| ==> !(d <= full[j..])
    requires b + d <= full && forall j :: 0 <= j < |b| ==> !(d <= full[j..])
    ensures a == b
  {
    Follows(full, d, a);
    Follows(full, d, b);
    assert |a| == |b|;
  }

  lemma KeyIsFiledUnder(locator: string, key: string)
    ensures IsFiledUnder(locator, Normalised(locator), key) <==> key == KeyOf(locator)
  {
    KeyIsBeforeDelimiter(locator);
    if IsFiledUnder(locator, Normalised(locator), key) {
      OneFirst(Normalised(locator), DELIMITER, key, KeyOf(locator));
    }
  }

  function AllFiled(yml: seq<string>, api: seq<ApiTest>): (fs: seq<Filed>)
    ensures |fs| == |yml| + |api|
  {
    FiledOf("yml", FromYaml(yml)) + FiledOf("api", FromApi(api))
  }

  lemma FiledIsEntry(yml: seq<string>, api: seq<ApiTest>, i: nat, key: string, e: Entry)
    ensures IsEntry(yml, api, i, key, e) <==> i < |yml| + |api| && AllFiled(yml, api)[i] == Filed(key, e)
  {
    if i < |yml| + |api| {
      var locator := if i < |yml| then yml[i] else api[i - |yml|].testLocator;
      var status := if i < |yml| then "blocklisted" else api[i - |yml|].status;
      var source := if i < |yml| then "yml" else "api";
      assert AllFiled(yml, api)[i] == FiledAs(source, locator, status);
      KeyIsFiledUnder(locator, key);
      if AllFiled(yml, api)[i] == Filed(key, e) {
        assert IsInput(yml, api, i, e.source, locator, e.status) && IsFiledUnder(locator, e.locator, key);
      }
    }
  }

  lemma {:induction false} NoEmptyLists(m: Entities, fs: seq<Filed>)
    requires forall key :: key in m ==> m[key] != []
    ensures forall key :: key in Group(m, fs) ==> Group(m, fs)[key] != []
    decreases |fs|
  {
    if fs != [] {
      NoEmptyLists(File(m, fs[0]), fs[1..]);
    }
  }

  /** What a run that starts empty writes. */
  lemma GroupedIsRight(yml: seq<string>, api: seq<ApiTest>)
    ensures FileRight(yml, api, Group(Group(map[], FiledOf("yml", FromYaml(yml))), FiledOf("api", FromApi(api))))
  {
    var a, b := FiledOf("yml", FromYaml(yml)), FiledOf("api", FromApi(api));
    var file := Group(Group(map[], a), b);
    NoEmptyLists(map[], a);
    NoEmptyLists(Group(map[], a), b);
    forall key ensures HasRightList(yml, api, key, file) {
      YmlBeforeApi(a, b, key);
      UnderConcat(a, b, key);
      var at := UnderComesFrom(a + b, key);
      ListIsRight(yml, api, key, At(file, key), at);
    }
  }

  lemma ListIsRight(yml: seq<string>, api: seq<ApiTest>, key: string, es: seq<Entry>, at: seq<nat>)
    requires ComeFrom(AllFiled(yml, api), key, es, at)
    ensures ListsRight(yml, api, key, es, at)
  {
    forall k | 0 <= k < |at| ensures IsEntry(yml, api, at[k], key, es[k]) {
      FiledIsEntry(yml, api, at[k], key, es[k]);
    }
    forall i: nat, e | IsEntry(yml, api, i, key, e) ensures i in at {
      FiledIsEntry(yml, api, i, key, e);
    }
  }

  method NewLocators(items: seq<Item>) returns (locators: seq<Locator>)
    ensures fresh(locators) && Items(locators) == items
  {
    locators := [];
    for i := 0 to |items|
      invariant |locators| == i && fresh(locators)
      invariant forall k :: 0 <= k < i ==> Item(locators[k].locator, locators[k].status) == items[k]
    {
      var l := new Locator(items[i].locator, items[i].status);
      locators := locators + [l];
    }
  }

  class BlockTestService {
    var entities: Option<Entities>
    var once: bool
    /** A channel that holds one error at most. */
    var errChan: Option<string>
    /** The blocklist file, once it is written. */
    var file: Option<Entities>

    constructor ()
      ensures entities == Some(map[]) && !once && errChan.None? && file.None?
    {
      entities, once, errChan, file := Some(map[]), false, None, None;
    }

    /** The map is given up only after the one run, and no error waits before it. */
    ghost predicate Valid()
      reads this
    {
      (entities.None? ==> once) && (!once ==> errChan.None?)
    }

    /** The body of the loop below; `f` is what is to be filed. */
    method AddOne(source: string, test: Locator, ghost f: Filed)
      requires entities.Some? && FiledLike(source, test, f)
      modifies this`entities, test`locator
      ensures test.locator == f.entry.locator && FiledLike(source, test, f)
      ensures entities == Some(File(old(entities).value, f))
    {
      FiledAgain(source, test.locator, test.status);
      if !EndsWith(test.locator, DELIMITER) {
        test.locator := test.locator + DELIMITER;
      }
      DelimiterFound(test.locator);
      var i := Index(test.locator, DELIMITER);
      var entity := Entry(source, test.locator, test.status);
      var key := test.locator[..i];
      if key in entities.value {
        entities := Some(entities.value[key := entities.value[key] + [entity]]);
      } else {
        assert [] + [entity] == [entity];
        entities := Some(entities.value[key := [entity]]);
      }
    }

    method PopulateBlockList(source: string, locators: seq<Locator>)
      requires entities.Some?
      modifies this`entities, locators
      ensures entities == Some(Group(old(entities).value, FiledOf(source, old(Items(locators)))))
      ensures forall l :: l in locators ==> l.locator == Normalised(old(l.locator)) && l.status == old(l.status)
    {
      ghost var fs := FiledOf(source, Items(locators));
      var i := 0;
      while i < |locators|
        invariant i <= |locators| && entities.Some?
        invariant forall k :: 0 <= k < |locators| ==> FiledLike(source, locators[k], fs[k])
        invariant forall k :: 0 <= k < i ==> locators[k].locator == fs[k].entry.locator
        invariant Group(entities.value, fs[i..]) == Group(old(entities).value, fs)
      {
        assert fs[i..][0] == fs[i] && fs[i..][1..] == fs[i + 1..];
        AddOne(source, locators[i], fs[i]);
        i := i + 1;
      }
      assert forall k :: 0 <= k < |locators| ==> FiledLike(source, locators[k], fs[k]);
    }

    method FetchBlockListFromNeuron(resp: Response) returns (err: Option<string>)
      requires entities.Some?
      modifies this`entities
      ensures err == FetchError(resp)
      ensures entities == Some(Group(old(entities).value, Fetched(resp)))
    {
      if resp.status == NOT_FOUND {
        return None;
      }
      if resp.error.Some? {
        return resp.error;
      }
      if resp.body.Err? {
        return Some(resp.body.error);
      }
      var locators := NewLocators(FromApi(resp.body.value));
      PopulateBlockList("api", locators);
      return None;
    }

    /** The body of the once: run by the first caller only. */
    method Once(blocklistYAML: seq<string>, resp: Response, encoding: Option<string>, writing: Option<string>)
      requires Valid()
      modifies this
      ensures Valid() && once
      ensures old(once) ==> entities == old(entities) && errChan == old(errChan) && file == old(file)
      ensures !old(once) ==>
                var all := Group(Group(old(entities).value, FiledOf("yml", FromYaml(blocklistYAML))), Fetched(resp));
                var failure := Failure(resp, encoding, writing);
                && errChan == failure
                && (failure.Some? ==> file == old(file))
                && (failure.None? ==> file == Some(all) && entities.None?)
    {
      if once {
        return;
      }
      once := true;
      var locators := NewLocators(FromYaml(blocklistYAML));
      PopulateBlockList("yml", locators);
      var err := FetchBlockListFromNeuron(resp);
      if err.Some? {
        errChan := err;
        return;
      }
      if encoding.Some? {
        errChan := encoding;
        return;
      }
      if writing.Some? {
        errChan := writing;
        return;
      }
      file := entities;
      entities := None;
    }

    /** The receive that does not wait: takes the error if there is one. */
    method Poll() returns (err: Option<string>)
      modifies this`errChan
      ensures err == old(errChan) && errChan.None?
    {
      err := errChan;
      errChan := None;
    }

    /** Without other callers in between: the first call reports the failure, every later one reports nothing. */
    method GetBlockTests(blocklistYAML: seq<string>, resp: Response, encoding: Option<string>, writing: Option<string>)
      returns (err: Option<string>)
      requires Valid() && errChan.None?
      modifies this
      ensures Valid() && errChan.None? && once
      ensures old(once) ==> err.None? && entities == old(entities) && file == old(file)
      ensures !old(once) ==>
                var all := Group(Group(old(entities).value, FiledOf("yml", FromYaml(blocklistYAML))), Fetched(resp));
                && err == Failure(resp, encoding, writing)
                && file == (if err.None? then Some(all) else old(file))
      ensures !old(once) ==>
                err == if resp.status != 404 && resp.error.Some? then resp.error
                       else if resp.status != 404 && resp.body.Err? then Some(resp.body.error)
                       else if encoding.Some? then encoding
                       else writing
      ensures !old(once) && old(entities) == Some(map[]) && err.None? ==>
                && file.Some?
                && FileRight(blocklistYAML, if resp.status == 404 then [] else resp.body.value, file.value)
    {
      GroupedIsRight(blocklistYAML, if resp.status != 404 && resp.body.Ok? then resp.body.value else []);
      assert FiledOf("api", FromApi([])) == [];
      Once(blocklistYAML, resp, encoding, writing);
      err := Poll();
    }
  }
}
