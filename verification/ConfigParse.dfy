/**
 Filling configuration structs from looked-up values: config/parse.go.
 */
module ConfigParse {
  import opened Wrappers

  /** A struct type.  `tag.Get(p)` is the value of `p` in the map, or the empty string. */
  datatype Struct = Struct(fields: seq<Field>)

  datatype Tag = NoTag | Tag(values: map<string, string>)

  datatype Field = Field(name: string, tag: Tag, kind: Kind)

  datatype Kind =
    | Int(bits: Width)
    | String
    | Bool
    | Map
    | Nested(s: Struct)
    | Unsupported(name: string)

  datatype Width = W32 | W64

  /** The way to a field: the index of a field, of a field of that field, and so on. */
  type Addr = seq<nat>

  datatype Value = I(n: int) | S(s: string) | B(b: bool)

  /** The values of the leaves; a leaf that is not there has its zero value. */
  type Values = map<Addr, Value>

  /** What looking up a key gives; an absent key gives the zero value. */
  datatype Viper = Viper(getInt: string -> int, getString: string -> string, getBool: string -> bool)

  // ----- Tags -----

  function Get(values: map<string, string>, prefix: string): string {
    if prefix in values then values[prefix] else ""
  }

  function Prefixes(): seq<string> {
    ["viper", "yaml", "json", "env", "mapstructure"]
  }

  function Present(values: map<string, string>, prefixes: seq<string>): seq<string> {
    if prefixes == [] then []
    else
      var n := |prefixes| - 1;
      Present(values, prefixes[..n]) + (if Get(values, prefixes[n]) != "" then [Get(values, prefixes[n])] else [])
  }

  /** The names a field goes by: its tags in the order of the prefixes, or its own name if it has no tag at all. */
  function Tags(f: Field): seq<string> {
    if f.tag.Tag? then Present(f.tag.values, Prefixes()) else [f.name]
  }

  /** The name that one tag gives, if it is set and not empty. */
  function Given(values: map<string, string>, prefix: string): seq<string> {
    if prefix in values && values[prefix] != "" then [values[prefix]] else []
  }

  lemma PresentUnfold(values: map<string, string>, prefixes: seq<string>, prefix: string)
    ensures Present(values, prefixes + [prefix]) == Present(values, prefixes) + Given(values, prefix)
  {
    assert (prefixes + [prefix])[..|prefixes|] == prefixes;
  }

  /** Five kinds of tags, one after the other. */
  lemma PresentInOrder(t: map<string, string>, p: string, q: string, r: string, s: string, u: string)
    ensures Present(t, [p] + [q] + [r] + [s] + [u])
         == Given(t, p) + Given(t, q) + Given(t, r) + Given(t, s) + Given(t, u)
  {
    PresentUnfold(t, [p] + [q] + [r] + [s], u);
    PresentUnfold(t, [p] + [q] + [r], s);
    PresentUnfold(t, [p] + [q], r);
    PresentUnfold(t, [p], q);
    PresentUnfold(t, [], p);
    assert [] + [p] == [p];
  }

  /** The names of a field: without any tag its own, otherwise what its five tags give, which may be nothing. */
  lemma TagsInOrder(f: Field)
    ensures f.tag.NoTag? ==> Tags(f) == [f.name]
    ensures f.tag.Tag? ==>
              Tags(f) == Given(f.tag.values, "viper") + Given(f.tag.values, "yaml") + Given(f.tag.values, "json")
                         + Given(f.tag.values, "env") + Given(f.tag.values, "mapstructure")
  {
    if f.tag.Tag? {
      PresentInOrder(f.tag.values, "viper", "yaml", "json", "env", "mapstructure");
      assert Prefixes() == ["viper"] + ["yaml"] + ["json"] + ["env"] + ["mapstructure"];
    }
  }

  method GetTags(f: Field) returns (values: seq<string>)
    ensures values == Tags(f)
  {
    values := [];
    if f.tag.Tag? {
      var prefixes := Prefixes();
      for i := 0 to |prefixes|
        invariant values == Present(f.tag.values, prefixes[..i])
      {
        assert prefixes[..i + 1][..i] == prefixes[..i];
        var v := Get(f.tag.values, prefixes[i]);
        if v != "" {
          values := values + [v];
        }
      }
      assert prefixes[..|prefixes|] == prefixes;
      return values;
    }
    return [f.name];
  }

  // ----- One leaf and one key -----

  /** Setting a field keeps the low bits of a 64-bit number. */
  function Fit(w: Width, n: int): int {
    if w.W32? then (n + 0x8000_0000) % 0x1_0000_0000 - 0x8000_0000 else n
  }

  function IntAt(vals: Values, a: Addr): int {
    if a in vals && vals[a].I? then vals[a].n else 0
  }

  function StringAt(vals: Values, a: Addr): string {
    if a in vals && vals[a].S? then vals[a].s else ""
  }

  function BoolAt(vals: Values, a: Addr): bool {
    a in vals && vals[a].B? && vals[a].b
  }

  /** One round of the inner loop that is not a nested struct: a leaf at `a` and a key to look up. */
  datatype Visit = Visit(a: Addr, kind: Kind, key: string)

  function Set(v: Viper, vals: Values, x: Visit): Values {
    match x.kind
    case Int(w) =>
      if v.getInt(x.key) == 0 && IntAt(vals, x.a) != 0 then vals else vals[x.a := I(Fit(w, v.getInt(x.key)))]
    case String =>
      if v.getString(x.key) == "" && StringAt(vals, x.a) != "" then vals else vals[x.a := S(v.getString(x.key))]
    case Bool =>
      if !v.getBool(x.key) && BoolAt(vals, x.a) then vals else vals[x.a := B(v.getBool(x.key))]
    case _ => vals
  }

  datatype Outcome = Outcome(vals: Values, err: Option<string>)

  /** The visits up to the first one of an unsupported kind. */
  function Run(v: Viper, vals: Values, xs: seq<Visit>): Outcome
    decreases |xs|
  {
    if xs == [] then Outcome(vals, None)
    else if xs[0].kind.Unsupported? then Outcome(vals, Some(xs[0].kind.name))
    else Run(v, Set(v, vals, xs[0]), xs[1..])
  }

  function After(v: Viper, o: Outcome, xs: seq<Visit>): Outcome {
    if o.err.Some? then o else Run(v, o.vals, xs)
  }

  lemma {:induction false} RunConcat(v: Viper, vals: Values, xs: seq<Visit>, ys: seq<Visit>)
    ensures Run(v, vals, xs + ys) == After(v, Run(v, vals, xs), ys)
    decreases |xs|
  {
    if xs == [] {
      assert xs + ys == ys;
    } else {
      assert (xs + ys)[1..] == xs[1..] + ys;
      RunConcat(v, Set(v, vals, xs[0]), xs[1..], ys);
    }
  }

  // ----- The walk -----

  /** The visits of the fields from the `i`-th on. */
  function Walk(s: Struct, i: nat, a: Addr, prefix: string): seq<Visit>
    requires i <= |s.fields|
    decreases s, |s.fields| - i
  {
    if i == |s.fields| then []
    else WalkTags(s.fields[i], a + [i], prefix, Tags(s.fields[i])) + Walk(s, i + 1, a, prefix)
  }

  function WalkTag(f: Field, a: Addr, key: string): seq<Visit>
    decreases f, 0
  {
    if f.kind.Nested? then Walk(f.kind.s, 0, a, key + ".") else [Visit(a, f.kind, key)]
  }

  function WalkTags(f: Field, a: Addr, prefix: string, tags: seq<string>): seq<Visit>
    decreases f, |tags| + 1
  {
    if tags == [] then [] else WalkTag(f, a, prefix + tags[0]) + WalkTags(f, a, prefix, tags[1..])
  }

  class Config {
    var vals: Values

    constructor (vals: Values)
      ensures this.vals == vals
    {
      this.vals := vals;
    }

    /** The leaf cases of the switch; an unsupported kind is an error. */
    method SetLeaf(v: Viper, a: Addr, kind: Kind, key: string) returns (err: Option<string>)
      requires !kind.Nested?
      modifies this
      ensures Outcome(vals, err) == Run(v, old(vals), [Visit(a, kind, key)])
    {
      match kind
      case Int(w) =>
        var configVal := v.getInt(key);
        if v.getInt(key) == 0 && IntAt(vals, a) != 0 {
          return None;
        }
        vals := vals[a := I(Fit(w, configVal))];
        return None;
      case String =>
        if v.getString(key) == "" && StringAt(vals, a) != "" {
          return None;
        }
        vals := vals[a := S(v.getString(key))];
        return None;
      case Bool =>
        if !v.getBool(key) && BoolAt(vals, a) {
          return None;
        }
        vals := vals[a := B(v.getBool(key))];
        return None;
      case Map =>
        return None;
      case Unsupported(name) =>
        return Some(name);
    }

    method RecursivelySet(v: Viper, s: Struct, a: Addr, prefix: string) returns (err: Option<string>)
      modifies this
      ensures Outcome(vals, err) == Run(v, old(vals), Walk(s, 0, a, prefix))
      decreases s, 1, 0
    {
      var i := 0;
      while i < |s.fields|
        invariant i <= |s.fields|
        invariant Run(v, old(vals), Walk(s, 0, a, prefix)) == Run(v, vals, Walk(s, i, a, prefix))
      {
        var tags := GetTags(s.fields[i]);
        RunConcat(v, vals, WalkTags(s.fields[i], a + [i], prefix, tags), Walk(s, i + 1, a, prefix));
        err := SetField(v, s.fields[i], a + [i], prefix, tags);
        if err.Some? {
          return err;
        }
        i := i + 1;
      }
      return None;
    }

    /** The inner loop, over the tags of one field. */
    method SetField(v: Viper, f: Field, a: Addr, prefix: string, tags: seq<string>) returns (err: Option<string>)
      modifies this
      ensures Outcome(vals, err) == Run(v, old(vals), WalkTags(f, a, prefix, tags))
      decreases f, 1, 0
    {
      var j := 0;
      while j < |tags|
        invariant j <= |tags|
        invariant Run(v, old(vals), WalkTags(f, a, prefix, tags)) == Run(v, vals, WalkTags(f, a, prefix, tags[j..]))
      {
        var key := prefix + tags[j];
        assert tags[j..][0] == tags[j] && tags[j..][1..] == tags[j + 1..];
        RunConcat(v, vals, WalkTag(f, a, key), WalkTags(f, a, prefix, tags[j + 1..]));
        if f.kind.Nested? {
          err := RecursivelySet(v, f.kind.s, a, key + ".");
        } else {
          err := SetLeaf(v, a, f.kind, key);
        }
        if err.Some? {
          return err;
        }
        j := j + 1;
      }
      return None;
    }
  }

  // ----- Tag paths -----

  function Prepended(t: string, ps: seq<seq<string>>): (r: seq<seq<string>>)
    ensures |r| == |ps|
  {
    seq(|ps|, i requires 0 <= i < |ps| => [t] + ps[i])
  }

  /** Every tag before every path: in lexicographic order if the paths are. */
  function Product(ts: seq<string>, ps: seq<seq<string>>): seq<seq<string>> {
    if ts == [] then [] else Prepended(ts[0], ps) + Product(ts[1..], ps)
  }

  function FieldPaths(f: Field, ts: seq<string>, rest: Addr): seq<seq<string>>
    decreases f
  {
    if f.kind.Nested? then Product(ts, Paths(f.kind.s, rest))
    else if rest == [] then Product(ts, [[]])
    else []
  }

  /** The ways to name the leaf at `a`: one tag for each struct on the way and one for the leaf itself. */
  function Paths(s: Struct, a: Addr): seq<seq<string>>
    decreases s
  {
    if a == [] || a[0] >= |s.fields| then []
    else FieldPaths(s.fields[a[0]], Tags(s.fields[a[0]]), a[1..])
  }

  function KindAt(s: Struct, a: Addr): Kind
    decreases s
  {
    if a == [] || a[0] >= |s.fields| then Map
    else FieldKindAt(s.fields[a[0]], a[1..])
  }

  function FieldKindAt(f: Field, rest: Addr): Kind
    decreases f
  {
    if f.kind.Nested? then KindAt(f.kind.s, rest) else f.kind
  }

  /** The tags of a path with dots between them. */
  function Dotted(p: seq<string>): string {
    if p == [] then "" else if |p| == 1 then p[0] else p[0] + "." + Dotted(p[1..])
  }

  function Keys(prefix: string, ps: seq<seq<string>>): (r: seq<string>)
    ensures |r| == |ps|
  {
    seq(|ps|, i requires 0 <= i < |ps| => prefix + Dotted(ps[i]))
  }

  function Visits(a: Addr, kind: Kind, keys: seq<string>): (r: seq<Visit>)
    ensures |r| == |keys|
  {
    seq(|keys|, i requires 0 <= i < |keys| => Visit(a, kind, keys[i]))
  }

  function AtAddr(xs: seq<Visit>, a: Addr): seq<Visit> {
    if xs == [] then [] else (if xs[0].a == a then [xs[0]] else []) + AtAddr(xs[1..], a)
  }

  lemma {:induction false} AtAddrConcat(xs: seq<Visit>, ys: seq<Visit>, a: Addr)
    ensures AtAddr(xs + ys, a) == AtAddr(xs, a) + AtAddr(ys, a)
  {
    if xs == [] {
      assert xs + ys == ys;
    } else {
      assert (xs + ys)[1..] == xs[1..] + ys;
      AtAddrConcat(xs[1..], ys, a);
    }
  }

  lemma {:induction false} AtAddrNone(xs: seq<Visit>, a: Addr)
    requires forall x :: x in xs ==> x.a != a
    ensures AtAddr(xs, a) == []
  {
    if xs != [] {
      assert xs[0] in xs;
      AtAddrNone(xs[1..], a);
    }
  }

  predicate Under(a: Addr, b: Addr) {
    a <= b
  }

  lemma {:induction false} WalkTagsUnder(f: Field, a: Addr, prefix: string, tags: seq<string>)
    ensures forall x :: x in WalkTags(f, a, prefix, tags) ==> Under(a, x.a)
    decreases f, |tags| + 1
  {
    if tags != [] {
      if f.kind.Nested? {
        WalkUnder(f.kind.s, 0, a, prefix + tags[0] + ".");
      }
      WalkTagsUnder(f, a, prefix, tags[1..]);
    }
  }

  lemma {:induction false} WalkUnder(s: Struct, i: nat, a: Addr, prefix: string)
    requires i <= |s.fields|
    ensures forall x :: x in Walk(s, i, a, prefix) ==> Under(a, x.a)
    decreases s, |s.fields| - i
  {
    if i < |s.fields| {
      WalkTagsUnder(s.fields[i], a + [i], prefix, Tags(s.fields[i]));
      WalkUnder(s, i + 1, a, prefix);
    }
  }

  lemma PathsProper(s: Struct, a: Addr)
    ensures forall p :: p in Paths(s, a) ==> p != []
  {
    if a != [] && a[0] < |s.fields| {
      var f := s.fields[a[0]];
      if f.kind.Nested? {
        ProductProper(Tags(f), Paths(f.kind.s, a[1..]));
      } else {
        ProductProper(Tags(f), [[]]);
      }
    }
  }

  lemma {:induction false} ProductProper(ts: seq<string>, ps: seq<seq<string>>)
    ensures forall p :: p in Product(ts, ps) ==> p != []
  {
    if ts != [] {
      ProductProper(ts[1..], ps);
    }
  }

  lemma KeysConcat(prefix: string, ps: seq<seq<string>>, qs: seq<seq<string>>)
    ensures Keys(prefix, ps + qs) == Keys(prefix, ps) + Keys(prefix, qs)
  {
  }

  lemma KeysPrepended(prefix: string, t: string, ps: seq<seq<string>>)
    requires forall p :: p in ps ==> p != []
    ensures Keys(prefix, Prepended(t, ps)) == Keys(prefix + t + ".", ps)
  {
    forall i | 0 <= i < |ps| ensures prefix + Dotted([t] + ps[i]) == prefix + t + "." + Dotted(ps[i]) {
      assert ps[i] in ps && ([t] + ps[i])[1..] == ps[i];
      assert Dotted([t] + ps[i]) == t + "." + Dotted(ps[i]);
      assert prefix + (t + "." + Dotted(ps[i])) == prefix + t + "." + Dotted(ps[i]);
    }
  }

  lemma VisitsConcat(a: Addr, kind: Kind, ks: seq<string>, ls: seq<string>)
    ensures Visits(a, kind, ks + ls) == Visits(a, kind, ks) + Visits(a, kind, ls)
  {
  }

  /** The visits of one field at an address below it. */
  lemma {:induction false} WalkTagsVisits(f: Field, a: Addr, prefix: string, tags: seq<string>, rest: Addr)
    ensures AtAddr(WalkTags(f, a, prefix, tags), a + rest)
         == Visits(a + rest, FieldKindAt(f, rest), Keys(prefix, FieldPaths(f, tags, rest)))
    decreases f, |tags| + 1
  {
    if tags == [] {
      assert FieldPaths(f, tags, rest) == [];
    } else {
      var key := prefix + tags[0];
      WalkTagVisits(f, a, prefix, tags[0], rest);
      WalkTagsVisits(f, a, prefix, tags[1..], rest);
      AtAddrConcat(WalkTag(f, a, key), WalkTags(f, a, prefix, tags[1..]), a + rest);
      FieldPathsUnfold(f, tags, rest);
      KeysConcat(prefix, FieldPaths(f, [tags[0]], rest), FieldPaths(f, tags[1..], rest));
      VisitsConcat(a + rest, FieldKindAt(f, rest), Keys(prefix, FieldPaths(f, [tags[0]], rest)),
                   Keys(prefix, FieldPaths(f, tags[1..], rest)));
    }
  }

  lemma FieldPathsUnfold(f: Field, tags: seq<string>, rest: Addr)
    requires tags != []
    ensures FieldPaths(f, tags, rest) == FieldPaths(f, [tags[0]], rest) + FieldPaths(f, tags[1..], rest)
  {
    ProductOfOne(tags[0], if f.kind.Nested? then Paths(f.kind.s, rest) else [[]]);
  }

  lemma ProductOfOne(t: string, ps: seq<seq<string>>)
    ensures Product([t], ps) == Prepended(t, ps)
  {
    assert Product([t][1..], ps) == [];
  }

  lemma {:induction false} WalkTagVisits(f: Field, a: Addr, prefix: string, tag: string, rest: Addr)
    ensures AtAddr(WalkTag(f, a, prefix + tag), a + rest)
         == Visits(a + rest, FieldKindAt(f, rest), Keys(prefix, FieldPaths(f, [tag], rest)))
    decreases f, 0
  {
    if f.kind.Nested? {
      WalkVisits(f.kind.s, 0, a, prefix + tag + ".", rest);
      ProductOfOne(tag, Paths(f.kind.s, rest));
      PathsProper(f.kind.s, rest);
      KeysPrepended(prefix, tag, Paths(f.kind.s, rest));
    } else if rest == [] {
      assert a + rest == a;
      ProductOfOne(tag, [[]]);
      assert [tag] + [] == [tag];
      assert Keys(prefix, FieldPaths(f, [tag], rest)) == [prefix + tag];
    } else {
      assert (a + rest) != a;
    }
  }

  /** The walk visits the leaf at an address once for every tag path to it, in lexicographic order. */
  lemma {:induction false} WalkVisits(s: Struct, i: nat, a: Addr, prefix: string, rel: Addr)
    requires i <= |s.fields|
    ensures AtAddr(Walk(s, i, a, prefix), a + rel)
         == if rel != [] && i <= rel[0] then Visits(a + rel, KindAt(s, rel), Keys(prefix, Paths(s, rel))) else []
    decreases s, |s.fields| - i
  {
    if i < |s.fields| {
      var f := s.fields[i];
      WalkVisits(s, i + 1, a, prefix, rel);
      AtAddrConcat(WalkTags(f, a + [i], prefix, Tags(f)), Walk(s, i + 1, a, prefix), a + rel);
      if rel != [] && rel[0] == i {
        assert a + rel == (a + [i]) + rel[1..];
        WalkTagsVisits(f, a + [i], prefix, Tags(f), rel[1..]);
      } else {
        WalkTagsUnder(f, a + [i], prefix, Tags(f));
        assert rel != [] ==> (a + rel)[|a|] == rel[0];
        assert !Under(a + [i], a + rel);
        AtAddrNone(WalkTags(f, a + [i], prefix, Tags(f)), a + rel);
      }
    }
  }

  // ----- What a leaf ends with -----

  /** The value of the last key that is set, or else the initial one. */
  function Last<T>(keys: seq<string>, isSet: string -> bool, value: string -> T, init: T): T {
    if keys == [] then init
    else
      var n := |keys| - 1;
      if isSet(keys[n]) then value(keys[n]) else Last(keys[..n], isSet, value, init)
  }

  lemma {:induction false} LastFirst<T>(keys: seq<string>, isSet: string -> bool, value: string -> T, init: T)
    requires keys != []
    ensures Last(keys, isSet, value, init)
         == Last(keys[1..], isSet, value, if isSet(keys[0]) then value(keys[0]) else init)
  {
    var n := |keys| - 1;
    if n > 0 && !isSet(keys[n]) {
      LastFirst(keys[..n], isSet, value, init);
      assert keys[1..][..n - 1] == keys[..n][1..];
    }
    assert n == 0 ==> keys[..n] == [];
  }

  function LastInt(v: Viper, w: Width, keys: seq<string>, init: int): int {
    Last(keys, (k: string) => v.getInt(k) != 0, (k: string) => Fit(w, v.getInt(k)), init)
  }

  function LastString(v: Viper, keys: seq<string>, init: string): string {
    Last(keys, (k: string) => v.getString(k) != "", v.getString, init)
  }

  function AnyBool(v: Viper, keys: seq<string>, init: bool): bool {
    init || exists k :: k in keys && v.getBool(k)
  }

  /** The two maps have the same value for the leaf at `a`. */
  predicate Same(m: Values, n: Values, a: Addr) {
    (a in m <==> a in n) && (a in m ==> m[a] == n[a])
  }

  lemma SetSame(v: Viper, m: Values, n: Values, x: Visit, a: Addr)
    requires Same(m, n, a)
    ensures x.a == a ==> Same(Set(v, m, x), Set(v, n, x), a)
    ensures x.a != a ==> Same(Set(v, m, x), n, a)
  {
  }

  /** Only the visits of a leaf matter to it. */
  lemma {:induction false} RunIsLocal(v: Viper, m: Values, n: Values, xs: seq<Visit>, a: Addr)
    requires Same(m, n, a) && Run(v, m, xs).err.None?
    ensures Run(v, n, AtAddr(xs, a)).err.None?
    ensures Same(Run(v, m, xs).vals, Run(v, n, AtAddr(xs, a)).vals, a)
    decreases |xs|
  {
    if xs != [] {
      SetSame(v, m, n, xs[0], a);
      if xs[0].a == a {
        RunIsLocal(v, Set(v, m, xs[0]), Set(v, n, xs[0]), xs[1..], a);
        assert AtAddr(xs, a)[1..] == AtAddr(xs[1..], a);
      } else {
        RunIsLocal(v, Set(v, m, xs[0]), n, xs[1..], a);
        assert AtAddr(xs, a) == AtAddr(xs[1..], a);
      }
    }
  }

  lemma VisitsUnfold(a: Addr, kind: Kind, keys: seq<string>)
    requires keys != []
    ensures Visits(a, kind, keys)[0] == Visit(a, kind, keys[0])
    ensures Visits(a, kind, keys)[1..] == Visits(a, kind, keys[1..])
  {
  }

  lemma {:induction false} IntVisits(v: Viper, vals: Values, a: Addr, w: Width, keys: seq<string>)
    ensures IntAt(Run(v, vals, Visits(a, Int(w), keys)).vals, a) == LastInt(v, w, keys, IntAt(vals, a))
    decreases |keys|
  {
    if keys != [] {
      VisitsUnfold(a, Int(w), keys);
      LastFirst(keys, (k: string) => v.getInt(k) != 0, (k: string) => Fit(w, v.getInt(k)), IntAt(vals, a));
      IntVisits(v, Set(v, vals, Visit(a, Int(w), keys[0])), a, w, keys[1..]);
    }
  }

  lemma {:induction false} StringVisits(v: Viper, vals: Values, a: Addr, keys: seq<string>)
    ensures StringAt(Run(v, vals, Visits(a, String, keys)).vals, a) == LastString(v, keys, StringAt(vals, a))
    decreases |keys|
  {
    if keys != [] {
      VisitsUnfold(a, String, keys);
      LastFirst(keys, (k: string) => v.getString(k) != "", v.getString, StringAt(vals, a));
      StringVisits(v, Set(v, vals, Visit(a, String, keys[0])), a, keys[1..]);
    }
  }

  lemma {:induction false} BoolVisits(v: Viper, vals: Values, a: Addr, keys: seq<string>)
    ensures BoolAt(Run(v, vals, Visits(a, Bool, keys)).vals, a) == AnyBool(v, keys, BoolAt(vals, a))
    decreases |keys|
  {
    if keys != [] {
      VisitsUnfold(a, Bool, keys);
      BoolVisits(v, Set(v, vals, Visit(a, Bool, keys[0])), a, keys[1..]);
      assert forall k :: k in keys <==> k == keys[0] || k in keys[1..];
    }
  }

  lemma {:induction false} MapVisits(v: Viper, vals: Values, a: Addr, keys: seq<string>)
    ensures Run(v, vals, Visits(a, Map, keys)).vals == vals
    decreases |keys|
  {
    if keys != [] {
      VisitsUnfold(a, Map, keys);
      MapVisits(v, vals, a, keys[1..]);
    }
  }

  function Populated(v: Viper, vals: Values, s: Struct): Outcome {
    Run(v, vals, Walk(s, 0, [], ""))
  }

  function KeysTo(s: Struct, a: Addr): seq<string> {
    Keys("", Paths(s, a))
  }

  /**
   After a walk without error: a number or a string is the last non-zero value looked up in lexicographic order of
   tag paths, or else what it was; a flag is set if it was or if any lookup is; a map is as it was, and so is
   anything that no tag path leads to.
   */
  lemma LeafValues(v: Viper, vals: Values, s: Struct, a: Addr)
    requires Populated(v, vals, s).err.None?
    ensures
      var after := Populated(v, vals, s).vals;
      var keys := KeysTo(s, a);
      && (KindAt(s, a).Int? ==> IntAt(after, a) == LastInt(v, KindAt(s, a).bits, keys, IntAt(vals, a)))
      && (KindAt(s, a).String? ==> StringAt(after, a) == LastString(v, keys, StringAt(vals, a)))
      && (KindAt(s, a).Bool? ==> BoolAt(after, a) == AnyBool(v, keys, BoolAt(vals, a)))
      && (KindAt(s, a).Map? || keys == [] ==> Same(after, vals, a))
  {
    LeafRun(v, vals, s, a);
    var keys := KeysTo(s, a);
    match KindAt(s, a)
    case Int(w) => IntVisits(v, vals, a, w, keys);
    case String => StringVisits(v, vals, a, keys);
    case Bool => BoolVisits(v, vals, a, keys);
    case Map => MapVisits(v, vals, a, keys);
    case _ =>
  }

  /** A leaf ends as if it alone had been visited, with its keys in order. */
  lemma LeafRun(v: Viper, vals: Values, s: Struct, a: Addr)
    requires Populated(v, vals, s).err.None?
    ensures Same(Populated(v, vals, s).vals, Run(v, vals, Visits(a, KindAt(s, a), KeysTo(s, a))).vals, a)
    ensures KeysTo(s, a) == [] ==> Run(v, vals, Visits(a, KindAt(s, a), KeysTo(s, a))).vals == vals
  {
    var xs := Walk(s, 0, [], "");
    RunIsLocal(v, vals, vals, xs, a);
    WalkVisits(s, 0, [], "", a);
    assert [] + a == a;
    assert AtAddr(xs, a) == Visits(a, KindAt(s, a), KeysTo(s, a));
  }

  /** The last lookup in order that is not zero. */
  lemma {:induction false} LastIsLast<T>(keys: seq<string>, isSet: string -> bool, value: string -> T, init: T)
    ensures (forall i :: 0 <= i < |keys| ==> !isSet(keys[i])) ==> Last(keys, isSet, value, init) == init
    ensures forall i :: 0 <= i < |keys| && isSet(keys[i]) && (forall j :: i < j < |keys| ==> !isSet(keys[j])) ==>
              Last(keys, isSet, value, init) == value(keys[i])
  {
    if keys != [] {
      LastIsLast(keys[..|keys| - 1], isSet, value, init);
    }
  }

  lemma LastAgain<T>(keys: seq<string>, isSet: string -> bool, value: string -> T, init: T)
    ensures Last(keys, isSet, value, Last(keys, isSet, value, init)) == Last(keys, isSet, value, init)
  {
    var again := Last(keys, isSet, value, init);
    LastIsLast(keys, isSet, value, init);
    LastIsLast(keys, isSet, value, again);
    if exists i :: 0 <= i < |keys| && isSet(keys[i]) {
      var i := LastSet(keys, isSet);
    }
  }

  lemma {:induction false} LastSet(keys: seq<string>, isSet: string -> bool) returns (i: nat)
    requires exists i :: 0 <= i < |keys| && isSet(keys[i])
    ensures i < |keys| && isSet(keys[i]) && forall j :: i < j < |keys| ==> !isSet(keys[j])
  {
    i := |keys| - 1;
    if !isSet(keys[i]) {
      i := LastSet(keys[..i], isSet);
    }
  }

  /** A number is stored as it is exactly when it is in the range of its field. */
  lemma FitsIffInRange(w: Width, n: int)
    ensures Fit(w, n) == n <==> (w.W64? || -0x8000_0000 <= n < 0x8000_0000)
    ensures w.W32? ==> -0x8000_0000 <= Fit(w, n) < 0x8000_0000 && (n - Fit(w, n)) % 0x1_0000_0000 == 0
  {
  }

  /**
   A number ends as the last non-zero lookup itself exactly when that lookup is in the range of the field; one that is
   too wide counts as set and stores its low bits, which may be zero.
   */
  lemma LastLookupItself(v: Viper, vals: Values, s: Struct, a: Addr, i: nat)
    requires Populated(v, vals, s).err.None? && KindAt(s, a).Int?
    requires var keys := KeysTo(s, a);
             i < |keys| && v.getInt(keys[i]) != 0 && forall j :: i < j < |keys| ==> v.getInt(keys[j]) == 0
    ensures var n := v.getInt(KeysTo(s, a)[i]);
            IntAt(Populated(v, vals, s).vals, a) == n <==>
              (KindAt(s, a).bits.W64? || -0x8000_0000 <= n < 0x8000_0000)
  {
    LeafValues(v, vals, s, a);
    var keys, w := KeysTo(s, a), KindAt(s, a).bits;
    LastIsLast(keys, (k: string) => v.getInt(k) != 0, (k: string) => Fit(w, v.getInt(k)), IntAt(vals, a));
    FitsIffInRange(w, v.getInt(keys[i]));
  }

  /** A lookup that is a multiple of 2 to the 32nd sets a narrow field to zero, whatever was looked up before. */
  lemma WideLookupStoresZero(v: Viper, keys: seq<string>, init: int)
    requires keys != [] && v.getInt(keys[|keys| - 1]) != 0 && v.getInt(keys[|keys| - 1]) % 0x1_0000_0000 == 0
    ensures LastInt(v, W32, keys, init) == 0
  {
    FitsIffInRange(W32, v.getInt(keys[|keys| - 1]));
  }

  /** Populating twice is populating once. */
  lemma PopulatingIsIdempotent(v: Viper, vals: Values, s: Struct, a: Addr)
    requires Populated(v, vals, s).err.None?
    ensures
      var once := Populated(v, vals, s).vals;
      var twice := Populated(v, once, s);
      && twice.err.None?
      && (KindAt(s, a).Int? ==> IntAt(twice.vals, a) == IntAt(once, a))
      && (KindAt(s, a).String? ==> StringAt(twice.vals, a) == StringAt(once, a))
      && (KindAt(s, a).Bool? ==> BoolAt(twice.vals, a) == BoolAt(once, a))
      && (KindAt(s, a).Map? ==> Same(twice.vals, once, a))
  {
    var once := Populated(v, vals, s).vals;
    ErrIff(v, vals, Walk(s, 0, [], ""));
    ErrIff(v, once, Walk(s, 0, [], ""));
    LeafValues(v, vals, s, a);
    LeafValues(v, once, s, a);
    var keys := KeysTo(s, a);
    match KindAt(s, a)
    case Int(w) => LastAgain(keys, (k: string) => v.getInt(k) != 0, (k: string) => Fit(w, v.getInt(k)), IntAt(vals, a));
    case String => LastAgain(keys, (k: string) => v.getString(k) != "", v.getString, StringAt(vals, a));
    case _ =>
  }

  lemma {:induction false} ErrIff(v: Viper, vals: Values, xs: seq<Visit>)
    ensures Run(v, vals, xs).err.Some? <==> exists x :: x in xs && x.kind.Unsupported?
    decreases |xs|
  {
    if xs != [] {
      ErrIff(v, Set(v, vals, xs[0]), xs[1..]);
      assert forall x :: x in xs <==> x == xs[0] || x in xs[1..];
    }
  }

  lemma {:induction false} AtAddrMembers(xs: seq<Visit>, a: Addr)
    ensures forall x :: x in AtAddr(xs, a) <==> x in xs && x.a == a
  {
    if xs != [] {
      AtAddrMembers(xs[1..], a);
      assert forall x :: x in xs <==> x == xs[0] || x in xs[1..];
    }
  }

  /** Populating fails exactly when some tag path leads to a field of an unsupported kind, whatever is looked up. */
  lemma FailsIffUnsupported(v: Viper, vals: Values, s: Struct)
    ensures Populated(v, vals, s).err.Some? <==> exists a :: KindAt(s, a).Unsupported? && Paths(s, a) != []
  {
    var xs := Walk(s, 0, [], "");
    ErrIff(v, vals, xs);
    forall a: Addr
      ensures AtAddr(xs, a) == Visits(a, KindAt(s, a), KeysTo(s, a))
    {
      WalkVisits(s, 0, [], "", a);
      assert [] + a == a;
    }
    if x :| x in xs && x.kind.Unsupported? {
      AtAddrMembers(xs, x.a);
      assert x in AtAddr(xs, x.a);
      assert KindAt(s, x.a).Unsupported? && Paths(s, x.a) != [];
    }
    if a :| KindAt(s, a).Unsupported? && Paths(s, a) != [] {
      AtAddrMembers(xs, a);
      assert Visits(a, KindAt(s, a), KeysTo(s, a))[0] in AtAddr(xs, a);
    }
  }
}
