/**
 Substituting what an expression matches: replacing one matched text after the other, each
 everywhere, against replacing all matches in one scan from left to right.

 The scan is that of Go's `FindAllStringSubmatch`, the replacement that of `strings.ReplaceAll`.
 */
module Substitution {
  import opened Wrappers

  /** One match: the whole text and the part that was captured. */
  datatype Match = Match(text: string, name: string)

  /** The match at the very start of a string. */
  type Matcher = string -> Option<Match>

  /** The text of `m` is matched as a whole when it stands alone. */
  predicate IsMatch(f: Matcher, m: Match) {
    f(m.text) == Some(m)
  }

  /** The text of `m` is matched as a whole when `rest` follows. */
  predicate MatchesBefore(f: Matcher, m: Match, rest: string) {
    f(m.text + rest) == Some(m)
  }

  /** Every match starts with `open`, and what follows it has no influence on it. */
  ghost predicate Local(open: string, f: Matcher) {
    && open != ""
    && (forall s :: f(s).Some? ==> open <= f(s).value.text <= s && IsMatch(f, f(s).value))
    && (forall m, rest {:trigger MatchesBefore(f, m, rest)} :: IsMatch(f, m) ==> MatchesBefore(f, m, rest))
  }

  /** Leftmost matches that do not overlap. */
  function FindAll(open: string, f: Matcher, s: string): seq<Match>
    requires Local(open, f)
    decreases |s|
  {
    if s == "" then []
    else if f(s).Some? then [f(s).value] + FindAll(open, f, s[|f(s).value.text|..])
    else FindAll(open, f, s[1..])
  }

  function ReplaceAll(s: string, text: string, value: string): string
    requires text != ""
    decreases |s|
  {
    if s == "" then ""
    else if text <= s then value + ReplaceAll(s[|text|..], text, value)
    else [s[0]] + ReplaceAll(s[1..], text, value)
  }

  /** What replacing the texts of `ms` one after the other makes of `s`. */
  function Sequential(s: string, ms: seq<Match>, values: map<string, string>): string
    requires forall m :: m in ms ==> m.text != ""
  {
    if ms == [] then s
    else
      var m := ms[|ms| - 1];
      var result := Sequential(s, ms[..|ms| - 1], values);
      if m.name in values then ReplaceAll(result, m.text, values[m.name]) else result
  }

  function Value(m: Match, values: map<string, string>): string {
    if m.name in values then values[m.name] else m.text
  }

  /** The reference: one scan from left to right that leaves unknown names verbatim. */
  function Simultaneous(open: string, f: Matcher, s: string, values: map<string, string>): string
    requires Local(open, f)
    decreases |s|
  {
    if s == "" then ""
    else if f(s).Some? then
      Value(f(s).value, values) + Simultaneous(open, f, s[|f(s).value.text|..], values)
    else [s[0]] + Simultaneous(open, f, s[1..], values)
  }

  // ----- Text in which nothing can begin -----

  /** No `open` starts inside `s`, whatever follows `s`. */
  predicate Quiet(open: string, s: string) {
    forall i :: 0 <= i < |s| ==> !Begins(open, s[i..])
  }

  predicate Begins(open: string, s: string) {
    open <= s || s <= open
  }

  lemma QuietHead(open: string, s: string, rest: string)
    requires s != "" && Quiet(open, s)
    ensures Quiet(open, s[1..]) && (s + rest)[1..] == s[1..] + rest && !(open <= s + rest)
  {
    forall i | 0 <= i < |s[1..]| ensures !Begins(open, s[1..][i..]) {
      assert s[1..][i..] == s[i + 1..];
    }
    assert !Begins(open, s[0..]) && s[0..] == s;
  }

  lemma {:induction false} QuietReplace(open: string, s: string, rest: string, text: string, value: string)
    requires Quiet(open, s) && open != "" && open <= text
    ensures ReplaceAll(s + rest, text, value) == s + ReplaceAll(rest, text, value)
  {
    if s == "" {
      assert s + rest == rest;
    } else {
      QuietHead(open, s, rest);
      QuietReplace(open, s[1..], rest, text, value);
      assert [s[0]] + (s[1..] + ReplaceAll(rest, text, value)) == s + ReplaceAll(rest, text, value);
    }
  }

  lemma {:induction false} QuietFind(open: string, f: Matcher, s: string, rest: string)
    requires Local(open, f) && Quiet(open, s)
    ensures FindAll(open, f, s + rest) == FindAll(open, f, rest)
  {
    if s == "" {
      assert s + rest == rest;
    } else {
      QuietHead(open, s, rest);
      QuietFind(open, f, s[1..], rest);
    }
  }

  lemma {:induction false} QuietScan(open: string, f: Matcher, s: string, rest: string, values: map<string, string>)
    requires Local(open, f) && Quiet(open, s)
    ensures Simultaneous(open, f, s + rest, values) == s + Simultaneous(open, f, rest, values)
  {
    if s == "" {
      assert s + rest == rest;
    } else {
      QuietHead(open, s, rest);
      QuietScan(open, f, s[1..], rest, values);
      Regrouped([s[0]], s[1..], Simultaneous(open, f, rest, values));
      assert [s[0]] + s[1..] == s;
    }
  }

  // ----- Commands printed from tokens -----

  datatype Token = Literal(text: string) | Placeholder(m: Match)

  predicate ValidToken(open: string, f: Matcher, t: Token) {
    match t
    case Literal(text) => Quiet(open, text)
    case Placeholder(m) => IsMatch(f, m) && m.text != "" && Quiet(open, m.text[1..])
  }

  /** Neither a literal nor the inside of a placeholder can begin a placeholder. */
  ghost predicate AllValid(open: string, f: Matcher, ts: seq<Token>) {
    Local(open, f) && forall t :: t in ts ==> ValidToken(open, f, t)
  }

  /** The name of the placeholder has a value. */
  predicate Known(m: Match, values: map<string, string>) {
    m.name in values
  }

  /** The text of `m` cannot begin in the value of `a`, unless replacing it changes nothing. */
  predicate Harmless(a: Match, m: Match, values: map<string, string>) {
    Known(a, values) && Known(m, values) && values[m.name] != m.text ==> Quiet(m.text, values[a.name])
  }

  /** Valid tokens of which no known one can begin in the value of another or its own. */
  ghost predicate ValidTokens(open: string, f: Matcher, ts: seq<Token>, values: map<string, string>) {
    && AllValid(open, f, ts)
    && forall a, m :: Placeholder(a) in ts && Placeholder(m) in ts ==> Harmless(a, m, values)
  }

  function Placeholders(ts: seq<Token>): seq<Match> {
    if ts == [] then []
    else (if ts[0].Placeholder? then [ts[0].m] else []) + Placeholders(ts[1..])
  }

  /** The text in which the placeholder texts in `done` have been replaced. */
  function Rendered(ts: seq<Token>, done: set<string>, values: map<string, string>): string {
    if ts == [] then "" else RenderedToken(ts[0], done, values) + Rendered(ts[1..], done, values)
  }

  function RenderedToken(t: Token, done: set<string>, values: map<string, string>): string {
    match t
    case Literal(text) => text
    case Placeholder(m) => if m.text in done then Value(m, values) else m.text
  }

  function Print(ts: seq<Token>): string {
    Rendered(ts, {}, map[])
  }

  function Texts(ms: seq<Match>): set<string> {
    set m | m in ms :: m.text
  }

  /** Scanning steps over a placeholder as a whole. */
  lemma ScanPlaceholder(open: string, f: Matcher, m: Match, rest: string, values: map<string, string>)
    requires Local(open, f) && IsMatch(f, m)
    ensures FindAll(open, f, m.text + rest) == [m] + FindAll(open, f, rest)
    ensures Simultaneous(open, f, m.text + rest, values) == Value(m, values) + Simultaneous(open, f, rest, values)
  {
    assert MatchesBefore(f, m, rest);
    assert open <= m.text;
    assert (m.text + rest)[|m.text|..] == rest;
  }

  /** Scanning a printed command finds its placeholders, in order. */
  lemma {:induction false} ScanPrinted(open: string, f: Matcher, ts: seq<Token>, values: map<string, string>,
                                       all: set<string>)
    requires Local(open, f) && forall t :: t in ts ==> ValidToken(open, f, t)
    requires forall m :: m in Placeholders(ts) ==> m.text in all
    ensures FindAll(open, f, Print(ts)) == Placeholders(ts)
    ensures Simultaneous(open, f, Print(ts), values) == Rendered(ts, all, values)
  {
    if ts != [] {
      assert ValidToken(open, f, ts[0]);
      ScanPrinted(open, f, ts[1..], values, all);
      if ts[0].Literal? {
        QuietFind(open, f, ts[0].text, Print(ts[1..]));
        QuietScan(open, f, ts[0].text, Print(ts[1..]), values);
        assert Placeholders(ts) == Placeholders(ts[1..]);
      } else {
        ScanPlaceholder(open, f, ts[0].m, Print(ts[1..]), values);
        assert ts[0].m in Placeholders(ts);
      }
    }
  }

  /** Two placeholders at the same place are the same. */
  lemma SameMatch(open: string, f: Matcher, m: Match, n: Match, rest: string)
    requires Local(open, f) && IsMatch(f, m) && IsMatch(f, n)
    requires n.text <= m.text + rest
    ensures m == n
  {
    var s := m.text + rest;
    assert s == n.text + s[|n.text|..];
    assert MatchesBefore(f, m, rest) && MatchesBefore(f, n, s[|n.text|..]);
  }

  /** The text of another placeholder is left alone. */
  lemma ReplaceOther(open: string, f: Matcher, n: Match, rest: string, m: Match, value: string)
    requires Local(open, f) && IsMatch(f, m) && m.text != "" && m != n && ValidToken(open, f, Placeholder(n))
    ensures ReplaceAll(n.text + rest, m.text, value) == n.text + ReplaceAll(rest, m.text, value)
  {
    var s, tail := n.text, n.text[1..];
    if m.text <= s + rest {
      SameMatch(open, f, n, m, rest);
    }
    assert (s + rest)[1..] == tail + rest;
    assert open <= m.text;
    QuietReplace(open, tail, rest, m.text, value);
    assert [s[0]] + (tail + ReplaceAll(rest, m.text, value)) == s + ReplaceAll(rest, m.text, value);
  }

  lemma ReplaceSame(text: string, rest: string, value: string)
    requires text != ""
    ensures ReplaceAll(text + rest, text, value) == value + ReplaceAll(rest, text, value)
  {
    assert (text + rest)[|text|..] == rest;
  }

  lemma {:induction false} ReplaceByItself(s: string, text: string)
    requires text != ""
    ensures ReplaceAll(s, text, text) == s
    decreases |s|
  {
    if s != "" {
      if text <= s {
        ReplaceByItself(s[|text|..], text);
        assert s == text + s[|text|..];
      } else {
        ReplaceByItself(s[1..], text);
        assert s == [s[0]] + s[1..];
      }
    }
  }

  lemma {:induction false} ItselfStays(f: Matcher, ts: seq<Token>, done: set<string>, values: map<string, string>,
                                       m: Match)
    requires forall t :: t in ts && t.Placeholder? ==> IsMatch(f, t.m)
    requires IsMatch(f, m) && Value(m, values) == m.text
    ensures Rendered(ts, done, values) == Rendered(ts, done + {m.text}, values)
  {
    if ts != [] {
      assert ts[0] in ts;
      ItselfStays(f, ts[1..], done, values, m);
    }
  }

  /** Replacing one placeholder text everywhere hits exactly the placeholders that print as it. */
  lemma {:induction false} ReplaceRendered(open: string, f: Matcher, ts: seq<Token>, done: set<string>,
                                           values: map<string, string>, m: Match)
    requires AllValid(open, f, ts) && IsMatch(f, m) && m.text != "" && Known(m, values)
    requires forall a :: Placeholder(a) in ts && Known(a, values) ==> Quiet(m.text, values[a.name])
    ensures ReplaceAll(Rendered(ts, done, values), m.text, values[m.name]) == Rendered(ts, done + {m.text}, values)
  {
    if ts != [] {
      var rest := Rendered(ts[1..], done, values);
      var value := values[m.name];
      assert ts[0] in ts && ValidToken(open, f, ts[0]);
      ReplaceRendered(open, f, ts[1..], done, values, m);
      assert open <= m.text;
      match ts[0] {
        case Literal(text) =>
          QuietReplace(open, text, rest, m.text, value);
        case Placeholder(n) =>
          if n.text in done && n.name in values {
            QuietReplace(m.text, values[n.name], rest, m.text, value);
          } else if n == m {
            ReplaceSame(m.text, rest, value);
          } else {
            ReplaceOther(open, f, n, rest, m, value);
            assert n.text != m.text;
          }
      }
    }
  }

  lemma {:induction false} PrintedIsRendered(ts: seq<Token>, values: map<string, string>)
    ensures Print(ts) == Rendered(ts, {}, values)
  {
    if ts != [] {
      PrintedIsRendered(ts[1..], values);
    }
  }

  /** One round of the loop. */
  lemma RoundRenders(open: string, f: Matcher, ts: seq<Token>, done: set<string>, values: map<string, string>, m: Match)
    requires ValidTokens(open, f, ts, values) && Placeholder(m) in ts && m.text != ""
    ensures Rendered(ts, done + {m.text}, values) ==
            var result := Rendered(ts, done, values);
            if m.name in values then ReplaceAll(result, m.text, values[m.name]) else result
  {
    assert ValidToken(open, f, Placeholder(m));
    assert forall t :: t in ts && t.Placeholder? ==> ValidToken(open, f, t);
    if Known(m, values) && values[m.name] != m.text {
      forall a | Placeholder(a) in ts && Known(a, values) ensures Quiet(m.text, values[a.name]) {
        assert Harmless(a, m, values);
      }
      ReplaceRendered(open, f, ts, done, values, m);
    } else {
      ItselfStays(f, ts, done, values, m);
      ReplaceByItself(Rendered(ts, done, values), m.text);
    }
  }

  lemma {:induction false} SequentialRenders(open: string, f: Matcher, ts: seq<Token>, ms: seq<Match>,
                                             values: map<string, string>)
    requires ValidTokens(open, f, ts, values)
    requires forall m :: m in ms ==> Placeholder(m) in ts && m.text != ""
    ensures Sequential(Print(ts), ms, values) == Rendered(ts, Texts(ms), values)
    decreases |ms|
  {
    if ms == [] {
      PrintedIsRendered(ts, values);
      assert Texts(ms) == {};
    } else {
      var front, m := ms[..|ms| - 1], ms[|ms| - 1];
      SequentialRenders(open, f, ts, front, values);
      assert ms == front + [m];
      assert Texts(ms) == Texts(front) + {m.text};
      RoundRenders(open, f, ts, Texts(front), values, m);
    }
  }

  lemma {:induction false} PlaceholdersValid(open: string, f: Matcher, ts: seq<Token>)
    requires forall t :: t in ts ==> ValidToken(open, f, t)
    ensures forall m :: m in Placeholders(ts) ==> Placeholder(m) in ts && IsMatch(f, m) && m.text != ""
  {
    if ts != [] {
      assert ValidToken(open, f, ts[0]);
      PlaceholdersValid(open, f, ts[1..]);
    }
  }

  lemma {:induction false} FoundNonEmpty(open: string, f: Matcher, s: string)
    requires Local(open, f)
    ensures forall m :: m in FindAll(open, f, s) ==> m.text != ""
    decreases |s|
  {
    if s != "" {
      FoundNonEmpty(open, f, if f(s).Some? then s[|f(s).value.text|..] else s[1..]);
    }
  }

  /**
   The loop of replacements is one simultaneous substitution that leaves unknown names verbatim, for
   every command printed from valid tokens.
   */
  lemma SequentialIsSimultaneous(open: string, f: Matcher, ts: seq<Token>, values: map<string, string>)
    requires ValidTokens(open, f, ts, values)
    ensures var s, ms := Print(ts), FindAll(open, f, Print(ts));
            && ms == Placeholders(ts)
            && (forall m :: m in ms ==> m.text != "")
            && Sequential(s, ms, values) == Simultaneous(open, f, s, values)
            && Sequential(s, ms, values) == Rendered(ts, Texts(ms), values)
  {
    ScanPrinted(open, f, ts, values, Texts(Placeholders(ts)));
    PlaceholdersValid(open, f, ts);
    SequentialRenders(open, f, ts, Placeholders(ts), values);
  }

  /** A placeholder between two texts in which nothing begins is the only match. */
  lemma FoundBetween(open: string, f: Matcher, pre: string, m: Match, post: string)
    requires Local(open, f) && Quiet(open, pre) && Quiet(open, post) && IsMatch(f, m)
    ensures FindAll(open, f, pre + (m.text + post)) == [m]
  {
    QuietFind(open, f, pre, m.text + post);
    SkippedTo(open, f, m, post);
  }

  lemma SkippedTo(open: string, f: Matcher, m: Match, post: string)
    requires Local(open, f) && Quiet(open, post) && IsMatch(f, m)
    ensures FindAll(open, f, m.text + post) == [m]
  {
    ScanPlaceholder(open, f, m, post, map[]);
    QuietFind(open, f, post, "");
    assert post + "" == post;
  }

  lemma ReplacedBetween(open: string, pre: string, text: string, post: string, value: string)
    requires Quiet(open, pre) && Quiet(open, post) && open != "" && open <= text
    ensures ReplaceAll(pre + (text + post), text, value) == pre + (value + post)
  {
    QuietReplace(open, pre, text + post, text, value);
    ReplaceSame(text, post, value);
    QuietReplace(open, post, "", text, value);
    assert post + "" == post;
  }

  // ----- Exactly which values are safe -----

  /** No known placeholder can begin in any known value. */
  ghost predicate AllHarmless(open: string, f: Matcher, values: map<string, string>) {
    forall a, m :: ValidToken(open, f, Placeholder(a)) && ValidToken(open, f, Placeholder(m)) ==> Harmless(a, m, values)
  }

  function Loop(open: string, f: Matcher, s: string, values: map<string, string>): string
    requires Local(open, f)
  {
    FoundNonEmpty(open, f, s);
    Sequential(s, FindAll(open, f, s), values)
  }

  /** With one placeholder there is nothing that a value could complete. */
  lemma LoopBetween(open: string, f: Matcher, pre: string, m: Match, post: string, values: map<string, string>)
    requires Local(open, f) && Quiet(open, pre) && Quiet(open, post) && IsMatch(f, m) && m.text != ""
    ensures var s := pre + (m.text + post);
            Loop(open, f, s, values) == if m.name in values then pre + (values[m.name] + post) else s
  {
    FoundBetween(open, f, pre, m, post);
    assert open <= m.text;
    if m.name in values {
      ReplacedBetween(open, pre, m.text, post, values[m.name]);
    }
    SequentialOne(pre + (m.text + post), m, values);
  }

  lemma SequentialOne(s: string, m: Match, values: map<string, string>)
    requires m.text != ""
    ensures Sequential(s, [m], values) == if m.name in values then ReplaceAll(s, m.text, values[m.name]) else s
  {
    assert [m][..0] == [];
  }

  /** The loop is one substitution for every command printed from valid tokens. */
  ghost predicate AlwaysOnce(open: string, f: Matcher, values: map<string, string>)
    requires Local(open, f)
  {
    forall ts :: AllValid(open, f, ts) ==> Loop(open, f, Print(ts), values) == Simultaneous(open, f, Print(ts), values)
  }

  lemma {:induction false} ReplaceGrows(s: string, text: string, value: string)
    requires text != ""
    ensures |text| <= |value| ==> |s| <= |ReplaceAll(s, text, value)|
    ensures |text| >= |value| ==> |s| >= |ReplaceAll(s, text, value)|
    decreases |s|
  {
    if s != "" {
      ReplaceGrows(if text <= s then s[|text|..] else s[1..], text, value);
    }
  }

  /** Replacing a text that occurs by another one shows. */
  lemma {:induction false} ReplaceChanges(s: string, text: string, value: string, i: nat)
    requires text != "" && value != text && i <= |s| && text <= s[i..]
    ensures ReplaceAll(s, text, value) != s
    decreases |s|
  {
    if text <= s {
      var rest := s[|text|..];
      ReplaceGrows(rest, text, value);
      assert s == text + rest;
      if |value| == |text| {
        assert (value + ReplaceAll(rest, text, value))[..|text|] == value;
      }
    } else {
      assert s[0..] == s && i > 0;
      assert s[1..][i - 1..] == s[i..];
      ReplaceChanges(s[1..], text, value, i - 1);
      assert s == [s[0]] + s[1..];
      assert ReplaceAll(s, text, value)[1..] == ReplaceAll(s[1..], text, value);
    }
  }

  /** A text that cannot begin in its own tail is found again behind any other text. */
  lemma {:induction false} ReplaceLast(x: string, text: string, value: string)
    requires text != "" && Quiet(text, text[1..])
    ensures ReplaceAll(x + text, text, value) == ReplaceAll(x, text, value) + value
    decreases |x|
  {
    if x == "" {
      assert x + text == text == text + "";
      ReplaceSame(text, "", value);
      assert "" + value == value == value + "";
    } else if text <= x {
      var rest := x[|text|..];
      assert (x + text)[|text|..] == rest + text;
      ReplaceLast(rest, text, value);
      Regrouped(value, ReplaceAll(rest, text, value), value);
    } else {
      NotAcross(x, text);
      assert (x + text)[1..] == x[1..] + text;
      ReplaceLast(x[1..], text, value);
      Regrouped([x[0]], ReplaceAll(x[1..], text, value), value);
    }
  }

  lemma Regrouped(a: string, b: string, c: string)
    ensures a + (b + c) == (a + b) + c
  {
  }

  lemma NotAcross(x: string, text: string)
    requires x != "" && text != "" && Quiet(text, text[1..]) && !(text <= x)
    ensures !(text <= x + text)
  {
    if |text| > |x| {
      assert text[|x|..] == text[1..][|x| - 1..];
      assert !Begins(text, text[|x|..]);
      assert (x + text)[..|text|][|x|..] == text[..|text| - |x|];
    } else {
      assert (x + text)[..|text|] == x[..|text|];
    }
  }

  lemma QuietPart(open: string, s: string, i: nat)
    requires Quiet(open, s) && i <= |s|
    ensures Quiet(open, s[i..])
  {
    forall k | 0 <= k < |s[i..]| ensures !Begins(open, s[i..][k..]) {
      assert s[i..][k..] == s[i + k..];
    }
  }

  lemma BeginsLess(open: string, text: string, w: string)
    requires open <= text
    ensures Begins(text, w) ==> Begins(open, w)
  {
    if w <= text && |w| > |open| {
      assert open == text[..|open|] && w == text[..|w|];
      assert w[..|open|] == open;
    }
  }

  /** Where `open` cannot begin, no text that starts with it can. */
  lemma QuietLonger(open: string, text: string, s: string)
    requires Quiet(open, s) && open <= text
    ensures Quiet(text, s)
  {
    forall i | 0 <= i < |s| ensures !Begins(text, s[i..]) {
      assert !Begins(open, s[i..]);
      BeginsLess(open, text, s[i..]);
    }
  }

  lemma Completes(v: string, k: nat, text: string)
    requires k <= |v| && v[k..] <= text
    ensures (v + text[|v| - k..])[k..] == text
  {
  }

  /** The literal that completes the text of `m` where it begins in a value. */
  lemma Completion(open: string, text: string, v: string) returns (i: nat, r: string)
    requires text != "" && Quiet(open, text[1..]) && !Quiet(text, v)
    ensures Quiet(open, r) && i <= |v| && text <= (v + r)[i..]
  {
    i :| 0 <= i < |v| && Begins(text, v[i..]);
    if text <= v[i..] {
      r := "";
      assert v + r == v;
    } else {
      var d := |v| - i;
      r := text[d..];
      QuietPart(open, text[1..], d - 1);
      assert text[1..][d - 1..] == r;
      Completes(v, i, text);
    }
  }

  lemma RenderedThree(x: Token, y: Token, z: Token, done: set<string>, values: map<string, string>)
    ensures Rendered([x, y, z], done, values)
         == RenderedToken(x, done, values) + (RenderedToken(y, done, values) + RenderedToken(z, done, values))
  {
    assert [x, y, z][1..] == [y, z] && [y, z][1..] == [z] && [z][1..] == [];
    assert RenderedToken(z, done, values) + "" == RenderedToken(z, done, values);
    assert Rendered([z], done, values) == RenderedToken(z, done, values);
    assert Rendered([y, z], done, values) == RenderedToken(y, done, values) + RenderedToken(z, done, values);
  }

  lemma PlaceholdersOfThree(a: Match, r: string, m: Match)
    ensures Placeholders([Placeholder(a), Literal(r), Placeholder(m)]) == [a, m]
  {
    var ts := [Placeholder(a), Literal(r), Placeholder(m)];
    assert ts[1..] == [Literal(r), Placeholder(m)] && ts[1..][1..] == [Placeholder(m)] && ts[1..][1..][1..] == [];
    assert Placeholders(ts[1..][1..]) == [m];
    assert Placeholders(ts[1..]) == [m];
  }

  lemma ThreeTokens(open: string, f: Matcher, a: Match, r: string, m: Match, values: map<string, string>)
    requires Local(open, f) && Quiet(open, r)
    requires ValidToken(open, f, Placeholder(a)) && ValidToken(open, f, Placeholder(m))
    ensures var ts := [Placeholder(a), Literal(r), Placeholder(m)];
            && AllValid(open, f, ts) && Print(ts) == a.text + (r + m.text)
            && FindAll(open, f, Print(ts)) == [a, m]
            && Simultaneous(open, f, Print(ts), values) == Value(a, values) + (r + Value(m, values))
  {
    var ts := [Placeholder(a), Literal(r), Placeholder(m)];
    assert ValidToken(open, f, Literal(r));
    PlaceholdersOfThree(a, r, m);
    RenderedThree(ts[0], ts[1], ts[2], {}, map[]);
    RenderedThree(ts[0], ts[1], ts[2], {a.text, m.text}, values);
    ScanPrinted(open, f, ts, values, {a.text, m.text});
  }

  lemma FirstRound(open: string, f: Matcher, a: Match, r: string, m: Match, v: string)
    requires Local(open, f) && Quiet(open, r)
    requires ValidToken(open, f, Placeholder(a)) && ValidToken(open, f, Placeholder(m))
    ensures ReplaceAll(a.text + (r + m.text), a.text, v) == v + (r + (if a == m then v else m.text))
  {
    ReplaceSame(a.text, r + m.text, v);
    assert open <= a.text;
    QuietReplace(open, r, m.text, a.text, v);
    assert m.text == m.text + "" && v + "" == v;
    if a == m {
      ReplaceSame(a.text, "", v);
    } else {
      ReplaceOther(open, f, m, "", a, v);
    }
  }

  /** What the second round makes of the first one's result is not what one substitution gives. */
  lemma SecondRound(v: string, r: string, text: string, val: string, i: nat, again: bool)
    requires text != "" && Quiet(text, text[1..]) && val != text && (again ==> val == v)
    requires i <= |v| && text <= (v + r)[i..]
    ensures ReplaceAll(v + (r + (if again then v else text)), text, val) != v + (r + val)
  {
    var x := v + r;
    if again {
      assert (x + v)[i..][..|text|] == x[i..][..|text|];
      assert v + (r + v) == x + v;
      ReplaceChanges(x + v, text, v, i);
    } else {
      assert v + (r + text) == x + text && v + (r + val) == x + val;
      ReplaceLast(x, text, val);
      ReplaceChanges(x, text, val, i);
      SameEnding(ReplaceAll(x, text, val), x, val);
    }
  }

  lemma SameEnding(x: string, y: string, end: string)
    requires x != y
    ensures x + end != y + end
  {
    if |x| == |y| {
      var k :| 0 <= k < |x| && x[k] != y[k];
      assert (x + end)[k] != (y + end)[k];
    }
  }

  lemma SequentialOfTwo(s: string, a: Match, m: Match, values: map<string, string>)
    requires a.text != "" && m.text != "" && Known(a, values) && Known(m, values)
    ensures Sequential(s, [a, m], values) == ReplaceAll(ReplaceAll(s, a.text, values[a.name]), m.text, values[m.name])
  {
    assert [a, m][..1] == [a] && [a][..0] == [];
    assert Sequential(s, [a], values) == ReplaceAll(s, a.text, values[a.name]);
  }

  /** If a known placeholder can begin in a known value, some command tells the loop from one substitution. */
  lemma HarmShows(open: string, f: Matcher, a: Match, m: Match, values: map<string, string>) returns (ts: seq<Token>)
    requires Local(open, f) && ValidToken(open, f, Placeholder(a)) && ValidToken(open, f, Placeholder(m))
    requires !Harmless(a, m, values)
    ensures AllValid(open, f, ts)
    ensures Loop(open, f, Print(ts), values) != Simultaneous(open, f, Print(ts), values)
  {
    var v, val := values[a.name], values[m.name];
    var i, r := Completion(open, m.text, v);
    ts := [Placeholder(a), Literal(r), Placeholder(m)];
    ThreeTokens(open, f, a, r, m, values);
    SequentialOfTwo(Print(ts), a, m, values);
    FirstRound(open, f, a, r, m, v);
    SelfQuiet(open, f, m);
    SecondRound(v, r, m.text, val, i, a == m);
  }

  lemma SelfQuiet(open: string, f: Matcher, m: Match)
    requires Local(open, f) && ValidToken(open, f, Placeholder(m))
    ensures Quiet(m.text, m.text[1..])
  {
    assert open <= m.text;
    QuietLonger(open, m.text, m.text[1..]);
  }

  /**
   The loop is one left-to-right substitution for all commands exactly if no known placeholder whose value is not its
   own text can begin in a known value.
   */
  lemma AlwaysOnceIffHarmless(open: string, f: Matcher, values: map<string, string>)
    requires Local(open, f)
    ensures AlwaysOnce(open, f, values) <==> AllHarmless(open, f, values)
  {
    if AllHarmless(open, f, values) {
      forall ts | AllValid(open, f, ts)
        ensures Loop(open, f, Print(ts), values) == Simultaneous(open, f, Print(ts), values)
      {
        forall a, m | Placeholder(a) in ts && Placeholder(m) in ts ensures Harmless(a, m, values) {
          assert ValidToken(open, f, Placeholder(a)) && ValidToken(open, f, Placeholder(m));
        }
        SequentialIsSimultaneous(open, f, ts, values);
      }
    } else {
      var a, m :| ValidToken(open, f, Placeholder(a)) && ValidToken(open, f, Placeholder(m)) && !Harmless(a, m, values);
      var ts := HarmShows(open, f, a, m, values);
    }
  }

  /** The text of an unknown placeholder does no harm as a value. */
  lemma UnknownIsHarmless(open: string, f: Matcher, u: Match, m: Match)
    requires Local(open, f) && ValidToken(open, f, Placeholder(u)) && ValidToken(open, f, Placeholder(m)) && u != m
    ensures Quiet(m.text, u.text)
  {
    assert open <= m.text;
    QuietLonger(open, m.text, u.text[1..]);
    forall i | 0 <= i < |u.text| ensures !Begins(m.text, u.text[i..]) {
      if i == 0 {
        assert u.text[0..] == u.text;
        if m.text <= u.text {
          assert u.text + "" == u.text;
          SameMatch(open, f, u, m, "");
        }
        if u.text <= m.text {
          assert m.text + "" == m.text;
          SameMatch(open, f, m, u, "");
        }
      } else {
        assert u.text[i..] == u.text[1..][i - 1..];
      }
    }
  }

  /** With the text of `b` as the value of `a`, the sequential result differs from the simultaneous one. */
  ghost predicate SubstitutedAgain(open: string, f: Matcher, a: Match, b: Match)
    requires Local(open, f)
  {
    var s, values := a.text + b.text, map[a.name := b.text, b.name := "x"];
    && FindAll(open, f, s) == [a, b] && a.text != "" && b.text != ""
    && Sequential(s, [a, b], values) == "xx"
    && Simultaneous(open, f, s, values) == b.text + "x"
    && b.text + "x" != "xx"
  }

  /** A value that is itself a placeholder text is replaced in its turn. */
  lemma ReplacedTwice(open: string, f: Matcher, a: Match, b: Match)
    requires Local(open, f) && ValidToken(open, f, Placeholder(a)) && ValidToken(open, f, Placeholder(b))
    requires a.name != b.name && |open| > 1
    ensures SubstitutedAgain(open, f, a, b)
  {
    var values := map[a.name := b.text, b.name := "x"];
    assert [a, b][..1] == [a] && [a][..0] == [];
    assert b.text + "" == b.text;
    ScanPlaceholder(open, f, a, b.text, values);
    ScanPlaceholder(open, f, b, "", values);
    ReplaceSame(a.text, b.text, b.text);
    ReplaceOther(open, f, b, "", a, b.text);
    ReplaceSame(b.text, b.text, "x");
    ReplaceSame(b.text, "", "x");
    assert Sequential(a.text + b.text, [a], values) == b.text + b.text;
    assert open <= b.text;
  }
}
