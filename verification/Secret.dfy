/**
 Substitution of `${{ secrets.NAME }}` placeholders: pkg/secret/secret.go and the expression of
 pkg/global/nucleusconstants.go.

 The code replaces one placeholder text after the other, each everywhere in the command.  That this
 equals one left-to-right substitution is not obvious: an earlier value could complete a later
 placeholder.
 */
module Secret {
  import opened Wrappers
  import opened Substitution

  const OPENING: string := "${{"
  const MARKER: string := "secrets."
  const CLOSING: string := "}}"

  /** The class `\s` of the expression. */
  predicate IsSpace(c: char) {
    c == ' ' || c == '\t' || c == '\n' || c == '\r' || c == '\U{C}'
  }

  predicate AllSpaces(s: string) {
    forall i :: 0 <= i < |s| ==> IsSpace(s[i])
  }

  // ----- The regular expression `\${{\s*secrets\.(.*?)\s*}}` -----

  /** `\s*`: the longest run of spaces at the start. */
  function Spaces(s: string): (w: string)
    ensures w <= s && AllSpaces(w)
    ensures |w| < |s| ==> !IsSpace(s[|w|])
  {
    if s != "" && IsSpace(s[0]) then [s[0]] + Spaces(s[1..]) else ""
  }

  function SkipSpaces(s: string): string {
    s[|Spaces(s)|..]
  }

  /** `(.*?)\s*}}`: the shortest name after which only spaces precede the closing braces. */
  datatype Close = Close(name: string, after: string)

  function CloseText(c: Close): string {
    c.name + (c.after + CLOSING)
  }

  function CloseName(s: string): (c: Option<Close>)
    ensures c.Some? ==> CloseText(c.value) <= s && AllSpaces(c.value.after) && '\n' !in c.value.name
  {
    if CLOSING <= SkipSpaces(s) then
      SpacesThenClosing(s);
      Some(Close("", Spaces(s)))
    else if s == "" || s[0] == '\n' then None
    else
      var c := CloseName(s[1..]);
      if c.None? then None
      else
        OneMoreCharacter(s, c.value);
        Some(Close([s[0]] + c.value.name, c.value.after))
  }

  lemma SpacesThenClosing(s: string)
    requires CLOSING <= SkipSpaces(s)
    ensures CloseText(Close("", Spaces(s))) <= s
  {
    var w := Spaces(s);
    assert s == w + SkipSpaces(s);
    assert CloseText(Close("", w)) == w + CLOSING;
    assert (w + CLOSING) + SkipSpaces(s)[2..] == s;
  }

  lemma OneMoreCharacter(s: string, c: Close)
    requires s != "" && CloseText(c) <= s[1..]
    ensures CloseText(Close([s[0]] + c.name, c.after)) <= s
  {
    assert CloseText(Close([s[0]] + c.name, c.after)) == [s[0]] + CloseText(c);
  }

  /** The text matched when `c` follows the spaces `w`. */
  function Text(w: string, c: Close): string {
    OPENING + (w + (MARKER + CloseText(c)))
  }

  /** The match of the expression at the start of `s`. */
  function MatchPrefix(s: string): Option<Match> {
    if !(OPENING <= s) then None
    else
      var marked := SkipSpaces(s[3..]);
      if !(MARKER <= marked) then None
      else
        var c := CloseName(marked[8..]);
        if c.None? then None else Some(Match(Text(Spaces(s[3..]), c.value), c.value.name))
  }

  // ----- What the expression matches -----

  lemma {:induction false} SpacesOf(w: string, rest: string)
    requires AllSpaces(w) && (rest == "" || !IsSpace(rest[0]))
    ensures Spaces(w + rest) == w && SkipSpaces(w + rest) == rest
  {
    if w == "" {
      assert w + rest == rest;
    } else {
      assert (w + rest)[1..] == w[1..] + rest;
      SpacesOf(w[1..], rest);
    }
  }

  lemma SkipOne(s: string, x: string)
    requires s != "" && IsSpace(s[0])
    ensures SkipSpaces(s + x) == SkipSpaces(s[1..] + x)
  {
    assert (s + x)[1..] == s[1..] + x;
  }

  /** Whether the braces follow at once is decided within `s` when `s` ends in a pair of them. */
  lemma {:induction false} ClosedWithin(s: string, x: string, y: string)
    requires |s| >= 2 && s[|s| - 2..] == CLOSING
    ensures CLOSING <= SkipSpaces(s + x) <==> CLOSING <= SkipSpaces(s + y)
  {
    if IsSpace(s[0]) {
      assert s[|s| - 2] == '}';
      assert s[1..][|s[1..]| - 2..] == CLOSING;
      ClosedWithin(s[1..], x, y);
      SkipOne(s, x);
      SkipOne(s, y);
    } else {
      assert SkipSpaces(s + x) == s + x && SkipSpaces(s + y) == s + y;
    }
  }

  /** One step of the search for the closing braces. */
  lemma CloseNameLonger(s: string, c: Close)
    requires s != "" && s[0] != '\n' && !(CLOSING <= SkipSpaces(s)) && CloseName(s[1..]) == Some(c)
    ensures CloseName(s) == Some(Close([s[0]] + c.name, c.after))
  {
  }

  lemma CloseNameShorter(s: string, c: Close)
    requires CloseName(s) == Some(c) && c.name != ""
    ensures s != "" && s[0] == c.name[0] && s[0] != '\n' && !(CLOSING <= SkipSpaces(s))
    ensures CloseName(s[1..]) == Some(Close(c.name[1..], c.after))
  {
    var d := CloseName(s[1..]).value;
    assert c.name == [s[0]] + d.name;
    assert c.name[1..] == d.name;
  }

  lemma CloseNameAtOnce(after: string, y: string)
    requires AllSpaces(after)
    ensures CloseName(CloseText(Close("", after)) + y) == Some(Close("", after))
  {
    assert CloseText(Close("", after)) + y == after + (CLOSING + y);
    SpacesOf(after, CLOSING + y);
  }

  lemma CloseTextLonger(c: Close, x: string)
    requires c.name != ""
    ensures |CloseText(c)| >= 2 && CloseText(c)[|CloseText(c)| - 2..] == CLOSING
    ensures CloseText(c) + x != "" && (CloseText(c) + x)[0] == c.name[0]
    ensures (CloseText(c) + x)[1..] == CloseText(Close(c.name[1..], c.after)) + x
  {
    assert CloseText(c) == [c.name[0]] + CloseText(Close(c.name[1..], c.after));
  }

  lemma {:induction false} CloseNameLocal(c: Close, x: string, y: string)
    requires CloseName(CloseText(c) + x) == Some(c)
    ensures CloseName(CloseText(c) + y) == Some(c)
    decreases |c.name|
  {
    if c.name == "" {
      CloseNameAtOnce(c.after, y);
    } else {
      var d := Close(c.name[1..], c.after);
      CloseTextLonger(c, x);
      CloseTextLonger(c, y);
      ClosedWithin(CloseText(c), x, y);
      CloseNameShorter(CloseText(c) + x, c);
      CloseNameLocal(d, x, y);
      CloseNameLonger(CloseText(c) + y, d);
      assert [c.name[0]] + d.name == c.name;
    }
  }

  lemma Reassociate(a: string, b: string, c: string, d: string, e: string)
    ensures a + (b + (c + (d + e))) == (a + (b + (c + d))) + e
  {
    assert c + (d + e) == (c + d) + e;
    assert b + ((c + d) + e) == (b + (c + d)) + e;
  }

  lemma Pieces(s: string, w: string, marked: string, c: string)
    requires OPENING <= s && w <= s[3..] && marked == s[3..][|w|..] && MARKER <= marked && c <= marked[8..]
    ensures OPENING + (w + (MARKER + c)) <= s
  {
    var rest := marked[8..][|c|..];
    assert marked[8..] == c + rest;
    assert marked == MARKER + marked[8..];
    assert s[3..] == w + marked;
    assert s == OPENING + s[3..];
    Reassociate(OPENING, w, MARKER, c, rest);
  }

  /** A match is a prefix of the right shape: spaces, the marker, the name on one line, spaces. */
  lemma MatchShape(s: string)
    requires MatchPrefix(s).Some?
    ensures var m := MatchPrefix(s).value;
            && OPENING <= m.text <= s
            && exists w, v :: AllSpaces(w) && AllSpaces(v) && '\n' !in m.name && m.text == Text(w, Close(m.name, v))
  {
    var w, marked := Spaces(s[3..]), SkipSpaces(s[3..]);
    var c := CloseName(marked[8..]).value;
    Pieces(s, w, marked, CloseText(c));
    assert MatchPrefix(s).value.text == Text(w, Close(c.name, c.after));
  }

  /** Whatever follows `w`, the marker and a closed name, they are matched, and no more. */
  lemma MatchOfText(w: string, c: Close, rest: string)
    requires AllSpaces(w) && CloseName(CloseText(c) + rest) == Some(c)
    ensures MatchPrefix(Text(w, c) + rest) == Some(Match(Text(w, c), c.name))
  {
    var s := Text(w, c) + rest;
    var closing := CloseText(c) + rest;
    Reassociate(OPENING, w, MARKER, CloseText(c), rest);
    assert s[3..] == w + (MARKER + closing);
    SpacesOf(w, MARKER + closing);
    assert (MARKER + closing)[8..] == closing;
  }

  /** The expression looks at nothing beyond its match, so scanning with it is local. */
  lemma ExpressionIsLocal()
    ensures Local(OPENING, MatchPrefix)
  {
    var f := MatchPrefix;
    forall s | f(s).Some? ensures OPENING <= f(s).value.text <= s && IsMatch(f, f(s).value) {
      MatchShape(s);
      MatchAgain(s, "");
      assert f(s).value.text + "" == f(s).value.text;
    }
    forall m, rest | IsMatch(f, m) ensures MatchesBefore(f, m, rest) {
      MatchAgain(m.text, rest);
    }
  }

  lemma MatchAgain(s: string, other: string)
    requires MatchPrefix(s).Some?
    ensures MatchPrefix(MatchPrefix(s).value.text + other) == MatchPrefix(s)
  {
    var w, marked := Spaces(s[3..]), SkipSpaces(s[3..]);
    var c := CloseName(marked[8..]).value;
    var rest := marked[8..][|CloseText(c)|..];
    assert marked[8..] == CloseText(c) + rest;
    CloseNameLocal(c, rest, other);
    MatchOfText(w, c, other);
  }

  /** What the code computes is one left-to-right substitution. */
  lemma SubstitutesOnce(ts: seq<Token>, secrets: map<string, string>)
    requires ValidTokens(OPENING, MatchPrefix, ts, secrets)
    ensures var s, ms := Print(ts), FindAll(OPENING, MatchPrefix, Print(ts));
            && ms == Placeholders(ts)
            && (forall m :: m in ms ==> m.text != "")
            && Sequential(s, ms, secrets) == Simultaneous(OPENING, MatchPrefix, s, secrets)
            && Sequential(s, ms, secrets) == Rendered(ts, Texts(ms), secrets)
  {
    SequentialIsSimultaneous(OPENING, MatchPrefix, ts, secrets);
  }

  /**
   It is so for all commands exactly if no placeholder of a known secret, unless its value is its own text, can begin
   in the value of a known secret.
   */
  lemma SubstitutesOnceIff(secrets: map<string, string>)
    ensures Local(OPENING, MatchPrefix)
    ensures AlwaysOnce(OPENING, MatchPrefix, secrets) <==> AllHarmless(OPENING, MatchPrefix, secrets)
  {
    ExpressionIsLocal();
    AlwaysOnceIffHarmless(OPENING, MatchPrefix, secrets);
  }

  /** In particular, if no value holds a dollar sign. */
  lemma DollarFreeIsHarmless(secrets: map<string, string>)
    requires forall name :: name in secrets ==> '$' !in secrets[name]
    ensures Local(OPENING, MatchPrefix) && AllHarmless(OPENING, MatchPrefix, secrets)
  {
    ExpressionIsLocal();
    forall a, m | ValidToken(OPENING, MatchPrefix, Placeholder(a)) && ValidToken(OPENING, MatchPrefix, Placeholder(m))
      ensures Harmless(a, m, secrets)
    {
      if Known(a, secrets) {
        NoDollarQuiet(secrets[a.name]);
        assert OPENING <= m.text;
        QuietLonger(OPENING, m.text, secrets[a.name]);
      }
    }
  }

  /** Text without a dollar sign makes valid tokens, for names the expression can capture. */
  lemma PlainTokens(text: string, w: string, name: string, after: string)
    requires '$' !in text && White(w) && White(after) && Nameable(name)
    ensures ValidToken(OPENING, MatchPrefix, Literal(text))
    ensures ValidToken(OPENING, MatchPrefix, Placeholder(Match("${{" + w + "secrets." + name + after + "}}", name)))
  {
    NoDollarQuiet(text);
    WhiteIsSpaces(w);
    WhiteIsSpaces(after);
    TextToken(w, Close(name, after));
    Spelled(w, name, after, "");
  }

  lemma TextToken(w: string, c: Close)
    requires AllSpaces(w) && AllSpaces(c.after) && Nameable(c.name)
    ensures ValidToken(OPENING, MatchPrefix, Placeholder(Match(Text(w, c), c.name)))
  {
    CloseNamePlain(c.name, c.after);
    MatchAlone(w, c);
    NoDollarClose(c);
    NoDollarInside(w, CloseText(c));
    assert Text(w, c) != "";
  }

  lemma MatchAlone(w: string, c: Close)
    requires AllSpaces(w) && CloseName(CloseText(c)) == Some(c)
    ensures MatchPrefix(Text(w, c)) == Some(Match(Text(w, c), c.name))
  {
    assert CloseText(c) + "" == CloseText(c) && Text(w, c) + "" == Text(w, c);
    MatchOfText(w, c, "");
  }

  lemma NoDollarClose(c: Close)
    requires '$' !in c.name && AllSpaces(c.after)
    ensures '$' !in CloseText(c)
  {
    assert '$' !in c.after + CLOSING;
  }

  lemma NoDollarInside(w: string, c: string)
    requires '$' !in w && '$' !in c
    ensures Quiet(OPENING, (OPENING + (w + (MARKER + c)))[1..])
  {
    var body := w + (MARKER + c);
    assert '$' !in body;
    assert (OPENING + body)[1..] == "{{" + body;
    NoDollarQuiet("{{" + body);
  }

  lemma NoDollarQuiet(s: string)
    requires '$' !in s
    ensures Quiet(OPENING, s)
  {
    forall i | 0 <= i < |s| ensures !Begins(OPENING, s[i..]) {
      assert s[i..][0] == s[i] != '$';
    }
  }

  lemma CloseTextTail(c: Close)
    requires c.name != ""
    ensures CloseText(c)[0] == c.name[0] && CloseText(c)[1..] == CloseText(Close(c.name[1..], c.after))
  {
  }

  lemma {:induction false} CloseNamePlain(name: string, after: string)
    requires AllSpaces(after) && Nameable(name)
    ensures CloseName(CloseText(Close(name, after))) == Some(Close(name, after))
  {
    if name == "" {
      CloseNameAtOnce(after, "");
      assert CloseText(Close(name, after)) + "" == CloseText(Close(name, after));
    } else {
      CloseNamePlain(name[1..], after);
      NotClosedInName(name, after + CLOSING);
      PlainStep(name, after);
    }
  }

  lemma PlainStep(name: string, after: string)
    requires name != "" && name[0] != '\n'
    requires !(CLOSING <= SkipSpaces(CloseText(Close(name, after))))
    requires CloseName(CloseText(Close(name[1..], after))) == Some(Close(name[1..], after))
    ensures CloseName(CloseText(Close(name, after))) == Some(Close(name, after))
  {
    CloseTextTail(Close(name, after));
    CloseNameLonger(CloseText(Close(name, after)), Close(name[1..], after));
    assert [name[0]] + name[1..] == name;
  }

  lemma {:induction false} NotClosedInName(name: string, rest: string)
    requires name != "" && Nameable(name)
    ensures !(CLOSING <= SkipSpaces(name + rest))
  {
    assert (name + rest)[1..] == name[1..] + rest;
    if IsSpace(name[0]) {
      NotClosedInName(name[1..], rest);
    }
  }

  /** The placeholder of a one-letter name is a valid token. */
  lemma OneLetterToken(x: char) returns (m: Match)
    requires Nameable([x])
    ensures ValidToken(OPENING, MatchPrefix, Placeholder(m)) && m.name == [x]
  {
    m := Match(Text("", Close([x], "")), [x]);
    PlainTokens("", "", [x], "");
  }

  /** Without the condition the two differ: a value that contains a placeholder is substituted again. */
  lemma ValueCanBeSubstitutedAgain()
    ensures Local(OPENING, MatchPrefix)
    ensures exists a: Match, b: Match :: a.name == "a" && b.name == "b" && SubstitutedAgain(OPENING, MatchPrefix, a, b)
  {
    ExpressionIsLocal();
    var a := OneLetterToken('a');
    var b := OneLetterToken('b');
    ReplacedTwice(OPENING, MatchPrefix, a, b);
  }

  // ----- The expression read off the text -----

  /** White space of the expression: blanks, tabs, line feeds, carriage returns and form feeds. */
  ghost predicate White(s: string) {
    forall i :: 0 <= i < |s| ==> s[i] in {' ', '\t', '\n', '\r', '\U{C}'}
  }

  /** `s` starts with `text`, which is the opening, the marker, a name on one line and the closing, spaces between. */
  ghost predicate Shape(s: string, text: string, w: string, name: string, v: string) {
    && text == "${{" + w + "secrets." + name + v + "}}" && text <= s
    && White(w) && White(v) && '\n' !in name
  }

  /** A name the expression can capture from text: on one line, without a brace or a trailing space. */
  ghost predicate Nameable(name: string) {
    && (forall i :: 0 <= i < |name| ==> name[i] !in {'$', '}', '\n'})
    && (name != "" ==> name[|name| - 1] !in {' ', '\t', '\n', '\r', '\U{C}'})
  }

  lemma WhiteIsSpaces(s: string)
    ensures White(s) <==> AllSpaces(s)
  {
  }

  lemma SixPieces(a: string, w: string, b: string, n: string, v: string, c: string, rest: string)
    ensures a + w + b + n + v + c + rest == a + (w + (b + ((n + (v + c)) + rest)))
    ensures a + w + b + n + v + c == a + (w + (b + (n + (v + c))))
  {
    assert a + w + b + n + v + c == a + (w + (b + (n + (v + c))));
    assert n + v + c + rest == (n + (v + c)) + rest;
    assert a + w + b + n + v + c + rest == a + (w + (b + (n + v + c + rest)));
  }

  /** The placeholder in letters, and what is left of it at each stage. */
  lemma Spelled(w: string, name: string, v: string, rest: string)
    ensures "${{" + w + "secrets." + name + v + "}}" == Text(w, Close(name, v))
    ensures "${{" + w + "secrets." + name + v + "}}" + rest
         == "${{" + (w + ("secrets." + (CloseText(Close(name, v)) + rest)))
  {
    SixPieces("${{", w, "secrets.", name, v, "}}", rest);
  }

  /** Where a name can be closed, the search finds that name or a shorter one. */
  lemma {:induction false} CloseNameShortest(name: string, v: string, rest: string)
    requires AllSpaces(v) && '\n' !in name
    ensures var c := CloseName(CloseText(Close(name, v)) + rest);
            c.Some? && |c.value.name| <= |name| && (|c.value.name| == |name| ==> c.value == Close(name, v))
  {
    var s := CloseText(Close(name, v)) + rest;
    if name == "" {
      CloseNameAtOnce(v, rest);
    } else {
      CloseTextLonger(Close(name, v), rest);
      CloseNameShortest(name[1..], v, rest);
      if !(CLOSING <= SkipSpaces(s)) {
        CloseNameLonger(s, CloseName(s[1..]).value);
        SameName(name, CloseName(s[1..]).value, v);
      }
    }
  }

  lemma SameName(name: string, c: Close, v: string)
    requires name != "" && |c.name| <= |name| - 1 && (|c.name| == |name| - 1 ==> c == Close(name[1..], v))
    ensures |[name[0]] + c.name| == |name| ==> Close([name[0]] + c.name, c.after) == Close(name, v)
  {
    assert [name[0]] + name[1..] == name;
  }

  /** Where the text has the shape, the expression matches with that name or a shorter one. */
  lemma ShapeMatches(s: string, text: string, w: string, name: string, v: string)
    requires Shape(s, text, w, name, v)
    ensures MatchPrefix(s).Some? && |MatchPrefix(s).value.name| <= |name|
    ensures |MatchPrefix(s).value.name| == |name| ==> MatchPrefix(s).value == Match(text, name)
  {
    var rest := s[|text|..];
    assert s == text + rest;
    var closing := CloseText(Close(name, v)) + rest;
    Spelled(w, name, v, rest);
    CloseNameShortest(name, v, rest);
    MatchOfMarked(s, w, closing);
  }

  lemma MatchOfMarked(s: string, w: string, closing: string)
    requires s == "${{" + (w + ("secrets." + closing)) && White(w)
    ensures var c := CloseName(closing);
            MatchPrefix(s) == if c.None? then None else Some(Match(Text(w, c.value), c.value.name))
  {
    WhiteIsSpaces(w);
    assert s[3..] == w + ("secrets." + closing);
    SpacesOf(w, "secrets." + closing);
    assert ("secrets." + closing)[8..] == closing;
  }

  lemma MatchHasShape(s: string) returns (w: string, v: string)
    requires MatchPrefix(s).Some?
    ensures Shape(s, MatchPrefix(s).value.text, w, MatchPrefix(s).value.name, v)
  {
    var m := MatchPrefix(s).value;
    MatchShape(s);
    w, v :| AllSpaces(w) && AllSpaces(v) && '\n' !in m.name && m.text == Text(w, Close(m.name, v));
    Spelled(w, m.name, v, "");
    WhiteIsSpaces(w);
    WhiteIsSpaces(v);
  }

  /** What the expression matches at the start of a text: what has the shape, with the shortest name that gives it. */
  lemma MatchIffShape(s: string, m: Match)
    ensures MatchPrefix(s) == Some(m) <==>
              && (exists w, v :: Shape(s, m.text, w, m.name, v))
              && forall text, w, name, v :: Shape(s, text, w, name, v) ==> |m.name| <= |name|
  {
    if MatchPrefix(s) == Some(m) {
      var w, v := MatchHasShape(s);
      forall text, w, name, v | Shape(s, text, w, name, v) ensures |m.name| <= |name| {
        ShapeMatches(s, text, w, name, v);
      }
    }
    if w, v :| Shape(s, m.text, w, m.name, v) {
      ShapeMatches(s, m.text, w, m.name, v);
      var x, y := MatchHasShape(s);
    }
  }

  /** A placeholder spelled out, whatever follows it, is matched as a whole and its name is captured. */
  lemma PlaceholderIsMatched(w: string, name: string, v: string, rest: string)
    requires White(w) && White(v) && Nameable(name)
    ensures var text := "${{" + w + "secrets." + name + v + "}}";
            MatchPrefix(text + rest) == Some(Match(text, name))
  {
    WhiteIsSpaces(v);
    Spelled(w, name, v, rest);
    CloseNamePlain(name, v);
    assert CloseText(Close(name, v)) + "" == CloseText(Close(name, v));
    CloseNameLocal(Close(name, v), "", rest);
    MatchOfMarked("${{" + w + "secrets." + name + v + "}}" + rest, w, CloseText(Close(name, v)) + rest);
  }

  // ----- Commands written out -----

  function Spelling(w: string, name: string, v: string): string {
    "${{" + w + "secrets." + name + v + "}}"
  }

  datatype Part = Plain(text: string) | Ref(w: string, name: string, v: string)

  ghost predicate IsPart(part: Part) {
    match part
    case Plain(text) => '$' !in text
    case Ref(w, name, v) => White(w) && White(v) && Nameable(name)
  }

  function Written(parts: seq<Part>): string {
    if parts == [] then "" else WrittenPart(parts[0]) + Written(parts[1..])
  }

  function WrittenPart(part: Part): string {
    match part
    case Plain(text) => text
    case Ref(w, name, v) => Spelling(w, name, v)
  }

  /** The command with the values in place of the placeholders, those without a value as they were. */
  function Filled(parts: seq<Part>, secrets: map<string, string>): string {
    if parts == [] then ""
    else
      (if parts[0].Ref? && parts[0].name in secrets then secrets[parts[0].name] else WrittenPart(parts[0]))
      + Filled(parts[1..], secrets)
  }

  /** Plain text and references, with no dollar sign in the text or in the values. */
  ghost predicate PlainCommand(command: string, parts: seq<Part>, secrets: map<string, string>) {
    && command == Written(parts) && (forall part :: part in parts ==> IsPart(part))
    && forall name :: name in secrets ==> '$' !in secrets[name]
  }

  function TokenOf(part: Part): Token {
    match part
    case Plain(text) => Literal(text)
    case Ref(w, name, v) => Placeholder(Match(Spelling(w, name, v), name))
  }

  lemma RefToken(w: string, name: string, v: string)
    requires White(w) && White(v) && Nameable(name)
    ensures ValidToken(OPENING, MatchPrefix, Placeholder(Match(Spelling(w, name, v), name)))
  {
    PlainTokens("", w, name, v);
  }

  lemma PartToken(part: Part)
    requires IsPart(part)
    ensures ValidToken(OPENING, MatchPrefix, TokenOf(part))
  {
    match part
    case Plain(text) => NoDollarQuiet(text);
    case Ref(w, name, v) => RefToken(w, name, v);
  }

  function TokensOf(parts: seq<Part>): seq<Token> {
    if parts == [] then [] else [TokenOf(parts[0])] + TokensOf(parts[1..])
  }

  lemma {:induction false} TokensAre(parts: seq<Part>, secrets: map<string, string>, all: set<string>)
    requires forall part :: part in parts ==> IsPart(part)
    requires forall m :: m in Placeholders(TokensOf(parts)) ==> m.text in all
    ensures Print(TokensOf(parts)) == Written(parts)
    ensures Rendered(TokensOf(parts), all, secrets) == Filled(parts, secrets)
    ensures forall t :: t in TokensOf(parts) ==> ValidToken(OPENING, MatchPrefix, t)
  {
    if parts != [] {
      var t, rest := TokenOf(parts[0]), TokensOf(parts[1..]);
      assert TokensOf(parts)[0] == t && TokensOf(parts)[1..] == rest;
      assert IsPart(parts[0]);
      TokensAre(parts[1..], secrets, all);
      PartToken(parts[0]);
      assert t.Placeholder? ==> t.m in Placeholders(TokensOf(parts));
    }
  }

  /** Every placeholder of a plain command is replaced by its value, whatever their number and order. */
  lemma PlainCommandIsFilled(command: string, parts: seq<Part>, secrets: map<string, string>)
    requires PlainCommand(command, parts, secrets)
    ensures Local(OPENING, MatchPrefix)
    ensures Loop(OPENING, MatchPrefix, command, secrets) == Filled(parts, secrets)
  {
    ExpressionIsLocal();
    DollarFreeIsHarmless(secrets);
    var ts := TokensOf(parts);
    TokensAre(parts, secrets, Texts(Placeholders(ts)));
    forall a, m | Placeholder(a) in ts && Placeholder(m) in ts ensures Harmless(a, m, secrets) {
      assert ValidToken(OPENING, MatchPrefix, Placeholder(a)) && ValidToken(OPENING, MatchPrefix, Placeholder(m));
    }
    SubstitutesOnce(ts, secrets);
  }

  /** A single placeholder between plain texts is replaced by its value, whatever the value holds. */
  ghost predicate OneReference(command: string, pre: string, w: string, name: string, v: string, post: string) {
    && command == pre + (Spelling(w, name, v) + post)
    && '$' !in pre && '$' !in post && White(w) && White(v) && Nameable(name)
  }

  lemma OneIsReplaced(command: string, pre: string, w: string, name: string, v: string, post: string,
                      secrets: map<string, string>)
    requires OneReference(command, pre, w, name, v, post)
    ensures Local(OPENING, MatchPrefix)
    ensures Loop(OPENING, MatchPrefix, command, secrets)
         == if name in secrets then pre + (secrets[name] + post) else command
  {
    ExpressionIsLocal();
    var m := Match(Spelling(w, name, v), name);
    RefToken(w, name, v);
    NoDollarQuiet(pre);
    NoDollarQuiet(post);
    LoopBetween(OPENING, MatchPrefix, pre, m, post, secrets);
  }

  /** What becomes of a command with one reference, and of a plain one. */
  lemma LoopFills(command: string, secrets: map<string, string>)
    ensures Local(OPENING, MatchPrefix)
    ensures forall pre, w, name, v, post :: OneReference(command, pre, w, name, v, post) ==>
              Loop(OPENING, MatchPrefix, command, secrets)
              == if name in secrets then pre + (secrets[name] + post) else command
    ensures forall parts :: PlainCommand(command, parts, secrets) ==>
              Loop(OPENING, MatchPrefix, command, secrets) == Filled(parts, secrets)
  {
    ExpressionIsLocal();
    forall pre, w, name, v, post | OneReference(command, pre, w, name, v, post)
      ensures Loop(OPENING, MatchPrefix, command, secrets)
           == if name in secrets then pre + (secrets[name] + post) else command
    {
      OneIsReplaced(command, pre, w, name, v, post, secrets);
    }
    forall parts | PlainCommand(command, parts, secrets)
      ensures Loop(OPENING, MatchPrefix, command, secrets) == Filled(parts, secrets)
    {
      PlainCommandIsFilled(command, parts, secrets);
    }
  }

  /** Replaces the secret placeholders of a command by their values. */
  method SubstituteSecret(command: string, secretData: map<string, string>) returns (result: string)
    ensures Local(OPENING, MatchPrefix)
    ensures forall m :: m in FindAll(OPENING, MatchPrefix, command) ==> m.text != ""
    ensures result == Loop(OPENING, MatchPrefix, command, secretData)
    ensures forall pre, w, name, v, post :: OneReference(command, pre, w, name, v, post) ==>
              result == if name in secretData then pre + (secretData[name] + post) else command
    ensures forall parts :: PlainCommand(command, parts, secretData) ==> result == Filled(parts, secretData)
  {
    LoopFills(command, secretData);
    FoundNonEmpty(OPENING, MatchPrefix, command);
    var matches := FindAll(OPENING, MatchPrefix, command);
    if matches == [] {
      return command;
    }
    result := command;
    var i := 0;
    while i < |matches|
      invariant i <= |matches|
      invariant result == Sequential(command, matches[..i], secretData)
    {
      var m := matches[i];
      assert matches[..i + 1][..i] == matches[..i];
      if m.name in secretData {
        result := ReplaceAll(result, m.text, secretData[m.name]);
      }
      i := i + 1;
    }
    assert matches[..i] == matches;
  }
}
