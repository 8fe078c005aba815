/**
 Masking of secrets in log output: pkg/logstream/mask.go.

 Strings are sequences of bytes.  The masker keeps the parts of all secrets in the order in which Go
 happens to iterate over the secret map, and at each position of the text the first part that fits
 is masked.
 */
module Mask {
  import opened Layout
  import opened Wrappers
  import opened Text

  const MASK: string := "****************"

  // ----- From secrets to parts -----

  predicate IsSpace(c: char) {
    c == ' ' || c == '\t' || c == '\n' || c == '\r' || c == '\U{B}' || c == '\U{C}'
  }

  function TrimLeft(s: string): string {
    if s != "" && IsSpace(s[0]) then TrimLeft(s[1..]) else s
  }

  function TrimRight(s: string): string {
    if s != "" && IsSpace(s[|s| - 1]) then TrimRight(s[..|s| - 1]) else s
  }

  function TrimSpace(s: string): string {
    TrimRight(TrimLeft(s))
  }

  /** The part a line contributes, if it is long enough. */
  function PartOf(line: string): seq<string> {
    var part := TrimSpace(line);
    if |part| < 2 then [] else [part]
  }

  function PartsOfLines(lines: seq<string>): seq<string> {
    if lines == [] then [] else PartOf(lines[0]) + PartsOfLines(lines[1..])
  }

  function Parts(secret: string): seq<string> {
    if secret == "" then [] else PartsOfLines(Split(secret, '\n'))
  }

  function AllParts(secrets: seq<string>): seq<string> {
    if secrets == [] then [] else Parts(secrets[0]) + AllParts(secrets[1..])
  }

  lemma {:induction false} TrimmedIsInside(s: string)
    ensures exists i, j :: 0 <= i <= j <= |s| && TrimSpace(s) == s[i..j]
              && (forall k :: 0 <= k < i || j <= k < |s| ==> IsSpace(s[k]))
    ensures TrimSpace(s) != "" ==> !IsSpace(TrimSpace(s)[0]) && !IsSpace(TrimSpace(s)[|TrimSpace(s)| - 1])
  {
    var i := TrimLeftAt(s);
    var j := TrimRightAt(s[i..]);
    assert s[i..][..j] == s[i..i + j];
    forall k | i + j <= k < |s| ensures IsSpace(s[k]) {
      assert s[k] == s[i..][k - i];
    }
  }

  lemma {:induction false} TrimLeftAt(s: string) returns (i: nat)
    ensures i <= |s| && TrimLeft(s) == s[i..]
    ensures forall k :: 0 <= k < i ==> IsSpace(s[k])
    ensures i < |s| ==> !IsSpace(s[i])
  {
    i := 0;
    if s != "" && IsSpace(s[0]) {
      var k := TrimLeftAt(s[1..]);
      i := k + 1;
      assert s[1..][i - 1..] == s[i..];
      forall k | 0 < k < i ensures IsSpace(s[k]) {
        assert s[k] == s[1..][k - 1];
      }
    }
  }

  lemma {:induction false} TrimRightAt(s: string) returns (j: nat)
    ensures j <= |s| && TrimRight(s) == s[..j]
    ensures forall k :: j <= k < |s| ==> IsSpace(s[k])
    ensures j > 0 ==> !IsSpace(s[j - 1])
  {
    j := |s|;
    if s != "" && IsSpace(s[|s| - 1]) {
      j := TrimRightAt(s[..|s| - 1]);
      assert s[..|s| - 1][..j] == s[..j];
    }
  }

  /** Exactly the trimmed lines of at least two bytes are parts. */
  lemma {:induction false} PartsOfLinesAre(lines: seq<string>, part: string)
    ensures part in PartsOfLines(lines) <==>
              |part| >= 2 && exists line :: line in lines && part == TrimSpace(line)
  {
    if lines != [] {
      PartsOfLinesAre(lines[1..], part);
      assert lines == [lines[0]] + lines[1..];
    }
  }

  /** `part` is `line` without its outer white space. */
  ghost predicate IsTrimmed(line: string, part: string) {
    var white := {' ', '\t', '\n', '\r', '\U{B}', '\U{C}'};
    && (exists i, j :: 0 <= i <= j <= |line| && part == line[i..j]
          && forall k :: 0 <= k < i || j <= k < |line| ==> line[k] in white)
    && (part != "" ==> part[0] !in white && part[|part| - 1] !in white)
  }

  /** A line of the secret begins at `i`, and `part` is what is left of it without its outer white space. */
  ghost predicate TrimmedLineAt(secret: string, i: nat, part: string) {
    exists j: nat :: IsPiece(secret, '\n', i, j) && IsTrimmed(secret[i..j], part)
  }

  /** `parts` are, in order, the trimmed lines of two bytes or more; `at` are where these lines begin. */
  ghost predicate TrimmedLines(secret: string, parts: seq<string>, at: seq<nat>) {
    && |at| == |parts|
    && (forall k, l :: 0 <= k < l < |at| ==> at[k] < at[l])
    && (forall k :: 0 <= k < |at| ==> |parts[k]| >= 2 && TrimmedLineAt(secret, at[k], parts[k]))
    && (forall i: nat, part :: TrimmedLineAt(secret, i, part) && |part| >= 2 ==> i in at)
  }

  ghost predicate HasTrimmedLines(secret: string, parts: seq<string>) {
    exists at :: TrimmedLines(secret, parts, at)
  }

  lemma TrimmedIs(line: string, part: string)
    ensures IsTrimmed(line, part) <==> part == TrimSpace(line)
  {
    TrimmedIsInside(line);
    if IsTrimmed(line, part) {
      OneTrimming(line, part, TrimSpace(line));
    }
  }

  ghost predicate CutAt(line: string, part: string, i: nat, j: nat) {
    var white := {' ', '\t', '\n', '\r', '\U{B}', '\U{C}'};
    && i <= j <= |line| && part == line[i..j]
    && (forall k :: 0 <= k < i || j <= k < |line| ==> line[k] in white)
    && (i < j ==> line[i] !in white && line[j - 1] !in white)
  }

  lemma CutsMeet(line: string, a: string, i: nat, j: nat, b: string, m: nat, n: nat)
    requires CutAt(line, a, i, j) && CutAt(line, b, m, n)
    ensures a == b
  {
  }

  /** Only one cut leaves no white space at either end. */
  lemma OneTrimming(line: string, a: string, b: string)
    requires IsTrimmed(line, a) && IsTrimmed(line, b)
    ensures a == b
  {
    var i, j := CutOf(line, a);
    var m, n := CutOf(line, b);
    CutsMeet(line, a, i, j, b, m, n);
  }

  lemma CutOf(line: string, part: string) returns (i: nat, j: nat)
    requires IsTrimmed(line, part)
    ensures CutAt(line, part, i, j)
  {
    var white := {' ', '\t', '\n', '\r', '\U{B}', '\U{C}'};
    i, j :| i <= j <= |line| && part == line[i..j]
      && forall k :: 0 <= k < i || j <= k < |line| ==> line[k] in white;
    if i < j {
      assert part[0] == line[i] && part[|part| - 1] == line[j - 1];
    }
  }

  /** Which of the first `n` lines, those that begin at `begins`, have become parts. */
  ghost predicate KeptTo(lines: seq<string>, begins: seq<nat>, n: nat, parts: seq<string>, at: seq<nat>)
    requires n <= |lines| == |begins|
  {
    && |at| == |parts|
    && (forall k, l :: 0 <= k < l < |at| ==> at[k] < at[l])
    && (forall k :: 0 <= k < |at| ==> Keeps(lines, begins, n, at[k], parts[k]))
    && (forall m :: 0 <= m < n && |TrimSpace(lines[m])| >= 2 ==> begins[m] in at)
  }

  ghost predicate Keeps(lines: seq<string>, begins: seq<nat>, n: nat, i: nat, part: string)
    requires n <= |lines| == |begins|
  {
    |part| >= 2 && exists m :: 0 <= m < n && begins[m] == i && TrimSpace(lines[m]) == part
  }

  predicate Increasing(begins: seq<nat>) {
    forall k, l :: 0 <= k < l < |begins| ==> begins[k] < begins[l]
  }

  lemma KeepsMore(lines: seq<string>, begins: seq<nat>, n: nat, i: nat, part: string)
    requires n < |lines| == |begins| && Increasing(begins) && Keeps(lines, begins, n, i, part)
    ensures Keeps(lines, begins, n + 1, i, part) && i < begins[n]
  {
  }

  lemma LineKept(lines: seq<string>, begins: seq<nat>, n: nat, parts: seq<string>, at: seq<nat>)
    requires n < |lines| == |begins| && Increasing(begins) && KeptTo(lines, begins, n, parts, at)
    requires |TrimSpace(lines[n])| >= 2
    ensures KeptTo(lines, begins, n + 1, parts + [TrimSpace(lines[n])], at + [begins[n]])
  {
    var more, all := at + [begins[n]], parts + [TrimSpace(lines[n])];
    forall k | 0 <= k < |at| ensures Keeps(lines, begins, n + 1, at[k], parts[k]) && at[k] < begins[n] {
      KeepsMore(lines, begins, n, at[k], parts[k]);
    }
    assert more[|at|] == begins[n] && Keeps(lines, begins, n + 1, begins[n], TrimSpace(lines[n]));
    forall m | 0 <= m < n + 1 && |TrimSpace(lines[m])| >= 2 ensures begins[m] in more {
      assert m < n ==> begins[m] in at;
    }
  }

  lemma LineDropped(lines: seq<string>, begins: seq<nat>, n: nat, parts: seq<string>, at: seq<nat>)
    requires n < |lines| == |begins| && Increasing(begins) && KeptTo(lines, begins, n, parts, at)
    requires |TrimSpace(lines[n])| < 2
    ensures KeptTo(lines, begins, n + 1, parts, at)
  {
    forall k | 0 <= k < |at| ensures Keeps(lines, begins, n + 1, at[k], parts[k]) {
      KeepsMore(lines, begins, n, at[k], parts[k]);
    }
  }

  lemma OneLineMore(lines: seq<string>, begins: seq<nat>, n: nat, at: seq<nat>) returns (more: seq<nat>)
    requires n < |lines| == |begins| && Increasing(begins)
    requires KeptTo(lines, begins, n, PartsOfLines(lines[..n]), at)
    ensures KeptTo(lines, begins, n + 1, PartsOfLines(lines[..n + 1]), more)
  {
    var parts := PartsOfLines(lines[..n]);
    PartsOfLinesMore(lines[..n], lines[n]);
    assert lines[..n + 1] == lines[..n] + [lines[n]];
    if |TrimSpace(lines[n])| >= 2 {
      more := at + [begins[n]];
      LineKept(lines, begins, n, parts, at);
    } else {
      more := at;
      LineDropped(lines, begins, n, parts, at);
      assert parts + [] == parts;
    }
  }

  lemma {:induction false} KeptLines(lines: seq<string>, begins: seq<nat>, n: nat) returns (at: seq<nat>)
    requires n <= |lines| == |begins| && Increasing(begins)
    ensures KeptTo(lines, begins, n, PartsOfLines(lines[..n]), at)
  {
    if n == 0 {
      at := [];
    } else {
      at := KeptLines(lines, begins, n - 1);
      at := OneLineMore(lines, begins, n - 1, at);
    }
  }

  /** The parts of a secret, found by their positions. */
  lemma PartsAreTrimmedLines(secret: string) returns (at: seq<nat>)
    ensures TrimmedLines(secret, Parts(secret), at)
  {
    at := [];
    if secret != "" {
      var lines := Split(secret, '\n');
      var begins := SplitAt(secret, '\n');
      at := KeptLines(lines, begins, |lines|);
      assert lines[..|lines|] == lines;
      var parts := PartsOfLines(lines);
      forall k | 0 <= k < |at| ensures TrimmedLineAt(secret, at[k], parts[k]) {
        assert Keeps(lines, begins, |lines|, at[k], parts[k]);
        var n :| 0 <= n < |lines| && begins[n] == at[k] && TrimSpace(lines[n]) == parts[k];
        assert FoundAt(secret, '\n', lines[n], begins[n]);
        TrimmedIs(lines[n], parts[k]);
      }
      forall i: nat, part | TrimmedLineAt(secret, i, part) && |part| >= 2 ensures i in at {
        var j: nat :| IsPiece(secret, '\n', i, j) && IsTrimmed(secret[i..j], part);
        var n :| 0 <= n < |begins| && begins[n] == i;
        assert FoundAt(secret, '\n', lines[n], begins[n]);
        OneEnd(secret, '\n', i, j, lines[n]);
        TrimmedIs(lines[n], part);
      }
    }
  }

  // ----- Replacing -----

  /** The part that `strings.Replacer` picks at the start of `s`: earlier arguments win. */
  function FirstMatch(parts: seq<string>, s: string): (p: Option<string>)
    ensures p.Some? ==> p.value in parts && p.value <= s
    ensures p.None? ==> forall q :: q in parts ==> !(q <= s)
  {
    if parts == [] then None
    else if parts[0] <= s then Some(parts[0])
    else assert parts == [parts[0]] + parts[1..]; FirstMatch(parts[1..], s)
  }

  predicate NonEmpty(parts: seq<string>) {
    "" !in parts
  }

  /** `strings.NewReplacer` with the mask for every part, applied from left to right. */
  function Masked(parts: seq<string>, s: string): string
    requires NonEmpty(parts)
    decreases |s|
  {
    if s == "" then ""
    else
      var p := FirstMatch(parts, s);
      if p.Some? then MASK + Masked(parts, s[|p.value|..]) else [s[0]] + Masked(parts, s[1..])
  }

  /** A stretch of text and what becomes of it: a byte that is kept, or a part that is hidden. */
  datatype Piece = Kept(c: char) | Hidden(part: string)

  function Before(pieces: seq<Piece>): string {
    if pieces == [] then "" else (if pieces[0].Kept? then [pieces[0].c] else pieces[0].part) + Before(pieces[1..])
  }

  function After(pieces: seq<Piece>): string {
    if pieces == [] then ""
    else (if pieces[0].Kept? then [pieces[0].c] else "****************") + After(pieces[1..])
  }

  /** With `s` still to come, the first part in the list that fits is hidden, and a byte is kept where none fits. */
  ghost predicate Chosen(parts: seq<string>, s: string, piece: Piece) {
    match piece
    case Kept(_) => forall p :: p in parts ==> !(p <= s)
    case Hidden(part) => exists n :: 0 <= n < |parts| && parts[n] == part && forall m :: 0 <= m < n ==> !(parts[m] <= s)
  }

  /** `pieces` cuts up `s` from left to right with the right choice at every cut. */
  ghost predicate CutsUp(parts: seq<string>, s: string, pieces: seq<Piece>) {
    Before(pieces) == s && forall k :: 0 <= k < |pieces| ==> Chosen(parts, Before(pieces[k..]), pieces[k])
  }

  lemma {:induction false} FirstMatchIsFirst(parts: seq<string>, s: string, n: nat)
    requires n < |parts| && parts[n] <= s && forall m :: 0 <= m < n ==> !(parts[m] <= s)
    ensures FirstMatch(parts, s) == Some(parts[n])
  {
    if n > 0 {
      assert !(parts[0] <= s);
      FirstMatchIsFirst(parts[1..], s, n - 1);
    }
  }

  lemma {:induction false} FirstMatchAt(parts: seq<string>, s: string) returns (n: nat)
    requires FirstMatch(parts, s).Some?
    ensures n < |parts| && FirstMatch(parts, s) == Some(parts[n]) && forall m :: 0 <= m < n ==> !(parts[m] <= s)
  {
    n := 0;
    if !(parts[0] <= s) {
      var k := FirstMatchAt(parts[1..], s);
      n := k + 1;
      forall m | 0 <= m < n ensures !(parts[m] <= s) {
        assert m > 0 ==> parts[m] == parts[1..][m - 1];
      }
    }
  }

  lemma OnePieceMore(parts: seq<string>, s: string, piece: Piece, rest: seq<Piece>)
    requires Chosen(parts, s, piece) && Before([piece] + rest) == s && CutsUp(parts, Before(rest), rest)
    ensures CutsUp(parts, s, [piece] + rest)
  {
    var pieces := [piece] + rest;
    forall k | 0 <= k < |pieces| ensures Chosen(parts, Before(pieces[k..]), pieces[k]) {
      if k == 0 {
        assert pieces[0..] == pieces;
      } else {
        assert pieces[k..] == rest[k - 1..];
      }
    }
  }

  /** Every text can be cut up, and what masking gives is every hidden part replaced by sixteen stars. */
  lemma {:induction false} MaskedIsCutUp(parts: seq<string>, s: string) returns (pieces: seq<Piece>)
    requires NonEmpty(parts)
    ensures CutsUp(parts, s, pieces) && Masked(parts, s) == After(pieces)
    decreases |s|
  {
    pieces := [];
    if s != "" {
      var p := FirstMatch(parts, s);
      var rest := MaskedIsCutUp(parts, if p.Some? then s[|p.value|..] else s[1..]);
      var piece := if p.Some? then Hidden(p.value) else Kept(s[0]);
      if p.Some? {
        var n := FirstMatchAt(parts, s);
      }
      pieces := [piece] + rest;
      assert pieces[1..] == rest;
      OnePieceMore(parts, s, piece, rest);
    }
  }

  /** There is no other result: whatever cuts up the text gives it. */
  lemma {:induction false} OnlyMasking(parts: seq<string>, s: string, pieces: seq<Piece>)
    requires NonEmpty(parts) && CutsUp(parts, s, pieces)
    ensures Masked(parts, s) == After(pieces)
    decreases |pieces|
  {
    if pieces != [] {
      var piece, rest := pieces[0], pieces[1..];
      assert pieces[0..] == pieces && Chosen(parts, s, piece);
      forall k | 0 <= k < |rest| ensures Chosen(parts, Before(rest[k..]), rest[k]) {
        assert rest[k..] == pieces[k + 1..] && rest[k] == pieces[k + 1];
      }
      OnlyMasking(parts, Before(rest), rest);
      if piece.Hidden? {
        var n: nat :| n < |parts| && parts[n] == piece.part && forall m :: 0 <= m < n ==> !(parts[m] <= s);
        FirstMatchIsFirst(parts, s, n);
        assert s[|piece.part|..] == Before(rest);
      } else {
        assert s[1..] == Before(rest);
      }
    }
  }

  ghost predicate Occurs(x: string, s: string) {
    exists j :: 0 <= j <= |s| && x <= s[j..]
  }

  /** The mask can supply an end of this part, or a piece inside it. */
  ghost predicate Starred(p: string) {
    p != "" && (p[0] == '*' || p[|p| - 1] == '*' || Occurs(MASK, p))
  }

  ghost predicate NoneStarred(parts: seq<string>) {
    forall p :: p in parts ==> !Starred(p)
  }

  /** No part occurs anywhere in `s`. */
  ghost predicate Clean(parts: seq<string>, s: string) {
    forall p, j :: p in parts && 0 <= j <= |s| ==> !(p <= s[j..])
  }

  /** Text at the start of the output that neither holds the mask nor ends in a star is the start of the input. */
  lemma {:induction false} UnmaskedPrefix(parts: seq<string>, s: string, x: string)
    requires NonEmpty(parts) && x <= Masked(parts, s)
    requires !Occurs(MASK, x) && (x != "" ==> x[|x| - 1] != '*')
    ensures x <= s
    decreases |s|
  {
    if x != "" && s != "" {
      if FirstMatch(parts, s).Some? {
        NotMaskedFirst(parts, s, x);
      } else {
        assert x[1..] <= Masked(parts, s[1..]);
        OccursLater(MASK, x);
        UnmaskedPrefix(parts, s[1..], x[1..]);
        assert x == [x[0]] + x[1..] && s == [s[0]] + s[1..];
      }
    }
  }

  lemma NotMaskedFirst(parts: seq<string>, s: string, x: string)
    requires NonEmpty(parts) && FirstMatch(parts, s).Some? && x != ""
    requires !Occurs(MASK, x) && x[|x| - 1] != '*'
    ensures !(x <= Masked(parts, s))
  {
    NotFromMask(MASK, x, "", Masked(parts, s));
    assert "" + Masked(parts, s) == Masked(parts, s);
  }

  predicate AllStars(s: string) {
    forall i :: 0 <= i < |s| ==> s[i] == '*'
  }

  /** Text that neither holds the mask nor ends in a star does not reach into a mask. */
  lemma NotFromMask(mask: string, v: string, head: string, rest: string)
    requires AllStars(mask) && |v| > |head| && (rest == "" || mask <= rest)
    requires !Occurs(mask, v) && v[|v| - 1] != '*'
    ensures !(v <= head + rest)
  {
    var out := head + rest;
    if rest != "" {
      if |v| - |head| >= |mask| {
        assert !(mask <= v[|head|..]);
        var k :| 0 <= k < |mask| && v[|head|..][k] != mask[k];
        assert out[|head| + k] == mask[k] && v[|head| + k] != mask[k];
      } else {
        assert out[|v| - 1] == rest[|v| - 1 - |head|] == mask[|v| - 1 - |head|];
      }
    }
  }

  lemma OccursLater(x: string, s: string)
    requires s != ""
    ensures Occurs(x, s[1..]) ==> Occurs(x, s)
  {
    forall j | 0 <= j <= |s[1..]| && x <= s[1..][j..] ensures Occurs(x, s) {
      assert s[1..][j..] == s[j + 1..];
    }
  }

  lemma CleanBehindMask(parts: seq<string>, mask: string, rest: string)
    requires NonEmpty(parts) && NoneStarred(parts) && AllStars(mask) && Clean(parts, rest)
    ensures Clean(parts, mask + rest)
  {
    var out := mask + rest;
    forall p, j | p in parts && 0 <= j <= |out| ensures !(p <= out[j..]) {
      if j < |mask| {
        assert out[j..][0] == '*' != p[0];
      } else {
        assert out[j..] == rest[j - |mask|..];
      }
    }
  }

  lemma CleanBehindByte(parts: seq<string>, c: char, rest: string)
    requires Clean(parts, rest) && forall p :: p in parts ==> !(p <= [c] + rest)
    ensures Clean(parts, [c] + rest)
  {
    var out := [c] + rest;
    forall p, j | p in parts && 0 <= j <= |out| ensures !(p <= out[j..]) {
      if j == 0 {
        assert out[j..] == out;
      } else {
        assert out[j..] == rest[j - 1..];
      }
    }
  }

  /** No part of any secret is left in the output. */
  lemma {:induction false} NothingLeaks(parts: seq<string>, s: string)
    requires NonEmpty(parts) && NoneStarred(parts)
    ensures Clean(parts, Masked(parts, s))
    decreases |s|
  {
    if s != "" {
      var first := FirstMatch(parts, s);
      if first.Some? {
        NothingLeaks(parts, s[|first.value|..]);
        CleanBehindMask(parts, MASK, Masked(parts, s[|first.value|..]));
      } else {
        NothingLeaks(parts, s[1..]);
        forall p | p in parts ensures !(p <= Masked(parts, s)) {
          if p <= Masked(parts, s) {
            UnmaskedPrefix(parts, s, p);
          }
        }
        CleanBehindByte(parts, s[0], Masked(parts, s[1..]));
      }
    }
  }

  lemma {:induction false} CleanIsKept(parts: seq<string>, s: string)
    requires NonEmpty(parts) && Clean(parts, s)
    ensures Masked(parts, s) == s
    decreases |s|
  {
    if s != "" {
      assert s[0..] == s;
      forall p, j | p in parts && 0 <= j <= |s[1..]| ensures !(p <= s[1..][j..]) {
        assert s[1..][j..] == s[j + 1..];
      }
      CleanIsKept(parts, s[1..]);
    }
  }

  /** Exactly the texts without a secret pass unchanged. */
  lemma UnchangedIffClean(parts: seq<string>, s: string)
    requires NonEmpty(parts) && NoneStarred(parts)
    ensures Masked(parts, s) == s <==> Clean(parts, s)
  {
    NothingLeaks(parts, s);
    if Clean(parts, s) {
      CleanIsKept(parts, s);
    }
  }

  /** Masking what is masked changes nothing. */
  lemma MaskingIsIdempotent(parts: seq<string>, s: string)
    requires NonEmpty(parts) && NoneStarred(parts)
    ensures Masked(parts, Masked(parts, s)) == Masked(parts, s)
  {
    NothingLeaks(parts, s);
    CleanIsKept(parts, Masked(parts, s));
  }

  // ----- Which parts leak -----

  lemma {:induction false} ShortIsKept(p: string, t: string)
    requires |t| < |p|
    ensures Masked([p], t) == t
  {
    if t != "" {
      ShortIsKept(p, t[1..]);
      assert t == [t[0]] + t[1..];
    }
  }

  lemma {:induction false} HeadIsKept(p: string, h: string, rest: string)
    requires p != "" && forall i :: 0 <= i < |h| ==> !(p <= h[i..] + rest)
    ensures Masked([p], h + rest) == h + Masked([p], rest)
  {
    if h == "" {
      assert h + rest == rest;
    } else {
      assert h[0..] == h && (h + rest)[1..] == h[1..] + rest;
      forall i | 0 <= i < |h[1..]| ensures !(p <= h[1..][i..] + rest) {
        assert h[1..][i..] == h[i + 1..];
      }
      HeadIsKept(p, h[1..], rest);
      assert [h[0]] + (h[1..] + Masked([p], rest)) == h + Masked([p], rest);
    }
  }

  /**
   `p` is `h`, `z` and `t`, and the mask can stand for `z`: it is the mask, or an end of it at an end of the part.
   */
  ghost predicate Cut(mask: string, p: string, h: string, z: string, t: string) {
    && p == h + z + t && z != "" && z <= mask && AllStars(mask)
    && (|| h == ""
        || (t == "" && |z| == 1 && p[0] != '*')
        || (z == mask && forall i :: 0 <= i < |h| ==> !(mask <= p[i..])))
  }

  lemma StarredCut(p: string) returns (h: string, z: string, t: string)
    requires Starred(p)
    ensures Cut(MASK, p, h, z, t)
  {
    if p[0] == '*' {
      h, z, t := "", "*", p[1..];
    } else if p[|p| - 1] == '*' {
      h, z, t := p[..|p| - 1], "*", "";
    } else {
      var k := FirstOccurrence(MASK, p);
      h, z, t := p[..k], MASK, p[k + 16..];
      assert p[k..] == MASK + p[k + 16..];
    }
  }

  lemma {:induction false} FirstOccurrence(x: string, s: string) returns (k: nat)
    requires Occurs(x, s)
    ensures k <= |s| && x <= s[k..] && forall i :: 0 <= i < k ==> !(x <= s[i..])
  {
    k := 0;
    assert s[0..] == s;
    if !(x <= s) {
      var j :| 0 <= j <= |s| && x <= s[j..];
      assert s[1..][j - 1..] == s[j..];
      var rest := FirstOccurrence(x, s[1..]);
      k := rest + 1;
      assert s[1..][rest..] == s[k..];
      forall i | 0 <= i < k ensures !(x <= s[i..]) {
        if i > 0 {
          assert s[1..][i - 1..] == s[i..];
        }
      }
    }
  }

  /** The part does not begin in its own head when it follows it. */
  lemma HeadHoldsNoStart(mask: string, p: string, h: string, z: string, t: string, rest: string)
    requires Cut(mask, p, h, z, t)
    ensures forall i :: 0 <= i < |h| ==> !(p <= h[i..] + (p + rest))
  {
    forall i | 0 <= i < |h| ensures !(p <= h[i..] + (p + rest)) {
      var s := h[i..] + (p + rest);
      assert forall k :: 0 <= k < |p| ==> s[|h| - i + k] == p[k];
      if t == "" && |z| == 1 && p[0] != '*' {
        assert s[0] == p[i] && s[|h| - i + i] == p[i] && p[|h|] == mask[0];
        assert s[0] != p[0] || s[|h|] != p[|h|];
      } else {
        assert |p[i..]| >= |mask|;
        var k :| 0 <= k < |mask| && p[i..][k] != mask[k];
        assert s[|h| - i + (i + k)] == p[i + k] && p[|h| + k] == mask[k];
      }
    }
  }

  /** With the mask in place of what comes after the head, the part is there again. */
  lemma MaskCompletes(mask: string, p: string, h: string, z: string, t: string) returns (j: nat)
    requires Cut(mask, p, h, z, t)
    ensures j <= |h + (mask + t)| && p <= (h + (mask + t))[j..]
  {
    var out := h + (mask + t);
    j := if h == "" then |mask| - |z| else 0;
    if h == "" {
      assert out[j..] == mask[j..] + t && mask[j..] == z;
    } else if t == "" {
      assert out[0..] == out && out == h + z + mask[|z|..];
    } else {
      assert out[0..] == out && out == p;
    }
  }

  lemma MaskedOnce(p: string, t: string)
    requires p != "" && |t| < |p|
    ensures Masked([p], p + t) == MASK + t
  {
    assert (p + t)[|p|..] == t;
    ShortIsKept(p, t);
  }

  /** A text in which the mask completes the part: its head, the part itself, and its tail. */
  lemma StarCompletesPart(p: string) returns (s: string)
    requires Starred(p)
    ensures NonEmpty([p]) && !Clean([p], Masked([p], s))
  {
    var h, z, t := StarredCut(p);
    s := h + (p + t);
    HeadHoldsNoStart(MASK, p, h, z, t, t);
    HeadIsKept(p, h, p + t);
    MaskedOnce(p, t);
    var j := MaskCompletes(MASK, p, h, z, t);
    assert p in [p];
  }

  /** A single part can leak through the mask exactly when it begins or ends with a star or holds the whole mask. */
  lemma LeaksIffStarred(p: string)
    requires p != ""
    ensures NonEmpty([p]) && ((exists s :: !Clean([p], Masked([p], s))) <==> Starred(p))
  {
    if Starred(p) {
      var s := StarCompletesPart(p);
    } else {
      forall s ensures Clean([p], Masked([p], s)) {
        NothingLeaks([p], s);
      }
    }
  }

  // ----- Text written in pieces -----

  predicate OneLine(parts: seq<string>) {
    forall p :: p in parts ==> '\n' !in p
  }

  predicate EndsLine(s: string) {
    s == "" || s[|s| - 1] == '\n'
  }

  /** A write that ends a line is masked as if it were followed by the rest in the same write. */
  lemma {:induction false} LineEndsCut(parts: seq<string>, a: string, b: string)
    requires NonEmpty(parts) && OneLine(parts) && EndsLine(a)
    ensures Masked(parts, a + b) == Masked(parts, a) + Masked(parts, b)
    decreases |a|
  {
    if a == "" {
      assert a + b == b;
    } else {
      var p := FirstMatch(parts, a + b);
      SameFirstMatch(parts, a, b);
      if p.Some? {
        var rest := a[|p.value|..];
        assert (a + b)[|p.value|..] == rest + b;
        LineEndsCut(parts, rest, b);
        Regrouped(MASK, Masked(parts, rest), Masked(parts, b));
      } else {
        assert (a + b)[1..] == a[1..] + b;
        LineEndsCut(parts, a[1..], b);
        Regrouped([a[0]], Masked(parts, a[1..]), Masked(parts, b));
      }
    }
  }

  lemma Regrouped(a: string, b: string, c: string)
    ensures a + (b + c) == (a + b) + c
  {
  }

  lemma {:induction false} SameFirstMatch(parts: seq<string>, a: string, b: string)
    requires OneLine(parts) && a != "" && EndsLine(a)
    ensures FirstMatch(parts, a + b) == FirstMatch(parts, a)
  {
    if parts != [] {
      var p := parts[0];
      assert p in parts;
      if |p| >= |a| {
        assert (a + b)[|a| - 1] == '\n' && p[|a| - 1] != '\n';
      }
      SameFirstMatch(parts[1..], a, b);
    }
  }

  function MaskedEach(parts: seq<string>, writes: seq<string>): string
    requires NonEmpty(parts)
  {
    if writes == [] then "" else Masked(parts, writes[0]) + MaskedEach(parts, writes[1..])
  }

  function Joined(writes: seq<string>): string {
    if writes == [] then "" else writes[0] + Joined(writes[1..])
  }

  /**
   When every write but the last ends a line, writing in pieces is writing at once, and no part of a secret is left
   in what all the writes together put out.
   */
  lemma {:induction false} LineWritesAreSafe(parts: seq<string>, writes: seq<string>)
    requires NonEmpty(parts) && OneLine(parts)
    requires forall i :: 0 <= i < |writes| - 1 ==> EndsLine(writes[i])
    ensures MaskedEach(parts, writes) == Masked(parts, Joined(writes))
    ensures NoneStarred(parts) ==> Clean(parts, MaskedEach(parts, writes))
  {
    if |writes| == 1 {
      assert Joined(writes) == writes[0] && MaskedEach(parts, writes) == Masked(parts, writes[0]);
    } else if |writes| > 1 {
      LineWritesAreSafe(parts, writes[1..]);
      LineEndsCut(parts, writes[0], Joined(writes[1..]));
    }
    if NoneStarred(parts) {
      NothingLeaks(parts, Joined(writes));
    }
  }

  lemma {:induction false} PartsOfLinesOneLine(lines: seq<string>)
    requires forall line :: line in lines ==> '\n' !in line
    ensures OneLine(PartsOfLines(lines))
  {
    forall p | p in PartsOfLines(lines) ensures '\n' !in p {
      PartsOfLinesAre(lines, p);
      var line :| line in lines && p == TrimSpace(line);
      TrimmedIsInside(line);
    }
  }

  /** The parts the masker uses never hold a line break: secrets are split there. */
  lemma {:induction false} PartsAreOneLine(secrets: seq<string>)
    ensures OneLine(AllParts(secrets))
  {
    if secrets != [] {
      PartsAreOneLine(secrets[1..]);
      SplitJoin(secrets[0], '\n');
      PartsOfLinesOneLine(Split(secrets[0], '\n'));
    }
  }

  /** What is left of the text before the first masked part, and after the last. */
  function Head(parts: seq<string>, s: string): string {
    if s == "" || FirstMatch(parts, s).Some? then "" else [s[0]] + Head(parts, s[1..])
  }

  predicate HoldsPart(parts: seq<string>, s: string) {
    s != "" && (FirstMatch(parts, s).Some? || HoldsPart(parts, s[1..]))
  }

  function Tail(parts: seq<string>, s: string): string
    requires NonEmpty(parts)
    decreases |s|
  {
    if !HoldsPart(parts, s) then s
    else
      var p := FirstMatch(parts, s);
      Tail(parts, if p.Some? then s[|p.value|..] else s[1..])
  }

  lemma {:induction false} HeadOfMasked(parts: seq<string>, s: string) returns (rest: string)
    requires NonEmpty(parts)
    ensures Masked(parts, s) == Head(parts, s) + rest && (rest == "" || MASK <= rest)
  {
    if s == "" || FirstMatch(parts, s).Some? {
      rest := Masked(parts, s);
      assert "" + rest == rest;
    } else {
      rest := HeadOfMasked(parts, s[1..]);
      assert [s[0]] + (Head(parts, s[1..]) + rest) == Head(parts, s) + rest;
    }
  }

  lemma {:induction false} NoPartIsKept(parts: seq<string>, s: string)
    requires NonEmpty(parts) && !HoldsPart(parts, s)
    ensures Masked(parts, s) == s
  {
    if s != "" {
      NoPartIsKept(parts, s[1..]);
    }
  }

  predicate EndsIn(s: string, x: string) {
    |x| <= |s| && s[|s| - |x|..] == x
  }

  lemma EndsInLonger(a: string, s: string, x: string)
    requires EndsIn(s, x)
    ensures EndsIn(a + s, x)
  {
    assert (a + s)[|a + s| - |x|..] == s[|s| - |x|..];
  }

  lemma {:induction false} TailOfMasked(parts: seq<string>, s: string) returns (front: string)
    requires NonEmpty(parts)
    ensures Masked(parts, s) == front + Tail(parts, s)
    ensures front == "" || EndsIn(front, MASK)
    ensures HoldsPart(parts, s) ==> front != ""
    decreases |s|
  {
    if !HoldsPart(parts, s) {
      NoPartIsKept(parts, s);
      front := "";
      assert "" + s == s;
    } else {
      var p := FirstMatch(parts, s);
      var first := if p.Some? then MASK else [s[0]];
      var later := if p.Some? then s[|p.value|..] else s[1..];
      var rest := TailOfMasked(parts, later);
      front := first + rest;
      Regrouped(first, rest, Tail(parts, later));
      if rest != "" {
        EndsInLonger(first, rest, MASK);
      } else {
        assert first + rest == first;
      }
    }
  }

  /** A part that begins in what is left at the end of one text and ends in what is left at the start of the next. */
  ghost predicate Straddles(parts: seq<string>, a: string, b: string)
    requires NonEmpty(parts)
  {
    exists p, k :: p in parts && 0 < k < |p| && EndsIn(Tail(parts, a), p[..k]) && p[k..] <= Head(parts, b)
  }

  /** Text that neither holds the mask nor begins with a star does not reach back into a mask. */
  lemma NotIntoMask(mask: string, u: string, front: string, tail: string)
    requires AllStars(mask) && |u| > |tail| && (front == "" || EndsIn(front, mask))
    requires !Occurs(mask, u) && u[0] != '*'
    ensures !EndsIn(front + tail, u)
  {
    var out := front + tail;
    if |u| <= |out| {
      var at, start := |out| - |u|, |front| - |mask|;
      assert front[start..] == mask;
      if at <= start {
        assert !(mask <= u[start - at..]);
        var k :| 0 <= k < |mask| && u[start - at..][k] != mask[k];
        assert front[start..][k] == mask[k];
        assert out[at..][start - at + k] == front[start + k];
      } else {
        assert out[at..][0] == front[start..][at - start] == mask[at - start];
      }
    }
  }

  lemma OccursInPiece(x: string, s: string, i: nat, j: nat)
    requires i <= j <= |s|
    ensures Occurs(x, s[i..j]) ==> Occurs(x, s)
  {
    forall k | 0 <= k <= j - i && x <= s[i..j][k..] ensures Occurs(x, s) {
      assert s[i..j][k..] == s[i + k..][..j - i - k];
      assert x <= s[i + k..];
    }
  }

  /** Where a part lies across the end of the first output, it lies in what neither text had masked. */
  lemma AcrossTheCut(parts: seq<string>, a: string, b: string, p: string, k: nat)
    requires NonEmpty(parts) && NoneStarred(parts) && p in parts && 0 < k < |p|
    ensures EndsIn(Masked(parts, a), p[..k]) && p[k..] <= Masked(parts, b) <==>
            EndsIn(Tail(parts, a), p[..k]) && p[k..] <= Head(parts, b)
  {
    var u, v := p[..k], p[k..];
    var front := TailOfMasked(parts, a);
    var rest := HeadOfMasked(parts, b);
    OccursInPiece(MASK, p, 0, k);
    OccursInPiece(MASK, p, k, |p|);
    assert p[0..k] == u && p[k..|p|] == v;
    if |u| > |Tail(parts, a)| {
      NotIntoMask(MASK, u, front, Tail(parts, a));
    } else {
      SameEnd(front, Tail(parts, a), u);
    }
    if |v| > |Head(parts, b)| {
      NotFromMask(MASK, v, Head(parts, b), rest);
    }
  }

  lemma SameEnd(front: string, tail: string, u: string)
    requires |u| <= |tail|
    ensures EndsIn(front + tail, u) <==> EndsIn(tail, u)
  {
    assert (front + tail)[|front + tail| - |u|..] == tail[|tail| - |u|..];
  }

  /** Two clean outputs are clean together unless a part lies across their border. */
  lemma CleanTogether(parts: seq<string>, x: string, y: string)
    requires Clean(parts, x) && Clean(parts, y)
    ensures Clean(parts, x + y) <==> !exists p, k :: p in parts && 0 < k < |p| && EndsIn(x, p[..k]) && p[k..] <= y
  {
    var out := x + y;
    forall p, k | p in parts && 0 < k < |p| && EndsIn(x, p[..k]) && p[k..] <= y ensures !Clean(parts, out) {
      assert out[|x| - k..] == x[|x| - k..] + y && p == p[..k] + p[k..];
      assert p <= out[|x| - k..];
    }
    forall p, j | p in parts && 0 <= j <= |out| && p <= out[j..]
      ensures exists k :: 0 < k < |p| && EndsIn(x, p[..k]) && p[k..] <= y
    {
      PieceOfTwo(x, y, p, j);
      assert !(j <= |x| && p <= x[j..]) && !(j >= |x| && p <= y[j - |x|..]);
    }
  }

  lemma PieceOfTwo(x: string, y: string, p: string, j: nat)
    requires j <= |x + y| && p <= (x + y)[j..]
    ensures || (j <= |x| && p <= x[j..])
            || (j >= |x| && p <= y[j - |x|..])
            || exists k :: 0 < k < |p| && EndsIn(x, p[..k]) && p[k..] <= y
  {
    var out := x + y;
    if j >= |x| {
      assert out[j..] == y[j - |x|..];
    } else {
      var k := |x| - j;
      assert out[j..] == x[j..] + y && |x[j..]| == k;
      if k < |p| {
        assert p[..k] == x[j..] && p[k..] <= y;
        assert EndsIn(x, p[..k]);
      }
    }
  }

  /**
   Two writes leak together exactly when a part straddles the cut: it begins in what is left after the last masked
   part of the first text and ends in what is left before the first masked part of the second.
   */
  lemma CutLeaksIffStraddled(parts: seq<string>, a: string, b: string)
    requires NonEmpty(parts) && NoneStarred(parts)
    ensures Clean(parts, Masked(parts, a) + Masked(parts, b)) <==> !Straddles(parts, a, b)
  {
    NothingLeaks(parts, a);
    NothingLeaks(parts, b);
    CleanTogether(parts, Masked(parts, a), Masked(parts, b));
    forall p, k | p in parts && 0 < k < |p|
      ensures EndsIn(Masked(parts, a), p[..k]) && p[k..] <= Masked(parts, b) <==>
              EndsIn(Tail(parts, a), p[..k]) && p[k..] <= Head(parts, b)
    {
      AcrossTheCut(parts, a, b, p, k);
    }
  }

  /** So any part comes through if it is cut where neither piece holds a part. */
  lemma SplitSecretLeaks(parts: seq<string>, p: string, k: nat)
    requires NonEmpty(parts) && p in parts && 0 < k < |p|
    requires Clean(parts, p[..k]) && Clean(parts, p[k..])
    ensures Masked(parts, p[..k]) + Masked(parts, p[k..]) == p
    ensures !Clean(parts, Masked(parts, p[..k]) + Masked(parts, p[k..]))
  {
    CleanIsKept(parts, p[..k]);
    CleanIsKept(parts, p[k..]);
    assert p[..k] + p[k..] == p == p[0..];
  }

  // ----- The order of the secrets -----

  /** Wherever two secrets both have a part that fits, the parts that win within them are the same. */
  predicate Agree(secrets: seq<string>) {
    forall i, j, q :: 0 <= i < |secrets| && 0 <= j < |secrets| && q in AllParts(secrets) ==>
      SameChoice(Parts(secrets[i]), Parts(secrets[j]), q)
  }

  predicate SameChoice(a: seq<string>, b: seq<string>, s: string) {
    FirstMatch(a, s).None? || FirstMatch(b, s).None? || FirstMatch(a, s) == FirstMatch(b, s)
  }

  /** The output when the secrets are met in this order. */
  function MaskedIn(secrets: seq<string>, s: string): string {
    PartsNonEmpty(secrets);
    Masked(AllParts(secrets), s)
  }

  ghost predicate OrderFree(secrets: seq<string>) {
    forall order: seq<string>, s: string :: multiset(order) == multiset(secrets) ==>
      MaskedIn(order, s) == MaskedIn(secrets, s)
  }

  lemma {:induction false} PartsNonEmpty(secrets: seq<string>)
    ensures NonEmpty(AllParts(secrets))
  {
    if secrets != [] {
      PartsNonEmpty(secrets[1..]);
      if secrets[0] != "" {
        PartsOfLinesAre(Split(secrets[0], '\n'), "");
      }
    }
  }

  lemma {:induction false} FirstMatchConcat(a: seq<string>, b: seq<string>, s: string)
    ensures FirstMatch(a + b, s) == if FirstMatch(a, s).Some? then FirstMatch(a, s) else FirstMatch(b, s)
  {
    if a == [] {
      assert a + b == b;
    } else {
      assert (a + b)[1..] == a[1..] + b;
      FirstMatchConcat(a[1..], b, s);
    }
  }

  /** The part that wins for the whole list is the one that wins within some secret. */
  lemma {:induction false} FirstMatchOfAll(secrets: seq<string>, s: string)
    ensures FirstMatch(AllParts(secrets), s).Some? ==>
              exists x :: x in secrets && FirstMatch(Parts(x), s) == FirstMatch(AllParts(secrets), s)
    ensures FirstMatch(AllParts(secrets), s).None? ==> forall x :: x in secrets ==> FirstMatch(Parts(x), s).None?
  {
    if secrets != [] {
      FirstMatchConcat(Parts(secrets[0]), AllParts(secrets[1..]), s);
      FirstMatchOfAll(secrets[1..], s);
      if FirstMatch(Parts(secrets[0]), s).Some? {
        assert secrets[0] in secrets;
      } else if FirstMatch(AllParts(secrets), s).Some? {
        var x :| x in secrets[1..] && FirstMatch(Parts(x), s) == FirstMatch(AllParts(secrets[1..]), s);
        assert x in secrets;
      } else {
        assert secrets == [secrets[0]] + secrets[1..];
      }
    }
  }

  /** The part that wins on `s` also wins on any prefix of `s` it fits. */
  lemma {:induction false} FirstMatchShorter(parts: seq<string>, s: string, t: string)
    requires FirstMatch(parts, s).Some? && FirstMatch(parts, s).value <= t <= s
    ensures FirstMatch(parts, t) == FirstMatch(parts, s)
  {
    if !(parts[0] <= s) {
      FirstMatchShorter(parts[1..], s, t);
    }
  }

  lemma PrefixesOfOne(p: string, q: string, s: string)
    requires p <= s && q <= s && |p| <= |q|
    ensures p <= q
  {
  }

  lemma {:induction false} PartsAmongAll(secrets: seq<string>, x: string, q: string)
    requires x in secrets && q in Parts(x)
    ensures q in AllParts(secrets)
  {
    if secrets[0] != x {
      PartsAmongAll(secrets[1..], x, q);
    }
  }

  /** Agreement on the parts themselves is agreement on every text. */
  lemma AgreeEverywhere(secrets: seq<string>, x: string, y: string, s: string)
    requires Agree(secrets) && x in secrets && y in secrets
    ensures SameChoice(Parts(x), Parts(y), s)
  {
    var p, q := FirstMatch(Parts(x), s), FirstMatch(Parts(y), s);
    if p.Some? && q.Some? {
      var i :| 0 <= i < |secrets| && secrets[i] == x;
      var j :| 0 <= j < |secrets| && secrets[j] == y;
      var longer := if |p.value| <= |q.value| then q.value else p.value;
      PrefixesOfOne(p.value, longer, s);
      PrefixesOfOne(q.value, longer, s);
      PartsAmongAll(secrets, if |p.value| <= |q.value| then y else x, longer);
      FirstMatchShorter(Parts(x), s, longer);
      FirstMatchShorter(Parts(y), s, longer);
      assert SameChoice(Parts(secrets[i]), Parts(secrets[j]), longer);
    }
  }

  lemma {:induction false} SameMasking(a: seq<string>, b: seq<string>, s: string)
    requires NonEmpty(a) && NonEmpty(b)
    requires forall t: string :: FirstMatch(a, t) == FirstMatch(b, t)
    ensures Masked(a, s) == Masked(b, s)
    decreases |s|
  {
    if s != "" {
      var p := FirstMatch(a, s);
      SameMasking(a, b, if p.Some? then s[|p.value|..] else s[1..]);
    }
  }

  lemma AgreeIsEnough(secrets: seq<string>, order: seq<string>, s: string)
    requires Agree(secrets) && multiset(order) == multiset(secrets)
    ensures MaskedIn(order, s) == MaskedIn(secrets, s)
  {
    PartsNonEmpty(order);
    PartsNonEmpty(secrets);
    forall t: string ensures FirstMatch(AllParts(order), t) == FirstMatch(AllParts(secrets), t) {
      FirstMatchOfAll(order, t);
      FirstMatchOfAll(secrets, t);
      assert forall x :: x in order <==> x in multiset(order);
      assert forall x :: x in secrets <==> x in multiset(secrets);
      var p, q := FirstMatch(AllParts(order), t), FirstMatch(AllParts(secrets), t);
      if p.Some? && q.Some? {
        var x :| x in order && FirstMatch(Parts(x), t) == p;
        var y :| y in secrets && FirstMatch(Parts(y), t) == q;
        AgreeEverywhere(secrets, x, y, t);
      }
    }
    SameMasking(AllParts(order), AllParts(secrets), s);
  }

  /** The order that puts secret `i` first. */
  function Foremost(secrets: seq<string>, i: nat): seq<string>
    requires i < |secrets|
  {
    [secrets[i]] + (secrets[..i] + secrets[i + 1..])
  }

  lemma ForemostIsOrder(secrets: seq<string>, i: nat, s: string)
    requires i < |secrets|
    ensures multiset(Foremost(secrets, i)) == multiset(secrets)
    ensures FirstMatch(Parts(secrets[i]), s).Some? ==>
              FirstMatch(AllParts(Foremost(secrets, i)), s) == FirstMatch(Parts(secrets[i]), s)
  {
    assert secrets == secrets[..i] + [secrets[i]] + secrets[i + 1..];
    var rest := secrets[..i] + secrets[i + 1..];
    assert Foremost(secrets, i)[1..] == rest;
    FirstMatchConcat(Parts(secrets[i]), AllParts(rest), s);
  }

  lemma MaskedLength(parts: seq<string>, s: string)
    requires NonEmpty(parts) && FirstMatch(parts, s).Some?
    ensures var p := FirstMatch(parts, s).value;
            if p == s then |Masked(parts, s)| == 16 else |Masked(parts, s)| > 16
  {
  }

  /** Without agreement there are two orders and a text that tell them apart. */
  lemma DisagreementShows(secrets: seq<string>, i: nat, j: nat, q: string)
    requires i < |secrets| && j < |secrets| && !SameChoice(Parts(secrets[i]), Parts(secrets[j]), q)
    ensures !OrderFree(secrets)
  {
    var x, y := FirstMatch(Parts(secrets[i]), q).value, FirstMatch(Parts(secrets[j]), q).value;
    var text := if |x| <= |y| then y else x;
    PrefixesOfOne(x, text, q);
    PrefixesOfOne(y, text, q);
    FirstMatchShorter(Parts(secrets[i]), q, text);
    FirstMatchShorter(Parts(secrets[j]), q, text);
    ForemostIsOrder(secrets, i, text);
    ForemostIsOrder(secrets, j, text);
    var a, b := Foremost(secrets, i), Foremost(secrets, j);
    PartsNonEmpty(a);
    PartsNonEmpty(b);
    MaskedLength(AllParts(a), text);
    MaskedLength(AllParts(b), text);
    assert MaskedIn(a, text) != MaskedIn(b, text);
  }

  /** The output is independent of the iteration order of the secret map exactly when the secrets agree. */
  lemma OrderFreeIffAgree(secrets: seq<string>)
    ensures OrderFree(secrets) <==> Agree(secrets)
  {
    if Agree(secrets) {
      forall order: seq<string>, s: string | multiset(order) == multiset(secrets)
        ensures MaskedIn(order, s) == MaskedIn(secrets, s)
      {
        AgreeIsEnough(secrets, order, s);
      }
    } else {
      var i, j, q :| 0 <= i < |secrets| && 0 <= j < |secrets| && q in AllParts(secrets)
        && !SameChoice(Parts(secrets[i]), Parts(secrets[j]), q);
      DisagreementShows(secrets, i, j, q);
    }
  }

  ghost predicate PrefixFree(parts: seq<string>) {
    forall p, q :: p in parts && q in parts && p <= q ==> p == q
  }

  /** In particular, when no part is a proper prefix of another. */
  lemma PrefixFreeAgrees(secrets: seq<string>)
    requires PrefixFree(AllParts(secrets))
    ensures Agree(secrets)
  {
    forall i, j, q | 0 <= i < |secrets| && 0 <= j < |secrets| && q in AllParts(secrets)
      ensures SameChoice(Parts(secrets[i]), Parts(secrets[j]), q)
    {
      var a, b := FirstMatch(Parts(secrets[i]), q), FirstMatch(Parts(secrets[j]), q);
      if a.Some? && b.Some? {
        PartsAmongAll(secrets, secrets[i], a.value);
        PartsAmongAll(secrets, secrets[j], b.value);
      }
    }
  }

  // ----- The writer -----

  /** The wrapped writer: what it was given, call by call; any call may fail. */
  class Sink {
    var written: seq<string>

    constructor ()
      ensures written == []
    {
      written := [];
    }

    method Write(p: string) returns (n: nat, ok: bool)
      modifies this
      ensures written == old(written) + [p]
      ensures n <= |p|
    {
      written := written + [p];
      ok := *;
      n :| n <= |p|;
    }
  }

  class Masker {
    const w: Sink
    const oldnew: seq<string>

    constructor (w: Sink, oldnew: seq<string>)
      ensures this.w == w && this.oldnew == oldnew
    {
      this.w := w;
      this.oldnew := oldnew;
    }

    /** Masks `p` and hands it on; the count is that of the input whatever was written. */
    method Write(p: string) returns (n: nat, ok: bool)
      requires NonEmpty(oldnew)
      modifies w
      ensures w.written == old(w.written) + [Masked(oldnew, p)]
      ensures n == |p|
    {
      var _, fine := w.Write(Masked(oldnew, p));
      return |p|, fine;
    }
  }

  /** The values of a map in the order of `keys`. */
  function ValuesAt(m: map<string, string>, keys: seq<string>): seq<string>
    requires forall k :: k in keys ==> k in m
  {
    seq(|keys|, i requires 0 <= i < |keys| => m[keys[i]])
  }

  /**
   The inner loop of `NewMasker`: the parts of one secret, line by line.  `PartsAreTrimmedLines` says what they are.
   */
  method AddParts(oldnew: seq<string>, secret: string) returns (more: seq<string>)
    requires secret != ""
    ensures more == oldnew + Parts(secret)
  {
    more := oldnew;
    var lines := Split(secret, '\n');
    var i := 0;
    while i < |lines|
      invariant i <= |lines|
      invariant more == oldnew + PartsOfLines(lines[..i])
    {
      PartsOfLinesMore(lines[..i], lines[i]);
      assert lines[..i + 1] == lines[..i] + [lines[i]];
      var part := TrimSpace(lines[i]);
      if |part| >= 2 {
        more := more + [part];
      }
      i := i + 1;
    }
    assert lines[..i] == lines;
  }

  /** Every key once, in some order. */
  ghost predicate Enumerates(m: map<string, string>, keys: seq<string>) {
    |keys| == |m| && forall k :: k in keys <==> k in m
  }

  ghost predicate Masks(m: Option<Masker>, w: Sink, parts: seq<string>) {
    if m.None? then parts == [] else parts != [] && m.value.w == w && m.value.oldnew == parts && NonEmpty(parts)
  }

  /** A line of one of the secrets, trimmed, is `part`. */
  ghost predicate IsLineOfSome(m: map<string, string>, part: string) {
    exists key, i: nat, j: nat ::
      key in m && IsPiece(m[key], '\n', i, j) && IsTrimmed(m[key][i..j], part)
  }

  /** `parts` is cut at `cuts` into the pieces of the keys, each the trimmed lines of that key's secret in order. */
  ghost predicate PartsByKey(m: map<string, string>, parts: seq<string>, keys: seq<string>, pieces: seq<seq<string>>,
                             cuts: seq<nat>)
  {
    && Enumerates(m, keys) && |pieces| == |keys| && LaidOut(parts, [], pieces, cuts)
    && forall k :: 0 <= k < |keys| ==> HasTrimmedLines(m[keys[k]], pieces[k])
  }

  function PartsEach(secrets: seq<string>): seq<seq<string>> {
    seq(|secrets|, k requires 0 <= k < |secrets| => Parts(secrets[k]))
  }

  lemma {:induction false} AllPartsLaidOut(secrets: seq<string>) returns (cuts: seq<nat>)
    ensures LaidOut(AllParts(secrets), [], PartsEach(secrets), cuts)
  {
    if secrets == [] {
      cuts := [0];
    } else {
      var front, secret := secrets[..|secrets| - 1], secrets[|secrets| - 1];
      assert front + [secret] == secrets;
      var ends := AllPartsLaidOut(front);
      OneMorePiece(AllParts(front), [], PartsEach(front), ends, Parts(secret));
      cuts := ends + [|AllParts(front) + Parts(secret)|];
      AllPartsMore(front, secret);
      assert PartsEach(front) + [Parts(secret)] == PartsEach(secrets);
    }
  }

  lemma AllPartsByKey(m: map<string, string>, keys: seq<string>) returns (pieces: seq<seq<string>>, cuts: seq<nat>)
    requires Enumerates(m, keys)
    ensures PartsByKey(m, AllParts(ValuesAt(m, keys)), keys, pieces, cuts)
  {
    var secrets := ValuesAt(m, keys);
    pieces := PartsEach(secrets);
    cuts := AllPartsLaidOut(secrets);
    forall k | 0 <= k < |keys| ensures HasTrimmedLines(m[keys[k]], pieces[k]) {
      var at := PartsAreTrimmedLines(secrets[k]);
      assert TrimmedLines(m[keys[k]], pieces[k], at);
    }
  }

  lemma OnePartAt(secret: string, i: nat, a: string, b: string)
    requires TrimmedLineAt(secret, i, a) && TrimmedLineAt(secret, i, b)
    ensures a == b
  {
    var j: nat :| IsPiece(secret, '\n', i, j) && IsTrimmed(secret[i..j], a);
    var n: nat :| IsPiece(secret, '\n', i, n) && IsTrimmed(secret[i..n], b);
    OneEnd(secret, '\n', i, j, secret[i..n]);
    OneTrimming(secret[i..j], a, b);
  }

  lemma InTrimmedLines(secret: string, parts: seq<string>, at: seq<nat>, part: string)
    requires TrimmedLines(secret, parts, at)
    ensures part in parts <==> |part| >= 2 && exists i: nat :: TrimmedLineAt(secret, i, part)
  {
    if |part| >= 2 {
      if i: nat :| TrimmedLineAt(secret, i, part) {
        var k :| 0 <= k < |at| && at[k] == i;
        OnePartAt(secret, i, part, parts[k]);
      }
    }
  }

  /** The parts of all secrets are all their trimmed lines of two bytes or more. */
  lemma PartsAreLines(m: map<string, string>, parts: seq<string>, keys: seq<string>, pieces: seq<seq<string>>,
                      cuts: seq<nat>, part: string)
    requires PartsByKey(m, parts, keys, pieces, cuts)
    ensures part in parts <==> |part| >= 2 && IsLineOfSome(m, part)
  {
    InSomePiece(parts, [], pieces, cuts, part);
    forall k | 0 <= k < |keys|
      ensures part in pieces[k] <==> |part| >= 2 && exists i: nat :: TrimmedLineAt(m[keys[k]], i, part)
    {
      var at :| TrimmedLines(m[keys[k]], pieces[k], at);
      InTrimmedLines(m[keys[k]], pieces[k], at, part);
    }
    if |part| >= 2 && IsLineOfSome(m, part) {
      var key, i: nat, j: nat :| key in m && IsPiece(m[key], '\n', i, j) && IsTrimmed(m[key][i..j], part);
      assert TrimmedLineAt(m[key], i, part);
      var k :| 0 <= k < |keys| && keys[k] == key;
      assert part in pieces[k];
    }
    if part in parts {
      var k :| 0 <= k < |pieces| && part in pieces[k];
      assert keys[k] in m;
    }
  }

  /** Exactly the trimmed lines of two bytes or more are parts, secret by secret and in the order of the lines. */
  ghost predicate AreTheParts(m: map<string, string>, parts: seq<string>) {
    && (exists keys, pieces, cuts :: PartsByKey(m, parts, keys, pieces, cuts))
    && (forall part :: part in parts <==> |part| >= 2 && IsLineOfSome(m, part))
  }

  lemma AllPartsAreTheParts(m: map<string, string>, keys: seq<string>, parts: seq<string>)
    requires Enumerates(m, keys) && parts == AllParts(ValuesAt(m, keys))
    ensures AreTheParts(m, parts)
  {
    var pieces, cuts := AllPartsByKey(m, keys);
    forall part ensures part in parts <==> |part| >= 2 && IsLineOfSome(m, part) {
      PartsAreLines(m, parts, keys, pieces, cuts, part);
    }
  }

  function PartsIn(m: Option<Masker>): seq<string> {
    if m.Some? then m.value.oldnew else []
  }

  /**
   The masker for a secret map, whose entries are met in some order; without any part to mask there is none and
   `w` itself is used.
   */
  method NewMasker(w: Sink, secretData: map<string, string>) returns (m: Option<Masker>)
    ensures exists keys :: Enumerates(secretData, keys) && Masks(m, w, AllParts(ValuesAt(secretData, keys)))
    ensures AreTheParts(secretData, PartsIn(m))
    ensures m.Some? ==> m.value.w == w && m.value.oldnew != []
  {
    ghost var keys: seq<string> := [];
    var oldnew: seq<string> := [];
    var todo := secretData.Keys;
    while todo != {}
      invariant todo <= secretData.Keys && |keys| + |todo| == |secretData|
      invariant forall k :: k in keys <==> k in secretData.Keys - todo
      invariant oldnew == AllParts(ValuesAt(secretData, keys))
      decreases todo
    {
      var key :| key in todo;
      var secret := secretData[key];
      ghost var order := ValuesAt(secretData, keys);
      assert ValuesAt(secretData, keys + [key]) == order + [secret];
      AllPartsMore(order, secret);
      if secret != "" {
        oldnew := AddParts(oldnew, secret);
      }
      keys := keys + [key];
      todo := todo - {key};
    }
    PartsNonEmpty(ValuesAt(secretData, keys));
    assert Enumerates(secretData, keys);
    m := None;
    if |oldnew| != 0 {
      var masker := new Masker(w, oldnew);
      m := Some(masker);
    }
    AllPartsAreTheParts(secretData, keys, PartsIn(m));
  }

  /** Using the writer itself is what masking with no parts would do. */
  lemma {:induction false} NothingToMask(s: string)
    ensures Masked([], s) == s
  {
    if s != "" {
      NothingToMask(s[1..]);
      assert s == [s[0]] + s[1..];
    }
  }

  lemma {:induction false} AllPartsMore(secrets: seq<string>, secret: string)
    ensures AllParts(secrets + [secret]) == AllParts(secrets) + Parts(secret)
  {
    if secrets == [] {
      assert secrets + [secret] == [secret];
    } else {
      assert (secrets + [secret])[1..] == secrets[1..] + [secret];
      AllPartsMore(secrets[1..], secret);
    }
  }

  lemma {:induction false} PartsOfLinesMore(lines: seq<string>, line: string)
    ensures PartsOfLines(lines + [line]) == PartsOfLines(lines) + PartOf(line)
  {
    if lines == [] {
      assert lines + [line] == [line];
    } else {
      assert (lines + [line])[1..] == lines[1..] + [line];
      PartsOfLinesMore(lines[1..], line);
    }
  }
}
