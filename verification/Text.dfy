/** Splitting text at a separator and joining it again. */
module Text {

  /** `strings.Split(s, sep)` for a one-byte separator. */
  function Split(s: string, sep: char): (parts: seq<string>)
    ensures parts != []
  {
    if s == "" then [""]
    else if s[0] == sep then [""] + Split(s[1..], sep)
    else
      var rest := Split(s[1..], sep);
      [[s[0]] + rest[0]] + rest[1..]
  }

  /** `strings.Join(parts, sep)` for a one-byte separator. */
  function Join(parts: seq<string>, sep: char): string {
    if parts == [] then ""
    else if |parts| == 1 then parts[0]
    else parts[0] + ([sep] + Join(parts[1..], sep))
  }

  /** The parts lack the separator and make up the text again. */
  lemma {:induction false} SplitJoin(s: string, sep: char)
    ensures Join(Split(s, sep), sep) == s
    ensures forall part :: part in Split(s, sep) ==> sep !in part
  {
    if s != "" {
      SplitJoin(s[1..], sep);
      var rest := Split(s[1..], sep);
      var parts := Split(s, sep);
      if s[0] == sep {
        assert parts[1..] == rest;
      } else {
        assert parts[1..] == rest[1..];
        assert rest == [rest[0]] + rest[1..];
        if |rest| > 1 {
          assert ([s[0]] + rest[0]) + ([sep] + Join(rest[1..], sep))
                    == [s[0]] + (rest[0] + ([sep] + Join(rest[1..], sep)));
        }
      }
    }
  }

  lemma {:induction false} SplitFirst(part: string, sep: char, rest: string)
    requires sep !in part
    ensures Split(part + ([sep] + rest), sep) == [part] + Split(rest, sep)
    ensures Split(part, sep) == [part]
  {
    if part == "" {
      assert part + ([sep] + rest) == [sep] + rest;
      assert ([sep] + rest)[1..] == rest;
    } else {
      assert (part + ([sep] + rest))[1..] == part[1..] + ([sep] + rest);
      SplitFirst(part[1..], sep, rest);
      assert [part[0]] + part[1..] == part;
    }
  }

  /** Parts without the separator are found again. */
  lemma {:induction false} JoinSplit(parts: seq<string>, sep: char)
    requires parts != [] && forall part :: part in parts ==> sep !in part
    ensures Split(Join(parts, sep), sep) == parts
  {
    if |parts| == 1 {
      SplitFirst(parts[0], sep, "");
      assert parts == [parts[0]];
    } else {
      JoinSplit(parts[1..], sep);
      SplitFirst(parts[0], sep, Join(parts[1..], sep));
      assert parts == [parts[0]] + parts[1..];
    }
  }

  /** `s[i..j]` is a piece between separators: it holds none and is bounded by one or by an end on either side. */
  predicate IsPiece(s: string, sep: char, i: nat, j: nat) {
    && i <= j <= |s| && sep !in s[i..j]
    && (i == 0 || s[i - 1] == sep) && (j == |s| || s[j] == sep)
  }

  /** The pieces of a text are found by their positions: `begins` are where they begin, in order. */
  ghost predicate PiecesAt(s: string, sep: char, parts: seq<string>, begins: seq<nat>) {
    && |begins| == |parts| > 0 && begins[0] == 0
    && (forall k, l :: 0 <= k < l < |begins| ==> begins[k] < begins[l])
    && (forall k :: 0 <= k < |begins| ==> FoundAt(s, sep, parts[k], begins[k]))
    && (forall i, j :: IsPiece(s, sep, i, j) ==> i in begins)
  }

  predicate FoundAt(s: string, sep: char, part: string, i: nat) {
    IsPiece(s, sep, i, i + |part|) && s[i..i + |part|] == part
  }

  function Shifted(begins: seq<nat>): seq<nat> {
    seq(|begins|, k requires 0 <= k < |begins| => begins[k] + 1)
  }

  /** What is found in the rest of the text is found in the text, unless it starts the rest. */
  lemma FoundLater(s: string, sep: char, part: string, i: nat)
    requires s != "" && FoundAt(s[1..], sep, part, i) && (i > 0 || s[0] == sep)
    ensures FoundAt(s, sep, part, i + 1)
  {
    assert s[1..][i..i + |part|] == s[i + 1..i + 1 + |part|];
  }

  lemma PieceBefore(s: string, sep: char, i: nat, j: nat)
    requires i > 0 && IsPiece(s, sep, i, j)
    ensures IsPiece(s[1..], sep, i - 1, j - 1)
  {
    assert s[1..][i - 1..j - 1] == s[i..j];
  }

  lemma FirstPiece(s: string, sep: char, part: string)
    requires s != "" && FoundAt(s[1..], sep, part, 0)
    ensures FoundAt(s, sep, if s[0] == sep then "" else [s[0]] + part, 0)
  {
  }

  /** One more byte in front: a separator begins a new piece, any other byte makes the first piece longer. */
  ghost predicate OneByteMore(s: string, sep: char, rest: seq<string>, later: seq<nat>, parts: seq<string>,
                              begins: seq<nat>)
  {
    && s != "" && |later| == |rest| > 0
    && if s[0] == sep then parts == [""] + rest && begins == [0] + Shifted(later)
       else parts == [[s[0]] + rest[0]] + rest[1..] && begins == [0] + Shifted(later[1..])
  }

  lemma StillFound(s: string, sep: char, rest: seq<string>, later: seq<nat>, parts: seq<string>, begins: seq<nat>,
                   k: nat)
    requires OneByteMore(s, sep, rest, later, parts, begins) && PiecesAt(s[1..], sep, rest, later) && k < |begins|
    ensures FoundAt(s, sep, parts[k], begins[k])
  {
    if k == 0 {
      assert FoundAt(s[1..], sep, rest[0], later[0]);
      FirstPiece(s, sep, rest[0]);
    } else {
      var was := if s[0] == sep then k - 1 else k;
      assert FoundAt(s[1..], sep, rest[was], later[was]);
      assert was > 0 ==> later[0] < later[was];
      assert parts[k] == rest[was] && begins[k] == later[was] + 1;
      FoundLater(s, sep, rest[was], later[was]);
    }
  }

  lemma StillAll(s: string, sep: char, rest: seq<string>, later: seq<nat>, parts: seq<string>, begins: seq<nat>,
                 i: nat, j: nat)
    requires OneByteMore(s, sep, rest, later, parts, begins) && PiecesAt(s[1..], sep, rest, later)
    requires IsPiece(s, sep, i, j)
    ensures i in begins
  {
    if i == 0 {
      assert begins[0] == 0;
    } else {
      PieceBefore(s, sep, i, j);
      var was :| 0 <= was < |later| && later[was] == i - 1;
      if s[0] == sep {
        assert begins[was + 1] == i;
      } else {
        assert was > 0 && begins[was] == later[1..][was - 1] + 1;
      }
    }
  }

  lemma StillInOrder(s: string, sep: char, rest: seq<string>, later: seq<nat>, parts: seq<string>, begins: seq<nat>)
    requires OneByteMore(s, sep, rest, later, parts, begins) && PiecesAt(s[1..], sep, rest, later)
    ensures forall k, l :: 0 <= k < l < |begins| ==> begins[k] < begins[l]
  {
  }

  /** Splitting finds exactly the pieces, in order. */
  lemma {:induction false} SplitAt(s: string, sep: char) returns (begins: seq<nat>)
    ensures PiecesAt(s, sep, Split(s, sep), begins)
  {
    begins := [0];
    if s != "" {
      var later := SplitAt(s[1..], sep);
      begins := [0] + Shifted(if s[0] == sep then later else later[1..]);
      var rest, parts := Split(s[1..], sep), Split(s, sep);
      StillInOrder(s, sep, rest, later, parts, begins);
      forall k | 0 <= k < |begins| ensures FoundAt(s, sep, parts[k], begins[k]) {
        StillFound(s, sep, rest, later, parts, begins, k);
      }
      forall i, j | IsPiece(s, sep, i, j) ensures i in begins {
        StillAll(s, sep, rest, later, parts, begins, i, j);
      }
    }
  }

  lemma NoneInside(s: string, sep: char, i: nat, j: nat)
    requires i <= j <= |s| && sep !in s[i..j]
    ensures forall k :: i <= k < j ==> s[k] != sep
  {
    forall k | i <= k < j ensures s[k] != sep {
      assert s[k] == s[i..j][k - i];
    }
  }

  /** A piece is determined by where it begins. */
  lemma OneEnd(s: string, sep: char, i: nat, j: nat, part: string)
    requires IsPiece(s, sep, i, j) && FoundAt(s, sep, part, i)
    ensures s[i..j] == part
  {
    NoneInside(s, sep, i, j);
    NoneInside(s, sep, i, i + |part|);
  }

  ghost predicate HasPiece(s: string, sep: char, part: string) {
    exists i: nat, j: nat :: IsPiece(s, sep, i, j) && s[i..j] == part
  }

  lemma InSplit(s: string, sep: char, part: string)
    ensures part in Split(s, sep) <==> HasPiece(s, sep, part)
  {
    var parts := Split(s, sep);
    var begins := SplitAt(s, sep);
    if k :| 0 <= k < |parts| && parts[k] == part {
      assert FoundAt(s, sep, parts[k], begins[k]);
      assert IsPiece(s, sep, begins[k], begins[k] + |part|);
    }
    if HasPiece(s, sep, part) {
      var i: nat, j: nat :| IsPiece(s, sep, i, j) && s[i..j] == part;
      var k :| 0 <= k < |begins| && begins[k] == i;
      assert FoundAt(s, sep, parts[k], begins[k]);
      OneEnd(s, sep, i, j, parts[k]);
    }
  }
}
