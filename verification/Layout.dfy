/** A whole made of pieces one after the other, told by the places where it is cut. */
module Layout {

  predicate PieceAt<T(==)>(whole: seq<T>, low: nat, high: nat, piece: seq<T>) {
    low <= high <= |whole| && whole[low..high] == piece
  }

  /** `whole` is `first` and then `pieces` one after the other; `cuts` are where they begin and where the last ends. */
  ghost predicate LaidOut<T>(whole: seq<T>, first: seq<T>, pieces: seq<seq<T>>, cuts: seq<nat>) {
    && |cuts| == |pieces| + 1 && cuts[0] == |first| && cuts[|pieces|] == |whole|
    && first <= whole
    && forall i {:trigger pieces[i]} :: 0 <= i < |pieces| ==> PieceAt(whole, cuts[i], cuts[i + 1], pieces[i])
  }

  lemma LongerWhole<T>(whole: seq<T>, more: seq<T>, low: nat, high: nat, piece: seq<T>)
    requires PieceAt(whole, low, high, piece)
    ensures PieceAt(whole + more, low, high, piece)
  {
  }

  lemma OneMorePiece<T>(whole: seq<T>, first: seq<T>, pieces: seq<seq<T>>, cuts: seq<nat>, piece: seq<T>)
    requires LaidOut(whole, first, pieces, cuts)
    ensures LaidOut(whole + piece, first, pieces + [piece], cuts + [|whole + piece|])
  {
    var more, ends := pieces + [piece], cuts + [|whole + piece|];
    forall i {:trigger more[i]} | 0 <= i < |more| ensures PieceAt(whole + piece, ends[i], ends[i + 1], more[i]) {
      if i < |pieces| {
        assert more[i] == pieces[i] && PieceAt(whole, cuts[i], cuts[i + 1], pieces[i]);
        LongerWhole(whole, piece, cuts[i], cuts[i + 1], pieces[i]);
      }
    }
  }

  /** Whatever follows `first` lies in one of the pieces. */
  lemma InSomePiece<T>(whole: seq<T>, first: seq<T>, pieces: seq<seq<T>>, cuts: seq<nat>, x: T)
    requires LaidOut(whole, first, pieces, cuts)
    ensures x in whole <==> x in first || exists k :: 0 <= k < |pieces| && x in pieces[k]
  {
    if i :| 0 <= i < |whole| && whole[i] == x {
      var k := 0;
      while k < |pieces| && cuts[k + 1] <= i
        invariant k <= |pieces| && (i < |first| || cuts[k] <= i)
      {
        k := k + 1;
      }
      if i >= |first| {
        assert PieceAt(whole, cuts[k], cuts[k + 1], pieces[k]);
        assert pieces[k][i - cuts[k]] == x;
      }
    }
    if k :| 0 <= k < |pieces| && x in pieces[k] {
      assert PieceAt(whole, cuts[k], cuts[k + 1], pieces[k]);
    }
  }
}
