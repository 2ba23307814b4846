/**
 * What the list of legal moves holds: exactly the legal cells, in strictly
 * increasing row-major order, and nothing exactly when the player has no move.
 */
module MoveList {
  import opened Rules

  lemma {:induction false} RowMovesExact(g: Grid, p: int, row: int, col: nat)
    requires 0 <= row < |g| && col <= |g|
    ensures var ms := RowMoves(g, p, row, col);
      (forall m :: m in ms <==> m.0 == row && m.1 < col && Legal(g, m.0, m.1, p)) &&
      (forall a, b :: 0 <= a < b < |ms| ==> ms[a].1 < ms[b].1)
  {
    if col > 0 {
      RowMovesExact(g, p, row, col - 1);
    }
  }

  lemma {:induction false} MovesAboveExact(g: Grid, p: int, row: nat)
    requires row <= |g|
    ensures var ms := MovesAbove(g, p, row);
      (forall m :: m in ms <==> m.0 < row && Legal(g, m.0, m.1, p)) &&
      (forall a, b :: 0 <= a < b < |ms| ==> RowMajorBefore(ms[a], ms[b]))
  {
    if row > 0 {
      MovesAboveExact(g, p, row - 1);
      RowMovesExact(g, p, row - 1, |g|);
      var above, here := MovesAbove(g, p, row - 1), RowMoves(g, p, row - 1, |g|);
      forall a, b | 0 <= a < b < |above + here|
        ensures RowMajorBefore((above + here)[a], (above + here)[b])
      {
        if b >= |above| && a < |above| {
          assert above[a] in above;
          assert here[b - |above|] in here;
        }
      }
    }
  }

  /** LegalMoves(g, p) holds exactly the legal moves of p. */
  lemma LegalMovesMembers(g: Grid, p: int)
    ensures forall m :: m in LegalMoves(g, p) <==> Legal(g, m.0, m.1, p)
  {
    MovesAboveExact(g, p, |g|);
  }

  /** LegalMoves(g, p) is in strictly increasing row-major order, so it has no duplicates. */
  lemma LegalMovesSorted(g: Grid, p: int)
    ensures var ms := LegalMoves(g, p);
      forall a, b :: 0 <= a < b < |ms| ==> RowMajorBefore(ms[a], ms[b]) && ms[a] != ms[b]
  {
    MovesAboveExact(g, p, |g|);
  }

  /** LegalMoves(g, p) is empty exactly when p has no legal move. */
  lemma LegalMovesEmpty(g: Grid, p: int)
    ensures LegalMoves(g, p) == [] <==> !HasMove(g, p)
  {
    var ms := LegalMoves(g, p);
    LegalMovesMembers(g, p);
    if HasMove(g, p) {
      var i, j :| 0 <= i < |g| && 0 <= j < |g| && Legal(g, i, j, p);
      assert (i, j) in ms;
    }
    if ms != [] {
      assert ms[0] in ms;
    }
  }
}
