/**
 * Piece counts: how a move changes them, and the counts of the start
 * position.
 */
module CountFacts {
  import opened Rules
  import opened RayFacts

  /** Number of positions where row a holds x and row b holds y. */
  function ChangedRow(a: seq<int>, b: seq<int>, x: int, y: int): nat
    requires |a| == |b|
  {
    if a == [] then 0
    else ChangedRow(a[..|a| - 1], b[..|b| - 1], x, y) + (if a[|a| - 1] == x && b[|b| - 1] == y then 1 else 0)
  }

  /** Rows rs and ts have the same shape. */
  predicate SameShape(rs: seq<seq<int>>, ts: seq<seq<int>>)
  {
    |rs| == |ts| && forall i :: 0 <= i < |rs| ==> |rs[i]| == |ts[i]|
  }

  /** Number of cells that hold x in rs and y in ts. */
  function Changed(rs: seq<seq<int>>, ts: seq<seq<int>>, x: int, y: int): nat
    requires SameShape(rs, ts)
  {
    if rs == [] then 0
    else Changed(rs[..|rs| - 1], ts[..|ts| - 1], x, y) + ChangedRow(rs[|rs| - 1], ts[|ts| - 1], x, y)
  }

  /** Each position of b either keeps a's value or turns from x1 or x2 into y. */
  ghost predicate RowTurnsInto(a: seq<int>, b: seq<int>, y: int, x1: int, x2: int)
  {
    |a| == |b| && forall k :: 0 <= k < |a| ==> b[k] == a[k] || (b[k] == y && (a[k] == x1 || a[k] == x2))
  }

  /** A row in which cells only turn from x1 or x2 into y gains y exactly as x1 and x2 lose. */
  lemma {:induction false} RowDelta(a: seq<int>, b: seq<int>, y: int, x1: int, x2: int)
    requires RowTurnsInto(a, b, y, x1, x2) && y != x1 && y != x2 && x1 != x2
    ensures CountRow(b, y) == CountRow(a, y) + ChangedRow(a, b, x1, y) + ChangedRow(a, b, x2, y)
    ensures CountRow(b, x1) + ChangedRow(a, b, x1, y) == CountRow(a, x1)
    ensures CountRow(b, x2) + ChangedRow(a, b, x2, y) == CountRow(a, x2)
  {
    if a != [] {
      var n := |a| - 1;
      assert RowTurnsInto(a[..n], b[..n], y, x1, x2);
      RowDelta(a[..n], b[..n], y, x1, x2);
    }
  }

  /** The grid version of RowDelta. */
  lemma {:induction false} GridDelta(rs: seq<seq<int>>, ts: seq<seq<int>>, y: int, x1: int, x2: int)
    requires SameShape(rs, ts) && y != x1 && y != x2 && x1 != x2
    requires forall i :: 0 <= i < |rs| ==> RowTurnsInto(rs[i], ts[i], y, x1, x2)
    ensures CountRows(ts, y) == CountRows(rs, y) + Changed(rs, ts, x1, y) + Changed(rs, ts, x2, y)
    ensures CountRows(ts, x1) + Changed(rs, ts, x1, y) == CountRows(rs, x1)
    ensures CountRows(ts, x2) + Changed(rs, ts, x2, y) == CountRows(rs, x2)
  {
    if rs != [] {
      var n := |rs| - 1;
      GridDelta(rs[..n], ts[..n], y, x1, x2);
      RowDelta(rs[n], ts[n], y, x1, x2);
    }
  }

  /** A row where exactly position c holds x in a and y in b has one such change. */
  lemma {:induction false} ChangedRowSingle(a: seq<int>, b: seq<int>, x: int, y: int, c: int)
    requires |a| == |b|
    requires forall k :: 0 <= k < |a| ==> (a[k] == x && b[k] == y <==> k == c)
    ensures ChangedRow(a, b, x, y) == if 0 <= c < |a| then 1 else 0
  {
    if a != [] {
      ChangedRowSingle(a[..|a| - 1], b[..|b| - 1], x, y, c);
    }
  }

  /** Rows where exactly cell (r, c) holds x in rs and y in ts have one such change. */
  lemma {:induction false} ChangedSingle(rs: seq<seq<int>>, ts: seq<seq<int>>, x: int, y: int, r: int, c: int)
    requires SameShape(rs, ts)
    requires forall i, k :: 0 <= i < |rs| && 0 <= k < |rs[i]| ==> (rs[i][k] == x && ts[i][k] == y <==> i == r && k == c)
    requires 0 <= r < |rs| ==> 0 <= c < |rs[r]|
    ensures Changed(rs, ts, x, y) == if 0 <= r < |rs| then 1 else 0
  {
    if rs != [] {
      var n := |rs| - 1;
      ChangedSingle(rs[..n], ts[..n], x, y, r, c);
      ChangedRowSingle(rs[n], ts[n], x, y, if n == r then c else -1);
    }
  }

  /** One cell that holds x in rs and y in ts makes at least one change. */
  lemma {:induction false} ChangedPositive(rs: seq<seq<int>>, ts: seq<seq<int>>, x: int, y: int, r: int, c: int)
    requires SameShape(rs, ts) && 0 <= r < |rs| && 0 <= c < |rs[r]|
    requires rs[r][c] == x && ts[r][c] == y
    ensures Changed(rs, ts, x, y) >= 1
  {
    var n := |rs| - 1;
    if r == n {
      ChangedRowPositive(rs[n], ts[n], x, y, c);
    } else {
      ChangedPositive(rs[..n], ts[..n], x, y, r, c);
    }
  }

  lemma {:induction false} ChangedRowPositive(a: seq<int>, b: seq<int>, x: int, y: int, c: int)
    requires |a| == |b| && 0 <= c < |a| && a[c] == x && b[c] == y
    ensures ChangedRow(a, b, x, y) >= 1
  {
    var n := |a| - 1;
    if c != n {
      ChangedRowPositive(a[..n], b[..n], x, y, c);
    }
  }

  /** Only players can move on a board of cell codes. */
  lemma LegalMoverIsPlayer(g: Grid, row: int, col: int, p: int)
    requires CellsOk(g) && Legal(g, row, col, p)
    ensures IsPlayer(p)
  {
    var a :| 0 <= a < |Directions| && Brackets(g, row, col, p, Directions[a]);
  }

  /** Every captured cell holds the opponent's piece before the move. */
  lemma FlippedWasOpponent(g: Grid, row: int, col: int, p: int, i: int, j: int)
    requires Flips(g, row, col, p, |Directions|, i, j)
    ensures Holds(g, i, j, Opponent(p))
  {
    var a := FlipsWitness(g, row, col, p, |Directions|, i, j);
    var d := Directions[a];
    OnRunHolds(g, row + d.0, col + d.1, d, Opponent(p), i, j);
  }

  /**
   * After a legal move each cell either keeps its value or turns into p from
   * empty or from the opponent's colour, and the placed cell is the only one
   * that was empty.
   */
  lemma MoveCellChanges(g: Grid, row: int, col: int, p: int)
    requires CellsOk(g) && Legal(g, row, col, p)
    ensures IsPlayer(p)
    ensures var h := AfterMove(g, row, col, p);
            SameShape(g, h) && CellsOk(h) &&
            (forall i :: 0 <= i < |g| ==> RowTurnsInto(g[i], h[i], p, EMPTY, Opponent(p))) &&
            (forall i, k :: 0 <= i < |g| && 0 <= k < |g[i]| ==> (g[i][k] == EMPTY && h[i][k] == p <==> i == row && k == col))
  {
    LegalMoverIsPlayer(g, row, col, p);
    var h := AfterMove(g, row, col, p);
    forall i, j | 0 <= i < |g| && 0 <= j < |g| && Flips(g, row, col, p, |Directions|, i, j)
      ensures g[i][j] == Opponent(p)
    {
      FlippedWasOpponent(g, row, col, p, i, j);
    }
  }

  /** A legal move leaves only empty cells and pieces on the board. */
  lemma MoveKeepsCellsOk(g: Grid, row: int, col: int, p: int)
    requires CellsOk(g) && Legal(g, row, col, p)
    ensures CellsOk(AfterMove(g, row, col, p))
  {
    MoveCellChanges(g, row, col, p);
  }

  /** A legal move flips at least the cell next to it in a bracketing direction. */
  lemma MoveFlipsSome(g: Grid, row: int, col: int, p: int)
    requires Legal(g, row, col, p)
    ensures var h := AfterMove(g, row, col, p); SameShape(g, h) && Changed(g, h, Opponent(p), p) >= 1
  {
    var h := AfterMove(g, row, col, p);
    var a :| 0 <= a < |Directions| && Brackets(g, row, col, p, Directions[a]);
    var d := Directions[a];
    var i, j := row + d.0, col + d.1;
    assert InRun(g, row, col, p, d, i, j);
    FlipsIntro(g, row, col, p, |Directions|, i, j, a);
    ChangedPositive(g, h, Opponent(p), p, i, j);
  }

  /**
   * A legal move by p adds the placed piece and k >= 1 flipped pieces to p's
   * count, takes the k flipped pieces from the opponent's count, and so adds
   * exactly one piece to the board; k is the number of cells that held the
   * opponent's colour before the move and hold p's after it.
   */
  lemma MoveCounts(g: Grid, row: int, col: int, p: int)
    requires CellsOk(g) && Legal(g, row, col, p)
    ensures IsPlayer(p)
    ensures var h := AfterMove(g, row, col, p);
            var k := Changed(g, h, Opponent(p), p);
            CellsOk(h) && k >= 1 &&
            Count(h, p) == Count(g, p) + 1 + k &&
            Count(h, Opponent(p)) == Count(g, Opponent(p)) - k &&
            Count(h, BLACK) + Count(h, WHITE) == Count(g, BLACK) + Count(g, WHITE) + 1
  {
    var h := AfterMove(g, row, col, p);
    MoveCellChanges(g, row, col, p);
    MoveFlipsSome(g, row, col, p);
    GridDelta(g, h, p, EMPTY, Opponent(p));
    ChangedSingle(g, h, EMPTY, p, row, col);
  }

  /** The column of colour v (a player) in the upper and in the lower centre row of the start position. */
  function UpperColumn(n: nat, v: int): int { if v == BLACK then n / 2 else n / 2 - 1 }
  function LowerColumn(n: nat, v: int): int { if v == BLACK then n / 2 - 1 else n / 2 }

  /** The first m cells of row i of the start position hold v once per centre cell of v among them. */
  lemma {:induction false} StartRowCount(n: nat, i: int, v: int, m: nat)
    requires n >= 2 && 0 <= i < n && m <= n && IsPlayer(v)
    ensures CountRow(Start(n)[i][..m], v) ==
      (if i == n / 2 - 1 && UpperColumn(n, v) < m then 1 else 0) +
      (if i == n / 2 && LowerColumn(n, v) < m then 1 else 0)
  {
    if m > 0 {
      assert Start(n)[i][..m][..m - 1] == Start(n)[i][..m - 1];
      StartRowCount(n, i, v, m - 1);
    }
  }

  /** The first m rows of the start position hold v once per centre row among them. */
  lemma {:induction false} StartRowsCount(n: nat, v: int, m: nat)
    requires n >= 2 && m <= n && IsPlayer(v)
    ensures CountRows(Start(n)[..m], v) == (if n / 2 - 1 < m then 1 else 0) + (if n / 2 < m then 1 else 0)
  {
    if m > 0 {
      assert Start(n)[..m][..m - 1] == Start(n)[..m - 1];
      StartRowsCount(n, v, m - 1);
      StartRowCount(n, m - 1, v, n);
      assert Start(n)[m - 1][..n] == Start(n)[m - 1];
    }
  }

  /** The start position holds two black and two white pieces. */
  lemma StartCounts(n: nat)
    requires n >= 2
    ensures Count(Start(n), BLACK) == 2 && Count(Start(n), WHITE) == 2
  {
    assert Start(n)[..n] == Start(n);
    StartRowsCount(n, BLACK, n);
    StartRowsCount(n, WHITE, n);
  }
}
