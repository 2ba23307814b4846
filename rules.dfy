/**
 * The rules of Reversi as pure definitions over a snapshot of the board:
 * cell codes, the eight directions, the bracketing test, the set of legal
 * moves, the board after a move and the piece counts.
 */
module Rules {

  /** Cell codes: 0 is an empty cell, 1 a black piece, 2 a white piece. */
  const EMPTY := 0
  const BLACK := 1
  const WHITE := 2

  /** A square board, row by row. */
  type Grid = g: seq<seq<int>> | forall i :: 0 <= i < |g| ==> |g[i]| == |g|

  /** A unit step in one of the eight compass directions. */
  type Direction = d: (int, int) | -1 <= d.0 <= 1 && -1 <= d.1 <= 1 && d != (0, 0) witness (0, 1)

  /** The directions in the order the game scans them. */
  const Directions: seq<Direction> :=
    [(-1, -1), (-1, 0), (-1, 1), (0, -1), (0, 1), (1, -1), (1, 0), (1, 1)]

  /** The other colour, computed as the game does: 1 and 2 swap. */
  function Opponent(p: int): int { 3 - p }

  predicate IsPlayer(p: int) { p == BLACK || p == WHITE }

  predicate IsCell(v: int) { v == EMPTY || v == BLACK || v == WHITE }

  predicate InBounds(g: Grid, i: int, j: int) { 0 <= i < |g| && 0 <= j < |g| }

  /** Cell (i, j) is on the board and holds v. */
  predicate Holds(g: Grid, i: int, j: int, v: int) { InBounds(g, i, j) && g[i][j] == v }

  /** Every cell holds one of the three codes. */
  predicate CellsOk(g: Grid) { forall i, j :: 0 <= i < |g| && 0 <= j < |g| ==> IsCell(g[i][j]) }

  // ---------------------------------------------------------------------------
  // Rays

  /** The coordinate reached from a after m steps of size step (-1, 0 or 1). */
  function Along(a: int, step: int, m: int): int
  {
    if step == 1 then a + m else if step == -1 then a - m else a
  }

  /** How many steps along d lead from (row, col) to (i, j), read off a coordinate that d moves. */
  function Steps(row: int, col: int, d: Direction, i: int, j: int): int
  {
    if d.0 == 1 then i - row
    else if d.0 == -1 then row - i
    else if d.1 == 1 then j - col
    else col - j
  }

  /** (i, j) lies on the ray that leaves (row, col) in direction d, the origin excluded. */
  predicate OnRay(row: int, col: int, d: Direction, i: int, j: int)
  {
    var m := Steps(row, col, d, i, j);
    m >= 1 && i == Along(row, d.0, m) && j == Along(col, d.1, m)
  }

  /**
   * How many more cells the ray through (r, c) along d can visit before it
   * leaves an n-by-n board; positive while (r, c) is on the board.
   */
  function Budget(n: int, r: int, c: int, d: Direction): int
  {
    if d.0 == 1 then n - r
    else if d.0 == -1 then r + 1
    else if d.1 == 1 then n - c
    else c + 1
  }

  /** The first cell from (r, c) onwards along d that does not hold o (possibly off the board). */
  function RunEnd(g: Grid, r: int, c: int, d: Direction, o: int): (e: (int, int))
    ensures !Holds(g, e.0, e.1, o)
    decreases Budget(|g|, r, c, d)
  {
    if Holds(g, r, c, o) then RunEnd(g, r + d.0, c + d.1, d, o) else (r, c)
  }

  /** (i, j) is one of the consecutive cells holding o from (r, c) onwards along d. */
  predicate OnRun(g: Grid, r: int, c: int, d: Direction, o: int, i: int, j: int)
    decreases Budget(|g|, r, c, d)
  {
    Holds(g, r, c, o) && ((i == r && j == c) || OnRun(g, r + d.0, c + d.1, d, o, i, j))
  }

  /**
   * Direction d brackets from (row, col) for player p: the adjacent cell
   * starts a run of one or more opponent pieces, and the cell just past the
   * run is on the board and holds p.
   */
  predicate Brackets(g: Grid, row: int, col: int, p: int, d: Direction)
  {
    Holds(g, row + d.0, col + d.1, Opponent(p)) &&
    var e := RunEnd(g, row + d.0, col + d.1, d, Opponent(p));
    Holds(g, e.0, e.1, p)
  }

  /** Placing p at (row, col) is legal. */
  predicate Legal(g: Grid, row: int, col: int, p: int)
  {
    InBounds(g, row, col) && g[row][col] == EMPTY &&
    exists k :: 0 <= k < |Directions| && Brackets(g, row, col, p, Directions[k])
  }

  /** Player p has at least one legal move. */
  predicate HasMove(g: Grid, p: int)
  {
    exists i, j :: 0 <= i < |g| && 0 <= j < |g| && Legal(g, i, j, p)
  }

  /** Position a comes before position b in row-major order. */
  predicate RowMajorBefore(a: (int, int), b: (int, int))
  {
    a.0 < b.0 || (a.0 == b.0 && a.1 < b.1)
  }

  /** The legal moves (row, j) of p with j < col, from left to right. */
  function RowMoves(g: Grid, p: int, row: int, col: nat): seq<(int, int)>
    requires col <= |g|
  {
    if col == 0 then []
    else RowMoves(g, p, row, col - 1) + (if Legal(g, row, col - 1, p) then [(row, col - 1)] else [])
  }

  /** The legal moves of p in the rows above row, in row-major order. */
  function MovesAbove(g: Grid, p: int, row: nat): seq<(int, int)>
    requires row <= |g|
  {
    if row == 0 then [] else MovesAbove(g, p, row - 1) + RowMoves(g, p, row - 1, |g|)
  }

  /** Every legal move of p, in row-major order. */
  function LegalMoves(g: Grid, p: int): seq<(int, int)>
  {
    MovesAbove(g, p, |g|)
  }

  // ---------------------------------------------------------------------------
  // Moves

  /** (i, j) is one of the opponent pieces on the run along d next to (row, col). */
  predicate InRun(g: Grid, row: int, col: int, p: int, d: Direction, i: int, j: int)
  {
    OnRun(g, row + d.0, col + d.1, d, Opponent(p), i, j)
  }

  /** (i, j) is captured along one of the first k directions that bracket on g. */
  predicate Flips(g: Grid, row: int, col: int, p: int, k: nat, i: int, j: int)
    requires k <= |Directions|
  {
    k > 0 &&
    (Flips(g, row, col, p, k - 1, i, j) ||
     (Brackets(g, row, col, p, Directions[k - 1]) && InRun(g, row, col, p, Directions[k - 1], i, j)))
  }

  /** Flips names some direction among the first k that brackets and whose run holds (i, j)... */
  lemma {:induction false} FlipsWitness(g: Grid, row: int, col: int, p: int, k: nat, i: int, j: int) returns (a: nat)
    requires k <= |Directions| && Flips(g, row, col, p, k, i, j)
    ensures a < k && Brackets(g, row, col, p, Directions[a]) && InRun(g, row, col, p, Directions[a], i, j)
  {
    if Flips(g, row, col, p, k - 1, i, j) {
      a := FlipsWitness(g, row, col, p, k - 1, i, j);
    } else {
      a := k - 1;
    }
  }

  /** ... and every such direction makes Flips hold. */
  lemma {:induction false} FlipsIntro(g: Grid, row: int, col: int, p: int, k: nat, i: int, j: int, a: nat)
    requires a < k <= |Directions|
    requires Brackets(g, row, col, p, Directions[a]) && InRun(g, row, col, p, Directions[a], i, j)
    ensures Flips(g, row, col, p, k, i, j)
  {
    if a < k - 1 {
      FlipsIntro(g, row, col, p, k - 1, i, j, a);
    }
  }

  /**
   * The board once p is placed at (row, col) and the runs bracketed on g in
   * the first k directions are turned to p; all other cells keep their value.
   */
  function Stage(g: Grid, row: int, col: int, p: int, k: nat): (h: Grid)
    requires k <= |Directions|
    ensures |h| == |g|
  {
    seq(|g|, i requires 0 <= i < |g| =>
      seq(|g|, j requires 0 <= j < |g| =>
        if (i == row && j == col) || Flips(g, row, col, p, k, i, j) then p else g[i][j]))
  }

  /** The board after p plays at (row, col): every run bracketed on the pre-move board is flipped. */
  function AfterMove(g: Grid, row: int, col: int, p: int): (h: Grid)
    ensures |h| == |g|
  {
    Stage(g, row, col, p, |Directions|)
  }

  /** The cells of the run from (r, c) along d, in walking order. */
  function RunCells(g: Grid, r: int, c: int, d: Direction, o: int): seq<(int, int)>
    decreases Budget(|g|, r, c, d)
  {
    if Holds(g, r, c, o) then [(r, c)] + RunCells(g, r + d.0, c + d.1, d, o) else []
  }

  /** RunCells lists exactly the cells of the run. */
  lemma {:induction false} RunCellsExact(g: Grid, r: int, c: int, d: Direction, o: int)
    ensures forall i, j :: (i, j) in RunCells(g, r, c, d, o) <==> OnRun(g, r, c, d, o, i, j)
    decreases Budget(|g|, r, c, d)
  {
    if Holds(g, r, c, o) {
      RunCellsExact(g, r + d.0, c + d.1, d, o);
    }
  }

  /** A run never lists the cell just behind its start. */
  lemma {:induction false} RunCellsAhead(g: Grid, r: int, c: int, d: Direction, o: int)
    ensures forall x :: x in RunCells(g, r, c, d, o) ==> Budget(|g|, x.0, x.1, d) <= Budget(|g|, r, c, d)
    decreases Budget(|g|, r, c, d)
  {
    if Holds(g, r, c, o) {
      RunCellsAhead(g, r + d.0, c + d.1, d, o);
    }
  }

  /**
   * The k-th cell RunCells lists holds o; the next one listed is one step
   * further along d, and after the last one comes a cell that does not hold o.
   */
  lemma {:induction false} RunCellsStep(g: Grid, r: int, c: int, d: Direction, o: int, k: nat)
    requires k < |RunCells(g, r, c, d, o)|
    ensures var rs := RunCells(g, r, c, d, o);
      Holds(g, rs[k].0, rs[k].1, o) &&
      (k + 1 < |rs| ==> rs[k + 1] == (rs[k].0 + d.0, rs[k].1 + d.1)) &&
      (k + 1 == |rs| ==> !Holds(g, rs[k].0 + d.0, rs[k].1 + d.1, o))
    decreases k
  {
    if k > 0 {
      RunCellsStep(g, r + d.0, c + d.1, d, o, k - 1);
    }
  }

  /** RunCells lists no cell twice. */
  lemma {:induction false} RunCellsDistinct(g: Grid, r: int, c: int, d: Direction, o: int)
    ensures forall a, b :: 0 <= a < b < |RunCells(g, r, c, d, o)| ==>
      RunCells(g, r, c, d, o)[a] != RunCells(g, r, c, d, o)[b]
    decreases Budget(|g|, r, c, d)
  {
    if Holds(g, r, c, o) {
      var rs, rest := RunCells(g, r, c, d, o), RunCells(g, r + d.0, c + d.1, d, o);
      RunCellsDistinct(g, r + d.0, c + d.1, d, o);
      RunCellsAhead(g, r + d.0, c + d.1, d, o);
      forall a, b | 0 <= a < b < |rs|
        ensures rs[a] != rs[b]
      {
        assert rs[b] == rest[b - 1] && rest[b - 1] in rest;
        if a == 0 {
          assert Budget(|g|, rs[b].0, rs[b].1, d) < Budget(|g|, r, c, d);
        } else {
          assert rs[a] == rest[a - 1];
        }
      }
    }
  }

  /** g with cell (i, j) set to p when it lies on the board. */
  function Paint(g: Grid, i: int, j: int, p: int): (h: Grid)
    ensures |h| == |g|
    ensures forall a, b {:trigger h[a][b]} :: 0 <= a < |g| && 0 <= b < |g| ==> h[a][b] == if (a, b) == (i, j) then p else g[a][b]
  {
    if InBounds(g, i, j) then g[i := g[i][j := p]] else g
  }

  /** g with every listed cell that lies on the board set to p. */
  function Overwrite(g: Grid, cs: seq<(int, int)>, p: int): (h: Grid)
    ensures |h| == |g|
    ensures forall i, j {:trigger h[i][j]} :: 0 <= i < |g| && 0 <= j < |g| ==> h[i][j] == if (i, j) in cs then p else g[i][j]
    decreases |cs|
  {
    if cs == [] then g else Overwrite(Paint(g, cs[0].0, cs[0].1, p), cs[1..], p)
  }

  /** Overwriting one more cell at the end of the list is painting it last. */
  lemma {:induction false} OverwriteSnoc(g: Grid, cs: seq<(int, int)>, x: (int, int), p: int)
    ensures Overwrite(g, cs + [x], p) == Paint(Overwrite(g, cs, p), x.0, x.1, p)
    decreases |cs|
  {
    if cs == [] {
      assert ([] + [x])[1..] == [];
    } else {
      assert (cs + [x])[0] == cs[0];
      assert (cs + [x])[1..] == cs[1..] + [x];
      OverwriteSnoc(Paint(g, cs[0].0, cs[0].1, p), cs[1..], x, p);
    }
  }

  /**
   * Painting the run from (r0, c0) along d in order: k cells are painted,
   * (r, c) is the next cell to look at, and b is the board so far.
   */
  ghost predicate Painting(g: Grid, r0: int, c0: int, d: Direction, o: int, p: int, k: nat, r: int, c: int, b: Grid)
  {
    k <= |RunCells(g, r0, c0, d, o)| &&
    (k < |RunCells(g, r0, c0, d, o)| ==> RunCells(g, r0, c0, d, o)[k] == (r, c)) &&
    (k == |RunCells(g, r0, c0, d, o)| ==> !Holds(g, r, c, o)) &&
    b == Overwrite(g, RunCells(g, r0, c0, d, o)[..k], p)
  }

  /** Painting starts with nothing painted at the run's first cell. */
  lemma PaintingStart(g: Grid, r0: int, c0: int, d: Direction, o: int, p: int)
    ensures Painting(g, r0, c0, d, o, p, 0, r0, c0, g)
  {
    assert RunCells(g, r0, c0, d, o)[..0] == [];
  }

  /**
   * The cell reached holds o on the painted board exactly when the run is
   * not painted to its end; then painting it moves on to the next cell.
   */
  lemma {:induction false} PaintingStep(g: Grid, r0: int, c0: int, d: Direction, o: int, p: int, k: nat, r: int, c: int, b: Grid)
    requires p != o && Painting(g, r0, c0, d, o, p, k, r, c, b)
    ensures Holds(b, r, c, o) <==> k < |RunCells(g, r0, c0, d, o)|
    ensures Holds(b, r, c, o) ==> Painting(g, r0, c0, d, o, p, k + 1, r + d.0, c + d.1, Paint(b, r, c, p))
    ensures !Holds(b, r, c, o) ==> b == Overwrite(g, RunCells(g, r0, c0, d, o), p)
  {
    var rs := RunCells(g, r0, c0, d, o);
    if k < |rs| {
      RunCellsStep(g, r0, c0, d, o, k);
      RunCellsDistinct(g, r0, c0, d, o);
      assert (r, c) !in rs[..k];
      assert b[r][c] == g[r][c];
      assert rs[..k + 1] == rs[..k] + [rs[k]];
      OverwriteSnoc(g, rs[..k], rs[k], p);
    } else {
      assert rs[..k] == rs;
    }
  }

  /** g with every cell of the run along d from (row, col) turned to p. */
  function FlipRun(g: Grid, row: int, col: int, p: int, d: Direction): (h: Grid)
    ensures |h| == |g|
    ensures forall i, j :: 0 <= i < |g| && 0 <= j < |g| ==>
      h[i][j] == if InRun(g, row, col, p, d, i, j) then p else g[i][j]
  {
    RunCellsExact(g, row + d.0, col + d.1, d, Opponent(p));
    Overwrite(g, RunCells(g, row + d.0, col + d.1, d, Opponent(p)), p)
  }

  /**
   * The board as the game builds it: place p, then visit the first k
   * directions in order, each tested and flipped on the board left by the
   * previous ones.
   */
  function Sequential(g: Grid, row: int, col: int, p: int, k: nat): (h: Grid)
    requires InBounds(g, row, col) && k <= |Directions|
    ensures |h| == |g|
  {
    if k == 0 then Paint(g, row, col, p)
    else
      var h := Sequential(g, row, col, p, k - 1);
      if Brackets(h, row, col, p, Directions[k - 1]) then FlipRun(h, row, col, p, Directions[k - 1]) else h
  }

  // ---------------------------------------------------------------------------
  // Counting

  /** Number of entries of s equal to v. */
  function CountRow(s: seq<int>, v: int): nat
  {
    if s == [] then 0 else CountRow(s[..|s| - 1], v) + (if s[|s| - 1] == v then 1 else 0)
  }

  /** Number of cells of the rows rs equal to v. */
  function CountRows(rs: seq<seq<int>>, v: int): nat
  {
    if rs == [] then 0 else CountRows(rs[..|rs| - 1], v) + CountRow(rs[|rs| - 1], v)
  }

  /** Number of cells of g holding v. */
  function Count(g: Grid, v: int): nat
  {
    CountRows(g, v)
  }

  /** The winner code the game records: 1 or 2 for a strictly larger count, 0 on a tie. */
  function Winner(g: Grid): int
  {
    var black, white := Count(g, BLACK), Count(g, WHITE);
    if black > white then BLACK else if white > black then WHITE else 0
  }

  // ---------------------------------------------------------------------------
  // Start position

  /** The cell code of the start position at (i, j) on an n-by-n board. */
  function StartCell(n: nat, i: int, j: int): int
  {
    var mid := n / 2;
    if (i == mid - 1 && j == mid - 1) || (i == mid && j == mid) then WHITE
    else if (i == mid - 1 && j == mid) || (i == mid && j == mid - 1) then BLACK
    else EMPTY
  }

  /** The start position on an n-by-n board. */
  function Start(n: nat): (g: Grid)
    ensures |g| == n
  {
    seq(n, i requires 0 <= i < n => seq(n, j requires 0 <= j < n => StartCell(n, i, j)))
  }

  /** The start position holds only cell codes. */
  lemma StartCellsOk(n: nat)
    ensures CellsOk(Start(n))
  {
  }
}
