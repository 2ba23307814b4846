/**
 * Facts about rays: where they go, that rays leaving one cell in different
 * directions never meet, that a run depends only on the cells of its own
 * ray, and the consequence that flipping direction by direction on the
 * current board (as the game does) flips exactly the runs bracketed on the
 * pre-move board.
 */
module RayFacts {
  import opened Rules

  /** The cell next to (row, col) along d is the first cell of that ray. */
  lemma FirstOnRay(row: int, col: int, d: Direction)
    ensures OnRay(row, col, d, row + d.0, col + d.1)
  {
  }

  /** A ray continues through the next cell along its direction. */
  lemma NextOnRay(row: int, col: int, d: Direction, r: int, c: int)
    requires OnRay(row, col, d, r, c)
    ensures OnRay(row, col, d, r + d.0, c + d.1)
  {
  }

  /** Two rays leaving the same cell in different directions share no cell. */
  lemma RaysDisjoint(row: int, col: int, d: Direction, e: Direction, i: int, j: int)
    requires OnRay(row, col, d, i, j) && OnRay(row, col, e, i, j)
    ensures d == e
  {
  }

  /** The game scans eight different directions. */
  lemma DirectionsDistinct(a: int, b: int)
    requires 0 <= a < |Directions| && 0 <= b < |Directions| && a != b
    ensures Directions[a] != Directions[b]
  {
  }

  /** Every cell of a run holds the run's colour. */
  lemma {:induction false} OnRunHolds(g: Grid, r: int, c: int, d: Direction, o: int, i: int, j: int)
    requires OnRun(g, r, c, d, o, i, j)
    ensures Holds(g, i, j, o)
    decreases Budget(|g|, r, c, d)
  {
    if !(i == r && j == c) {
      OnRunHolds(g, r + d.0, c + d.1, d, o, i, j);
    }
  }

  /** A run that starts on a ray from (row, col) stays on that ray. */
  lemma {:induction false} OnRunOnRay(g: Grid, row: int, col: int, r: int, c: int, d: Direction, o: int, i: int, j: int)
    requires OnRay(row, col, d, r, c) && OnRun(g, r, c, d, o, i, j)
    ensures OnRay(row, col, d, i, j)
    decreases Budget(|g|, r, c, d)
  {
    if !(i == r && j == c) {
      NextOnRay(row, col, d, r, c);
      OnRunOnRay(g, row, col, r + d.0, c + d.1, d, o, i, j);
    }
  }

  /** The cell where a run along a ray stops is on that ray too. */
  lemma {:induction false} RunEndOnRay(g: Grid, row: int, col: int, r: int, c: int, d: Direction, o: int)
    requires OnRay(row, col, d, r, c)
    ensures var e := RunEnd(g, r, c, d, o); OnRay(row, col, d, e.0, e.1)
    decreases Budget(|g|, r, c, d)
  {
    if Holds(g, r, c, o) {
      NextOnRay(row, col, d, r, c);
      RunEndOnRay(g, row, col, r + d.0, c + d.1, d, o);
    }
  }

  /** Without an opponent piece next to (row, col) along d, d does not bracket. */
  lemma NoRunNoBracket(g: Grid, row: int, col: int, p: int, d: Direction)
    requires !Holds(g, row + d.0, col + d.1, Opponent(p))
    ensures !Brackets(g, row, col, p, d)
  {
  }

  /**
   * Once a walk along d from the opponent piece next to (row, col) has passed
   * the whole run and stopped at (r, c), d brackets exactly when (r, c) holds p.
   */
  lemma BracketsAtRunEnd(g: Grid, row: int, col: int, p: int, d: Direction, r: int, c: int)
    requires Holds(g, row + d.0, col + d.1, Opponent(p))
    requires RunEnd(g, row + d.0, col + d.1, d, Opponent(p)) == RunEnd(g, r, c, d, Opponent(p))
    requires !Holds(g, r, c, Opponent(p))
    ensures Brackets(g, row, col, p, d) == Holds(g, r, c, p)
  {
  }

  /** g and h have the same size and agree on every cell of the ray from (row, col) along d. */
  ghost predicate AgreeOnRay(g: Grid, h: Grid, row: int, col: int, d: Direction)
  {
    |g| == |h| &&
    forall i, j :: 0 <= i < |g| && 0 <= j < |g| && OnRay(row, col, d, i, j) ==> g[i][j] == h[i][j]
  }

  /** A run along a ray depends on the cells of that ray only. */
  lemma {:induction false} RunFrame(g: Grid, h: Grid, row: int, col: int, r: int, c: int, d: Direction, o: int)
    requires AgreeOnRay(g, h, row, col, d) && OnRay(row, col, d, r, c)
    ensures RunEnd(g, r, c, d, o) == RunEnd(h, r, c, d, o)
    ensures forall i, j :: OnRun(g, r, c, d, o, i, j) == OnRun(h, r, c, d, o, i, j)
    decreases Budget(|g|, r, c, d)
  {
    if Holds(g, r, c, o) {
      NextOnRay(row, col, d, r, c);
      RunFrame(g, h, row, col, r + d.0, c + d.1, d, o);
    }
  }

  /** The bracketing test and the captured run along d depend on the cells of that ray only. */
  lemma BracketsFrame(g: Grid, h: Grid, row: int, col: int, p: int, d: Direction)
    requires AgreeOnRay(g, h, row, col, d)
    ensures Brackets(g, row, col, p, d) == Brackets(h, row, col, p, d)
    ensures forall i, j :: InRun(g, row, col, p, d, i, j) == InRun(h, row, col, p, d, i, j)
  {
    FirstOnRay(row, col, d);
    RunFrame(g, h, row, col, row + d.0, col + d.1, d, Opponent(p));
    RunEndOnRay(g, row, col, row + d.0, col + d.1, d, Opponent(p));
  }

  /** A captured cell lies on the ray of its direction. */
  lemma InRunOnRay(g: Grid, row: int, col: int, p: int, d: Direction, i: int, j: int)
    requires InRun(g, row, col, p, d, i, j)
    ensures OnRay(row, col, d, i, j)
  {
    FirstOnRay(row, col, d);
    OnRunOnRay(g, row, col, row + d.0, col + d.1, d, Opponent(p), i, j);
  }

  /** Flipping the run along d leaves every other direction's test and run as they were. */
  lemma FlipKeepsOtherDirections(g: Grid, row: int, col: int, p: int, d: Direction, e: Direction)
    requires d != e
    ensures Brackets(FlipRun(g, row, col, p, d), row, col, p, e) == Brackets(g, row, col, p, e)
    ensures forall i, j :: InRun(FlipRun(g, row, col, p, d), row, col, p, e, i, j) == InRun(g, row, col, p, e, i, j)
  {
    var h := FlipRun(g, row, col, p, d);
    forall i, j | 0 <= i < |g| && 0 <= j < |g| && OnRay(row, col, e, i, j)
      ensures g[i][j] == h[i][j]
    {
      if InRun(g, row, col, p, d, i, j) {
        InRunOnRay(g, row, col, p, d, i, j);
        RaysDisjoint(row, col, d, e, i, j);
      }
    }
    BracketsFrame(g, h, row, col, p, e);
  }

  /** Placing the piece at the origin leaves every direction's test and run as they were. */
  lemma PlaceKeepsDirections(g: Grid, row: int, col: int, p: int, d: Direction)
    requires InBounds(g, row, col)
    ensures Brackets(Paint(g, row, col, p), row, col, p, d) == Brackets(g, row, col, p, d)
    ensures forall i, j :: InRun(Paint(g, row, col, p), row, col, p, d, i, j) == InRun(g, row, col, p, d, i, j)
  {
    BracketsFrame(g, Paint(g, row, col, p), row, col, p, d);
  }

  /** Placing the piece is stage 0: no direction processed yet. */
  lemma PlaceIsStageZero(g: Grid, row: int, col: int, p: int)
    requires InBounds(g, row, col)
    ensures Paint(g, row, col, p) == Stage(g, row, col, p, 0)
  {
    var h, s := Paint(g, row, col, p), Stage(g, row, col, p, 0);
    forall i | 0 <= i < |g| ensures h[i] == s[i] { }
  }

  /** Before direction k is processed, the board still agrees with g on the ray along it. */
  lemma StageAgreesOnRay(g: Grid, row: int, col: int, p: int, k: nat)
    requires k < |Directions|
    ensures AgreeOnRay(g, Stage(g, row, col, p, k), row, col, Directions[k])
  {
    var h := Stage(g, row, col, p, k);
    forall i, j | 0 <= i < |g| && 0 <= j < |g| && OnRay(row, col, Directions[k], i, j)
      ensures g[i][j] == h[i][j]
    {
      if Flips(g, row, col, p, k, i, j) {
        var a := FlipsWitness(g, row, col, p, k, i, j);
        InRunOnRay(g, row, col, p, Directions[a], i, j);
        RaysDisjoint(row, col, Directions[a], Directions[k], i, j);
        DirectionsDistinct(a, k);
      }
    }
  }

  /** Processing direction k on stage k, the game's way, gives stage k + 1. */
  lemma StageStep(g: Grid, row: int, col: int, p: int, k: nat)
    requires k < |Directions|
    ensures var h := Stage(g, row, col, p, k);
            (if Brackets(h, row, col, p, Directions[k]) then FlipRun(h, row, col, p, Directions[k]) else h)
            == Stage(g, row, col, p, k + 1)
  {
    var h := Stage(g, row, col, p, k);
    var d := Directions[k];
    StageAgreesOnRay(g, row, col, p, k);
    BracketsFrame(g, h, row, col, p, d);
    var next := if Brackets(h, row, col, p, d) then FlipRun(h, row, col, p, d) else h;
    var s := Stage(g, row, col, p, k + 1);
    forall i | 0 <= i < |g| ensures next[i] == s[i] {
      forall j | 0 <= j < |g| ensures next[i][j] == s[i][j] {
        StageStepCell(g, row, col, p, k, i, j);
      }
    }
  }

  /** StageStep at one cell, given that g and Stage(g, row, col, p, k) agree along Directions[k]. */
  lemma StageStepCell(g: Grid, row: int, col: int, p: int, k: nat, i: int, j: int)
    requires k < |Directions| && 0 <= i < |g| && 0 <= j < |g|
    requires var h, d := Stage(g, row, col, p, k), Directions[k];
      Brackets(g, row, col, p, d) == Brackets(h, row, col, p, d) &&
      InRun(g, row, col, p, d, i, j) == InRun(h, row, col, p, d, i, j)
    ensures var h, d := Stage(g, row, col, p, k), Directions[k];
      (if Brackets(h, row, col, p, d) then FlipRun(h, row, col, p, d) else h)[i][j]
      == Stage(g, row, col, p, k + 1)[i][j]
  {
  }

  /** One direction more: if the two boards agree after k directions, they agree after k + 1. */
  lemma SequentialStep(g: Grid, row: int, col: int, p: int, k: nat)
    requires InBounds(g, row, col) && k < |Directions|
    requires Sequential(g, row, col, p, k) == Stage(g, row, col, p, k)
    ensures Sequential(g, row, col, p, k + 1) == Stage(g, row, col, p, k + 1)
  {
    StageStep(g, row, col, p, k);
  }

  /**
   * Flipping direction by direction on the current board, as the game does,
   * gives the same board as flipping at once the runs bracketed on the
   * pre-move board.
   */
  lemma {:induction false} SequentialIsStage(g: Grid, row: int, col: int, p: int, k: nat)
    requires InBounds(g, row, col) && k <= |Directions|
    ensures Sequential(g, row, col, p, k) == Stage(g, row, col, p, k)
  {
    if k == 0 {
      PlaceIsStageZero(g, row, col, p);
    } else {
      SequentialIsStage(g, row, col, p, k - 1);
      SequentialStep(g, row, col, p, k - 1);
    }
  }

  /** The game's move equals flipping every run bracketed on the pre-move board. */
  lemma SequentialIsAfterMove(g: Grid, row: int, col: int, p: int)
    requires InBounds(g, row, col)
    ensures Sequential(g, row, col, p, |Directions|) == AfterMove(g, row, col, p)
  {
    SequentialIsStage(g, row, col, p, |Directions|);
  }

  /**
   * The board after a move, cell by cell: the placed cell and every cell on
   * a run that some direction brackets on the pre-move board hold p; every
   * other cell keeps its value.
   */
  lemma AfterMoveCell(g: Grid, row: int, col: int, p: int, i: int, j: int)
    requires 0 <= i < |g| && 0 <= j < |g|
    ensures AfterMove(g, row, col, p)[i][j] ==
      if (i == row && j == col) ||
         (exists a :: 0 <= a < |Directions| && Brackets(g, row, col, p, Directions[a]) && InRun(g, row, col, p, Directions[a], i, j))
      then p else g[i][j]
  {
    if Flips(g, row, col, p, |Directions|, i, j) {
      var a := FlipsWitness(g, row, col, p, |Directions|, i, j);
    }
    if exists a :: 0 <= a < |Directions| && Brackets(g, row, col, p, Directions[a]) && InRun(g, row, col, p, Directions[a], i, j) {
      var a :| 0 <= a < |Directions| && Brackets(g, row, col, p, Directions[a]) && InRun(g, row, col, p, Directions[a], i, j);
      FlipsIntro(g, row, col, p, |Directions|, i, j, a);
    }
  }
}
