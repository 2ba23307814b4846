/**
 * The game state of Reversi: the board as a two-dimensional array of cell
 * codes, the player to move, whether the game is over, the winner and the
 * number of moves made. The ghost field cells is the board as a value; every
 * query and update is proved against the pure rules of module Rules applied
 * to it.
 */
module Reversi {
  import opened Wrappers
  import opened Rules
  import opened RayFacts
  import opened CountFacts
  import opened MoveList

  class ReversiGame {
    const boardSize: nat
    var board: array2<int>
    /** The board as a value: cells[i][j] is board[i, j]. */
    ghost var cells: Grid
    var currentPlayer: int
    var gameOver: bool
    /** None while the game runs; then Some(1) or Some(2) for the winner, Some(0) for a draw. */
    var winner: Option<int>
    var moveCount: nat

    /** The array has the game's dimensions and holds what cells says. */
    ghost predicate Mirrors()
      reads this`board, this`cells, board
    {
      board.Length0 == boardSize && board.Length1 == boardSize && |cells| == boardSize &&
      forall i, j :: 0 <= i < boardSize && 0 <= j < boardSize ==> board[i, j] == cells[i][j]
    }

    /** The object invariant. */
    ghost predicate Valid()
      reads this, board
    {
      boardSize >= 2 && Mirrors() && CellsOk(cells) &&
      IsPlayer(currentPlayer) &&
      (gameOver <==> winner.Some?) &&
      (winner.Some? ==> winner.value == EMPTY || IsPlayer(winner.value))
    }

    /** A new game on a size-by-size board. */
    constructor (size: nat)
      requires size >= 2
      ensures Valid() && fresh(board) && boardSize == size
      ensures cells == Start(size)
      ensures currentPlayer == BLACK && !gameOver && winner == None && moveCount == 0
    {
      boardSize := size;
      board := new int[0, 0];
      cells := [];
      currentPlayer, gameOver, winner, moveCount := BLACK, false, None, 0;
      new;
      ResetGame();
    }

    /** Starts a new game on a fresh board. */
    method ResetGame()
      requires boardSize >= 2
      modifies this
      ensures Valid() && fresh(board)
      ensures cells == Start(boardSize)
      ensures currentPlayer == BLACK && !gameOver && winner == None && moveCount == 0
    {
      board := new int[boardSize, boardSize]((i, j) => EMPTY);
      var mid := boardSize / 2;
      board[mid - 1, mid - 1] := WHITE;
      board[mid - 1, mid] := BLACK;
      board[mid, mid - 1] := BLACK;
      board[mid, mid] := WHITE;
      forall i, j | 0 <= i < boardSize && 0 <= j < boardSize
        ensures board[i, j] == StartCell(boardSize, i, j)
      {
      }
      cells := Start(boardSize);
      currentPlayer := BLACK;
      gameOver := false;
      winner := None;
      moveCount := 0;
      StartCellsOk(boardSize);
    }

    /** Whether player may place a piece at (row, col); the board is not changed. */
    method IsValidMove(row: int, col: int, player: int) returns (valid: bool)
      requires Valid()
      ensures valid == Legal(cells, row, col, player)
    {
      if !(0 <= row < boardSize && 0 <= col < boardSize) {
        return false;
      }
      if board[row, col] != EMPTY {
        return false;
      }
      for k := 0 to |Directions|
        invariant forall a :: 0 <= a < k ==> !Brackets(cells, row, col, player, Directions[a])
      {
        var bracketed := BracketsFrom(row, col, player, Directions[k]);
        if bracketed {
          return true;
        }
      }
      return false;
    }

    /**
     * Walks from (r0, c0) along d while the cells hold o, and returns the
     * first cell that does not (possibly off the board).
     */
    method SkipRun(r0: int, c0: int, d: Direction, o: int) returns (r: int, c: int)
      requires Mirrors()
      ensures (r, c) == RunEnd(cells, r0, c0, d, o)
    {
      r, c := r0, c0;
      while 0 <= r < boardSize && 0 <= c < boardSize && board[r, c] == o
        invariant RunEnd(cells, r0, c0, d, o) == RunEnd(cells, r, c, d, o)
        decreases Budget(boardSize, r, c, d)
      {
        r, c := r + d.0, c + d.1;
      }
    }

    /**
     * The test for one direction: an opponent piece next to (row, col), the
     * rest of the run skipped, and a piece of player right after it.
     */
    method BracketsFrom(row: int, col: int, player: int, d: Direction) returns (bracketed: bool)
      requires Mirrors()
      ensures bracketed == Brackets(cells, row, col, player, d)
    {
      var opponent := 3 - player;
      var r, c := row + d.0, col + d.1;
      if 0 <= r < boardSize && 0 <= c < boardSize && board[r, c] == opponent {
        r, c := SkipRun(r + d.0, c + d.1, d, opponent);
        BracketsAtRunEnd(cells, row, col, player, d, r, c);
        return 0 <= r < boardSize && 0 <= c < boardSize && board[r, c] == player;
      }
      NoRunNoBracket(cells, row, col, player, d);
      return false;
    }

    /** The legal moves of player, in row-major order. */
    method GetAllValidMoves(player: int) returns (moves: seq<(int, int)>)
      requires Valid()
      ensures moves == LegalMoves(cells, player)
    {
      moves := [];
      for row := 0 to boardSize
        invariant moves == MovesAbove(cells, player, row)
      {
        var inRow := RowValidMoves(row, player);
        moves := moves + inRow;
      }
    }

    /** The legal moves of player in one row, from left to right. */
    method RowValidMoves(row: int, player: int) returns (moves: seq<(int, int)>)
      requires Valid() && 0 <= row < boardSize
      ensures moves == RowMoves(cells, player, row, boardSize)
    {
      moves := [];
      for col := 0 to boardSize
        invariant moves == RowMoves(cells, player, row, col)
      {
        var valid := IsValidMove(row, col, player);
        if valid {
          moves := moves + [(row, col)];
        }
      }
    }

    /**
     * Plays player at (row, col) if that is legal: the piece is placed and,
     * direction by direction, each bracketed run of opponent pieces is
     * flipped. Reports whether the move was made.
     */
    method MakeMove(row: int, col: int, player: int) returns (ok: bool)
      requires Valid()
      modifies board, this`cells, this`moveCount
      ensures Valid()
      ensures ok == Legal(old(cells), row, col, player)
      ensures ok ==> cells == AfterMove(old(cells), row, col, player) && moveCount == old(moveCount) + 1
      ensures !ok ==> cells == old(cells) && moveCount == old(moveCount)
    {
      ok := IsValidMove(row, col, player);
      if !ok {
        return;
      }
      ghost var g := cells;
      PaintCell(row, col, player);
      FlipBracketed(row, col, player, g);
      MoveKeepsCellsOk(g, row, col, player);
      moveCount := moveCount + 1;
    }

    /**
     * The flipping pass of a move: direction by direction, flips the run that
     * the current board brackets.
     */
    method FlipBracketed(row: int, col: int, player: int, ghost g: Grid)
      requires InBounds(g, row, col) && Mirrors() && cells == Paint(g, row, col, player)
      modifies board, this`cells
      ensures Mirrors() && cells == AfterMove(g, row, col, player)
    {
      assert cells == Sequential(g, row, col, player, 0);
      for k := 0 to |Directions|
        invariant Mirrors()
        invariant cells == Sequential(g, row, col, player, k)
      {
        var bracketed := BracketsFrom(row, col, player, Directions[k]);
        if bracketed {
          FlipRunFrom(row, col, player, Directions[k]);
        }
      }
      SequentialIsAfterMove(g, row, col, player);
    }

    /**
     * Turns to player every opponent piece of the run that starts next to
     * (row, col) along d.
     */
    method FlipRunFrom(row: int, col: int, player: int, d: Direction)
      requires Mirrors()
      modifies board, this`cells
      ensures Mirrors()
      ensures cells == FlipRun(old(cells), row, col, player, d)
    {
      ghost var h := cells;
      var opponent := 3 - player;
      var r, c := row + d.0, col + d.1;
      ghost var k := 0;
      PaintingStart(h, r, c, d, opponent, player);
      while HoldsAt(r, c, opponent)
        invariant Mirrors()
        invariant Painting(h, row + d.0, col + d.1, d, opponent, player, k, r, c, cells)
        decreases |RunCells(h, row + d.0, col + d.1, d, opponent)| - k
      {
        PaintingStep(h, row + d.0, col + d.1, d, opponent, player, k, r, c, cells);
        PaintCell(r, c, player);
        r, c, k := r + d.0, c + d.1, k + 1;
      }
      PaintingStep(h, row + d.0, col + d.1, d, opponent, player, k, r, c, cells);
    }

    /** Cell (r, c) is on the board and holds v. */
    predicate HoldsAt(r: int, c: int, v: int)
      requires Mirrors()
      reads this`board, this`cells, board
      ensures HoldsAt(r, c, v) == Holds(cells, r, c, v)
    {
      0 <= r < boardSize && 0 <= c < boardSize && board[r, c] == v
    }

    /** Puts p on the cell (r, c). */
    method PaintCell(r: int, c: int, p: int)
      requires Mirrors() && 0 <= r < boardSize && 0 <= c < boardSize
      modifies board, this`cells
      ensures Mirrors() && cells == Paint(old(cells), r, c, p)
    {
      board[r, c] := p;
      cells := Paint(cells, r, c, p);
    }

    /** The numbers of black and white pieces on the board. */
    method CountPieces() returns (black: nat, white: nat)
      requires Mirrors()
      ensures black == Count(cells, BLACK) && white == Count(cells, WHITE)
    {
      black, white := 0, 0;
      for i := 0 to boardSize
        invariant black == CountRows(cells[..i], BLACK) && white == CountRows(cells[..i], WHITE)
      {
        for j := 0 to boardSize
          invariant black == CountRows(cells[..i], BLACK) + CountRow(cells[i][..j], BLACK)
          invariant white == CountRows(cells[..i], WHITE) + CountRow(cells[i][..j], WHITE)
        {
          assert cells[i][..j + 1][..j] == cells[i][..j];
          if board[i, j] == BLACK {
            black := black + 1;
          } else if board[i, j] == WHITE {
            white := white + 1;
          }
        }
        assert cells[i][..boardSize] == cells[i];
        assert cells[..i + 1][..i] == cells[..i];
      }
      assert cells[..boardSize] == cells;
    }

    /**
     * Hands the turn to the opponent if the opponent can move; otherwise the
     * turn stays, and if neither side can move the game is decided and false
     * is returned.
     */
    method SwitchPlayer() returns (progressed: bool)
      requires Valid()
      modifies this`currentPlayer, this`gameOver, this`winner
      ensures Valid()
      ensures var p := old(currentPlayer);
        if HasMove(cells, Opponent(p)) then
          progressed && currentPlayer == Opponent(p) && gameOver == old(gameOver) && winner == old(winner)
        else if HasMove(cells, p) then
          progressed && currentPlayer == p && gameOver == old(gameOver) && winner == old(winner)
        else
          !progressed && currentPlayer == p && gameOver && winner == Some(Winner(cells))
    {
      currentPlayer := 3 - currentPlayer;
      var moves := GetAllValidMoves(currentPlayer);
      LegalMovesEmpty(cells, currentPlayer);
      if moves == [] {
        currentPlayer := 3 - currentPlayer;
        moves := GetAllValidMoves(currentPlayer);
        LegalMovesEmpty(cells, currentPlayer);
        if moves == [] {
          var over := CheckGameOver();
          return false;
        }
      }
      return true;
    }

    /**
     * Ends the game when neither side has a legal move, recording the side
     * with more pieces as winner (0 on a tie); otherwise changes nothing.
     */
    method CheckGameOver() returns (over: bool)
      requires Valid()
      modifies this`gameOver, this`winner
      ensures Valid()
      ensures over == (!HasMove(cells, BLACK) && !HasMove(cells, WHITE))
      ensures over ==> gameOver && winner == Some(Winner(cells))
      ensures !over ==> gameOver == old(gameOver) && winner == old(winner)
    {
      var blackMoves := GetAllValidMoves(BLACK);
      var whiteMoves := GetAllValidMoves(WHITE);
      LegalMovesEmpty(cells, BLACK);
      LegalMovesEmpty(cells, WHITE);
      if blackMoves == [] && whiteMoves == [] {
        gameOver := true;
        var black, white := CountPieces();
        if black > white {
          winner := Some(BLACK);
        } else if white > black {
          winner := Some(WHITE);
        } else {
          winner := Some(EMPTY);
        }
        return true;
      }
      return false;
    }

    /** Checking for the end of the game twice in a row gives the same answer and state as once. */
    method CheckGameOverTwice() returns (first: bool, second: bool)
      requires Valid()
      modifies this`gameOver, this`winner
      ensures Valid()
      ensures first == second
      ensures first ==> gameOver && winner == Some(Winner(cells))
      ensures !first ==> gameOver == old(gameOver) && winner == old(winner)
    {
      first := CheckGameOver();
      second := CheckGameOver();
    }
  }
}
