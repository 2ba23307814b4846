/**
 * The computer opponent: it asks the game for the legal moves of the side it
 * plays and picks one of them. The random pick is an index supplied by the
 * caller, so every legal move is a possible answer.
 */
module SimpleComputer {
  import opened Wrappers
  import opened Rules
  import opened MoveList
  import opened Reversi

  /**
   * No move when player has none; otherwise the legal move at position
   * pick (modulo their number) of the row-major list of legal moves.
   * The game is only read.
   */
  method GetMove(game: ReversiGame, player: int, pick: nat) returns (move: Option<(int, int)>)
    requires game.Valid()
    ensures move == None <==> !HasMove(game.cells, player)
    ensures move.Some? ==> Legal(game.cells, move.value.0, move.value.1, player)
    ensures move.Some? ==>
      LegalMoves(game.cells, player) != [] &&
      move.value == LegalMoves(game.cells, player)[pick % |LegalMoves(game.cells, player)|]
  {
    var moves := game.GetAllValidMoves(player);
    LegalMovesEmpty(game.cells, player);
    if moves == [] {
      return None;
    }
    LegalMovesMembers(game.cells, player);
    move := Some(moves[pick % |moves|]);
    assert moves[pick % |moves|] in moves;
  }

  /** Every legal move is the answer for some pick: its own place in the list. */
  lemma EveryLegalMoveCanBePicked(g: Grid, player: int, row: int, col: int) returns (pick: nat)
    requires Legal(g, row, col, player)
    ensures pick < |LegalMoves(g, player)| && LegalMoves(g, player)[pick] == (row, col)
  {
    var ms := LegalMoves(g, player);
    LegalMovesMembers(g, player);
    assert (row, col) in ms;
    pick :| 0 <= pick < |ms| && ms[pick] == (row, col);
  }
}
