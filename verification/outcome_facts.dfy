/** What a move does to the history, the fifty-move flag, the turn, the
    outcome and the castling rights, stated over Rules.MoveSpec. */
module OutcomeFacts {
  import opened Pieces
  import opened Board
  import opened Attacks
  import opened BoardSignature
  import opened Rules

  // ----- The conclusion of a move -----

  /** The bookkeeping of the conclusion: the signature is recorded exactly
      when the opponent can reply; the turn passes exactly when no outcome
      is announced; the fifty-move flag follows the length of the history
      whenever that line is reached, and its notification reports a change. */
  lemma ConcludeBookkeeping(v: GameValue, pos: Position, history: seq<string>, mover: Color, oracle: MoveOracle)
    requires ValidPosition(pos)
    ensures var r := Conclude(v, pos, history, mover, oracle);
            var enemy := Opponent(mover);
            var has := HasLegalMoves(pos, oracle, enemy);
            && r.0.history == history + (if has then [Signature(pos.grid)] else [])
            && r.0.pos == (if r.1.gameStateChanged then pos else pos.(turn := Opponent(pos.turn)))
            && (r.1.canClaim50Changed <==> r.0.canClaim50 != v.canClaim50)
            && r.0.canClaim50 == (if has && IsThereSufficientMaterial(Signature(pos.grid))
                                  then |r.0.history| >= 99 else v.canClaim50)
            && r.1.kingInCheck == (if has && IsKingInCheck(pos, enemy) then Some(enemy) else None)
            && (!r.1.gameStateChanged ==> r.0.state == v.state && r.0.reason == v.reason)
  {
  }

  /** The outcome of the conclusion of a move made while the game is on:
      each reason is announced exactly in its own case. */
  lemma ConcludeOutcome(v: GameValue, pos: Position, history: seq<string>, mover: Color, oracle: MoveOracle)
    requires ValidPosition(pos) && v.reason == StillNotOver
    ensures var r := Conclude(v, pos, history, mover, oracle);
            var enemy := Opponent(mover);
            var has := HasLegalMoves(pos, oracle, enemy);
            var sufficient := IsThereSufficientMaterial(Signature(pos.grid));
            && (r.0.reason == Checkmate <==> !has && IsKingInCheck(pos, enemy))
            && (r.0.reason == DrawByStalemate <==> !has && !IsKingInCheck(pos, enemy))
            && (r.0.reason == DrawByInsufficientMaterial <==> has && !sufficient)
            && (r.0.reason == DrawByRepetition <==> has && sufficient && IsDrawByRepetition(r.0.history))
            && (r.0.reason == StillNotOver <==> !r.1.gameStateChanged)
            && r.0.reason != DrawBy50MovesRule
            && (r.0.reason == Checkmate ==> r.0.state == Winner(mover))
            && (r.0.reason != Checkmate && r.0.reason != StillNotOver ==> r.0.state == Draw)
  {
  }

  // ----- A whole move -----

  /** The history a move starts its conclusion from: emptied by a pawn move
      or a capture, kept otherwise. */
  function BaseHistory(v: GameValue, oldRow: int, oldCol: int, newRow: int, newCol: int): (r: seq<string>)
    requires ValidPosition(v.pos) && CanMove(v.pos.grid, oldRow, oldCol, newRow, newCol)
  {
    if IsIrreversible(v.pos.grid, oldRow, oldCol, newRow, newCol) then [] else v.history
  }

  lemma MoveSpecIsConclude(v: GameValue, oracle: MoveOracle, oldRow: int, oldCol: int, newRow: int, newCol: int)
    requires ValidPosition(v.pos) && CanMove(v.pos.grid, oldRow, oldCol, newRow, newCol)
    ensures MoveSpec(v, oracle, oldRow, oldCol, newRow, newCol)
            == Conclude(v, PositionAfterMove(v.pos, oldRow, oldCol, newRow, newCol),
                        BaseHistory(v, oldRow, oldCol, newRow, newCol), v.pos.grid[oldRow][oldCol].value.color, oracle)
  {
  }

  /** The history after a move: cleared by a pawn move or a capture, then
      extended by the new signature when the opponent can reply. */
  lemma MoveHistory(v: GameValue, oracle: MoveOracle, oldRow: int, oldCol: int, newRow: int, newCol: int)
    requires ValidPosition(v.pos) && CanMove(v.pos.grid, oldRow, oldCol, newRow, newCol)
    ensures var q := PositionAfterMove(v.pos, oldRow, oldCol, newRow, newCol);
            var enemy := Opponent(v.pos.grid[oldRow][oldCol].value.color);
            MoveSpec(v, oracle, oldRow, oldCol, newRow, newCol).0.history
            == BaseHistory(v, oldRow, oldCol, newRow, newCol)
               + (if HasLegalMoves(q, oracle, enemy) then [Signature(q.grid)] else [])
  {
    MoveSpecIsConclude(v, oracle, oldRow, oldCol, newRow, newCol);
    ConcludeBookkeeping(v, PositionAfterMove(v.pos, oldRow, oldCol, newRow, newCol),
                        BaseHistory(v, oldRow, oldCol, newRow, newCol), v.pos.grid[oldRow][oldCol].value.color, oracle);
  }

  /** A pawn move or a capture that the opponent can answer leaves exactly
      one recorded position. */
  lemma IrreversibleMoveRestartsHistory(v: GameValue, oracle: MoveOracle, oldRow: int, oldCol: int, newRow: int, newCol: int)
    requires ValidPosition(v.pos) && CanMove(v.pos.grid, oldRow, oldCol, newRow, newCol)
    requires IsIrreversible(v.pos.grid, oldRow, oldCol, newRow, newCol)
    requires !MoveSpec(v, oracle, oldRow, oldCol, newRow, newCol).1.gameStateChanged
    ensures |MoveSpec(v, oracle, oldRow, oldCol, newRow, newCol).0.history| == 1
  {
    var q := PositionAfterMove(v.pos, oldRow, oldCol, newRow, newCol);
    var mover := v.pos.grid[oldRow][oldCol].value.color;
    MoveSpecIsConclude(v, oracle, oldRow, oldCol, newRow, newCol);
    ConcludeBookkeeping(v, q, [], mover, oracle);
    assert HasLegalMoves(q, oracle, Opponent(mover));
  }

  /** The turn passes exactly when the move announces no outcome; the
      fifty-move flag equals "at least 99 recorded positions" once the
      position is recorded on a board with sufficient material, and its
      notification fires exactly when it changes. */
  lemma MoveTurnAndFlag(v: GameValue, oracle: MoveOracle, oldRow: int, oldCol: int, newRow: int, newCol: int)
    requires ValidPosition(v.pos) && CanMove(v.pos.grid, oldRow, oldCol, newRow, newCol)
    ensures var r := MoveSpec(v, oracle, oldRow, oldCol, newRow, newCol);
            var q := PositionAfterMove(v.pos, oldRow, oldCol, newRow, newCol);
            var enemy := Opponent(v.pos.grid[oldRow][oldCol].value.color);
            && (r.0.pos.turn == v.pos.turn <==> r.1.gameStateChanged)
            && r.0.pos.(turn := v.pos.turn) == q
            && (r.1.canClaim50Changed <==> r.0.canClaim50 != v.canClaim50)
            && (HasLegalMoves(q, oracle, enemy) && IsThereSufficientMaterial(Signature(q.grid))
                ==> r.0.canClaim50 == (|r.0.history| >= 99))
  {
    var q := PositionAfterMove(v.pos, oldRow, oldCol, newRow, newCol);
    MoveSpecIsConclude(v, oracle, oldRow, oldCol, newRow, newCol);
    ConcludeBookkeeping(v, q, BaseHistory(v, oldRow, oldCol, newRow, newCol),
                        v.pos.grid[oldRow][oldCol].value.color, oracle);
  }

  /** The outcome of a move made while the game is on: checkmate (won by the
      mover) or stalemate when the opponent cannot reply, otherwise
      insufficient material, threefold repetition, or the game goes on with
      the check notification naming the opponent when its king is attacked. */
  lemma MoveOutcome(v: GameValue, oracle: MoveOracle, oldRow: int, oldCol: int, newRow: int, newCol: int)
    requires ValidPosition(v.pos) && CanMove(v.pos.grid, oldRow, oldCol, newRow, newCol)
    requires v.reason == StillNotOver
    ensures var r := MoveSpec(v, oracle, oldRow, oldCol, newRow, newCol);
            var q := PositionAfterMove(v.pos, oldRow, oldCol, newRow, newCol);
            var mover := v.pos.grid[oldRow][oldCol].value.color;
            var enemy := Opponent(mover);
            var has := HasLegalMoves(q, oracle, enemy);
            && (r.0.reason == Checkmate <==> !has && IsKingInCheck(q, enemy))
            && (r.0.reason == Checkmate ==> r.0.state == Winner(mover))
            && (r.0.reason == DrawByStalemate <==> !has && !IsKingInCheck(q, enemy))
            && (r.0.reason == DrawByInsufficientMaterial <==> has && !IsThereSufficientMaterial(Signature(q.grid)))
            && (r.0.reason == DrawByRepetition <==>
                  has && IsThereSufficientMaterial(Signature(q.grid)) && IsDrawByRepetition(r.0.history))
            && (r.0.reason == StillNotOver <==> !r.1.gameStateChanged)
            && (r.0.reason != Checkmate && r.0.reason != StillNotOver ==> r.0.state == Draw)
            && r.1.kingInCheck == (if has && IsKingInCheck(q, enemy) then Some(enemy) else None)
  {
    var q := PositionAfterMove(v.pos, oldRow, oldCol, newRow, newCol);
    var base := BaseHistory(v, oldRow, oldCol, newRow, newCol);
    var mover := v.pos.grid[oldRow][oldCol].value.color;
    MoveSpecIsConclude(v, oracle, oldRow, oldCol, newRow, newCol);
    ConcludeOutcome(v, q, base, mover, oracle);
    ConcludeBookkeeping(v, q, base, mover, oracle);
  }

  /** As written, a move never ends the game for insufficient material,
      because the material test holds on every board: that reason can only be
      carried over from before the move, and whenever the opponent can reply
      the fifty-move flag is recomputed from the length of the history. */
  lemma MoveNeverDrawsForInsufficientMaterial(v: GameValue, oracle: MoveOracle,
                                              oldRow: int, oldCol: int, newRow: int, newCol: int)
    requires ValidPosition(v.pos) && CanMove(v.pos.grid, oldRow, oldCol, newRow, newCol)
    ensures var r := MoveSpec(v, oracle, oldRow, oldCol, newRow, newCol);
            r.0.reason == DrawByInsufficientMaterial ==> v.reason == DrawByInsufficientMaterial
    ensures var r := MoveSpec(v, oracle, oldRow, oldCol, newRow, newCol);
            var q := PositionAfterMove(v.pos, oldRow, oldCol, newRow, newCol);
            var enemy := Opponent(v.pos.grid[oldRow][oldCol].value.color);
            r.0.canClaim50 == (if HasLegalMoves(q, oracle, enemy) then |r.0.history| >= 99 else v.canClaim50)
  {
    var q := PositionAfterMove(v.pos, oldRow, oldCol, newRow, newCol);
    var base := BaseHistory(v, oldRow, oldCol, newRow, newCol);
    var mover := v.pos.grid[oldRow][oldCol].value.color;
    MoveSpecIsConclude(v, oracle, oldRow, oldCol, newRow, newCol);
    AlwaysSufficient(q.grid);
    ConcludeBookkeeping(v, q, base, mover, oracle);
  }

  /** A repetition draw that was not already present in the history the move
      starts from is a threefold repetition of the position just reached. */
  lemma RepetitionIsOfNewPosition(v: GameValue, oracle: MoveOracle, oldRow: int, oldCol: int, newRow: int, newCol: int)
    requires ValidPosition(v.pos) && CanMove(v.pos.grid, oldRow, oldCol, newRow, newCol)
    requires v.reason == StillNotOver
    requires !HasThreefoldRepetition(BaseHistory(v, oldRow, oldCol, newRow, newCol))
    requires MoveSpec(v, oracle, oldRow, oldCol, newRow, newCol).0.reason == DrawByRepetition
    ensures var r := MoveSpec(v, oracle, oldRow, oldCol, newRow, newCol);
            Occurrences(r.0.history, Signature(r.0.pos.grid)) >= 3
  {
    var r := MoveSpec(v, oracle, oldRow, oldCol, newRow, newCol);
    var q := PositionAfterMove(v.pos, oldRow, oldCol, newRow, newCol);
    MoveOutcome(v, oracle, oldRow, oldCol, newRow, newCol);
    MoveTurnAndFlag(v, oracle, oldRow, oldCol, newRow, newCol);
    MoveHistory(v, oracle, oldRow, oldCol, newRow, newCol);
    assert r.0.pos == q;
    NewRepetitionIsOfLatest(BaseHistory(v, oldRow, oldCol, newRow, newCol), Signature(q.grid));
  }

  // ----- Castling rights -----

  /** A lost castling right is never regained by a move. */
  lemma CastlingRightsNeverReturn(v: GameValue, oracle: MoveOracle, oldRow: int, oldCol: int, newRow: int, newCol: int,
                                  c: Color)
    requires ValidPosition(v.pos) && CanMove(v.pos.grid, oldRow, oldCol, newRow, newCol)
    ensures var m := MoveSpec(v, oracle, oldRow, oldCol, newRow, newCol).0.pos.moved;
            && (HasKingOrUpRookMoved(v.pos.moved, c) ==> HasKingOrUpRookMoved(m, c))
            && (HasKingOrDownRookMoved(v.pos.moved, c) ==> HasKingOrDownRookMoved(m, c))
  {
    var p := v.pos.grid[oldRow][oldCol].value;
    MoveTurnAndFlag(v, oracle, oldRow, oldCol, newRow, newCol);
    LatchIsOneWay(v.pos.moved, p, oldCol);
    TrackedKeysOf(c);
  }

  /** A king leaving column 4 loses both castling rights of its colour; a
      rook leaving column 7 or column 0 loses the right of its side. */
  lemma MovingKingOrRookLosesCastling(v: GameValue, oracle: MoveOracle, oldRow: int, oldCol: int, newRow: int, newCol: int)
    requires ValidPosition(v.pos) && CanMove(v.pos.grid, oldRow, oldCol, newRow, newCol)
    ensures var m := MoveSpec(v, oracle, oldRow, oldCol, newRow, newCol).0.pos.moved;
            var p := v.pos.grid[oldRow][oldCol].value;
            && (p.kind == King && oldCol == 4 ==>
                  HasKingOrUpRookMoved(m, p.color) && HasKingOrDownRookMoved(m, p.color))
            && (p.kind == Rook && oldCol == 7 ==> HasKingOrUpRookMoved(m, p.color))
            && (p.kind == Rook && oldCol == 0 ==> HasKingOrDownRookMoved(m, p.color))
  {
    var p := v.pos.grid[oldRow][oldCol].value;
    MoveTurnAndFlag(v, oracle, oldRow, oldCol, newRow, newCol);
    LatchIsOneWay(v.pos.moved, p, oldCol);
    TrackedKeysOf(p.color);
  }
}
