/** What a move does to the board, to the king squares and to the castling
    rights, stated over the value-level definitions of the Rules module. */
module MoveFacts {
  import opened Pieces
  import opened Board
  import opened Attacks
  import opened BoardSignature
  import opened Rules

  // ----- The board after a move -----

  /** The cells Game.MovePiece may write: origin and destination, the two
      cells of a castling rook, the neighbours of a pawn's double step that
      hold an enemy pawn, and the cell of a pawn captured en passant. */
  function TouchedCells(g: Grid, oldRow: int, oldCol: int, newRow: int, newCol: int): (r: set<(int, int)>)
    requires IsGrid(g) && CanMove(g, oldRow, oldCol, newRow, newCol)
  {
    var p := g[oldRow][oldCol].value;
    {(oldRow, oldCol), (newRow, newCol)}
    + (if p.kind == King && oldCol - newCol == -2 then {(oldRow, 5), (oldRow, 7)}
       else if p.kind == King && oldCol - newCol == 2 then {(oldRow, 3), (oldRow, 0)}
       else {})
    + (if p.kind == Pawn && Abs(oldRow - newRow) == 2 && EnemyOfKindAt(g, p.color, newRow, newCol - 1, {Pawn})
       then {(newRow, newCol - 1)} else {})
    + (if p.kind == Pawn && Abs(oldRow - newRow) == 2 && EnemyOfKindAt(g, p.color, newRow, newCol + 1, {Pawn})
       then {(newRow, newCol + 1)} else {})
    + (if EnPassantCaptureApplies(p, oldCol, newCol, g[newRow][newCol]) then {(VictimRow(p, newRow), newCol)} else {})
  }

  lemma CastleRookFrame(g: Grid, p: Piece, oldRow: int, oldCol: int, newCol: int, i: int, j: int)
    requires IsGrid(g) && 0 <= oldRow < 8 && 0 <= i < 8 && 0 <= j < 8
    requires !(p.kind == King && oldCol - newCol == -2 && (i, j) in {(oldRow, 5), (oldRow, 7)})
    requires !(p.kind == King && oldCol - newCol == 2 && (i, j) in {(oldRow, 3), (oldRow, 0)})
    ensures CastleRook(g, p, oldRow, oldCol, newCol)[i][j] == g[i][j]
  {
  }

  lemma EnPassantFlagsFrame(g: Grid, p: Piece, oldRow: int, newRow: int, newCol: int, i: int, j: int)
    requires IsGrid(g) && 0 <= newRow < 8 && 0 <= i < 8 && 0 <= j < 8
    requires !(p.kind == Pawn && Abs(oldRow - newRow) == 2 && (i, j) == (newRow, newCol - 1)
               && EnemyOfKindAt(g, p.color, newRow, newCol - 1, {Pawn}))
    requires !(p.kind == Pawn && Abs(oldRow - newRow) == 2 && (i, j) == (newRow, newCol + 1)
               && EnemyOfKindAt(g, p.color, newRow, newCol + 1, {Pawn}))
    ensures SetEnPassantFlags(g, p, oldRow, newRow, newCol)[i][j] == g[i][j]
  {
  }

  /** A move changes no cell outside its touched cells: in particular every
      other pawn keeps its en-passant flags. */
  lemma MoveChangesOnlyTouchedCells(g: Grid, oldRow: int, oldCol: int, newRow: int, newCol: int, i: int, j: int)
    requires IsGrid(g) && CanMove(g, oldRow, oldCol, newRow, newCol)
    requires 0 <= i < 8 && 0 <= j < 8 && (i, j) !in TouchedCells(g, oldRow, oldCol, newRow, newCol)
    ensures BoardAfterMove(g, oldRow, oldCol, newRow, newCol)[i][j] == g[i][j]
  {
    var p := g[oldRow][oldCol].value;
    var g1 := CastleRook(g, p, oldRow, oldCol, newCol);
    CastleRookFrame(g, p, oldRow, oldCol, newCol, i, j);
    EnPassantFlagsFrame(g1, p, oldRow, newRow, newCol, i, j);
  }

  /** The origin is emptied and the destination holds the mover, promoted to
      a queen when it is a pawn reaching the far rank, with both en-passant
      flags cleared. */
  lemma MoverLands(g: Grid, oldRow: int, oldCol: int, newRow: int, newCol: int)
    requires IsGrid(g) && CanMove(g, oldRow, oldCol, newRow, newCol)
    ensures var h := BoardAfterMove(g, oldRow, oldCol, newRow, newCol);
            var p := g[oldRow][oldCol].value;
            && h[newRow][newCol].Some?
            && h[newRow][newCol].value.color == p.color
            && h[newRow][newCol].value.kind == (if p.kind == Pawn && IsLastRank(p.color, newRow) then Queen else p.kind)
            && !h[newRow][newCol].value.canEnPassantUp && !h[newRow][newCol].value.canEnPassantDown
            && ((oldRow, oldCol) != (newRow, newCol) ==> h[oldRow][oldCol].None?)
  {
  }

  /** Castling as the game performs it: a king moving two columns to the
      right brings the piece on column 7 of its row to column 5, and one moving
      two columns to the left brings the piece on column 0 to column 3, for any
      starting column of the king. A rook cell that coincides with the king's
      origin or destination is then overwritten by the king's own move. */
  lemma CastlingMovesRook(g: Grid, row: int, oldCol: int, newCol: int)
    requires IsGrid(g) && IsValidPosition(row, oldCol) && IsValidPosition(row, newCol) && Abs(oldCol - newCol) == 2
    requires g[row][oldCol].Some? && g[row][oldCol].value.kind == King
    ensures CanMove(g, row, oldCol, row, newCol)
    ensures var h := BoardAfterMove(g, row, oldCol, row, newCol);
            && h[row][oldCol].None? && h[row][newCol] == Some(MovedPiece(g[row][oldCol].value, row))
            && (newCol == oldCol + 2 ==> (5 != oldCol && 5 != newCol ==> h[row][5] == g[row][7])
                                         && (7 != newCol ==> h[row][7].None?))
            && (newCol == oldCol - 2 ==> (3 != oldCol && 3 != newCol ==> h[row][3] == g[row][0])
                                         && (0 != newCol ==> h[row][0].None?))
  {
  }

  /** The standard castlings: the king from column 4 to column 6 with the
      rook from 7 to 5, or to column 2 with the rook from 0 to 3. */
  lemma StandardCastling(g: Grid, row: int, newCol: int)
    requires IsGrid(g) && 0 <= row < 8 && (newCol == 6 || newCol == 2)
    requires g[row][4].Some? && g[row][4].value.kind == King
    ensures CanMove(g, row, 4, row, newCol)
    ensures var h := BoardAfterMove(g, row, 4, row, newCol);
            && h[row][4].None? && h[row][newCol] == Some(MovedPiece(g[row][4].value, row))
            && (newCol == 6 ==> h[row][5] == g[row][7] && h[row][7].None?)
            && (newCol == 2 ==> h[row][3] == g[row][0] && h[row][0].None?)
  {
    CastlingMovesRook(g, row, 4, newCol);
  }

  /** After a pawn's double step, an enemy pawn beside its landing cell gains
      the matching en-passant flag and keeps its type and colour; any other
      neighbour (empty, an own piece, an enemy piece that is not a pawn) is
      left as it was. */
  lemma DoubleStepFlagsNeighbours(g: Grid, oldRow: int, oldCol: int, newRow: int, newCol: int)
    requires IsGrid(g) && CanMove(g, oldRow, oldCol, newRow, newCol)
    requires g[oldRow][oldCol].value.kind == Pawn && Abs(oldRow - newRow) == 2
    ensures var h := BoardAfterMove(g, oldRow, oldCol, newRow, newCol);
            var c := g[oldRow][oldCol].value.color;
            && (EnemyOfKindAt(g, c, newRow, newCol - 1, {Pawn}) ==>
                  h[newRow][newCol - 1] == Some(g[newRow][newCol - 1].value.(canEnPassantDown := true)))
            && (EnemyOfKindAt(g, c, newRow, newCol + 1, {Pawn}) ==>
                  h[newRow][newCol + 1] == Some(g[newRow][newCol + 1].value.(canEnPassantUp := true)))
            && ((IsValidPosition(newRow, newCol - 1) && !EnemyOfKindAt(g, c, newRow, newCol - 1, {Pawn})
                 && (newRow, newCol - 1) != (oldRow, oldCol))
                ==> h[newRow][newCol - 1] == g[newRow][newCol - 1])
            && ((IsValidPosition(newRow, newCol + 1) && !EnemyOfKindAt(g, c, newRow, newCol + 1, {Pawn})
                 && (newRow, newCol + 1) != (oldRow, oldCol))
                ==> h[newRow][newCol + 1] == g[newRow][newCol + 1])
  {
  }

  /** A flagged pawn moving one column sideways onto an empty cell removes
      the piece just behind its landing cell. */
  lemma EnPassantCaptureEmptiesVictim(g: Grid, oldRow: int, oldCol: int, newRow: int, newCol: int)
    requires IsGrid(g) && CanMove(g, oldRow, oldCol, newRow, newCol)
    requires EnPassantCaptureApplies(g[oldRow][oldCol].value, oldCol, newCol, g[newRow][newCol])
    ensures BoardAfterMove(g, oldRow, oldCol, newRow, newCol)[VictimRow(g[oldRow][oldCol].value, newRow)][newCol].None?
  {
  }

  // ----- King squares -----

  /** Each stored king square holds the king of its colour. */
  ghost predicate KingsOnSquares(pos: Position)
    requires ValidPosition(pos)
  {
    && IsCellOccupiedByAlly(pos.grid, White, pos.whiteKing.0, pos.whiteKing.1)
    && pos.grid[pos.whiteKing.0][pos.whiteKing.1].value.kind == King
    && IsCellOccupiedByAlly(pos.grid, Black, pos.blackKing.0, pos.blackKing.1)
    && pos.grid[pos.blackKing.0][pos.blackKing.1].value.kind == King
  }

  /** The stored king squares keep pointing at the kings through a move that
      does not touch the opponent's king square and, unless the mover is a
      king, does not touch its own. */
  lemma KingsStayOnSquares(pos: Position, oldRow: int, oldCol: int, newRow: int, newCol: int)
    requires ValidPosition(pos) && KingsOnSquares(pos) && CanMove(pos.grid, oldRow, oldCol, newRow, newCol)
    requires var c := pos.grid[oldRow][oldCol].value.color;
             KingPosition(pos, Opponent(c)) !in TouchedCells(pos.grid, oldRow, oldCol, newRow, newCol)
    requires var p := pos.grid[oldRow][oldCol].value;
             p.kind != King ==> KingPosition(pos, p.color) !in TouchedCells(pos.grid, oldRow, oldCol, newRow, newCol)
    ensures KingsOnSquares(PositionAfterMove(pos, oldRow, oldCol, newRow, newCol))
  {
    var g: Grid := pos.grid;
    var p: Piece := g[oldRow][oldCol].value;
    MoverLands(g, oldRow, oldCol, newRow, newCol);
    var e := KingPosition(pos, Opponent(p.color));
    MoveChangesOnlyTouchedCells(g, oldRow, oldCol, newRow, newCol, e.0, e.1);
    if p.kind != King {
      var own: (int, int) := KingPosition(pos, p.color);
      MoveChangesOnlyTouchedCells(g, oldRow, oldCol, newRow, newCol, own.0, own.1);
    }
  }

  /** A king move records the king's destination for its colour; no other
      move changes either stored king square. */
  lemma KingSquareTracked(pos: Position, oldRow: int, oldCol: int, newRow: int, newCol: int)
    requires ValidPosition(pos) && CanMove(pos.grid, oldRow, oldCol, newRow, newCol)
    ensures var q := PositionAfterMove(pos, oldRow, oldCol, newRow, newCol);
            var p := pos.grid[oldRow][oldCol].value;
            && KingPosition(q, p.color) == (if p.kind == King then (newRow, newCol) else KingPosition(pos, p.color))
            && KingPosition(q, Opponent(p.color)) == KingPosition(pos, Opponent(p.color))
  {
  }

  /** The same for a simulated move. */
  lemma SimulatedKingSquareTracked(pos: Position, oldRow: int, oldCol: int, newRow: int, newCol: int)
    requires ValidPosition(pos) && IsCellOccupied(pos.grid, oldRow, oldCol) && IsValidPosition(newRow, newCol)
    ensures var q := SimulateSpec(pos, oldRow, oldCol, newRow, newCol);
            var p := pos.grid[oldRow][oldCol].value;
            && KingPosition(q, p.color) == (if p.kind == King then (newRow, newCol) else KingPosition(pos, p.color))
            && KingPosition(q, Opponent(p.color)) == KingPosition(pos, Opponent(p.color))
  {
  }

  /** For a piece other than a pawn that carries no en-passant flag, the
      simulated move leaves the same board and king squares as the real one;
      only the moved-pieces table differs. */
  lemma SimulationAgreesWithMove(pos: Position, oldRow: int, oldCol: int, newRow: int, newCol: int)
    requires ValidPosition(pos) && CanMove(pos.grid, oldRow, oldCol, newRow, newCol)
    requires pos.grid[oldRow][oldCol].value.kind != Pawn
    requires !pos.grid[oldRow][oldCol].value.canEnPassantUp && !pos.grid[oldRow][oldCol].value.canEnPassantDown
    ensures SimulateSpec(pos, oldRow, oldCol, newRow, newCol)
            == PositionAfterMove(pos, oldRow, oldCol, newRow, newCol).(moved := pos.moved)
  {
  }
}
