/** The game object: an 8x8 array of cells updated in place, the turn, the
    outcome, the king squares, the moved-pieces table, the fifty-move flag and
    the list of recorded board signatures. The ghost field cells mirrors the
    array as a value; every method is proved to follow the value-level
    definitions of the Rules, Attacks and BoardSignature modules. */
module ChessGame {
  import opened Pieces
  import opened Board
  import opened Attacks
  import opened BoardSignature
  import opened Rules

  /** Two boards that agree on every cell are the same board. */
  lemma GridsEqual(g: Grid, h: Grid)
    requires IsGrid(g) && IsGrid(h)
    requires forall i, j :: 0 <= i < 8 && 0 <= j < 8 ==> g[i][j] == h[i][j]
    ensures g == h
  {
    forall i | 0 <= i < 8 ensures g[i] == h[i] {
      assert forall j :: 0 <= j < 8 ==> g[i][j] == h[i][j];
    }
  }

  /** new Piece?[8, 8]: every cell empty. */
  method EmptyBoard() returns (b: array2<Option<Piece>>)
    ensures fresh(b) && b.Length0 == 8 && b.Length1 == 8
    ensures forall i, j :: 0 <= i < 8 && 0 <= j < 8 ==> b[i, j] == None
  {
    b := new Option<Piece>[8, 8]((i, j) => None);
  }

  class Game {
    var turn: Color
    var state: GameState
    var reason: GameEndReason
    var board: array2<Option<Piece>>
    var whiteKing: (int, int)
    var blackKing: (int, int)
    var canClaim50: bool
    var moved: map<MovedKey, bool>
    var history: seq<string>
    /** The contents of board as a value. */
    ghost var cells: Grid

    ghost predicate Valid()
      reads this`board, this`cells, this`whiteKing, this`blackKing, this`moved, board
    {
      && board.Length0 == 8 && board.Length1 == 8
      && IsGrid(cells)
      && (forall i, j :: 0 <= i < 8 && 0 <= j < 8 ==> board[i, j] == cells[i][j])
      && IsValidPosition(whiteKing.0, whiteKing.1)
      && IsValidPosition(blackKing.0, blackKing.1)
      && moved.Keys == TrackedKeys
    }

    /** What a clone of the game carries. */
    ghost function Pos(): (p: Position)
      reads this`cells, this`turn, this`whiteKing, this`blackKing, this`moved
    {
      Position(cells, turn, whiteKing, blackKing, moved)
    }

    /** The whole game as a value. */
    ghost function Value(): (v: GameValue)
      reads this`cells, this`turn, this`whiteKing, this`blackKing, this`moved
      reads this`state, this`reason, this`canClaim50, this`history
    {
      GameValue(Pos(), state, reason, canClaim50, history)
    }

    /** Game.CloneGame, as far as move generation looks at it: a copy of the
        board, the turn, the king squares and the moved-pieces table. */
    function CloneGame(): (p: Position)
      reads this, board
      requires Valid()
      ensures p == Pos() && ValidPosition(p)
    {
      var b := board;
      var g := seq(8, i requires 0 <= i < 8 reads b => seq(8, j requires 0 <= j < 8 reads b => b[i, j]));
      GridsEqual(g, cells);
      Position(g, turn, whiteKing, blackKing, moved)
    }

    /** Game(): the standard layout, White to move, the game on, one recorded position. */
    constructor()
      ensures Valid() && Value() == InitialGame()
    {
      state := Playing;
      reason := StillNotOver;
      turn := White;
      var b := EmptyBoard();
      board := b;
      cells := EmptyGrid();
      whiteKing := (0, 4);
      blackKing := (7, 4);
      moved := InitialMoved();
      canClaim50 := false;
      history := [];
      new;
      SetUpBoard();
    }

    /** The four set-up calls of the constructor over an empty board, then
        the first recorded position. */
    method SetUpBoard()
      requires Valid() && cells == EmptyGrid()
      requires turn == White && whiteKing == (0, 4) && blackKing == (7, 4) && moved == InitialMoved()
      requires state == Playing && reason == StillNotOver && !canClaim50
      modifies this`cells, this`history, board
      ensures Valid() && Value() == InitialGame()
    {
      SetUpPieces(0, White);
      SetUpPawns(1, White);
      SetUpPawns(6, Black);
      SetUpPieces(7, Black);
      InitialGridLayout();
      var s := StringifyBoard();
      history := [s];
      InitialGameIs(cells, turn, whiteKing, blackKing, moved, state, reason, canClaim50, history);
    }

    /** Board[row, col] = x. */
    method Put(row: int, col: int, x: Option<Piece>)
      requires Valid() && IsValidPosition(row, col)
      modifies this`cells, board
      ensures Valid() && cells == With(old(cells), row, col, x)
    {
      board[row, col] := x;
      cells := With(cells, row, col, x);
    }

    /** Rook, knight, bishop, queen, king, bishop, knight, rook on one row,
        column by column. */
    method SetUpPieces(row: int, color: Color)
      requires Valid() && 0 <= row < 8
      modifies this`cells, board
      ensures Valid() && cells == old(cells)[row := BackRank(color)]
    {
      for col := 0 to 8
        invariant Valid()
        invariant forall i, j {:trigger cells[i][j]} :: 0 <= i < 8 && 0 <= j < 8 ==>
                    cells[i][j] == if i == row && j < col then BackRank(color)[j] else old(cells)[i][j]
      {
        Put(row, col, BackRank(color)[col]);
      }
      GridsEqual(cells, old(cells)[row := BackRank(color)]);
    }

    /** Eight pawns on one row. */
    method SetUpPawns(row: int, color: Color)
      requires Valid() && 0 <= row < 8
      modifies this`cells, board
      ensures Valid() && cells == old(cells)[row := PawnRank(color)]
    {
      for col := 0 to 8
        invariant Valid()
        invariant forall i, j :: 0 <= i < 8 && 0 <= j < 8 ==>
                    cells[i][j] == if i == row && j < col then Some(NewPiece(Pawn, color)) else old(cells)[i][j]
      {
        Put(row, col, Some(NewPiece(Pawn, color)));
      }
      GridsEqual(cells, old(cells)[row := PawnRank(color)]);
    }

    method ChangeTurn()
      requires Valid()
      modifies this`turn
      ensures Valid() && Value() == old(Value()).(pos := old(Pos()).(turn := Opponent(old(turn))))
    {
      if turn == White {
        turn := Black;
      } else {
        turn := White;
      }
    }

    // ----- Occupancy -----

    method IsCellOccupied(row: int, col: int) returns (b: bool)
      requires Valid()
      ensures b == Board.IsCellOccupied(cells, row, col)
    {
      if !IsValidPosition(row, col) {
        return false;
      }
      b := board[row, col].Some?;
    }

    method IsCellOccupiedByEnemy(allyColor: Color, row: int, col: int) returns (b: bool)
      requires Valid()
      ensures b == Board.IsCellOccupiedByEnemy(cells, allyColor, row, col)
    {
      b := IsCellOccupied(row, col);
      b := b && board[row, col].value.color != allyColor;
    }

    method IsCellOccupiedByAlly(allyColor: Color, row: int, col: int) returns (b: bool)
      requires Valid()
      ensures b == Board.IsCellOccupiedByAlly(cells, allyColor, row, col)
    {
      b := IsCellOccupied(row, col);
      b := b && board[row, col].value.color == allyColor;
    }

    // ----- Attack detection -----

    /** One ray, walked from the cell next to (row, col) until it leaves the
        board or meets a piece: true when that piece is an enemy of one of kinds. */
    method RayScan(allyColor: Color, row: int, col: int, d: (int, int), kinds: set<Kind>) returns (b: bool)
      requires Valid() && IsUnitStep(d)
      ensures b == RayAttack(cells, allyColor, row, col, d, kinds)
    {
      var r, c := row + d.0, col + d.1;
      ghost var pr, pc := row, col;
      while IsValidPosition(r, c)
        invariant r == pr + d.0 && c == pc + d.1
        invariant RayAttack(cells, allyColor, pr, pc, d, kinds) == RayAttack(cells, allyColor, row, col, d, kinds)
        decreases StepsLeft(r, d.0) + StepsLeft(c, d.1)
      {
        if board[r, c].Some? {
          RayAttackAtBlocker(cells, allyColor, pr, pc, d, kinds);
          return board[r, c].value.color != allyColor && board[r, c].value.kind in kinds;
        }
        RayAttackStep(cells, allyColor, pr, pc, d, kinds);
        pr, pc := r, c;
        r, c := r + d.0, c + d.1;
      }
      RayAttackOffBoard(cells, allyColor, pr, pc, d, kinds);
      return false;
    }

    /** The rays along dirs in order, true as soon as one meets an enemy of
        one of kinds. */
    method SliderScan(allyColor: Color, row: int, col: int, dirs: seq<(int, int)>, kinds: set<Kind>) returns (b: bool)
      requires Valid() && AllUnitSteps(dirs)
      ensures b == SliderAttack(cells, allyColor, row, col, dirs, kinds)
    {
      for k := 0 to |dirs|
        invariant forall m :: 0 <= m < k ==> !RayAttack(cells, allyColor, row, col, dirs[m], kinds)
      {
        b := RayScan(allyColor, row, col, dirs[k], kinds);
        if b {
          return;
        }
      }
      return false;
    }

    /** Game.IsCellAttackedVertically: a rook or queen down an orthogonal ray. */
    method IsCellAttackedVertically(allyColor: Color, row: int, col: int) returns (b: bool)
      requires Valid()
      ensures b == OrthogonalAttack(cells, allyColor, row, col)
    {
      b := SliderScan(allyColor, row, col, StraightMoves, RookLike);
    }

    /** Game.IsCellAttackedHorizontally: a bishop or queen down a diagonal ray. */
    method IsCellAttackedHorizontally(allyColor: Color, row: int, col: int) returns (b: bool)
      requires Valid()
      ensures b == DiagonalAttack(cells, allyColor, row, col)
    {
      b := SliderScan(allyColor, row, col, DiagonalMoves, BishopLike);
    }

    /** An enemy of type kind at one of the offsets, tried in order. */
    method OffsetScan(allyColor: Color, row: int, col: int, offsets: seq<(int, int)>, kind: Kind) returns (b: bool)
      requires Valid()
      ensures b == OffsetAttack(cells, allyColor, row, col, offsets, kind)
    {
      for k := 0 to |offsets|
        invariant forall m :: 0 <= m < k ==> !EnemyOfKindAt(cells, allyColor, row + offsets[m].0, col + offsets[m].1, {kind})
      {
        var r, c := row + offsets[k].0, col + offsets[k].1;
        var enemy := IsCellOccupiedByEnemy(allyColor, r, c);
        if enemy && board[r, c].value.kind == kind {
          return true;
        }
      }
      return false;
    }

    method IsCellAttackedByKnight(allyColor: Color, row: int, col: int) returns (b: bool)
      requires Valid()
      ensures b == KnightAttack(cells, allyColor, row, col)
    {
      b := OffsetScan(allyColor, row, col, KnightMoves, Knight);
    }

    method IsCellAttackedByKing(allyColor: Color, row: int, col: int) returns (b: bool)
      requires Valid()
      ensures b == KingAttack(cells, allyColor, row, col)
    {
      b := OffsetScan(allyColor, row, col, AllDirections, King);
    }

    /** The two cells diagonally ahead of the defender. */
    method IsCellAttackedByPawn(allyColor: Color, row: int, col: int) returns (b: bool)
      requires Valid()
      ensures b == PawnAttack(cells, allyColor, row, col)
    {
      var moveRow := if allyColor == White then row + 1 else row - 1;
      b := IsCellOccupiedByEnemy(allyColor, moveRow, col + 1);
      if b && board[moveRow, col + 1].value.kind == Pawn {
        return true;
      }
      b := IsCellOccupiedByEnemy(allyColor, moveRow, col - 1);
      b := b && board[moveRow, col - 1].value.kind == Pawn;
    }

    /** Game.IsCellAttacked: the five detectors in the source's order, stopping
        at the first that fires. */
    method IsCellAttacked(allyColor: Color, row: int, col: int) returns (b: bool)
      requires Valid()
      ensures b == Attacks.IsCellAttacked(cells, allyColor, row, col)
    {
      b := IsCellAttackedVertically(allyColor, row, col);
      if b { return; }
      b := IsCellAttackedHorizontally(allyColor, row, col);
      if b { return; }
      b := IsCellAttackedByKing(allyColor, row, col);
      if b { return; }
      b := IsCellAttackedByKnight(allyColor, row, col);
      if b { return; }
      b := IsCellAttackedByPawn(allyColor, row, col);
    }

    method IsKingInCheck(allyColor: Color) returns (b: bool)
      requires Valid()
      ensures b == Rules.IsKingInCheck(Pos(), allyColor)
    {
      if allyColor == White {
        b := IsCellAttacked(allyColor, whiteKing.0, whiteKing.1);
      } else {
        b := IsCellAttacked(allyColor, blackKing.0, blackKing.1);
      }
    }

    // ----- Signatures -----

    /** Game.StringifyBoard: one character per cell, row by row. */
    method StringifyBoard() returns (s: string)
      requires Valid()
      ensures s == Signature(cells)
    {
      s := "";
      for i := 0 to 8
        invariant s == SignatureOfRows(cells, i)
      {
        for j := 0 to 8
          invariant s == SignatureOfRows(cells, i) + RowSignature(cells[i])[..j]
        {
          assert RowSignature(cells[i])[..j + 1] == RowSignature(cells[i])[..j] + [CellChar(cells[i][j])];
          if board[i, j].Some? {
            var pieceChar := KindLetter(board[i, j].value.kind);
            if board[i, j].value.color == Black {
              pieceChar := ToUpper(pieceChar);
            }
            s := s + [pieceChar];
          } else {
            s := s + " ";
          }
        }
        assert RowSignature(cells[i])[..8] == RowSignature(cells[i]);
      }
    }

    method IsThereSufficientMaterial() returns (b: bool)
      requires Valid()
      ensures b == BoardSignature.IsThereSufficientMaterial(Signature(cells))
    {
      var s := StringifyBoard();
      b := BoardSignature.IsThereSufficientMaterial(s);
    }

    // ----- Queries -----

    method GetLegalMoves(oracle: MoveOracle, row: int, col: int) returns (r: Result<seq<(int, int)>>)
      requires Valid()
      ensures r == Rules.GetLegalMoves(Pos(), oracle, row, col)
    {
      var occupied := IsCellOccupied(row, col);
      if !occupied {
        return Err(NoPieceAtPosition);
      }
      r := Ok(oracle(CloneGame(), row, col));
    }

    /** Game.GetPieceColor: the colour on an occupied cell, an error otherwise. */
    method GetPieceColor(row: int, col: int) returns (r: Result<Color>)
      requires Valid()
      ensures r.Err? <==> !Board.IsCellOccupied(cells, row, col)
      ensures r.Err? ==> r.error == NoPieceAtPosition
      ensures r.Ok? ==> Board.IsCellOccupiedByAlly(cells, r.value, row, col)
    {
      var occupied := IsCellOccupied(row, col);
      if !occupied {
        return Err(NoPieceAtPosition);
      }
      r := Ok(board[row, col].value.color);
    }

    /** Game.HasKingOrUpRookMoved: the king-side castling right is lost. */
    method HasKingOrUpRookMoved(color: Color) returns (b: bool)
      requires Valid()
      ensures b == Rules.HasKingOrUpRookMoved(moved, color)
    {
      TrackedKeysOf(color);
      b := moved[(color, King, 4)] || moved[(color, Rook, 7)];
    }

    /** Game.HasKingOrDownRookMoved: the queen-side castling right is lost. */
    method HasKingOrDownRookMoved(color: Color) returns (b: bool)
      requires Valid()
      ensures b == Rules.HasKingOrDownRookMoved(moved, color)
    {
      TrackedKeysOf(color);
      b := moved[(color, King, 4)] || moved[(color, Rook, 0)];
    }

    /** Game.DoesPlayerHaveLegalMoves: first the piece on the stored king
        square, then every piece of the colour in row order, stopping at the
        first that can move. */
    method DoesPlayerHaveLegalMoves(oracle: MoveOracle, color: Color) returns (has: bool)
      requires Valid()
      ensures has == HasLegalMoves(Pos(), oracle, color)
    {
      var p := CloneGame();
      var king := KingPosition(p, color);
      has := |oracle(p, king.0, king.1)| != 0;
      var i := 0;
      while i < 8 && !has
        invariant 0 <= i <= 8
        invariant has ==> HasLegalMoves(p, oracle, color)
        invariant !has ==> |oracle(p, king.0, king.1)| == 0
        invariant !has ==> forall a, b :: 0 <= a < i && 0 <= b < 8 && Board.IsCellOccupiedByAlly(p.grid, color, a, b) ==>
                                           |oracle(p, a, b)| == 0
      {
        var j := 0;
        while j < 8 && !has
          invariant 0 <= j <= 8
          invariant has ==> HasLegalMoves(p, oracle, color)
          invariant !has ==> forall a, b ::
                               ((0 <= a < i && 0 <= b < 8) || (a == i && 0 <= b < j)) && Board.IsCellOccupiedByAlly(p.grid, color, a, b)
                               ==> |oracle(p, a, b)| == 0
        {
          var ally := IsCellOccupiedByAlly(color, i, j);
          if ally {
            has := |oracle(p, i, j)| != 0;
          }
          j := j + 1;
        }
        i := i + 1;
      }
    }

    // ----- Changing the game -----

    /** Game.ClaimDrawBy50MovesRule. */
    method ClaimDrawBy50MovesRule() returns (err: Option<GameError>)
      requires Valid()
      modifies this`state, this`reason
      ensures Valid()
      ensures match ClaimDraw(old(Value()))
              case Ok(w) => err == None && Value() == w
              case Err(e) => err == Some(e) && Value() == old(Value())
    {
      if !canClaim50 {
        return Some(CannotClaim50MovesRule);
      }
      state := Draw;
      reason := DrawBy50MovesRule;
      err := None;
    }

    /** A king moving two columns brings the rook of that side from column 7 to
        5, or from column 0 to 3. */
    method CastleRookOnBoard(piece: Piece, oldRow: int, oldCol: int, newCol: int)
      requires Valid() && 0 <= oldRow < 8
      modifies this`cells, board
      ensures Valid() && cells == CastleRook(old(cells), piece, oldRow, oldCol, newCol)
    {
      if piece.kind == King {
        if oldCol - newCol == -2 {
          Put(oldRow, 5, board[oldRow, 7]);
          Put(oldRow, 7, None);
        } else if oldCol - newCol == 2 {
          Put(oldRow, 3, board[oldRow, 0]);
          Put(oldRow, 0, None);
        }
      }
    }

    /** The moving king's square is recorded. */
    method TrackKing(piece: Piece, newRow: int, newCol: int)
      requires Valid() && IsValidPosition(newRow, newCol)
      modifies this`whiteKing, this`blackKing
      ensures Valid()
      ensures (whiteKing, blackKing) == KingsAfterMove(old(Pos()), piece, newRow, newCol)
    {
      if piece.kind == King {
        if piece.color == White {
          whiteKing := (newRow, newCol);
        } else {
          blackKing := (newRow, newCol);
        }
      }
    }

    /** Game.SimulatePieceMove: moves the piece (and the castling rook) without
        any of the bookkeeping of a real move; used on clones to test whether a
        move would leave the king in check. */
    method SimulatePieceMove(oldRow: int, oldCol: int, newRow: int, newCol: int) returns (err: Option<GameError>)
      requires Valid()
      requires Board.IsCellOccupied(cells, oldRow, oldCol) ==> IsValidPosition(newRow, newCol)
      modifies this`cells, this`whiteKing, this`blackKing, board
      ensures Valid()
      ensures !Board.IsCellOccupied(old(cells), oldRow, oldCol) ==>
                err == Some(NoPieceAtPosition) && Value() == old(Value())
      ensures Board.IsCellOccupied(old(cells), oldRow, oldCol) ==>
                err == None && Value() == old(Value()).(pos := SimulateSpec(old(Pos()), oldRow, oldCol, newRow, newCol))
    {
      var occupied := IsCellOccupied(oldRow, oldCol);
      if !occupied {
        return Some(NoPieceAtPosition);
      }
      ghost var pos := Pos();
      var piece := board[oldRow, oldCol].value;
      TrackKing(piece, newRow, newCol);
      CastleRookOnBoard(piece, oldRow, oldCol, newCol);
      Put(oldRow, oldCol, None);
      Put(newRow, newCol, Some(piece));
      err := None;
      SimulateSpecFromParts(pos, oldRow, oldCol, newRow, newCol, cells, (whiteKing, blackKing));
    }

    /** A pawn's double step marks the enemy pawns beside its landing cell as
        able to capture it en passant. */
    method MarkEnPassantTargets(piece: Piece, oldRow: int, newRow: int, newCol: int)
      requires Valid() && 0 <= newRow < 8
      modifies this`cells, board
      ensures Valid() && cells == SetEnPassantFlags(old(cells), piece, oldRow, newRow, newCol)
    {
      if piece.kind == Pawn && Abs(oldRow - newRow) == 2 {
        var down := IsCellOccupiedByEnemy(piece.color, newRow, newCol - 1);
        if down && board[newRow, newCol - 1].value.kind == Pawn {
          Put(newRow, newCol - 1, Some(board[newRow, newCol - 1].value.(canEnPassantDown := true)));
        }
        var up := IsCellOccupiedByEnemy(piece.color, newRow, newCol + 1);
        if up && board[newRow, newCol + 1].value.kind == Pawn {
          Put(newRow, newCol + 1, Some(board[newRow, newCol + 1].value.(canEnPassantUp := true)));
        }
      }
    }

    /** A flagged pawn moving diagonally onto an empty cell removes the pawn
        behind that cell. */
    method CaptureEnPassant(piece: Piece, oldCol: int, newRow: int, newCol: int)
      requires Valid() && IsValidPosition(newRow, newCol)
      requires EnPassantCaptureApplies(piece, oldCol, newCol, cells[newRow][newCol]) ==> 0 <= VictimRow(piece, newRow) < 8
      modifies this`cells, board
      ensures Valid()
      ensures cells == if EnPassantCaptureApplies(piece, oldCol, newCol, old(cells)[newRow][newCol])
                       then With(old(cells), VictimRow(piece, newRow), newCol, None)
                       else old(cells)
    {
      if piece.kind == Pawn && (piece.canEnPassantDown || piece.canEnPassantUp) {
        if Abs(oldCol - newCol) == 1 && board[newRow, newCol].None? {
          Put(newRow + (if piece.color == White then -1 else 1), newCol, None);
        }
      }
    }

    /** The rook of a castling, the king square, the en-passant flags and
        the en-passant capture, in the order Game.MovePiece applies them. */
    method PrepareBoard(piece: Piece, oldRow: int, oldCol: int, newRow: int, newCol: int)
      requires Valid() && CanMove(cells, oldRow, oldCol, newRow, newCol) && piece == cells[oldRow][oldCol].value
      modifies this`cells, this`whiteKing, this`blackKing, board
      ensures Valid()
      ensures cells == BeforePlacing(old(cells), oldRow, oldCol, newRow, newCol)
      ensures (whiteKing, blackKing) == KingsAfterMove(old(Pos()), piece, newRow, newCol)
    {
      CastleRookOnBoard(piece, oldRow, oldCol, newCol);
      TrackKing(piece, newRow, newCol);
      MarkEnPassantTargets(piece, oldRow, newRow, newCol);
      CaptureEnPassant(piece, oldCol, newRow, newCol);
    }

    /** The moved-pieces latch: the entry keyed by the mover's colour, type
        and origin column is set, if the table has one. */
    method LatchMoved(piece: Piece, oldCol: int)
      requires Valid()
      modifies this`moved
      ensures Valid() && moved == Latch(old(moved), piece, oldCol)
    {
      var key := (piece.color, piece.kind, oldCol);
      if key in moved {
        moved := moved[key := true];
      }
    }

    /** The history is cleared by a pawn move or a move onto an occupied
        cell; then the mover leaves its cell and lands, promoted if it is a
        pawn on the far rank, with its en-passant flags cleared. */
    method PlaceMover(piece: Piece, oldRow: int, oldCol: int, newRow: int, newCol: int)
      requires Valid() && IsValidPosition(oldRow, oldCol) && IsValidPosition(newRow, newCol)
      modifies this`cells, this`history, board
      ensures Valid()
      ensures cells == With(With(old(cells), oldRow, oldCol, None), newRow, newCol, Some(MovedPiece(piece, newRow)))
      ensures history == if piece.kind == Pawn || old(cells)[newRow][newCol].Some? then [] else old(history)
    {
      if piece.kind == Pawn || board[newRow, newCol].Some? {
        history := [];
      }
      var kind := piece.kind;
      if piece.kind == Pawn && IsLastRank(piece.color, newRow) {
        kind := Queen;
      }
      Put(oldRow, oldCol, None);
      Put(newRow, newCol, Some(Piece(kind, piece.color, false, false)));
    }

    /** The board part of Game.MovePiece: the moved-pieces latch, the
        preparation of the board, the history reset and the placement of the
        mover. */
    method MakeMove(oldRow: int, oldCol: int, newRow: int, newCol: int) returns (mover: Color)
      requires Valid() && CanMove(cells, oldRow, oldCol, newRow, newCol)
      modifies this`cells, this`whiteKing, this`blackKing, this`moved, this`history, board
      ensures Valid()
      ensures mover == old(cells)[oldRow][oldCol].value.color
      ensures Pos() == PositionAfterMove(old(Pos()), oldRow, oldCol, newRow, newCol)
      ensures history == if IsIrreversible(old(cells), oldRow, oldCol, newRow, newCol) then [] else old(history)
    {
      ghost var pos := Pos();
      var piece := board[oldRow, oldCol].value;
      LatchMoved(piece, oldCol);
      PrepareBoard(piece, oldRow, oldCol, newRow, newCol);
      ghost var g1 := cells;
      PlaceMover(piece, oldRow, oldCol, newRow, newCol);
      mover := piece.color;
      PositionAfterMoveFromParts(pos, oldRow, oldCol, newRow, newCol, g1, cells, (whiteKing, blackKing), moved);
    }

    /** The second half of Game.MovePiece: mate or stalemate when the
        opponent cannot move, otherwise the position is recorded and judged. */
    method FinishMove(oracle: MoveOracle, mover: Color) returns (n: Notifications)
      requires Valid()
      modifies this`turn, this`state, this`reason, this`canClaim50, this`history
      ensures Valid()
      ensures (Value(), n) == Conclude(old(Value()), old(Pos()), old(history), mover, oracle)
    {
      var enemyColor := Opponent(mover);
      var hasMoves := DoesPlayerHaveLegalMoves(oracle, enemyColor);
      if !hasMoves {
        var mated := IsKingInCheck(enemyColor);
        if mated {
          state := Winner(mover);
          reason := Checkmate;
        } else {
          state := Draw;
          reason := DrawByStalemate;
        }
        return Notifications(true, false, None);
      }
      var inCheck := IsKingInCheck(enemyColor);
      n := RecordAndJudge(if inCheck then Some(enemyColor) else None);
    }

    /** The part of Game.MovePiece after a move that leaves the opponent a
        legal reply: the signature is recorded, then the position judged. */
    method RecordAndJudge(check: Option<Color>) returns (n: Notifications)
      requires Valid()
      modifies this`turn, this`state, this`reason, this`canClaim50, this`history
      ensures Valid()
      ensures (Value(), n) == Rules.RecordAndJudge(old(Value()), old(Pos()), old(history), check)
    {
      var signature := StringifyBoard();
      history := history + [signature];
      n := Judge(check);
    }

    /** Insufficient material, the fifty-move flag, threefold repetition or
        the change of turn, on the history just recorded. */
    method Judge(check: Option<Color>) returns (n: Notifications)
      requires Valid()
      modifies this`turn, this`state, this`reason, this`canClaim50
      ensures Valid()
      ensures (Value(), n) == Rules.Judge(old(Value()), old(Pos()), history, check)
    {
      var sufficient := IsThereSufficientMaterial();
      if !sufficient {
        state := Draw;
        reason := DrawByInsufficientMaterial;
        return Notifications(true, false, check);
      }

      var claimChanged := UpdateFiftyMoveFlag();
      if |history| >= 6 {
        if HasThreefoldRepetition(history) {
          state := Draw;
          reason := DrawByRepetition;
          return Notifications(true, claimChanged, check);
        }
      }

      ChangeTurn();
      n := Notifications(false, claimChanged, check);
    }

    /** The fifty-move flag becomes "at least 99 recorded positions"; the
        result reports whether it changed. */
    method UpdateFiftyMoveFlag() returns (changed: bool)
      modifies this`canClaim50
      ensures canClaim50 == (|history| >= 99) && changed == (canClaim50 != old(canClaim50))
    {
      changed := false;
      if canClaim50 != (|history| >= 99) {
        canClaim50 := |history| >= 99;
        changed := true;
      }
    }

    /** Game.MovePiece. The observer events it raises are returned as
        Notifications; the legal-move generation it consults is the oracle. */
    method MovePiece(oracle: MoveOracle, oldRow: int, oldCol: int, newRow: int, newCol: int)
      returns (r: Result<Notifications>)
      requires Valid()
      requires Board.IsCellOccupied(cells, oldRow, oldCol) ==> MoveInBounds(cells, oldRow, oldCol, newRow, newCol)
      modifies this, board
      ensures Valid()
      ensures !Board.IsCellOccupied(old(cells), oldRow, oldCol) ==>
                r == Err(NoPieceAtPosition) && Value() == old(Value())
      ensures Board.IsCellOccupied(old(cells), oldRow, oldCol) ==>
                r.Ok? && (Value(), r.value) == MoveSpec(old(Value()), oracle, oldRow, oldCol, newRow, newCol)
    {
      var occupied := IsCellOccupied(oldRow, oldCol);
      if !occupied {
        return Err(NoPieceAtPosition);
      }
      ghost var v := Value();
      var mover := MakeMove(oldRow, oldCol, newRow, newCol);
      MoveSpecInTwoParts(v, Value(), oracle, oldRow, oldCol, newRow, newCol);
      var n := FinishMove(oracle, mover);
      r := Ok(n);
    }
  }
}
