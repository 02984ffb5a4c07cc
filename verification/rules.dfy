/** The game as a value: what a move does to the board, the king squares, the
    moved-piece latches and the history, and how the end of the game is
    classified. The Game class is proved to follow these functions. */
module Rules {
  import opened Pieces
  import opened Board
  import opened Attacks
  import opened BoardSignature

  datatype GameState = Playing | WhiteWins | BlackWins | Draw

  datatype GameEndReason =
    | StillNotOver
    | Checkmate
    | DrawByRepetition
    | DrawByStalemate
    | DrawBy50MovesRule
    | DrawByInsufficientMaterial

  datatype GameError = NoPieceAtPosition | CannotClaim50MovesRule

  datatype Result<T> = Ok(value: T) | Err(error: GameError)

  // ----- Castling rights -----

  /** A key of the moved-pieces table: colour, type and starting column. */
  type MovedKey = (Color, Kind, int)

  /** The six originals whose first move is recorded: both kings and the four rooks. */
  const TrackedKeys: set<MovedKey> :=
    {(White, King, 4), (Black, King, 4), (White, Rook, 0), (White, Rook, 7), (Black, Rook, 0), (Black, Rook, 7)}

  function InitialMoved(): (m: map<MovedKey, bool>)
    ensures m.Keys == TrackedKeys && forall k :: k in m ==> !m[k]
  {
    map k | k in TrackedKeys :: false
  }

  /** MovePiece's first step: the entry keyed by the mover's colour, type and
      origin column (not its row) is set, if the table has it. */
  function Latch(moved: map<MovedKey, bool>, p: Piece, oldCol: int): (r: map<MovedKey, bool>)
  {
    var key := (p.color, p.kind, oldCol);
    if key in moved then moved[key := true] else moved
  }

  /** Game.HasKingOrUpRookMoved: the king or the column-7 rook has moved. */
  predicate HasKingOrUpRookMoved(moved: map<MovedKey, bool>, c: Color)
    requires TrackedKeys <= moved.Keys
  {
    TrackedKeysOf(c);
    moved[(c, King, 4)] || moved[(c, Rook, 7)]
  }

  /** Game.HasKingOrDownRookMoved: the king or the column-0 rook has moved. */
  predicate HasKingOrDownRookMoved(moved: map<MovedKey, bool>, c: Color)
    requires TrackedKeys <= moved.Keys
  {
    TrackedKeysOf(c);
    moved[(c, King, 4)] || moved[(c, Rook, 0)]
  }

  lemma TrackedKeysOf(c: Color)
    ensures (c, King, 4) in TrackedKeys && (c, Rook, 0) in TrackedKeys && (c, Rook, 7) in TrackedKeys
  {
    if c == White {} else {}
  }

  /** An entry is set afterwards exactly when it was set before or the mover
      matches its key; no entry is ever cleared and no key is added. */
  lemma LatchIsOneWay(moved: map<MovedKey, bool>, p: Piece, oldCol: int)
    ensures Latch(moved, p, oldCol).Keys == moved.Keys
    ensures forall k :: k in moved ==> Latch(moved, p, oldCol)[k] == (moved[k] || k == (p.color, p.kind, oldCol))
  {
  }

  // ----- Positions -----

  /** What a clone of the game carries, and so what per-piece move generation
      can look at: the board, whose turn it is, the king squares and the
      moved-pieces table. */
  datatype Position = Position(grid: Grid, turn: Color, whiteKing: (int, int), blackKing: (int, int),
                               moved: map<MovedKey, bool>)

  ghost predicate ValidPosition(pos: Position)
  {
    && IsGrid(pos.grid)
    && IsValidPosition(pos.whiteKing.0, pos.whiteKing.1)
    && IsValidPosition(pos.blackKing.0, pos.blackKing.1)
    && pos.moved.Keys == TrackedKeys
  }

  function KingPosition(pos: Position, c: Color): (r: (int, int))
  {
    if c == White then pos.whiteKing else pos.blackKing
  }

  /** Game.IsKingInCheck: the detector applied to the stored king square. */
  predicate IsKingInCheck(pos: Position, c: Color)
    requires IsGrid(pos.grid)
  {
    IsCellAttacked(pos.grid, c, KingPosition(pos, c).0, KingPosition(pos, c).1)
  }

  /** Per-piece legal-move generation (Piece.GetLegalMoves), which this model
      does not define: the legal destinations of the piece on a cell. */
  type MoveOracle = (Position, int, int) -> seq<(int, int)>

  /** Game.DoesPlayerHaveLegalMoves: the piece on the stored king square has a
      legal move, or some piece of colour c does. */
  predicate HasLegalMoves(pos: Position, oracle: MoveOracle, c: Color)
    requires IsGrid(pos.grid)
  {
    || |oracle(pos, KingPosition(pos, c).0, KingPosition(pos, c).1)| != 0
    || exists i, j :: 0 <= i < 8 && 0 <= j < 8 && IsCellOccupiedByAlly(pos.grid, c, i, j) && |oracle(pos, i, j)| != 0
  }

  /** Game.GetLegalMoves: the oracle's answer for an occupied cell, an error
      for an empty or off-board one. */
  function GetLegalMoves(pos: Position, oracle: MoveOracle, row: int, col: int): (r: Result<seq<(int, int)>>)
    requires IsGrid(pos.grid)
    ensures r.Err? <==> !IsCellOccupied(pos.grid, row, col)
    ensures r.Err? ==> r.error == NoPieceAtPosition
    ensures r.Ok? ==> r.value == oracle(pos, row, col)
  {
    if !IsCellOccupied(pos.grid, row, col) then Err(NoPieceAtPosition) else Ok(oracle(pos, row, col))
  }

  // ----- The whole game -----

  datatype GameValue = GameValue(pos: Position, state: GameState, reason: GameEndReason,
                                 canClaim50: bool, history: seq<string>)

  /** The observer notifications one move raises. */
  datatype Notifications = Notifications(gameStateChanged: bool, canClaim50Changed: bool, kingInCheck: Option<Color>)

  function BackRank(c: Color): (r: seq<Option<Piece>>)
  {
    [Some(NewPiece(Rook, c)), Some(NewPiece(Knight, c)), Some(NewPiece(Bishop, c)), Some(NewPiece(Queen, c)),
     Some(NewPiece(King, c)), Some(NewPiece(Bishop, c)), Some(NewPiece(Knight, c)), Some(NewPiece(Rook, c))]
  }

  function PawnRank(c: Color): (r: seq<Option<Piece>>)
  {
    seq(8, j => Some(NewPiece(Pawn, c)))
  }

  function EmptyRank(): (r: seq<Option<Piece>>)
  {
    seq(8, j => None)
  }

  /** The standard layout: White on rows 0 and 1, Black on rows 6 and 7. */
  function InitialGrid(): (g: Grid)
    ensures IsGrid(g)
  {
    [BackRank(White), PawnRank(White), EmptyRank(), EmptyRank(),
     EmptyRank(), EmptyRank(), PawnRank(Black), BackRank(Black)]
  }

  /** The standard layout, built the way the game sets it up: back ranks on
      rows 0 and 7, pawns on rows 1 and 6, over an empty board. */
  lemma InitialGridLayout()
    ensures EmptyGrid()[0 := BackRank(White)][1 := PawnRank(White)][6 := PawnRank(Black)][7 := BackRank(Black)]
            == InitialGrid()
  {
    assert EmptyGrid()[2] == EmptyRank();
  }

  function InitialGame(): (r: GameValue)
  {
    GameValue(Position(InitialGrid(), White, (0, 4), (7, 4), InitialMoved()),
              Playing, StillNotOver, false, [Signature(InitialGrid())])
  }

  /** The parts of the new game. */
  lemma InitialGameIs(g: Grid, turn: Color, whiteKing: (int, int), blackKing: (int, int), moved: map<MovedKey, bool>,
                       state: GameState, reason: GameEndReason, canClaim50: bool, history: seq<string>)
    requires g == InitialGrid() && turn == White && whiteKing == (0, 4) && blackKing == (7, 4)
    requires moved == InitialMoved() && state == Playing && reason == StillNotOver && !canClaim50
    requires history == [Signature(g)]
    ensures GameValue(Position(g, turn, whiteKing, blackKing, moved), state, reason, canClaim50, history)
            == InitialGame()
  {
  }

  /** The new game: both kings on their stored squares, White to move, no
      castling right lost, not over, and one recorded position. */
  lemma InitialGameFacts()
    ensures ValidPosition(InitialGame().pos)
    ensures InitialGrid()[0][4] == Some(NewPiece(King, White)) && InitialGrid()[7][4] == Some(NewPiece(King, Black))
    ensures forall c :: !HasKingOrUpRookMoved(InitialGame().pos.moved, c) && !HasKingOrDownRookMoved(InitialGame().pos.moved, c)
    ensures InitialGame().state == Playing && InitialGame().reason == StillNotOver && !InitialGame().canClaim50
    ensures |InitialGame().history| == 1
  {
  }

  /** The recorded signature of the new game: White's back rank and pawns in
      lower case, 32 blanks, then Black's pawns and back rank in upper case. */
  lemma InitialSignature()
    ensures Signature(InitialGrid()) ==
              "rnbqkbnr" + "pppppppp" + "        " + "        " + "        " + "        " + "PPPPPPPP" + "RNBQKBNR"
  {
    var g := InitialGrid();
    assert RowSignature(g[0]) == "rnbqkbnr";
    assert RowSignature(g[1]) == "pppppppp";
    assert RowSignature(g[2]) == "        ";
    assert RowSignature(g[6]) == "PPPPPPPP";
    assert RowSignature(g[7]) == "RNBQKBNR";
    calc {
      Signature(g);
      SignatureOfRows(g, 8);
      SignatureOfRows(g, 7) + RowSignature(g[7]);
      SignatureOfRows(g, 6) + RowSignature(g[6]) + RowSignature(g[7]);
      SignatureOfRows(g, 5) + RowSignature(g[5]) + RowSignature(g[6]) + RowSignature(g[7]);
      SignatureOfRows(g, 4) + RowSignature(g[4]) + RowSignature(g[5]) + RowSignature(g[6]) + RowSignature(g[7]);
      SignatureOfRows(g, 3) + RowSignature(g[3]) + RowSignature(g[4]) + RowSignature(g[5]) + RowSignature(g[6])
        + RowSignature(g[7]);
      SignatureOfRows(g, 2) + RowSignature(g[2]) + RowSignature(g[3]) + RowSignature(g[4]) + RowSignature(g[5])
        + RowSignature(g[6]) + RowSignature(g[7]);
      SignatureOfRows(g, 1) + RowSignature(g[1]) + RowSignature(g[2]) + RowSignature(g[3]) + RowSignature(g[4])
        + RowSignature(g[5]) + RowSignature(g[6]) + RowSignature(g[7]);
      RowSignature(g[0]) + RowSignature(g[1]) + RowSignature(g[2]) + RowSignature(g[3]) + RowSignature(g[4])
        + RowSignature(g[5]) + RowSignature(g[6]) + RowSignature(g[7]);
    }
  }

  // ----- Moving a piece -----

  predicate IsLastRank(c: Color, row: int)
  {
    (c == White && row == 7) || (c == Black && row == 0)
  }

  /** The mover as it lands: a pawn reaching the far rank becomes a queen, and
      its en-passant flags are cleared. */
  function MovedPiece(p: Piece, newRow: int): (q: Piece)
    ensures q.color == p.color && !q.canEnPassantUp && !q.canEnPassantDown
    ensures q.kind == (if p.kind == Pawn && IsLastRank(p.color, newRow) then Queen else p.kind)
  {
    var kind := if p.kind == Pawn && IsLastRank(p.color, newRow) then Queen else p.kind;
    Piece(kind, p.color, false, false)
  }

  /** A king moving two columns brings the rook of that side alongside:
      column 7 to 5, or column 0 to 3, on the king's row. */
  function CastleRook(g: Grid, p: Piece, oldRow: int, oldCol: int, newCol: int): (h: Grid)
    requires IsGrid(g) && 0 <= oldRow < 8
    ensures IsGrid(h)
  {
    if p.kind == King && oldCol - newCol == -2 then With(With(g, oldRow, 5, g[oldRow][7]), oldRow, 7, None)
    else if p.kind == King && oldCol - newCol == 2 then With(With(g, oldRow, 3, g[oldRow][0]), oldRow, 0, None)
    else g
  }

  /** A pawn's double step gives an enemy pawn beside its landing cell the
      right to capture it: the one on the previous column may capture "down",
      the one on the next column "up". */
  function SetEnPassantFlags(g: Grid, p: Piece, oldRow: int, newRow: int, newCol: int): (h: Grid)
    requires IsGrid(g) && 0 <= newRow < 8
    ensures IsGrid(h)
  {
    if p.kind == Pawn && Abs(oldRow - newRow) == 2 then
      var g1 := if EnemyOfKindAt(g, p.color, newRow, newCol - 1, {Pawn})
                then With(g, newRow, newCol - 1, Some(g[newRow][newCol - 1].value.(canEnPassantDown := true)))
                else g;
      if EnemyOfKindAt(g1, p.color, newRow, newCol + 1, {Pawn})
      then With(g1, newRow, newCol + 1, Some(g1[newRow][newCol + 1].value.(canEnPassantUp := true)))
      else g1
    else g
  }

  /** A flagged pawn moving one column sideways onto an empty cell captures en passant. */
  predicate EnPassantCaptureApplies(p: Piece, oldCol: int, newCol: int, dest: Option<Piece>)
  {
    p.kind == Pawn && (p.canEnPassantDown || p.canEnPassantUp) && Abs(oldCol - newCol) == 1 && dest.None?
  }

  /** The row of the pawn captured en passant: just behind the landing cell. */
  function VictimRow(p: Piece, newRow: int): (r: int)
  {
    newRow + (if p.color == White then -1 else 1)
  }

  /** The destination is on the board, and so is the cell an en-passant capture
      would empty (the game indexes both without checking). */
  predicate MoveInBounds(g: Grid, oldRow: int, oldCol: int, newRow: int, newCol: int)
    requires IsGrid(g) && IsCellOccupied(g, oldRow, oldCol)
  {
    && IsValidPosition(newRow, newCol)
    && (EnPassantCaptureApplies(g[oldRow][oldCol].value, oldCol, newCol, g[newRow][newCol])
        ==> 0 <= VictimRow(g[oldRow][oldCol].value, newRow) < 8)
  }

  predicate CanMove(g: Grid, oldRow: int, oldCol: int, newRow: int, newCol: int)
    requires IsGrid(g)
  {
    IsCellOccupied(g, oldRow, oldCol) && MoveInBounds(g, oldRow, oldCol, newRow, newCol)
  }

  /** The board after the rook relocation, the flags and the en-passant
      capture, just before the mover is lifted and placed. */
  function BeforePlacing(g: Grid, oldRow: int, oldCol: int, newRow: int, newCol: int): (h: Grid)
    requires IsGrid(g) && CanMove(g, oldRow, oldCol, newRow, newCol)
    ensures IsGrid(h)
  {
    var p := g[oldRow][oldCol].value;
    var g1 := CastleRook(g, p, oldRow, oldCol, newCol);
    var g2 := SetEnPassantFlags(g1, p, oldRow, newRow, newCol);
    if EnPassantCaptureApplies(p, oldCol, newCol, g2[newRow][newCol]) then
      assert g2[newRow][newCol] == g[newRow][newCol];
      With(g2, VictimRow(p, newRow), newCol, None)
    else g2
  }

  /** The board after MovePiece. */
  function BoardAfterMove(g: Grid, oldRow: int, oldCol: int, newRow: int, newCol: int): (h: Grid)
    requires IsGrid(g) && CanMove(g, oldRow, oldCol, newRow, newCol)
    ensures IsGrid(h)
  {
    var p := g[oldRow][oldCol].value;
    With(With(BeforePlacing(g, oldRow, oldCol, newRow, newCol), oldRow, oldCol, None),
         newRow, newCol, Some(MovedPiece(p, newRow)))
  }

  /** A pawn move or a move onto an occupied cell resets the history. */
  predicate IsIrreversible(g: Grid, oldRow: int, oldCol: int, newRow: int, newCol: int)
    requires IsGrid(g) && CanMove(g, oldRow, oldCol, newRow, newCol)
  {
    g[oldRow][oldCol].value.kind == Pawn || BeforePlacing(g, oldRow, oldCol, newRow, newCol)[newRow][newCol].Some?
  }

  /** The king squares after a move of p to (newRow, newCol). */
  function KingsAfterMove(pos: Position, p: Piece, newRow: int, newCol: int): (r: ((int, int), (int, int)))
  {
    if p.kind == King && p.color == White then ((newRow, newCol), pos.blackKing)
    else if p.kind == King then (pos.whiteKing, (newRow, newCol))
    else (pos.whiteKing, pos.blackKing)
  }

  /** The position after MovePiece, before the turn changes. */
  function PositionAfterMove(pos: Position, oldRow: int, oldCol: int, newRow: int, newCol: int): (q: Position)
    requires ValidPosition(pos) && CanMove(pos.grid, oldRow, oldCol, newRow, newCol)
    ensures ValidPosition(q)
  {
    var p := pos.grid[oldRow][oldCol].value;
    var kings := KingsAfterMove(pos, p, newRow, newCol);
    Position(BoardAfterMove(pos.grid, oldRow, oldCol, newRow, newCol), pos.turn, kings.0, kings.1,
             Latch(pos.moved, p, oldCol))
  }

  /** The position after a move, assembled from its parts: the prepared
      board with the mover lifted and placed, the tracked king squares and the
      latched table; and the history reset read off the prepared board. */
  lemma PositionAfterMoveFromParts(pos: Position, oldRow: int, oldCol: int, newRow: int, newCol: int,
                                   g1: Grid, grid: Grid, kings: ((int, int), (int, int)), moved: map<MovedKey, bool>)
    requires ValidPosition(pos) && CanMove(pos.grid, oldRow, oldCol, newRow, newCol)
    requires g1 == BeforePlacing(pos.grid, oldRow, oldCol, newRow, newCol)
    requires grid == With(With(g1, oldRow, oldCol, None), newRow, newCol,
                          Some(MovedPiece(pos.grid[oldRow][oldCol].value, newRow)))
    requires kings == KingsAfterMove(pos, pos.grid[oldRow][oldCol].value, newRow, newCol)
    requires moved == Latch(pos.moved, pos.grid[oldRow][oldCol].value, oldCol)
    ensures Position(grid, pos.turn, kings.0, kings.1, moved) == PositionAfterMove(pos, oldRow, oldCol, newRow, newCol)
    ensures IsIrreversible(pos.grid, oldRow, oldCol, newRow, newCol)
            == (pos.grid[oldRow][oldCol].value.kind == Pawn || g1[newRow][newCol].Some?)
  {
  }

  function Winner(mover: Color): (r: GameState)
  {
    if mover == White then WhiteWins else BlackWins
  }

  /** The second half of MovePiece: the opponent without legal moves is mated
      (when in check) or stalemated, and nothing is recorded; otherwise the
      position is recorded and judged. */
  function Conclude(v: GameValue, pos: Position, history: seq<string>, mover: Color, oracle: MoveOracle)
    : (r: (GameValue, Notifications))
    requires ValidPosition(pos)
  {
    var enemy := Opponent(mover);
    if !HasLegalMoves(pos, oracle, enemy) then
      var outcome := if IsKingInCheck(pos, enemy) then (Winner(mover), Checkmate) else (Draw, DrawByStalemate);
      (GameValue(pos, outcome.0, outcome.1, v.canClaim50, history), Notifications(true, false, None))
    else
      RecordAndJudge(v, pos, history, if IsKingInCheck(pos, enemy) then Some(enemy) else None)
  }

  /** The new signature is appended, then the position is judged. */
  function RecordAndJudge(v: GameValue, pos: Position, history: seq<string>, check: Option<Color>)
    : (r: (GameValue, Notifications))
    requires ValidPosition(pos)
  {
    Judge(v, pos, history + [Signature(pos.grid)], check)
  }

  /** The game is drawn for insufficient material (the fifty-move flag left
      as it was) or, after the flag is recomputed from the length of the
      history, for threefold repetition; otherwise the turn passes. */
  function Judge(v: GameValue, pos: Position, recorded: seq<string>, check: Option<Color>)
    : (r: (GameValue, Notifications))
    requires ValidPosition(pos)
  {
    if !IsThereSufficientMaterial(Signature(pos.grid)) then
      (GameValue(pos, Draw, DrawByInsufficientMaterial, v.canClaim50, recorded), Notifications(true, false, check))
    else
      var claim := |recorded| >= 99;
      if IsDrawByRepetition(recorded) then
        (GameValue(pos, Draw, DrawByRepetition, claim, recorded), Notifications(true, claim != v.canClaim50, check))
      else
        (GameValue(pos.(turn := Opponent(pos.turn)), v.state, v.reason, claim, recorded),
         Notifications(false, claim != v.canClaim50, check))
  }

  /** Game.MovePiece on an occupied origin. */
  function MoveSpec(v: GameValue, oracle: MoveOracle, oldRow: int, oldCol: int, newRow: int, newCol: int)
    : (r: (GameValue, Notifications))
    requires ValidPosition(v.pos) && CanMove(v.pos.grid, oldRow, oldCol, newRow, newCol)
    ensures ValidPosition(r.0.pos)
  {
    var g := v.pos.grid;
    var p := g[oldRow][oldCol].value;
    var pos := PositionAfterMove(v.pos, oldRow, oldCol, newRow, newCol);
    var history := if IsIrreversible(g, oldRow, oldCol, newRow, newCol) then [] else v.history;
    Conclude(v, pos, history, p.color, oracle)
  }

  /** A move is its board part followed by its conclusion; the conclusion
      reads only the outcome and the fifty-move flag of the game it starts from. */
  lemma MoveSpecInTwoParts(v: GameValue, w: GameValue, oracle: MoveOracle, oldRow: int, oldCol: int, newRow: int, newCol: int)
    requires ValidPosition(v.pos) && CanMove(v.pos.grid, oldRow, oldCol, newRow, newCol)
    requires w.pos == PositionAfterMove(v.pos, oldRow, oldCol, newRow, newCol)
    requires w.history == if IsIrreversible(v.pos.grid, oldRow, oldCol, newRow, newCol) then [] else v.history
    requires w.state == v.state && w.reason == v.reason && w.canClaim50 == v.canClaim50
    ensures MoveSpec(v, oracle, oldRow, oldCol, newRow, newCol)
            == Conclude(w, w.pos, w.history, v.pos.grid[oldRow][oldCol].value.color, oracle)
  {
    var mover := v.pos.grid[oldRow][oldCol].value.color;
    assert MoveSpec(v, oracle, oldRow, oldCol, newRow, newCol) == Conclude(v, w.pos, w.history, mover, oracle);
    ConcludeReadsOnlyOutcome(v, w, w.pos, w.history, mover, oracle);
  }

  /** Of the game it starts from, the conclusion reads only the outcome and
      the fifty-move flag. */
  lemma ConcludeReadsOnlyOutcome(v: GameValue, w: GameValue, pos: Position, history: seq<string>, mover: Color,
                                 oracle: MoveOracle)
    requires ValidPosition(pos)
    requires w.state == v.state && w.reason == v.reason && w.canClaim50 == v.canClaim50
    ensures Conclude(v, pos, history, mover, oracle) == Conclude(w, pos, history, mover, oracle)
  {
  }

  /** Game.SimulatePieceMove: only the rook relocation, the king square and the
      move itself, with no flags, capture, promotion or bookkeeping. */
  function SimulateSpec(pos: Position, oldRow: int, oldCol: int, newRow: int, newCol: int): (q: Position)
    requires ValidPosition(pos) && IsCellOccupied(pos.grid, oldRow, oldCol) && IsValidPosition(newRow, newCol)
    ensures ValidPosition(q)
  {
    var p := pos.grid[oldRow][oldCol].value;
    var kings := KingsAfterMove(pos, p, newRow, newCol);
    var g := CastleRook(pos.grid, p, oldRow, oldCol, newCol);
    pos.(grid := With(With(g, oldRow, oldCol, None), newRow, newCol, Some(p)),
         whiteKing := kings.0, blackKing := kings.1)
  }

  /** The simulated position, assembled from its board and its king squares. */
  lemma SimulateSpecFromParts(pos: Position, oldRow: int, oldCol: int, newRow: int, newCol: int,
                              grid: Grid, kings: ((int, int), (int, int)))
    requires ValidPosition(pos) && IsCellOccupied(pos.grid, oldRow, oldCol) && IsValidPosition(newRow, newCol)
    requires grid == With(With(CastleRook(pos.grid, pos.grid[oldRow][oldCol].value, oldRow, oldCol, newCol),
                               oldRow, oldCol, None), newRow, newCol, Some(pos.grid[oldRow][oldCol].value))
    requires kings == KingsAfterMove(pos, pos.grid[oldRow][oldCol].value, newRow, newCol)
    ensures pos.(grid := grid, whiteKing := kings.0, blackKing := kings.1)
            == SimulateSpec(pos, oldRow, oldCol, newRow, newCol)
  {
  }

  /** Game.ClaimDrawBy50MovesRule. */
  function ClaimDraw(v: GameValue): (r: Result<GameValue>)
    ensures r.Err? <==> !v.canClaim50
    ensures r.Err? ==> r.error == CannotClaim50MovesRule
    ensures r.Ok? ==> r.value == v.(state := Draw, reason := DrawBy50MovesRule)
  {
    if !v.canClaim50 then Err(CannotClaim50MovesRule) else Ok(v.(state := Draw, reason := DrawBy50MovesRule))
  }
}
