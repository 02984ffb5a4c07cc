/** An independent description of "attacked": some enemy piece stands where
    its own movement geometry reaches the cell, with nothing in between for the
    sliding pieces. The detector's five ray and offset checks are proved equal
    to it on every cell of the board. */
module AttackGeometry {
  import opened Pieces
  import opened Board
  import opened Attacks

  function Sign(x: int): (r: int) { if x > 0 then 1 else if x < 0 then -1 else 0 }

  function Max(a: int, b: int): (r: int) { if a < b then b else a }

  /** Same row or same column, and not the same cell. */
  predicate OnRookLine(row: int, col: int, pr: int, pc: int)
  {
    (pr == row) != (pc == col)
  }

  /** On a common diagonal, and not the same cell. */
  predicate OnBishopLine(row: int, col: int, pr: int, pc: int)
  {
    pr != row && Abs(pr - row) == Abs(pc - col)
  }

  /** The unit step from (row, col) towards (pr, pc). */
  function Direction(row: int, col: int, pr: int, pc: int): (r: (int, int))
  {
    (Sign(pr - row), Sign(pc - col))
  }

  /** The number of king steps from (row, col) to (pr, pc) along a line. */
  function Distance(row: int, col: int, pr: int, pc: int): (r: int)
  {
    Max(Abs(pr - row), Abs(pc - col))
  }

  /** No piece stands strictly between (row, col) and (pr, pc). */
  ghost predicate ClearBetween(g: Grid, row: int, col: int, pr: int, pc: int)
    requires IsGrid(g)
  {
    forall i :: 1 <= i < Distance(row, col, pr, pc) ==>
      !IsCellOccupied(g, RayCell(row, col, Direction(row, col, pr, pc), i).0,
                         RayCell(row, col, Direction(row, col, pr, pc), i).1)
  }

  /** Piece p standing on (pr, pc) could capture on (row, col). */
  ghost predicate PieceAttacks(g: Grid, p: Piece, pr: int, pc: int, row: int, col: int)
    requires IsGrid(g)
  {
    var dr, dc := pr - row, pc - col;
    match p.kind
    case Pawn => Abs(dc) == 1 && dr == (if p.color == White then -1 else 1)
    case Knight => (Abs(dr) == 1 && Abs(dc) == 2) || (Abs(dr) == 2 && Abs(dc) == 1)
    case King => Abs(dr) <= 1 && Abs(dc) <= 1 && (dr, dc) != (0, 0)
    case Rook => OnRookLine(row, col, pr, pc) && ClearBetween(g, row, col, pr, pc)
    case Bishop => OnBishopLine(row, col, pr, pc) && ClearBetween(g, row, col, pr, pc)
    case Queen => (OnRookLine(row, col, pr, pc) || OnBishopLine(row, col, pr, pc)) && ClearBetween(g, row, col, pr, pc)
  }

  /** Some enemy piece of allyColor attacks (row, col) by its geometry. */
  ghost predicate AttackedByGeometry(g: Grid, allyColor: Color, row: int, col: int)
    requires IsGrid(g)
  {
    exists pr, pc :: IsCellOccupiedByEnemy(g, allyColor, pr, pc) && PieceAttacks(g, g[pr][pc].value, pr, pc, row, col)
  }

  // ----- Rays against lines -----

  /** A ray that is stopped by a piece of one of kinds names that piece, its
      line and an empty stretch in between. */
  lemma RayAttackWitness(g: Grid, allyColor: Color, row: int, col: int, d: (int, int), kinds: set<Kind>)
      returns (pr: int, pc: int)
    requires IsGrid(g) && IsUnitStep(d) && RayAttack(g, allyColor, row, col, d, kinds)
    ensures EnemyOfKindAt(g, allyColor, pr, pc, kinds)
    ensures Direction(row, col, pr, pc) == d && Distance(row, col, pr, pc) >= 1
    ensures (pr, pc) == RayCell(row, col, d, Distance(row, col, pr, pc))
    ensures ClearBetween(g, row, col, pr, pc)
  {
    var n := BlockerDistance(g, row, col, d).value;
    pr, pc := RayCell(row, col, d, n).0, RayCell(row, col, d, n).1;
    BlockerDistanceIsFirstOccupied(g, row, col, d, n);
    assert Direction(row, col, pr, pc) == d && Distance(row, col, pr, pc) == n;
    forall i | 1 <= i < n
      ensures !IsCellOccupied(g, RayCell(row, col, d, i).0, RayCell(row, col, d, i).1)
    {
      assert IsCellEmpty(g, RayCell(row, col, d, i));
    }
  }

  /** An enemy of one of kinds with a clear line to an on-board cell stops the
      ray that points at it. */
  lemma RayAttackFromClearLine(g: Grid, allyColor: Color, row: int, col: int, pr: int, pc: int, kinds: set<Kind>)
    requires IsGrid(g) && IsValidPosition(row, col)
    requires OnRookLine(row, col, pr, pc) || OnBishopLine(row, col, pr, pc)
    requires EnemyOfKindAt(g, allyColor, pr, pc, kinds) && ClearBetween(g, row, col, pr, pc)
    ensures IsUnitStep(Direction(row, col, pr, pc))
    ensures RayAttack(g, allyColor, row, col, Direction(row, col, pr, pc), kinds)
  {
    var d, n := Direction(row, col, pr, pc), Distance(row, col, pr, pc);
    assert RayCell(row, col, d, n) == (pr, pc);
    forall i | 1 <= i < n ensures IsCellEmpty(g, RayCell(row, col, d, i)) {
      assert IsValidPosition(RayCell(row, col, d, i).0, RayCell(row, col, d, i).1);
    }
    BlockerDistanceIsFirstOccupied(g, row, col, d, n);
  }

  lemma OrthogonalAttackIsRookLine(g: Grid, allyColor: Color, row: int, col: int) returns (pr: int, pc: int)
    requires IsGrid(g) && OrthogonalAttack(g, allyColor, row, col)
    ensures IsCellOccupiedByEnemy(g, allyColor, pr, pc) && PieceAttacks(g, g[pr][pc].value, pr, pc, row, col)
  {
    var k :| 0 <= k < |StraightMoves| && RayAttack(g, allyColor, row, col, StraightMoves[k], RookLike);
    pr, pc := RayAttackWitness(g, allyColor, row, col, StraightMoves[k], RookLike);
    assert OnRookLine(row, col, pr, pc);
  }

  lemma DiagonalAttackIsBishopLine(g: Grid, allyColor: Color, row: int, col: int) returns (pr: int, pc: int)
    requires IsGrid(g) && DiagonalAttack(g, allyColor, row, col)
    ensures IsCellOccupiedByEnemy(g, allyColor, pr, pc) && PieceAttacks(g, g[pr][pc].value, pr, pc, row, col)
  {
    var k :| 0 <= k < |DiagonalMoves| && RayAttack(g, allyColor, row, col, DiagonalMoves[k], BishopLike);
    pr, pc := RayAttackWitness(g, allyColor, row, col, DiagonalMoves[k], BishopLike);
    assert OnBishopLine(row, col, pr, pc);
  }

  lemma RookLineIsOrthogonalAttack(g: Grid, allyColor: Color, row: int, col: int, pr: int, pc: int)
    requires IsGrid(g) && IsValidPosition(row, col) && OnRookLine(row, col, pr, pc)
    requires EnemyOfKindAt(g, allyColor, pr, pc, RookLike) && ClearBetween(g, row, col, pr, pc)
    ensures OrthogonalAttack(g, allyColor, row, col)
  {
    RayAttackFromClearLine(g, allyColor, row, col, pr, pc, RookLike);
    var d := Direction(row, col, pr, pc);
    var k := if d == (1, 0) then 0 else if d == (-1, 0) then 1 else if d == (0, 1) then 2 else 3;
    assert StraightMoves[k] == d;
  }

  lemma BishopLineIsDiagonalAttack(g: Grid, allyColor: Color, row: int, col: int, pr: int, pc: int)
    requires IsGrid(g) && IsValidPosition(row, col) && OnBishopLine(row, col, pr, pc)
    requires EnemyOfKindAt(g, allyColor, pr, pc, BishopLike) && ClearBetween(g, row, col, pr, pc)
    ensures DiagonalAttack(g, allyColor, row, col)
  {
    RayAttackFromClearLine(g, allyColor, row, col, pr, pc, BishopLike);
    var d := Direction(row, col, pr, pc);
    var k := if d == (1, 1) then 0 else if d == (1, -1) then 1 else if d == (-1, 1) then 2 else 3;
    assert DiagonalMoves[k] == d;
  }

  // ----- Fixed offsets against jumps -----

  lemma KnightAttackIsJump(g: Grid, allyColor: Color, row: int, col: int) returns (pr: int, pc: int)
    requires IsGrid(g) && KnightAttack(g, allyColor, row, col)
    ensures IsCellOccupiedByEnemy(g, allyColor, pr, pc) && PieceAttacks(g, g[pr][pc].value, pr, pc, row, col)
  {
    var k :| 0 <= k < |KnightMoves| && EnemyOfKindAt(g, allyColor, row + KnightMoves[k].0, col + KnightMoves[k].1, {Knight});
    pr, pc := row + KnightMoves[k].0, col + KnightMoves[k].1;
  }

  lemma JumpIsKnightAttack(g: Grid, allyColor: Color, row: int, col: int, pr: int, pc: int)
    requires IsGrid(g) && EnemyOfKindAt(g, allyColor, pr, pc, {Knight})
    requires PieceAttacks(g, g[pr][pc].value, pr, pc, row, col)
    ensures KnightAttack(g, allyColor, row, col)
  {
    var o := (pr - row, pc - col);
    var k := if o == (2, 1) then 0 else if o == (2, -1) then 1 else if o == (-2, 1) then 2
        else if o == (-2, -1) then 3 else if o == (1, 2) then 4 else if o == (1, -2) then 5
        else if o == (-1, 2) then 6 else 7;
    assert KnightMoves[k] == o;
  }

  lemma KingAttackIsStep(g: Grid, allyColor: Color, row: int, col: int) returns (pr: int, pc: int)
    requires IsGrid(g) && KingAttack(g, allyColor, row, col)
    ensures IsCellOccupiedByEnemy(g, allyColor, pr, pc) && PieceAttacks(g, g[pr][pc].value, pr, pc, row, col)
  {
    var k :| 0 <= k < |AllDirections| && EnemyOfKindAt(g, allyColor, row + AllDirections[k].0, col + AllDirections[k].1, {King});
    pr, pc := row + AllDirections[k].0, col + AllDirections[k].1;
  }

  lemma StepIsKingAttack(g: Grid, allyColor: Color, row: int, col: int, pr: int, pc: int)
    requires IsGrid(g) && EnemyOfKindAt(g, allyColor, pr, pc, {King})
    requires PieceAttacks(g, g[pr][pc].value, pr, pc, row, col)
    ensures KingAttack(g, allyColor, row, col)
  {
    var o := (pr - row, pc - col);
    var k := if o == (1, 0) then 0 else if o == (-1, 0) then 1 else if o == (0, 1) then 2
        else if o == (0, -1) then 3 else if o == (1, 1) then 4 else if o == (1, -1) then 5
        else if o == (-1, 1) then 6 else 7;
    assert AllDirections[k] == o;
  }

  lemma PawnAttackIsCapture(g: Grid, allyColor: Color, row: int, col: int) returns (pr: int, pc: int)
    requires IsGrid(g) && PawnAttack(g, allyColor, row, col)
    ensures IsCellOccupiedByEnemy(g, allyColor, pr, pc) && PieceAttacks(g, g[pr][pc].value, pr, pc, row, col)
  {
    pr := if allyColor == White then row + 1 else row - 1;
    pc := if EnemyOfKindAt(g, allyColor, pr, col + 1, {Pawn}) then col + 1 else col - 1;
  }

  lemma CaptureIsPawnAttack(g: Grid, allyColor: Color, row: int, col: int, pr: int, pc: int)
    requires IsGrid(g) && EnemyOfKindAt(g, allyColor, pr, pc, {Pawn})
    requires PieceAttacks(g, g[pr][pc].value, pr, pc, row, col)
    ensures PawnAttack(g, allyColor, row, col)
  {
  }

  // ----- The whole detector -----

  /** The detector is exactly the geometric notion of attack, on every cell
      of the board: some enemy piece reaches the cell by its own movement,
      sliders only across empty cells, pawns only diagonally forward. */
  lemma IsCellAttackedIffGeometry(g: Grid, allyColor: Color, row: int, col: int)
    requires IsGrid(g) && IsValidPosition(row, col)
    ensures IsCellAttacked(g, allyColor, row, col) <==> AttackedByGeometry(g, allyColor, row, col)
  {
    if IsCellAttacked(g, allyColor, row, col) {
      DetectedAttackIsGeometric(g, allyColor, row, col);
    }
    if AttackedByGeometry(g, allyColor, row, col) {
      GeometricAttackIsDetected(g, allyColor, row, col);
    }
  }

  /** Each of the five detectors that fires names an enemy piece that
      reaches the cell. */
  lemma DetectedAttackIsGeometric(g: Grid, allyColor: Color, row: int, col: int)
    requires IsGrid(g) && IsValidPosition(row, col) && IsCellAttacked(g, allyColor, row, col)
    ensures AttackedByGeometry(g, allyColor, row, col)
  {
    var pr, pc;
    if OrthogonalAttack(g, allyColor, row, col) {
      pr, pc := OrthogonalAttackIsRookLine(g, allyColor, row, col);
    } else if DiagonalAttack(g, allyColor, row, col) {
      pr, pc := DiagonalAttackIsBishopLine(g, allyColor, row, col);
    } else if KingAttack(g, allyColor, row, col) {
      pr, pc := KingAttackIsStep(g, allyColor, row, col);
    } else if KnightAttack(g, allyColor, row, col) {
      pr, pc := KnightAttackIsJump(g, allyColor, row, col);
    } else {
      pr, pc := PawnAttackIsCapture(g, allyColor, row, col);
    }
  }

  /** An enemy piece that reaches the cell is found by the detector of its type. */
  lemma GeometricAttackIsDetected(g: Grid, allyColor: Color, row: int, col: int)
    requires IsGrid(g) && IsValidPosition(row, col) && AttackedByGeometry(g, allyColor, row, col)
    ensures IsCellAttacked(g, allyColor, row, col)
  {
    var pr, pc :| IsCellOccupiedByEnemy(g, allyColor, pr, pc) && PieceAttacks(g, g[pr][pc].value, pr, pc, row, col);
    var p := g[pr][pc].value;
    match p.kind
    case Pawn => CaptureIsPawnAttack(g, allyColor, row, col, pr, pc);
    case Knight => JumpIsKnightAttack(g, allyColor, row, col, pr, pc);
    case King => StepIsKingAttack(g, allyColor, row, col, pr, pc);
    case Rook => RookLineIsOrthogonalAttack(g, allyColor, row, col, pr, pc);
    case Bishop => BishopLineIsDiagonalAttack(g, allyColor, row, col, pr, pc);
    case Queen =>
      if OnRookLine(row, col, pr, pc) {
        RookLineIsOrthogonalAttack(g, allyColor, row, col, pr, pc);
      } else {
        BishopLineIsDiagonalAttack(g, allyColor, row, col, pr, pc);
      }
  }
}
