/** The attack detector of the game: whether an enemy piece could capture on a
    given cell. It is the OR of five checks: orthogonal rays (rook or queen),
    diagonal rays (bishop or queen), knight jumps, king steps and pawn captures. */
module Attacks {
  import opened Pieces
  import opened Board

  // ----- Rays -----

  /** A step of a ray: each coordinate moves by at most one, and it moves. */
  predicate IsUnitStep(d: (int, int))
  {
    -1 <= d.0 <= 1 && -1 <= d.1 <= 1 && d != (0, 0)
  }

  /** k steps along a unit direction x: k, -k or 0. */
  function Scale(k: int, x: int): (r: int)
  {
    if x > 0 then k else if x < 0 then -k else 0
  }

  /** The cell k steps away from (row, col) along d. */
  function RayCell(row: int, col: int, d: (int, int), k: int): (int, int)
  {
    (row + Scale(k, d.0), col + Scale(k, d.1))
  }

  /** How many more steps along dx stay ahead of coordinate x on the board;
      the termination measure of a ray walk. */
  function StepsLeft(x: int, dx: int): (r: nat)
  {
    if dx > 0 then (if x < 8 then 8 - x else 0)
    else if dx < 0 then (if x >= 0 then x + 1 else 0)
    else 0
  }

  /** The distance to the first occupied cell on the ray from (row, col) along d,
      or None when the ray leaves the board before meeting any piece. */
  function BlockerDistance(g: Grid, row: int, col: int, d: (int, int)): (r: Option<nat>)
    requires IsGrid(g) && IsUnitStep(d)
    ensures r.Some? ==> r.value >= 1
    decreases StepsLeft(row, d.0) + StepsLeft(col, d.1)
  {
    var nr, nc := row + d.0, col + d.1;
    if !IsValidPosition(nr, nc) then None
    else if g[nr][nc].Some? then Some(1)
    else match BlockerDistance(g, nr, nc, d)
      case None => None
      case Some(k) => Some(k + 1)
  }

  /** The ray along d is stopped by an enemy piece of one of the given kinds. */
  predicate RayAttack(g: Grid, allyColor: Color, row: int, col: int, d: (int, int), kinds: set<Kind>)
    requires IsGrid(g) && IsUnitStep(d)
  {
    match BlockerDistance(g, row, col, d)
    case None => false
    case Some(k) =>
      var cell := RayCell(row, col, d, k);
      IsCellOccupiedByEnemy(g, allyColor, cell.0, cell.1) && g[cell.0][cell.1].value.kind in kinds
  }

  predicate AllUnitSteps(dirs: seq<(int, int)>)
  {
    forall k :: 0 <= k < |dirs| ==> IsUnitStep(dirs[k])
  }

  /** Some ray along one of dirs is stopped by an enemy of one of kinds. */
  predicate SliderAttack(g: Grid, allyColor: Color, row: int, col: int, dirs: seq<(int, int)>, kinds: set<Kind>)
    requires IsGrid(g) && AllUnitSteps(dirs)
  {
    exists k :: 0 <= k < |dirs| && RayAttack(g, allyColor, row, col, dirs[k], kinds)
  }

  const RookLike: set<Kind> := {Queen, Rook}
  const BishopLike: set<Kind> := {Queen, Bishop}

  /** Game.IsCellAttackedVertically: the orthogonal rays. */
  predicate OrthogonalAttack(g: Grid, allyColor: Color, row: int, col: int)
    requires IsGrid(g)
  {
    SliderAttack(g, allyColor, row, col, StraightMoves, RookLike)
  }

  /** Game.IsCellAttackedHorizontally: the diagonal rays. */
  predicate DiagonalAttack(g: Grid, allyColor: Color, row: int, col: int)
    requires IsGrid(g)
  {
    SliderAttack(g, allyColor, row, col, DiagonalMoves, BishopLike)
  }

  // ----- Fixed offsets -----

  /** An enemy of type kind stands at one of the offsets from (row, col). */
  predicate OffsetAttack(g: Grid, allyColor: Color, row: int, col: int, offsets: seq<(int, int)>, kind: Kind)
    requires IsGrid(g)
  {
    exists k :: 0 <= k < |offsets| && EnemyOfKindAt(g, allyColor, row + offsets[k].0, col + offsets[k].1, {kind})
  }

  predicate EnemyOfKindAt(g: Grid, allyColor: Color, r: int, c: int, kinds: set<Kind>)
    requires IsGrid(g)
  {
    IsCellOccupiedByEnemy(g, allyColor, r, c) && g[r][c].value.kind in kinds
  }

  predicate KnightAttack(g: Grid, allyColor: Color, row: int, col: int)
    requires IsGrid(g)
  {
    OffsetAttack(g, allyColor, row, col, KnightMoves, Knight)
  }

  predicate KingAttack(g: Grid, allyColor: Color, row: int, col: int)
    requires IsGrid(g)
  {
    OffsetAttack(g, allyColor, row, col, AllDirections, King)
  }

  /** Game.IsCellAttackedByPawn: the two cells diagonally in front of the
      defender (the row above for White, below for Black). */
  predicate PawnAttack(g: Grid, allyColor: Color, row: int, col: int)
    requires IsGrid(g)
  {
    var moveRow := if allyColor == White then row + 1 else row - 1;
    EnemyOfKindAt(g, allyColor, moveRow, col + 1, {Pawn}) || EnemyOfKindAt(g, allyColor, moveRow, col - 1, {Pawn})
  }

  /** Game.IsCellAttacked. */
  predicate IsCellAttacked(g: Grid, allyColor: Color, row: int, col: int)
    requires IsGrid(g)
  {
    || OrthogonalAttack(g, allyColor, row, col)
    || DiagonalAttack(g, allyColor, row, col)
    || KingAttack(g, allyColor, row, col)
    || KnightAttack(g, allyColor, row, col)
    || PawnAttack(g, allyColor, row, col)
  }

  // ----- Rays stop at their first occupied cell -----

  predicate IsCellEmpty(g: Grid, cell: (int, int))
    requires IsGrid(g)
  {
    IsValidPosition(cell.0, cell.1) && g[cell.0][cell.1].None?
  }

  /** Steps 1 .. k-1 of the ray are on the board and empty. */
  ghost predicate ClearRay(g: Grid, row: int, col: int, d: (int, int), k: int)
    requires IsGrid(g)
  {
    forall i :: 1 <= i < k ==> IsCellEmpty(g, RayCell(row, col, d, i))
  }

  /** One step along d, then i more, is i+1 steps. */
  lemma RayCellShift(row: int, col: int, d: (int, int), i: int)
    requires IsUnitStep(d)
    ensures RayCell(row + d.0, col + d.1, d, i) == RayCell(row, col, d, i + 1)
  {
  }

  /** The blocker is at distance k exactly when the k-1 cells before it are on
      the board and empty and the k-th is occupied. */
  lemma {:induction false} BlockerDistanceIsFirstOccupied(g: Grid, row: int, col: int, d: (int, int), k: int)
    requires IsGrid(g) && IsUnitStep(d) && k >= 1
    ensures BlockerDistance(g, row, col, d) == Some(k) <==>
              ClearRay(g, row, col, d, k) && IsCellOccupied(g, RayCell(row, col, d, k).0, RayCell(row, col, d, k).1)
    decreases k
  {
    var nr, nc := row + d.0, col + d.1;
    RayCellShift(row, col, d, 0);
    if k > 1 {
      RayCellShift(row, col, d, k - 1);
      if IsCellEmpty(g, (nr, nc)) {
        BlockerDistanceIsFirstOccupied(g, nr, nc, d, k - 1);
        assert BlockerDistance(g, row, col, d) == Some(k) <==> BlockerDistance(g, nr, nc, d) == Some(k - 1);
        ClearRayShift(g, row, col, d, k);
      } else {
        assert !IsCellEmpty(g, RayCell(row, col, d, 1));
        assert BlockerDistance(g, row, col, d) != Some(k);
      }
    }
  }

  /** Past an empty first cell, the ray is clear for k steps exactly when
      the ray from that cell is clear for k-1. */
  lemma ClearRayShift(g: Grid, row: int, col: int, d: (int, int), k: int)
    requires IsGrid(g) && IsUnitStep(d) && k > 1 && IsCellEmpty(g, (row + d.0, col + d.1))
    ensures ClearRay(g, row, col, d, k) <==> ClearRay(g, row + d.0, col + d.1, d, k - 1)
  {
    var nr, nc := row + d.0, col + d.1;
    RayCellShift(row, col, d, 0);
    if ClearRay(g, nr, nc, d, k - 1) {
      forall i | 1 <= i < k ensures IsCellEmpty(g, RayCell(row, col, d, i)) {
        if i > 1 { RayCellShift(row, col, d, i - 1); }
      }
    }
    if ClearRay(g, row, col, d, k) {
      forall i | 1 <= i < k - 1 ensures IsCellEmpty(g, RayCell(nr, nc, d, i)) {
        RayCellShift(row, col, d, i);
        assert IsCellEmpty(g, RayCell(row, col, d, i + 1));
      }
    }
  }

  /** A piece that stands behind another one on a ray (of either colour) never
      decides that ray: once cell j of the ray is occupied, the blocker is at
      distance at most j. */
  lemma RayStopsAtFirstOccupied(g: Grid, row: int, col: int, d: (int, int), j: int)
    requires IsGrid(g) && IsUnitStep(d) && j >= 1
    requires forall i :: 1 <= i <= j ==> IsValidPosition(RayCell(row, col, d, i).0, RayCell(row, col, d, i).1)
    requires IsCellOccupied(g, RayCell(row, col, d, j).0, RayCell(row, col, d, j).1)
    ensures BlockerDistance(g, row, col, d).Some? && BlockerDistance(g, row, col, d).value <= j
  {
    // the first occupied cell among 1 .. j
    var k := 1;
    while !IsCellOccupied(g, RayCell(row, col, d, k).0, RayCell(row, col, d, k).1)
      invariant 1 <= k <= j
      invariant ClearRay(g, row, col, d, k)
      decreases j - k
    {
      k := k + 1;
    }
    BlockerDistanceIsFirstOccupied(g, row, col, d, k);
  }

  /** g and h agree on this cell, if it is on the board. */
  predicate SameAt(g: Grid, h: Grid, cell: (int, int))
    requires IsGrid(g) && IsGrid(h)
  {
    IsValidPosition(cell.0, cell.1) ==> g[cell.0][cell.1] == h[cell.0][cell.1]
  }

  /** Whether a ray attack holds depends only on the cells up to and including
      the first blocker: anything behind it can change without effect. */
  lemma RayAttackIgnoresCellsBehindBlocker(g: Grid, h: Grid, allyColor: Color, row: int, col: int,
                                           d: (int, int), kinds: set<Kind>, j: int)
    requires IsGrid(g) && IsGrid(h) && IsUnitStep(d)
    requires BlockerDistance(g, row, col, d) == Some(j)
    requires forall i :: 1 <= i <= j ==> SameAt(g, h, RayCell(row, col, d, i))
    ensures BlockerDistance(h, row, col, d) == Some(j)
    ensures RayAttack(h, allyColor, row, col, d, kinds) == RayAttack(g, allyColor, row, col, d, kinds)
  {
    BlockerDistanceIsFirstOccupied(g, row, col, d, j);
    assert ClearRay(h, row, col, d, j) by {
      forall i | 1 <= i < j ensures IsCellEmpty(h, RayCell(row, col, d, i)) {
        assert IsCellEmpty(g, RayCell(row, col, d, i));
      }
    }
    BlockerDistanceIsFirstOccupied(h, row, col, d, j);
  }

  /** Walking one empty cell further along a ray does not change what the ray
      meets. */
  lemma RayAttackStep(g: Grid, allyColor: Color, row: int, col: int, d: (int, int), kinds: set<Kind>)
    requires IsGrid(g) && IsUnitStep(d) && IsCellEmpty(g, (row + d.0, col + d.1))
    ensures RayAttack(g, allyColor, row + d.0, col + d.1, d, kinds) == RayAttack(g, allyColor, row, col, d, kinds)
  {
    match BlockerDistance(g, row + d.0, col + d.1, d)
    case None =>
    case Some(k) => RayCellShift(row, col, d, k);
  }

  /** A ray whose next cell is occupied is decided by that cell. */
  lemma RayAttackAtBlocker(g: Grid, allyColor: Color, row: int, col: int, d: (int, int), kinds: set<Kind>)
    requires IsGrid(g) && IsUnitStep(d) && IsCellOccupied(g, row + d.0, col + d.1)
    ensures RayAttack(g, allyColor, row, col, d, kinds) ==
              (g[row + d.0][col + d.1].value.color != allyColor && g[row + d.0][col + d.1].value.kind in kinds)
  {
    RayCellShift(row, col, d, 0);
  }

  /** A ray that leaves the board at once meets nothing. */
  lemma RayAttackOffBoard(g: Grid, allyColor: Color, row: int, col: int, d: (int, int), kinds: set<Kind>)
    requires IsGrid(g) && IsUnitStep(d) && !IsValidPosition(row + d.0, col + d.1)
    ensures !RayAttack(g, allyColor, row, col, d, kinds)
  {
  }
}
