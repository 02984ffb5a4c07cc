/** The 8x8 board as a value, the occupancy predicates of the game and the
    direction tables that the attack detector walks. */
module Board {
  import opened Pieces

  /** Cell (row, col) of the board is g[row][col]. */
  type Grid = seq<seq<Option<Piece>>>

  ghost predicate IsGrid(g: Grid)
  {
    |g| == 8 && forall i :: 0 <= i < 8 ==> |g[i]| == 8
  }

  function Abs(x: int): (r: nat) { if x < 0 then -x else x }

  predicate IsValidPosition(row: int, col: int)
  {
    0 <= row < 8 && 0 <= col < 8
  }

  /** Never looks outside the board: an off-board coordinate is simply empty. */
  predicate IsCellOccupied(g: Grid, row: int, col: int)
    requires IsGrid(g)
    ensures !IsValidPosition(row, col) ==> !IsCellOccupied(g, row, col)
    ensures IsCellOccupied(g, row, col) ==> g[row][col].Some?
  {
    IsValidPosition(row, col) && g[row][col].Some?
  }

  predicate IsCellOccupiedByEnemy(g: Grid, allyColor: Color, row: int, col: int)
    requires IsGrid(g)
    ensures IsCellOccupiedByEnemy(g, allyColor, row, col) ==>
              IsCellOccupied(g, row, col) && g[row][col].value.color == Opponent(allyColor)
  {
    IsCellOccupied(g, row, col) && g[row][col].value.color != allyColor
  }

  predicate IsCellOccupiedByAlly(g: Grid, allyColor: Color, row: int, col: int)
    requires IsGrid(g)
    ensures IsCellOccupiedByAlly(g, allyColor, row, col) ==>
              IsCellOccupied(g, row, col) && g[row][col].value.color == allyColor
  {
    IsCellOccupied(g, row, col) && g[row][col].value.color == allyColor
  }

  /** Every occupied cell is exactly one of ally or enemy; an empty or
      off-board cell is neither. */
  lemma OccupancyPartition(g: Grid, allyColor: Color, row: int, col: int)
    requires IsGrid(g)
    ensures IsCellOccupied(g, row, col) <==>
              IsCellOccupiedByEnemy(g, allyColor, row, col) || IsCellOccupiedByAlly(g, allyColor, row, col)
    ensures !(IsCellOccupiedByEnemy(g, allyColor, row, col) && IsCellOccupiedByAlly(g, allyColor, row, col))
    ensures IsCellOccupiedByEnemy(g, allyColor, row, col) <==> IsCellOccupiedByAlly(g, Opponent(allyColor), row, col)
  {
  }

  /** The board with one cell replaced (the C# assignment Board[row, col] = x). */
  function With(g: Grid, row: int, col: int, x: Option<Piece>): (h: Grid)
    requires IsGrid(g) && IsValidPosition(row, col)
    ensures IsGrid(h) && h[row][col] == x
    ensures forall i, j :: 0 <= i < 8 && 0 <= j < 8 && (i, j) != (row, col) ==> h[i][j] == g[i][j]
  {
    g[row := g[row][col := x]]
  }

  /** The board with no piece on it. */
  function EmptyGrid(): (g: Grid)
    ensures IsGrid(g)
    ensures forall i, j :: 0 <= i < 8 && 0 <= j < 8 ==> g[i][j] == None
  {
    seq(8, i => seq(8, j => None))
  }

  // Direction tables. The piece file that declares them is not part of this
  // model; they hold the geometry their names give them.

  /** The four orthogonal unit steps (rook rays). */
  const StraightMoves: seq<(int, int)> := [(1, 0), (-1, 0), (0, 1), (0, -1)]

  /** The four diagonal unit steps (bishop rays). */
  const DiagonalMoves: seq<(int, int)> := [(1, 1), (1, -1), (-1, 1), (-1, -1)]

  /** The eight knight jumps. */
  const KnightMoves: seq<(int, int)> :=
    [(2, 1), (2, -1), (-2, 1), (-2, -1), (1, 2), (1, -2), (-1, 2), (-1, -2)]

  /** The eight neighbouring cells (king steps). */
  const AllDirections: seq<(int, int)> := StraightMoves + DiagonalMoves
}
