/** Pieces of a chess game: colours, piece types and the per-piece en-passant flags. */
module Pieces {

  datatype Option<T> = None | Some(value: T)

  datatype Color = White | Black

  datatype Kind = Pawn | Knight | Bishop | Rook | Queen | King

  /** A piece value. The two flags say that this pawn may capture en passant
      towards the next column ("up") or the previous column ("down"). */
  datatype Piece = Piece(kind: Kind, color: Color, canEnPassantUp: bool, canEnPassantDown: bool)

  /** A freshly set-up piece: no en-passant flag is set. */
  function NewPiece(kind: Kind, color: Color): (p: Piece)
    ensures p.kind == kind && p.color == color
    ensures !p.canEnPassantUp && !p.canEnPassantDown
  {
    Piece(kind, color, false, false)
  }

  /** The other colour. */
  function Opponent(c: Color): (o: Color)
    ensures o != c
  {
    if c == White then Black else White
  }

  /** What the board signature can see of a cell: type and colour, no flags. */
  function Identity(cell: Option<Piece>): (r: Option<(Kind, Color)>)
  {
    match cell
    case None => None
    case Some(p) => Some((p.kind, p.color))
  }
}
