# Chess game state machine

A model of the `Game` class of a chess rules engine (`Chess_Logic/Game.cs`).
A `Game` object holds several pieces of state:

- an 8x8 board of optional pieces;
- whose turn it is;
- the game state and its end reason;
- the stored squares of both kings;
- a moved-pieces table keyed by colour, piece type and origin column;
- a flag saying whether the fifty-move draw may be claimed;
- a list of board signatures used to count repetitions.

The model has two layers.

**Value layer.** These modules define what the game does, as pure functions over values:

- `Pieces` defines pieces and colours.
- `Board` defines the board as a value and the occupancy predicates.
- `Attacks` defines the attack detector: orthogonal and diagonal rays, knight and king offsets, and pawn captures. `AttackGeometry` gives an independent geometric definition of "some enemy piece attacks this cell" and proves the two agree.
- `BoardSignature` defines the 64-character board signature, the material test and the repetition test.
- `Rules` defines the initial game and the castling-rights latch. It also defines the effect of a move on board, king squares and table (`PositionAfterMove`), the conclusion of a move (`Conclude`, `Judge`), the whole move (`MoveSpec`), the simulated move and the fifty-move claim.
- `MoveFacts` and `OutcomeFacts` state and prove what a move does. Its board changes are confined to a known set of cells; castling relocates the rook; en passant flags the neighbours and removes the victim. The history is reset and recorded, the fifty-move flag follows the history length, and every end reason is announced exactly in its own case. Castling rights are never regained.

**Imperative layer.** `ChessGame.Game` is a class with the source's fields:

- the board is an `array2`, written cell by cell as the source does;
- every state-changing method has a `modifies` frame;
- a ghost field `cells` mirrors the array.

Each method is proved against the value layer:

- query methods return exactly the value-level predicate;
- state-changing methods leave `Value()` equal to the value-level function of the old state. For example, `MovePiece` ends with `(Value(), r.value) == MoveSpec(old(Value()), ...)`.

The events the source raises (`GameStateChanged`, `CanClaim50MovesRuleChanged`, `KingInCheckStateChanged`) are returned as a `Notifications` value. Per-piece move generation is a parameter, `MoveOracle`, applied to a `Position`. A `Position` is what `CloneGame` copies: board, turn, king squares and moved-pieces table.

### Behaviour kept as the code has it

Three behaviours are kept exactly as the code has them, although the rules of chess would suggest otherwise:

- **Insufficient material.** The test groups every character of the signature, blanks included. Without a pawn, the 64 characters of a signature come from only eleven symbols (the blank and five type letters in two cases), so one of them always repeats. The test therefore reports sufficient material on every board. `AlwaysSufficient` proves this, and `MoveNeverDrawsForInsufficientMaterial` proves that no move ever declares the insufficient-material draw. The branch of `Game.MovePiece` that declares it can never be taken; the model keeps it as written.
- **En-passant flags.** Only the moving pawn's flags are cleared, not those of the other pawns. `MoveChangesOnlyTouchedCells` proves that every cell outside the touched cells keeps its piece, flags included; the double-step neighbours count as touched only when they hold an enemy pawn.
- **Castling rights.** The moved-pieces latch is keyed by the origin column alone, not by the origin square.
- **Castling geometry.** The rook relocation fires for any king moving two columns, from whatever column it starts: the piece on column 7 goes to column 5, or the piece on column 0 to column 3. `CastlingMovesRook` states this for every starting column; `StandardCastling` is the case of a king on column 4.

## Model

| member | source | states |
|---|---|---|
| ChessGame.Game.constructor | Chess_Logic/Game.cs:19-37 | The new game is the standard layout, White to move, Playing/StillNotOver, no fifty-move claim, one recorded signature |
| ChessGame.Game.SetUpBoard | Chess_Logic/Game.cs:30-36 | The four set-up calls over an empty board produce the initial game, including its recorded signature |
| ChessGame.Game.SetUpPieces | Chess_Logic/Game.cs:454-464 | The row becomes rook, knight, bishop, queen, king, bishop, knight, rook of the colour; no other row changes |
| ChessGame.Game.SetUpPawns | Chess_Logic/Game.cs:466-472 | The row becomes eight fresh pawns of the colour; no other row changes |
| ChessGame.Game.Put | Chess_Logic/Game.cs:137-138 | A cell write changes that cell and no other |
| ChessGame.EmptyBoard | Chess_Logic/Game.cs:25 | A new 8x8 board with every cell empty |
| Rules.InitialMoved | Chess_Logic/Game.cs:474-482 | The moved-pieces table has exactly the six tracked keys (both kings, four rooks), all false |
| Rules.InitialGameFacts | Chess_Logic/Game.cs:19-37 | Initial game: valid position, kings on their stored squares, no castling right lost, not over, one recorded position |
| Rules.InitialSignature | Chess_Logic/Game.cs:36 | The first recorded signature is White's pieces in lower case, 32 blanks, Black's in upper case |
| Rules.InitialGridLayout | Chess_Logic/Game.cs:30-33 | The four row set-ups over an empty board give the standard layout |
| Rules.InitialGameIs | Chess_Logic/Game.cs:19-37 | The constructor's field values assemble to the initial game |
| ChessGame.Game.GetLegalMoves | Chess_Logic/Game.cs:39-45 | An error for an empty or off-board cell, otherwise the move generator's answer on the current position |
| Rules.GetLegalMoves | Chess_Logic/Game.cs:39-45 | Err exactly when the cell is not occupied (error NoPieceAtPosition), otherwise the oracle's list |
| ChessGame.Game.ChangeTurn | Chess_Logic/Game.cs:47-53 | The turn passes to the other colour; nothing else changes |
| Pieces.Opponent | Chess_Logic/Game.cs:140 | The opponent of a colour is the other colour |
| Pieces.NewPiece | Chess_Logic/Game.cs:456 | A new piece has the given type and colour and no en-passant flag |
| ChessGame.Game.IsKingInCheck | Chess_Logic/Game.cs:55-60 | The attack detector applied to the stored king square of the colour |
| ChessGame.Game.IsCellOccupied | Chess_Logic/Game.cs:62-68 | False off the board, otherwise whether the cell holds a piece |
| Board.IsCellOccupied | Chess_Logic/Game.cs:62-68 | An off-board cell is never occupied; an occupied cell holds a piece |
| ChessGame.Game.IsCellOccupiedByEnemy | Chess_Logic/Game.cs:290-293 | Occupied by a piece of the other colour |
| ChessGame.Game.IsCellOccupiedByAlly | Chess_Logic/Game.cs:295-298 | Occupied by a piece of the same colour |
| Board.IsCellOccupiedByEnemy | Chess_Logic/Game.cs:290-293 | An enemy cell is on the board and holds a piece of the other colour |
| Board.IsCellOccupiedByAlly | Chess_Logic/Game.cs:295-298 | An ally cell is on the board and holds a piece of the same colour |
| Board.OccupancyPartition | Chess_Logic/Game.cs:285-298 | Occupied iff enemy or ally, never both, and enemy of one colour iff ally of the other |
| Board.With | Chess_Logic/Game.cs:137-138 | A board write sets one cell and leaves the other 63 unchanged |
| Board.EmptyGrid | Chess_Logic/Game.cs:25 | The empty board has every cell empty |
| Board.IsValidPosition | Chess_Logic/Game.cs:285-288 | Definition: rows and columns 0 to 7; every occupancy predicate is false outside it (Board.IsCellOccupied) |
| Attacks.IsCellAttacked | Chess_Logic/Game.cs:70-77 | Definition: the disjunction of the five detectors in source order; AttackGeometry.IsCellAttackedIffGeometry gives its meaning |
| Attacks.RayAttack | Chess_Logic/Game.cs:318-331 | Definition: the first piece along a ray is an enemy of the given kinds; BlockerDistanceIsFirstOccupied and RayAttackWitness give its meaning |
| Attacks.OrthogonalAttack | Chess_Logic/Game.cs:311-335 | Definition: a rook or queen hit along one of the four orthogonal rays; OrthogonalAttackIsRookLine and RookLineIsOrthogonalAttack give its meaning |
| Attacks.DiagonalAttack | Chess_Logic/Game.cs:337-361 | Definition: a bishop or queen hit along one of the four diagonal rays; DiagonalAttackIsBishopLine and BishopLineIsDiagonalAttack give its meaning |
| Attacks.KnightAttack | Chess_Logic/Game.cs:412-424 | Definition: an enemy knight at one of the eight jumps; KnightAttackIsJump and JumpIsKnightAttack give its meaning |
| Attacks.KingAttack | Chess_Logic/Game.cs:426-438 | Definition: an enemy king at one of the eight steps; KingAttackIsStep and StepIsKingAttack give its meaning |
| Attacks.PawnAttack | Chess_Logic/Game.cs:440-446 | Definition: an enemy pawn diagonally ahead of the defender; PawnAttackIsCapture and CaptureIsPawnAttack give its meaning |
| Rules.Latch | Chess_Logic/Game.cs:86-89 | Definition: the entry keyed by the mover's colour, type and origin column is set if present; LatchIsOneWay gives its meaning |
| Rules.KingsAfterMove | Chess_Logic/Game.cs:104-107 | Definition: a king move stores its destination for its colour; KingSquareTracked gives its meaning |
| Rules.EnPassantCaptureApplies | Chess_Logic/Game.cs:120-122 | Definition: a flagged pawn moving one column sideways onto an empty cell; EnPassantCaptureEmptiesVictim gives its effect |
| Rules.VictimRow | Chess_Logic/Game.cs:124 | Definition: the row just behind the landing cell for the mover's colour |
| Rules.IsIrreversible | Chess_Logic/Game.cs:128-129 | Definition: a pawn move or a move onto an occupied cell; MoveHistory and IrreversibleMoveRestartsHistory give its effect |
| Rules.Conclude | Chess_Logic/Game.cs:140-196 | Definition: mate or stalemate when the opponent cannot move, otherwise record and judge; ConcludeBookkeeping and ConcludeOutcome give its meaning |
| Rules.RecordAndJudge | Chess_Logic/Game.cs:167-196 | Definition: the signature appended to the history, then Judge |
| Rules.Judge | Chess_Logic/Game.cs:169-196 | Definition: insufficient material, then the fifty-move flag, then repetition, otherwise the turn passes; ConcludeOutcome gives its meaning |
| Rules.HasLegalMoves | Chess_Logic/Game.cs:263-283 | Definition: the piece on the stored king square or some own piece has a legal move; ChessGame.Game.DoesPlayerHaveLegalMoves is proved equal to it |
| Rules.IsKingInCheck | Chess_Logic/Game.cs:55-60 | Definition: the attack detector on the stored king square; with KingsStayOnSquares that square holds the king |
| Rules.HasKingOrUpRookMoved | Chess_Logic/Game.cs:253-256 | Definition: the king or the column-7 rook of the colour has moved; CastlingRightsNeverReturn and MovingKingOrRookLosesCastling give its meaning |
| Rules.HasKingOrDownRookMoved | Chess_Logic/Game.cs:258-261 | Definition: the king or the column-0 rook of the colour has moved; CastlingRightsNeverReturn and MovingKingOrRookLosesCastling give its meaning |
| Rules.InitialGame | Chess_Logic/Game.cs:19-37 | Definition: the new game; InitialGameFacts and InitialSignature give its meaning |
| Rules.InitialGrid | Chess_Logic/Game.cs:30-33 | The standard layout is a board; InitialGridLayout ties it to the four set-up calls |
| BoardSignature.CellChar | Chess_Logic/Game.cs:371-405 | Definition: blank, or the type letter, upper case for Black; CellCharMeaning and CellCharIsIdentity give its meaning |
| BoardSignature.IsThereSufficientMaterial | Chess_Logic/Game.cs:448-452 | Definition: a pawn letter in either case, or a non-pawn character (blank included) occurring twice; AlwaysSufficient shows it holds on every board; TwoEmptyCellsMeanSufficientMaterial and PawnMeansSufficientMaterial give two simpler sufficient conditions |
| BoardSignature.IsDrawByRepetition | Chess_Logic/Game.cs:184-186 | Definition: at least six recorded positions and one of them occurring three times; NewRepetitionIsOfLatest and RepetitionIsOfNewPosition give its meaning |
| ChessGame.Game.IsCellAttacked | Chess_Logic/Game.cs:70-77 | The five detectors in order, equal to the attack predicate |
| AttackGeometry.IsCellAttackedIffGeometry | Chess_Logic/Game.cs:70-77 | The detector fires iff some enemy piece attacks the cell by its own geometry (rook/queen line, bishop/queen diagonal with nothing between, knight jump, king step, pawn capture) |
| AttackGeometry.DetectedAttackIsGeometric | Chess_Logic/Game.cs:70-77 | Each firing detector names a geometric attacker |
| AttackGeometry.GeometricAttackIsDetected | Chess_Logic/Game.cs:70-77 | Every geometric attacker makes some detector fire |
| AttackGeometry.OrthogonalAttackIsRookLine | Chess_Logic/Game.cs:311-335 | A vertical hit is an enemy rook or queen on the same row or column with every cell between empty |
| AttackGeometry.RookLineIsOrthogonalAttack | Chess_Logic/Game.cs:311-335 | Conversely, such a rook or queen is found by the vertical scan |
| AttackGeometry.DiagonalAttackIsBishopLine | Chess_Logic/Game.cs:337-361 | A diagonal hit is an enemy bishop or queen on a diagonal with every cell between empty |
| AttackGeometry.BishopLineIsDiagonalAttack | Chess_Logic/Game.cs:337-361 | Conversely, such a bishop or queen is found by the diagonal scan |
| AttackGeometry.KnightAttackIsJump | Chess_Logic/Game.cs:412-424 | A knight hit is an enemy knight a (1,2) or (2,1) jump away |
| AttackGeometry.JumpIsKnightAttack | Chess_Logic/Game.cs:412-424 | Conversely, such a knight is found |
| AttackGeometry.KingAttackIsStep | Chess_Logic/Game.cs:426-438 | A king hit is an enemy king one step away in any direction |
| AttackGeometry.StepIsKingAttack | Chess_Logic/Game.cs:426-438 | Conversely, such a king is found |
| AttackGeometry.PawnAttackIsCapture | Chess_Logic/Game.cs:440-446 | A pawn hit is an enemy pawn one row ahead of the defender and one column aside |
| AttackGeometry.CaptureIsPawnAttack | Chess_Logic/Game.cs:440-446 | Conversely, such a pawn is found |
| AttackGeometry.RayAttackWitness | Chess_Logic/Game.cs:318-327 | A ray hit names the attacker, its direction and distance, and the empty cells between |
| AttackGeometry.RayAttackFromClearLine | Chess_Logic/Game.cs:318-327 | An enemy on a clear line is hit by the ray in its direction |
| ChessGame.Game.IsCellAttackedVertically | Chess_Logic/Game.cs:311-335 | The four orthogonal rays, for a rook or queen |
| ChessGame.Game.IsCellAttackedHorizontally | Chess_Logic/Game.cs:337-361 | The four diagonal rays, for a bishop or queen |
| ChessGame.Game.SliderScan | Chess_Logic/Game.cs:313-334 | The rays in order, true iff some ray hits |
| ChessGame.Game.RayScan | Chess_Logic/Game.cs:315-331 | The walk along one ray until it leaves the board or meets a piece, true iff that piece is an enemy of the kinds |
| Attacks.BlockerDistanceIsFirstOccupied | Chess_Logic/Game.cs:318-327 | The walk stops at distance k iff cell k is occupied and every cell before it is empty |
| Attacks.ClearRayShift | Chess_Logic/Game.cs:329-330 | Advancing one step keeps a ray clear up to one step less |
| Attacks.RayStopsAtFirstOccupied | Chess_Logic/Game.cs:318-327 | A ray with an occupied cell at step j stops no later than j |
| Attacks.RayAttackIgnoresCellsBehindBlocker | Chess_Logic/Game.cs:320-326 | Cells beyond the first piece on a ray do not change the ray's answer |
| Attacks.RayAttackStep | Chess_Logic/Game.cs:329-330 | Past an empty cell the ray's answer is the answer from the next cell |
| Attacks.RayAttackAtBlocker | Chess_Logic/Game.cs:320-326 | At the first piece the answer is whether it is an enemy of the kinds |
| Attacks.RayAttackOffBoard | Chess_Logic/Game.cs:318 | A ray leaving the board finds nothing |
| Attacks.RayCellShift | Chess_Logic/Game.cs:329-330 | Ray cells from the next cell are the same cells one step further |
| Attacks.BlockerDistance | Chess_Logic/Game.cs:318-327 | A blocker, if any, is at least one step away |
| ChessGame.Game.OffsetScan | Chess_Logic/Game.cs:414-423 | The offsets in order, true iff one holds an enemy of the kind |
| ChessGame.Game.IsCellAttackedByKnight | Chess_Logic/Game.cs:412-424 | Equal to the knight predicate |
| ChessGame.Game.IsCellAttackedByKing | Chess_Logic/Game.cs:426-438 | Equal to the king predicate |
| ChessGame.Game.IsCellAttackedByPawn | Chess_Logic/Game.cs:440-446 | Equal to the pawn predicate |
| ChessGame.Game.StringifyBoard | Chess_Logic/Game.cs:363-410 | Row by row, one character per cell, equal to the signature |
| BoardSignature.Signature | Chess_Logic/Game.cs:363-410 | The signature has 64 characters |
| BoardSignature.SignatureOfRows | Chess_Logic/Game.cs:367-407 | n rows give 8n characters |
| BoardSignature.SignatureOfRowsAt | Chess_Logic/Game.cs:367-407 | Character 8i+j of the first n rows is the character of cell (i, j) |
| BoardSignature.SignatureAt | Chess_Logic/Game.cs:367-407 | Character 8i+j of the signature is the character of cell (i, j) |
| BoardSignature.CellCharMeaning | Chess_Logic/Game.cs:371-405 | Blank iff empty, lower case iff White, upper case iff Black, and the lower-cased letter names the type |
| BoardSignature.CellCharIsIdentity | Chess_Logic/Game.cs:371-405 | Two cells have the same character iff they hold the same type and colour (or are both empty) |
| BoardSignature.SignatureDeterminesPieces | Chess_Logic/Game.cs:363-410 | Two boards have equal signatures iff every cell holds the same type and colour; en-passant flags are not recorded |
| BoardSignature.OccurrencesAppend | Chess_Logic/Game.cs:167 | Appending an element adds one occurrence of it and none of anything else |
| BoardSignature.OccurrencesOfTwo | Chess_Logic/Game.cs:451 | Two distinct positions holding x mean x occurs at least twice |
| BoardSignature.OccurrencesOfOne | Chess_Logic/Game.cs:451 | A position holding x means x occurs at least once |
| ChessGame.Game.IsThereSufficientMaterial | Chess_Logic/Game.cs:448-452 | The material test applied to the signature of the board |
| BoardSignature.TwoEmptyCellsMeanSufficientMaterial | Chess_Logic/Game.cs:448-452 | Two empty cells make the blank a repeated non-pawn character, so material counts as sufficient |
| BoardSignature.PawnMeansSufficientMaterial | Chess_Logic/Game.cs:448-452 | A pawn of either colour makes material sufficient |
| BoardSignature.AlwaysSufficient | Chess_Logic/Game.cs:448-452 | The material test holds on every board: without a pawn, some non-pawn character repeats among the 64 |
| BoardSignature.NewRepetitionIsOfLatest | Chess_Logic/Game.cs:184-186 | If a history has no threefold repetition but the history with x appended has one, then x occurs three times |
| ChessGame.Game.MovePiece | Chess_Logic/Game.cs:79-197 | NoPieceAtPosition and no change for an empty origin; otherwise the new game and its notifications are MoveSpec of the old game |
| Rules.MoveSpec | Chess_Logic/Game.cs:79-197 | A move keeps the position valid |
| ChessGame.Game.MakeMove | Chess_Logic/Game.cs:84-138 | The new position is PositionAfterMove of the old one; the history is emptied by a pawn move or a capture, kept otherwise; the mover's colour is returned |
| Rules.PositionAfterMoveFromParts | Chess_Logic/Game.cs:84-138 | The prepared board with the mover placed, the tracked kings and the latched table make up PositionAfterMove; the history reset is read off the prepared board |
| Rules.MoveSpecInTwoParts | Chess_Logic/Game.cs:79-197 | A move is its board part followed by its conclusion from the updated game |
| Rules.ConcludeReadsOnlyOutcome | Chess_Logic/Game.cs:140-196 | The conclusion reads only the state, reason and fifty-move flag of the game it starts from |
| ChessGame.Game.LatchMoved | Chess_Logic/Game.cs:86-89 | The table becomes Latch of the old table |
| Rules.LatchIsOneWay | Chess_Logic/Game.cs:86-89 | Same keys; an entry is set afterwards iff it was set before or the mover's (colour, type, origin column) is its key |
| Rules.TrackedKeysOf | Chess_Logic/Game.cs:253-261 | The three castling keys of a colour are tracked |
| ChessGame.Game.PrepareBoard | Chess_Logic/Game.cs:91-126 | The board becomes BeforePlacing of the old board, the kings KingsAfterMove |
| ChessGame.Game.CastleRookOnBoard | Chess_Logic/Game.cs:91-102 | A king moving two columns moves the rook of that side from column 7 to 5, or from column 0 to 3 |
| ChessGame.Game.TrackKing | Chess_Logic/Game.cs:104-107 | The moving king's square is stored for its colour; the other colour's square is kept |
| Rules.CastleRook | Chess_Logic/Game.cs:91-102 | The relocated board is a board |
| ChessGame.Game.MarkEnPassantTargets | Chess_Logic/Game.cs:109-119 | The board becomes SetEnPassantFlags of the old board |
| Rules.SetEnPassantFlags | Chess_Logic/Game.cs:109-119 | The flagged board is a board |
| ChessGame.Game.CaptureEnPassant | Chess_Logic/Game.cs:120-126 | When the en-passant condition holds, the cell behind the landing cell is emptied; otherwise nothing changes |
| ChessGame.Game.PlaceMover | Chess_Logic/Game.cs:128-138 | History cleared by a pawn move or a move onto an occupied cell; origin emptied; destination holds the promoted mover with flags cleared |
| Rules.MovedPiece | Chess_Logic/Game.cs:131-136 | The landed piece keeps its colour, becomes a queen iff it is a pawn on the far rank, and has no en-passant flag |
| Rules.BeforePlacing | Chess_Logic/Game.cs:91-126 | The prepared board is a board |
| Rules.BoardAfterMove | Chess_Logic/Game.cs:84-138 | The board after a move is a board |
| Rules.PositionAfterMove | Chess_Logic/Game.cs:84-138 | The position after a move is valid (kings on the board, the six tracked keys) |
| MoveFacts.MoveChangesOnlyTouchedCells | Chess_Logic/Game.cs:91-138 | A move changes no cell other than origin, destination, the castling rook cells, the double-step neighbours holding an enemy pawn and the en-passant victim |
| MoveFacts.TouchedCells | Chess_Logic/Game.cs:91-138 | Definition: the cells a move may write, as listed for MoveChangesOnlyTouchedCells |
| MoveFacts.CastleRookFrame | Chess_Logic/Game.cs:91-102 | The rook relocation changes no other cell |
| MoveFacts.EnPassantFlagsFrame | Chess_Logic/Game.cs:109-119 | Flagging changes no cell other than the two neighbours |
| MoveFacts.MoverLands | Chess_Logic/Game.cs:131-138 | The destination holds the mover (queen if promoted), flags cleared; the origin is empty when different |
| MoveFacts.CastlingMovesRook | Chess_Logic/Game.cs:91-102 | A king moving two columns from any column empties its origin and lands; moving right, column 7's piece goes to column 5 and column 7 is emptied, moving left, column 0's piece goes to column 3 and column 0 is emptied, except where those cells are the king's own origin or destination |
| MoveFacts.StandardCastling | Chess_Logic/Game.cs:91-102 | A king on column 4 moving to column 6 or 2 empties column 4, lands, and brings rook 7 to 5 or rook 0 to 3 |
| MoveFacts.DoubleStepFlagsNeighbours | Chess_Logic/Game.cs:109-119 | After a double step an enemy pawn on the previous column gets the Down flag and one on the next column the Up flag; a neighbour that is not an enemy pawn (empty, own piece, enemy non-pawn) is left as it was |
| MoveFacts.EnPassantCaptureEmptiesVictim | Chess_Logic/Game.cs:120-126 | An en-passant capture leaves the victim's cell empty |
| MoveFacts.KingSquareTracked | Chess_Logic/Game.cs:104-107 | After a king move the mover's stored king square is the destination, after any other move it is unchanged; the opponent's is unchanged |
| MoveFacts.KingsOnSquares | Chess_Logic/Game.cs:9-10 | Definition: each stored king square holds the king of its colour |
| MoveFacts.KingsStayOnSquares | Chess_Logic/Game.cs:84-138 | If each stored king square holds its king and the move touches neither the opponent's king square nor (for a non-king mover) its own, the stored squares still hold the kings after the move |
| ChessGame.Game.FinishMove | Chess_Logic/Game.cs:140-196 | The state, history, flag and turn become Conclude of the old game |
| ChessGame.Game.DoesPlayerHaveLegalMoves | Chess_Logic/Game.cs:263-283 | The piece on the stored king square, then each own piece in row order: true iff one has a legal move |
| ChessGame.Game.RecordAndJudge | Chess_Logic/Game.cs:167-196 | The signature is appended to the history, then the game is judged |
| ChessGame.Game.Judge | Chess_Logic/Game.cs:169-196 | The game is drawn for insufficient material, or (after the flag update) for threefold repetition; otherwise the turn passes |
| ChessGame.Game.UpdateFiftyMoveFlag | Chess_Logic/Game.cs:178-182 | The flag becomes "at least 99 recorded positions"; the result reports whether it changed |
| OutcomeFacts.ConcludeBookkeeping | Chess_Logic/Game.cs:140-196 | The signature is recorded iff the opponent can reply; the turn passes iff no state change is announced; the flag notification fires iff the flag changes; the check notification names the opponent iff it can reply and is in check |
| OutcomeFacts.ConcludeOutcome | Chess_Logic/Game.cs:140-196 | Each end reason is set exactly in its own case; checkmate is won by the mover, every other end is a draw; a move never sets the fifty-move reason |
| OutcomeFacts.MoveSpecIsConclude | Chess_Logic/Game.cs:79-197 | A move concludes from the moved position with the reset-or-kept history |
| OutcomeFacts.MoveHistory | Chess_Logic/Game.cs:128-129 | History after a move: reset by a pawn move or capture, then extended by the new signature iff the opponent can reply |
| OutcomeFacts.IrreversibleMoveRestartsHistory | Chess_Logic/Game.cs:128-129 | A pawn move or capture that does not end the game leaves exactly one recorded position |
| OutcomeFacts.MoveTurnAndFlag | Chess_Logic/Game.cs:178-196 | The turn passes iff no outcome is announced; the position is otherwise the moved position; the flag is "history length at least 99" once recorded with sufficient material |
| OutcomeFacts.MoveOutcome | Chess_Logic/Game.cs:140-196 | From a game in progress: checkmate iff the opponent cannot move and is in check (won by the mover); stalemate iff it cannot move and is not in check; insufficient material, repetition and continuation likewise exactly in their cases |
| OutcomeFacts.MoveNeverDrawsForInsufficientMaterial | Chess_Logic/Game.cs:169-182 | No move declares the insufficient-material draw: after a move, that reason holds only if it already held before. Whenever the opponent can reply, the fifty-move flag is recomputed from the length of the history |
| OutcomeFacts.RepetitionIsOfNewPosition | Chess_Logic/Game.cs:184-193 | A repetition draw not already present before the move is a threefold repetition of the new position |
| OutcomeFacts.CastlingRightsNeverReturn | Chess_Logic/Game.cs:86-89 | Once HasKingOrUpRookMoved or HasKingOrDownRookMoved holds, it still holds after any move |
| OutcomeFacts.MovingKingOrRookLosesCastling | Chess_Logic/Game.cs:86-89 | A king leaving column 4 loses both rights of its colour; a rook leaving column 7 or 0 loses that side's right |
| ChessGame.Game.ClaimDrawBy50MovesRule | Chess_Logic/Game.cs:199-207 | An error and no change when the flag is not set; otherwise the game becomes Draw/DrawBy50MovesRule |
| Rules.ClaimDraw | Chess_Logic/Game.cs:199-207 | Err(CannotClaim50MovesRule) iff the flag is unset; otherwise only state and reason change |
| ChessGame.Game.SimulatePieceMove | Chess_Logic/Game.cs:209-235 | NoPieceAtPosition and no change for an empty origin; otherwise the position becomes SimulateSpec, the rest of the game is unchanged |
| Rules.SimulateSpec | Chess_Logic/Game.cs:209-235 | A simulated move keeps the position valid |
| Rules.SimulateSpecFromParts | Chess_Logic/Game.cs:209-235 | The board and king squares the method leaves make up SimulateSpec |
| MoveFacts.SimulatedKingSquareTracked | Chess_Logic/Game.cs:216-219 | A simulated king move stores the destination for its colour; other squares are unchanged |
| MoveFacts.SimulationAgreesWithMove | Chess_Logic/Game.cs:209-235 | For a non-pawn without flags, simulation and real move give the same board and king squares |
| ChessGame.Game.GetPieceColor | Chess_Logic/Game.cs:237-243 | An error iff the cell is not occupied; otherwise a colour whose piece occupies the cell |
| ChessGame.Game.HasKingOrUpRookMoved | Chess_Logic/Game.cs:253-256 | The king or the column-7 rook of the colour has moved |
| ChessGame.Game.HasKingOrDownRookMoved | Chess_Logic/Game.cs:258-261 | The king or the column-0 rook of the colour has moved |
| ChessGame.Game.CloneGame | Chess_Logic/Game.cs:300-309 | The clone carries the board, turn, king squares and moved-pieces table of the game |
| ChessGame.GridsEqual | Chess_Logic/Game.cs:303 | Two boards agreeing on every cell are equal |

## Left out

- Events: the three C# events are not raised. Each move returns a `Notifications` value saying which of them would fire and with what argument. Subscribers are outside the model.
- Move generation: per-piece legal-move generation, the en-passant flags and the promotable piece type live in a `Piece` class that is not part of this model (this version of `Chess_Logic/Piece.cs` has neither move generation nor flags, and its type is read-only, while `Game.cs` writes the type and the flags); the model's `Piece` is a value with type, colour and both flags. Pseudo-legal moves, castling gates and the self-check filter are replaced by the `MoveOracle` parameter. The model does not prove that moves are legal; it proves what the game does with them.
- Piece objects: pieces are values, so aliasing is not modelled. The source mutates the shared `Piece` objects of a move (flags, promotion); a `CloneGame` copy shares those objects with the original.
- `CloneGame`: the source constructs a full `new Game()` and overwrites board, table, kings and turn. The clone's state, reason, fifty-move flag and history (those of a new game) are not modelled: the `MoveOracle` abstraction assumes move generation sees only the `Position` (board, turn, king squares, table).
- `GetCellColor` (`Chess_Logic/Game.cs:245-251`): a presentation helper that returns a colour name for a cell; it has no bearing on the game state.
- End reasons: `Resignation`, `OnTime` and `DrawByAgreement` are never set by `Game.cs`, so the model's `GameEndReason` leaves them out.
- ChessGame.Game.MovePiece: requires the destination, and the cell an en-passant capture would empty, to be on the board when the origin is occupied. The source would throw an index exception part-way through its mutations there, leaving a half-applied move. Those partial states are not modelled.
- ChessGame.Game.SimulatePieceMove: requires an on-board destination when the origin is occupied, for the same reason.
- ChessGame.Game.DoesPlayerHaveLegalMoves: the source dereferences the piece on the stored king square without a null check. The model consults the oracle at that square whatever it holds, so the null dereference is not modelled.
- ChessGame.Game.SetUpPieces: the eight cell assignments of the source are written as a loop over `Rules.BackRank`; the cells and their order of assignment are the same.
- Exceptions (`ArgumentException`, `InvalidOperationException`) are modelled as `Err` results or `Some(error)` returns, and the game is left unchanged in those cases.
- Integer widths: the source uses `int` only for coordinates in 0..7 and list counts, so no overflow is modelled.
