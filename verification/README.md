# Chess move generator and board, modelled in Dafny

This project models the move generator of a small Python chess program and
the occupancy board it runs against.

- **The board.** A `Board` maps `(x, y)` squares to pieces. Next to that map
  it keeps each owner's set of pieces. `add_piece`, `remove_piece` and
  `move_piece` change both in place; each starts by asserting its
  precondition.
- **The pieces.** Every piece works out the squares it attacks
  (`capturable`). It then adds the squares it can go to without capturing
  (`reachable`): pawn pushes and king castling squares. Finally it turns
  those squares into `Move` values (`moves`), and a pawn gets four moves for
  each square on its promotion rank.

The files:

- `types.dfy` (`ChessTypes`) holds the shared types:
  - squares, colours, owners and their castling history;
  - piece kinds;
  - the `Piece` class, whose location `x`, `y` is mutable;
  - the `Move` value.
- `board.dfy` (`ChessBoard`) holds the board. `Board` is a class with two
  fields:
  - `pieces: map<Square, Piece>`;
  - `ownerPieces: map<nat, set<Piece>>`.

  Its methods carry the source's asserts as `requires` clauses. They state
  the new maps exactly, and they keep three board invariants:
  - `Valid`: every piece is stored under its own location;
  - `InSync`: the map and the owner sets agree;
  - `OnBoardOnly`: no piece stands off the board.
- `attacks.dfy` (`Attacks`) holds `capturable` for every kind.
  - Knight and king filter fixed offsets through `Leap`.
  - Bishop, rook and queen walk rays. The walk is an imperative loop
    (`WalkRay`, `VectorCapturable`), proved equal to the recursive
    definitions `Ray` and `Rays`.
  - The pawn attacks its two forward diagonals.
- `moves.dfy` (`MoveGen`) holds `reachable`, `can_reach` and `moves`, with
  the king's check rule and the pawn's promotion split.
- `scenarios.dfy` (`Scenarios`) holds concrete positions, each with the
  exact result the generator gives for it.

Modelling choices:

- **Piece kinds.** The Python subclasses (`Knight`, `Bishop`, ...) become a
  `kind` field of one `Piece` class.
- **Owners.** The owner becomes a value `Owner(id, color, castling)`. Two
  owners are the same player exactly when their ids agree. The castling
  history is a non-empty sequence of `(bool, bool)` records, and the current
  rights are its last record.
- **Owner piece sets.** The owner's mutable `pieces` set is kept on the
  board, as `ownerPieces[id]`.
- **`on_board`.** The move generator calls `board.on_board`, but the board
  defines the test as `is_on_board`. Both are read as the same predicate,
  `ChessBoard.IsOnBoard`.
- **`in_check`.** `board.in_check(owner)` is not defined in any modelled
  file. It becomes the boolean parameter `inCheck` of `MoveGen.Moves`.
- **Generators.** Python generators become finite sequences, in the order
  they yield.

## Model

| member | source | states |
|---|---|---|
| ChessTypes.Piece.constructor | piece.py:9-11 | a new piece has the given owner and stands on the given square |
| ChessTypes.Piece.SetLocation | piece.py:17-19 | the location setter moves the piece to the given square |
| ChessTypes.PieceEq | piece.py:43-44 | piece equality: same owner and same location, the kind not compared; what it means on a board is stated by ChessBoard.OccupantIsThePiece and ChessBoard.BoardEqByOwners |
| ChessBoard.IsOnBoard | board.py:9-19 | a square is on the board iff 0 <= x < 8 and 0 <= y < 8 |
| ChessBoard.Board.constructor | board.py:5-7 | a new board holds exactly the given occupancy map and owner sets |
| ChessBoard.Board.PieceAt | board.py:21-23 | the piece stored under the square, or None for any square without one; never fails; ChessBoard.PieceAtOffBoard states it for off-board squares |
| ChessBoard.Board.AddPiece | board.py:25-29 | requires the piece's square to be empty; afterwards that square holds the piece, the owner's set gains it, every other square and every other owner's set is unchanged, and Valid, InSync and OnBoardOnly (for an on-board piece) are preserved |
| ChessBoard.Board.RemovePiece | board.py:37-41 | requires the occupant of the piece's square to equal the piece (same owner and location) and the piece to be in its owner's set; afterwards the square is empty, the piece is out of its owner's set, nothing else changes, and the invariants are preserved |
| ChessBoard.Board.MovePiece | board.py:31-35 | the intended move: requires what removal requires and an empty target (or the same square); afterwards the piece stands on the target, its old square is empty, every other square and every owner set is unchanged, and the invariants are preserved |
| ChessBoard.Relocate | board.py:34 | the relocation step of the move, through the location setter: the piece gets the new square, and a board that does not hold the piece keeps Valid |
| ChessBoard.Board.MovePieceAsWritten | board.py:31-35 | the move as written: the piece keeps its old location and is stored back under it, the owner sets are unchanged and the target square is untouched |
| ChessBoard.OccupantIsThePiece | board.py:37-41 | on a board satisfying Valid and InSync, a piece in its owner's set is the very object on its square, so the equality check in removal amounts to identity |
| ChessBoard.PieceAtOffBoard | board.py:21-23 | on a board without off-board pieces, every off-board square holds no piece |
| ChessBoard.BoardEq | board.py:43-44 | dict equality: the same squares, holding pieces equal by ChessTypes.PieceEq; ChessBoard.BoardEqByOwners states what it reduces to |
| ChessBoard.BoardEqByOwners | board.py:43-44 | on valid boards, board equality holds iff both maps have the same squares and each square holds pieces of the same owner; the kind is not compared |
| ChessBoard.AddThenRemove | board.py:25-41 | adding a piece to an empty square and removing it again restores the occupancy map and every owner's set |
| ChessBoard.MoveThereAndBack | board.py:31-35 | moving a piece to a free square and back restores the map, the owner sets and the piece's location |
| Attacks.Leap | piece.py:57-64 | the filtered offsets yield at most one square per offset, and a square is yielded iff it is an offset's target, on the board, and empty or held by an enemy |
| Attacks.LeapNoDup | piece.py:57-64 | distinct offsets yield distinct squares |
| Attacks.KnightVectorsAre | piece.py:54-55 | the knight's offsets are exactly the (±1, ±2) and (±2, ±1) jumps |
| Attacks.KnightLeapSpec | piece.py:53-64 | a knight attacks at most 8 squares, each once: exactly the on-board squares a knight's jump away that no friend holds |
| Attacks.KingVectorsAre | piece.py:115-116 | the king's offsets are exactly the eight non-zero offsets with both coordinates in -1..1 |
| Attacks.KingLeapSpec | piece.py:113-121 | a king attacks at most 8 squares, each once: exactly the on-board neighbouring squares, its own excluded, that no friend holds |
| Attacks.RayFrom | piece.py:78-88 | the ray from a square onward: empty squares are taken and the walk goes on, the first occupied square is taken iff it holds an enemy and ends the walk, leaving the board ends it; stated by Attacks.RayWalk and computed by Attacks.WalkRay |
| Attacks.Ray | piece.py:76-88 | the ray of a piece along one vector, starting one step away; Attacks.WalkRay is proved to return it |
| Attacks.Rays | piece.py:74-88 | the rays of all vectors, concatenated in vector order; Attacks.RaysMembership and Attacks.RaysSound state it, Attacks.VectorCapturable computes it |
| Attacks.RayWalk | piece.py:74-88 | a ray visits consecutive squares along its vector, all on the board; every square before the last is empty; the last square taken is empty or holds an enemy; the walk ends on an enemy taken, on leaving the board, or before a friend |
| Attacks.RaysMembership | piece.py:74-75 | a square is attacked along a vector list iff it lies on the ray of one of the vectors |
| Attacks.RaysSound | piece.py:74-88 | every square a sliding piece attacks is on the board and empty or held by an enemy |
| Attacks.QueenIsRookAndBishop | piece.py:91-107 | a queen attacks exactly the squares that a rook and a bishop on its square attack together |
| Attacks.WalkRay | piece.py:76-88 | the stepping loop for one vector returns exactly the ray of that vector |
| Attacks.VectorCapturable | piece.py:74-88 | the loop over the vectors returns exactly the concatenation of their rays, in vector order |
| Attacks.PromotionRank | piece.py:155-157 | rank 7 for white, 0 for black |
| Attacks.StartRank | piece.py:159-161 | rank 1 for white, 6 for black |
| Attacks.Direction | piece.py:163-165 | +1 for white, -1 for black |
| Attacks.PawnAttack | piece.py:168-172 | the forward diagonal on one side, taken iff it holds an enemy; no bounds check |
| Attacks.PawnCapturable | piece.py:167-172 | the left then the right forward diagonal; stated by Attacks.PawnCapturableSpec |
| Attacks.PawnCapturableSpec | piece.py:163-172 | a pawn attacks each square at most once, and a square iff it is one file to either side, one rank forward (+1 for white, -1 for black), and held by an enemy |
| Attacks.VectorsOf | piece.py:91-107 | every bishop, rook and queen vector is a single non-zero step |
| Attacks.Capturable | piece.py:21-25 | the attacked squares by kind: knight and king offsets, bishop, rook and queen rays, pawn diagonals; stated by Attacks.CapturableSound and the per-kind lemmas |
| Attacks.CapturableSound | piece.py:21-24 | every attacked square of every kind is on the board and empty or enemy-held; for a pawn this holds on boards without off-board pieces |
| MoveGen.CastlingSquares | piece.py:126-134 | x-2 under flag 0 and x+2 under flag 1 of the current rights, each when both squares on that side are empty; stated by MoveGen.KingCastling |
| MoveGen.KingReachable | piece.py:123-134 | the king's attacks followed by its castling squares; stated by MoveGen.KingReachableSpec |
| MoveGen.PawnPushes | piece.py:177-183 | the single push if empty, then the double push from the start rank if it is empty too; stated by MoveGen.PawnPushSpec |
| MoveGen.PawnReachable | piece.py:174-183 | the pawn's captures followed by its pushes; stated by MoveGen.PawnPushSpec and MoveGen.PawnReachableNoDup |
| MoveGen.Reachable | piece.py:27-31 | reachable is capturable, except for the king and the pawn, which add castling squares and pushes |
| MoveGen.AnyEqual | piece.py:41 | the scan over the squares is true iff the square is among them |
| MoveGen.CanReach | piece.py:39-41 | can_reach holds iff the square is among the reachable squares |
| MoveGen.MovesTo | piece.py:33-37 | one move per reachable square, in order, each from the piece's square, capturing whatever stands on its destination, without promotion |
| MoveGen.MoveTo | piece.py:37 | the move of the piece from its square to a square, capturing what stands there |
| MoveGen.PawnMovesFor | piece.py:189-195 | four promoting moves on the promotion rank, else one plain move; stated by MoveGen.PawnMovesAt |
| MoveGen.PawnMovesTo | piece.py:185-195 | the pawn's moves for each square in order; stated by MoveGen.PawnMovesAt and MoveGen.PawnMovesToSound |
| MoveGen.KingMoves | piece.py:136-146 | the plain moves to the attacked squares in check, else to the reachable squares; stated by MoveGen.KingMovesSpec |
| MoveGen.Moves | piece.py:33-37 | the moves of any piece by kind; stated by MoveGen.MovesSound, MoveGen.KingMovesSpec and MoveGen.PawnMovesAt |
| MoveGen.DestinationsOfMoves | piece.py:33-37 | the destinations of the plain moves are exactly the squares they were made from, in order |
| MoveGen.MovesToDest | piece.py:33-37 | every plain move lands on one of its squares, starts at the piece and does not promote |
| MoveGen.KingCastling | piece.py:123-134 | x-2 is reachable iff current flag 0 holds and x-1 and x-2 are empty; x+2 iff flag 1 holds and x+1 and x+2 are empty; neither is ever an attacked square |
| MoveGen.KingReachableSpec | piece.py:123-134 | the king reaches exactly its attacked squares, plus x-2 when flag 0 holds and x-1, x-2 are empty, plus x+2 when flag 1 holds and x+1, x+2 are empty, and nothing else |
| MoveGen.KingReachableOnBoard | piece.py:123-134 | a king on the board with 2 <= x <= 5 reaches only on-board squares |
| MoveGen.KingMovesSpec | piece.py:136-146 | in check the king's move destinations are exactly its attacked squares, so no castling square; otherwise exactly its reachable squares |
| MoveGen.PawnPushSpec | piece.py:174-183 | the single push is reachable iff its square is empty; the double push iff the single-push square is empty, the pawn is on its start rank (1 white, 6 black) and the double-push square is empty; besides these two pushes only captures are reachable |
| MoveGen.PawnReachableNoDup | piece.py:174-183 | a pawn's reachable squares are pairwise distinct |
| MoveGen.PawnReachableOnBoard | piece.py:174-183 | a pawn on the board, not on its promotion rank, on a board without off-board pieces, reaches only on-board squares |
| MoveGen.PawnMovesAt | piece.py:185-195 | for a reachable square on the promotion rank (7 white, 0 black) a pawn gets exactly four moves, promoting to knight, bishop, rook and queen in that order; for any other reachable square exactly one move without promotion; for other squares none |
| MoveGen.PawnMovesToSound | piece.py:185-195 | every pawn move lands on a reachable square and promotes iff it lands on the promotion rank, always to a promotable kind |
| MoveGen.MovesSound | piece.py:33-37 | every move of every piece starts at its square, lands on a reachable square and captures what stands there; only pawns promote |
| Scenarios.RookInCorner | piece.py:74-99 | a lone rook on (0, 0) attacks exactly (1,0)..(7,0) then (0,1)..(0,7), in that order |
| Scenarios.PawnOnStartRank | piece.py:174-183 | a lone white pawn on (3, 1) reaches exactly (3, 2) and (3, 3) |
| Scenarios.PawnAboutToPromote | piece.py:185-195 | a lone white pawn on (3, 6) gets four non-capturing moves from (3, 6) to (3, 7), promoting to knight, bishop, rook and queen in that order |
| Scenarios.KingMayCastle | piece.py:123-146 | a lone white king on (4, 0) with both flags set can reach (6, 0), but is not offered it when in check |
| Scenarios.MoveAsWrittenStaysPut | board.py:31-35 | moving a lone rook from (0, 0) to (0, 5) with move_piece as written leaves it on (0, 0) and (0, 5) empty |
| Scenarios.MoveRelocates | board.py:31-35 | the intended move puts the rook on (0, 5) and empties (0, 0) |

## Left out

- position.py is not part of this model. It only forwards to a game object that is not shown.
- `Board.__str__`, the pieces' `__str__`/`__repr__` and the abstract `Piece.capturable` that raises are not modelled. They are text output and a placeholder.
- The `Board.pieces` property (the map's values) has no member of its own. The model uses `pieces.Values` directly.
- `board.in_check` is not modelled. Its result is the input `inCheck`.
- `move.py`, `color.py` and the owner class are not part of this model. `Move`, `Color` and `Owner` are plain datatypes with the fields the modelled code uses. A move made without a promotion carries `None`.
- The castling rights are read from the owner value a piece was built with. In the source the owner is a live object whose history the game appends to. No modelled operation changes the rights, so nothing the core computes is lost.
- Owner equality is by id, not by Python object identity or a user-defined `__eq__`.
- Python generators are modelled as sequences, so their laziness is not modelled. Python hashing is not modelled either: set membership is object identity.
- `ChessBoard.Board.constructor`: the `pieces or {}` default and the `dict` type assert are not modelled. The typed map parameter already excludes other values.
- `ChessBoard.Board.constructor`: it also takes the owner sets, because the model keeps them on the board rather than on the owner.
- `ChessBoard.BoardEq` compares two boards. Comparing a board with a non-board is not modelled.
- `Attacks.Ray`, `Attacks.Rays` and `Attacks.WalkRay` require every vector to be a single non-zero step, which makes the walk terminate. Every vector in the source is one, so no source behaviour is lost.
- `ChessBoard.Board.RemovePiece` promises to preserve `InSync` only on a board that also satisfies `Valid`. Without `Valid`, removal keys on the piece's location and may leave a stale entry.
- `ChessBoard.Board.MovePiece` promises to preserve `InSync` only on a board that also satisfies `Valid`, for the same reason.
- `ChessBoard.PieceAtOffBoard` requires a board without off-board pieces. `add_piece` does not bound-check, so a board built through it may hold off-board keys.
- `MoveGen.PawnReachableOnBoard` carries the preconditions named in its row. Pawn pushes and captures are not bound-checked, although the docstring at piece.py:22-24 promises on-board squares.
- `MoveGen.KingReachableOnBoard` requires 2 <= x <= 5. Castling squares are not bound-checked either.
- `Attacks.CapturableSound` requires a board without off-board pieces for a pawn, for the same reason.

## Findings

| source | as written | input that shows it | evidently intended | confidence | as-written member | corrected member |
|---|---|---|---|---|---|---|
| board.py:31-35 | `move_piece` removes the piece, assigns the new square to `piece._location` and adds the piece back. The location is read from `x`, `y` through the `location` property (piece.py:13-19), so the assignment has no effect and the piece is re-added on its old square. | A lone rook on (0, 0) moved to (0, 5): afterwards it is still on (0, 0) and (0, 5) is empty. | The piece is relocated through the `location` setter and stored under the new square, as the docstring says. | not executed | ChessBoard.Board.MovePieceAsWritten | ChessBoard.Board.MovePiece |
