/**
 * Values and objects shared by the board and the move generator:
 * squares, colours, owners with their castling history, piece kinds,
 * the mutable piece object, and the move value.
 */
module ChessTypes {

  datatype Option<T> = None | Some(value: T)

  /** A square is a (file, rank) pair; the board decides which pairs are on it. */
  type Square = (int, int)

  datatype Color = White | Black

  /** One castling record: index 0 allows the lower-file side (x - 2),
      index 1 the higher-file side (x + 2). */
  type CastlingRecord = (bool, bool)

  /** The owner's castling history; the current rights are its last record. */
  type CastlingHistory = h: seq<CastlingRecord> | |h| > 0 witness [(false, false)]

  /** The owner (player) of a piece, identified by `id`; two owners are the
      same player exactly when their ids agree. */
  datatype Owner = Owner(id: nat, color: Color, castling: CastlingHistory)

  /** The rights in force now: the most recently appended record. */
  function CurrentRights(o: Owner): CastlingRecord
  {
    o.castling[|o.castling| - 1]
  }

  datatype Kind = Pawn | Knight | Bishop | Rook | Queen | King

  /** A piece on (or about to be placed on) the board. Its kind and owner never
      change; its location is the mutable pair `x`, `y`. */
  class Piece {
    const kind: Kind
    const owner: Owner
    var x: int
    var y: int

    constructor (kind: Kind, owner: Owner, location: Square)
      ensures this.kind == kind && this.owner == owner
      ensures Location() == location
    {
      this.kind := kind;
      this.owner := owner;
      x, y := location.0, location.1;
    }

    function Location(): Square
      reads this
    {
      (x, y)
    }

    /** The location setter: relocates this piece and nothing else. */
    method SetLocation(location: Square)
      modifies this
      ensures Location() == location
    {
      x, y := location.0, location.1;
    }
  }

  /** Piece equality as the source defines it: same owner and same location;
      the kind is not compared. */
  predicate PieceEq(p: Piece, q: Piece)
    reads p, q
  {
    p.owner.id == q.owner.id && p.Location() == q.Location()
  }

  /** A move value: the moving piece, where it starts, where it lands, the piece
      standing on the landing square (if any) and the promotion kind (if any). */
  datatype Move = Move(piece: Piece, origin: Square, dest: Square,
                       captured: Option<Piece>, promotion: Option<Kind>)
}
