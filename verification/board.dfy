/**
 * The occupancy board: a finite map from squares to pieces, together with each
 * owner's set of pieces, which the board's mutations keep in step with the map.
 */
module ChessBoard {
  import opened ChessTypes

  const Width := 8
  const Height := 8

  /** The squares of the board: every (x, y) with 0 <= x < Width and 0 <= y < Height. */
  const Squares: set<Square> := set x: int, y: int | 0 <= x < Width && 0 <= y < Height :: (x, y)

  /** Membership in Squares. The move generator calls the same test `on_board`. */
  function IsOnBoard(sq: Square): (r: bool)
    ensures r <==> 0 <= sq.0 < Width && 0 <= sq.1 < Height
  {
    assert 0 <= sq.0 < Width && 0 <= sq.1 < Height ==> (sq.0, sq.1) in Squares;
    sq in Squares
  }

  class Board {
    /** The occupancy map. */
    var pieces: map<Square, Piece>
    /** Each owner's piece set, by owner id; an id without an entry owns no piece. */
    var ownerPieces: map<nat, set<Piece>>

    constructor (initial: map<Square, Piece>, owned: map<nat, set<Piece>>)
      ensures pieces == initial && ownerPieces == owned
    {
      pieces := initial;
      ownerPieces := owned;
    }

    /** Every piece is stored under its own location. */
    ghost predicate Valid()
      reads this, pieces.Values
    {
      forall sq :: sq in pieces ==> pieces[sq].Location() == sq
    }

    /** No piece stands off the board. */
    ghost predicate OnBoardOnly()
      reads this
    {
      forall sq :: sq in pieces ==> IsOnBoard(sq)
    }

    /** A piece is on the board exactly when it is in its owner's piece set. */
    ghost predicate InSync()
      reads this
    {
      && (forall sq :: sq in pieces ==> pieces[sq] in PiecesOf(pieces[sq].owner.id))
      && (forall id, q :: id in ownerPieces && q in ownerPieces[id] ==> q.owner.id == id && q in pieces.Values)
    }

    function PiecesOf(id: nat): set<Piece>
      reads this
    {
      if id in ownerPieces then ownerPieces[id] else {}
    }

    /** The piece at `sq`, or None for any square without one (off-board squares included). */
    function PieceAt(sq: Square): Option<Piece>
      reads this
    {
      if sq in pieces then Some(pieces[sq]) else None
    }

    method AddPiece(p: Piece)
      requires PieceAt(p.Location()) == None
      modifies this
      ensures pieces == old(pieces)[p.Location() := p]
      ensures ownerPieces == old(ownerPieces)[p.owner.id := old(PiecesOf(p.owner.id)) + {p}]
      ensures PieceAt(p.Location()) == Some(p) && p in PiecesOf(p.owner.id)
      ensures old(Valid()) ==> Valid()
      ensures old(InSync()) ==> InSync()
      ensures old(OnBoardOnly()) && IsOnBoard(p.Location()) ==> OnBoardOnly()
    {
      pieces := pieces[p.Location() := p];
      ownerPieces := ownerPieces[p.owner.id := PiecesOf(p.owner.id) + {p}];
      forall q | q in old(pieces).Values
        ensures q in pieces.Values
      {
        var k :| k in old(pieces) && old(pieces)[k] == q;
        assert pieces[k] == q;
      }
      if old(InSync()) {
        forall sq | sq in pieces
          ensures pieces[sq] in PiecesOf(pieces[sq].owner.id)
        {
          if sq != p.Location() {
            assert old(pieces)[sq] in old(PiecesOf(pieces[sq].owner.id));
          }
        }
        forall id, q | id in ownerPieces && q in ownerPieces[id]
          ensures q.owner.id == id && q in pieces.Values
        {
          if q != p {
            assert id in old(ownerPieces) && q in old(ownerPieces)[id];
            assert q in old(pieces).Values;
          } else {
            assert pieces[p.Location()] == q;
          }
        }
      }
    }

    /** The occupant is removed from the map and `p` from its owner's set. The
        occupant is checked with piece equality (same owner and location); the
        set removal needs `p` itself in the set. */
    method RemovePiece(p: Piece)
      requires PieceAt(p.Location()).Some? && PieceEq(PieceAt(p.Location()).value, p)
      requires p in PiecesOf(p.owner.id)
      modifies this
      ensures pieces == old(pieces) - {p.Location()}
      ensures ownerPieces == old(ownerPieces)[p.owner.id := old(PiecesOf(p.owner.id)) - {p}]
      ensures PieceAt(p.Location()) == None && p !in PiecesOf(p.owner.id)
      ensures old(Valid()) ==> Valid() && p !in pieces.Values
      ensures old(Valid()) && old(InSync()) ==> InSync()
      ensures old(OnBoardOnly()) ==> OnBoardOnly()
    {
      ghost var wasSynced := Valid() && InSync();
      if wasSynced {
        OccupantIsThePiece(this, p);
      }
      ownerPieces := ownerPieces[p.owner.id := PiecesOf(p.owner.id) - {p}];
      pieces := pieces - {p.Location()};
      if wasSynced {
        forall id, q | id in ownerPieces && q in ownerPieces[id]
          ensures q in pieces.Values
        {
          assert q in old(ownerPieces)[id];
          assert old(InSync());
          assert q in old(pieces).Values;
          var k :| k in old(pieces) && old(pieces)[k] == q;
          assert k != p.Location();
          assert pieces[k] == q;
        }
      }
    }

    /** Moves `p` to `loc`: removal, relocation, re-insertion. */
    method MovePiece(p: Piece, loc: Square)
      requires PieceAt(p.Location()).Some? && PieceEq(PieceAt(p.Location()).value, p)
      requires p in PiecesOf(p.owner.id)
      requires loc == p.Location() || PieceAt(loc) == None
      modifies this, p
      ensures p.Location() == loc
      ensures pieces == (old(pieces) - {old(p.Location())})[loc := p]
      ensures ownerPieces == old(ownerPieces)
      ensures old(Valid()) ==> Valid()
      ensures old(Valid()) && old(InSync()) ==> InSync()
      ensures old(OnBoardOnly()) && IsOnBoard(loc) ==> OnBoardOnly()
    {
      ghost var id, own, sets := p.owner.id, PiecesOf(p.owner.id), ownerPieces;
      RemovePiece(p);
      Relocate(this, p, loc);
      AddPiece(p);
      RemoveReinsert(sets, id, p);
    }

    /** `move_piece` as it stands: the relocation is written to an attribute that
        the location does not read, so the piece is put back on its old square. */
    method MovePieceAsWritten(p: Piece, loc: Square)
      requires PieceAt(p.Location()).Some? && PieceEq(PieceAt(p.Location()).value, p)
      requires p in PiecesOf(p.owner.id)
      modifies this
      ensures p.Location() == old(p.Location())
      ensures pieces == old(pieces)[p.Location() := p]
      ensures ownerPieces == old(ownerPieces)
      ensures loc != p.Location() ==> PieceAt(loc) == old(PieceAt(loc))
    {
      ghost var id, own, sets := p.owner.id, PiecesOf(p.owner.id), ownerPieces;
      ghost var home, occupancy := p.Location(), pieces;
      RemovePiece(p);
      AddPiece(p);
      RemoveReinsert(sets, id, p);
      RemoveThenUpdate(occupancy, home, p);
    }
  }

  /** The relocation step of a move: `p` gets the new square through its
      location setter. It changes only `p`, so it is not a board method; it is
      kept apart from the move so that the frame argument (a board that does
      not hold `p` keeps `Valid`) is made once, here. */
  method Relocate(b: Board, p: Piece, loc: Square)
    modifies p
    ensures p.Location() == loc
    ensures old(b.Valid()) && p !in b.pieces.Values ==> b.Valid()
  {
    p.SetLocation(loc);
  }

  /** Under the board's invariants, a piece in its owner's set is the very piece
      standing on its square, so piece equality there means identity. */
  lemma OccupantIsThePiece(b: Board, p: Piece)
    requires b.Valid() && b.InSync()
    requires p in b.PiecesOf(p.owner.id)
    ensures b.PieceAt(p.Location()) == Some(p)
  {
    var k :| k in b.pieces && b.pieces[k] == p;
  }

  /** Taking an element out of one entry's set and putting it back gives back
      the map. */
  lemma RemoveReinsert<K, T>(m: map<K, set<T>>, k: K, x: T)
    requires k in m && x in m[k]
    ensures m[k := m[k] - {x}][k := m[k] - {x} + {x}] == m
  {
    assert m[k] - {x} + {x} == m[k];
  }

  /** Removing a key and then setting it is the same as setting it. */
  lemma RemoveThenUpdate<K, V>(m: map<K, V>, k: K, v: V)
    ensures (m - {k})[k := v] == m[k := v]
  {
  }

  /** Setting a fresh key and removing it again gives back the map. */
  lemma UpdateThenRemove<K, V>(m: map<K, V>, k: K, v: V)
    requires k !in m
    ensures m[k := v] - {k} == m
  {
  }

  /** Off-board squares hold no piece on a board that only has pieces on it. */
  lemma PieceAtOffBoard(b: Board, sq: Square)
    requires b.OnBoardOnly() && !IsOnBoard(sq)
    ensures b.PieceAt(sq) == None
  {
  }

  /** Board equality: the same occupied squares, holding pieces that are equal
      piece by piece (owner and location; the kind is not compared). */
  predicate BoardEq(a: Board, b: Board)
    reads a, b, a.pieces.Values, b.pieces.Values
  {
    a.pieces.Keys == b.pieces.Keys &&
    forall sq :: sq in a.pieces && sq in b.pieces ==> PieceEq(a.pieces[sq], b.pieces[sq])
  }

  /** On valid boards, equality only compares which squares are occupied and by
      whose pieces. */
  lemma BoardEqByOwners(a: Board, b: Board)
    requires a.Valid() && b.Valid()
    ensures BoardEq(a, b) <==>
              a.pieces.Keys == b.pieces.Keys &&
              forall sq :: sq in a.pieces && sq in b.pieces ==> a.pieces[sq].owner.id == b.pieces[sq].owner.id
  {
  }

  /** Adding a piece and removing it again restores the board and the owner's set. */
  method AddThenRemove(b: Board, p: Piece)
    requires b.PieceAt(p.Location()) == None
    requires p !in b.PiecesOf(p.owner.id)
    modifies b
    ensures b.pieces == old(b.pieces)
    ensures forall id :: b.PiecesOf(id) == old(b.PiecesOf(id))
  {
    ghost var home, occupancy, own := p.Location(), b.pieces, b.PiecesOf(p.owner.id);
    b.AddPiece(p);
    b.RemovePiece(p);
    UpdateThenRemove(occupancy, home, p);
    assert own + {p} - {p} == own;
  }

  /** Moving a piece to an empty square and back restores the board. */
  method MoveThereAndBack(b: Board, p: Piece, s: Square)
    requires b.PieceAt(p.Location()) == Some(p)
    requires p in b.PiecesOf(p.owner.id)
    requires s == p.Location() || b.PieceAt(s) == None
    modifies b, p
    ensures b.pieces == old(b.pieces) && b.ownerPieces == old(b.ownerPieces)
    ensures p.Location() == old(p.Location())
  {
    var home := p.Location();
    b.MovePiece(p, s);
    b.MovePiece(p, home);
    assert b.pieces == old(b.pieces);
  }
}
