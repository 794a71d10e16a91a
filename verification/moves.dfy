/**
 * Reachable squares (attacks plus pawn pushes and king castling squares) and
 * the moves built from them, with the pawn's promotion split.
 */
module MoveGen {
  import opened ChessTypes
  import opened ChessBoard
  import opened Attacks

  // ---------------------------------------------------------------------------
  // Reachable squares.

  /** The king's castling squares. Flag 0 of the current rights offers x - 2 when
      x - 1 and x - 2 are empty; flag 1 offers x + 2 when x + 1 and x + 2 are
      empty. Neither square is bounds-checked. */
  function CastlingSquares(b: Board, p: Piece): seq<Square>
    reads b, p
  {
    var rights := CurrentRights(p.owner);
    (if rights.0 && IsEmpty(b, (p.x - 1, p.y)) && IsEmpty(b, (p.x - 2, p.y)) then [(p.x - 2, p.y)] else []) +
    (if rights.1 && IsEmpty(b, (p.x + 1, p.y)) && IsEmpty(b, (p.x + 2, p.y)) then [(p.x + 2, p.y)] else [])
  }

  function KingReachable(b: Board, p: Piece): seq<Square>
    reads b, p
  {
    Leap(b, p, KingVectors) + CastlingSquares(b, p)
  }

  /** The pawn's forward squares: one step if it is empty, and then two steps if
      the pawn stands on its start rank and that square is empty too. Neither
      square is bounds-checked. */
  function PawnPushes(b: Board, p: Piece): seq<Square>
    reads b, p
  {
    var dir := Direction(p.owner.color);
    var one := (p.x, p.y + dir);
    var two := (p.x, p.y + dir * 2);
    if !IsEmpty(b, one) then []
    else if p.y == StartRank(p.owner.color) && IsEmpty(b, two) then [one, two]
    else [one]
  }

  function PawnReachable(b: Board, p: Piece): seq<Square>
    reads b, p
  {
    PawnCapturable(b, p) + PawnPushes(b, p)
  }

  /** The squares `p` can move to: its attacks, plus pushes for a pawn and
      castling squares for a king. */
  function Reachable(b: Board, p: Piece): seq<Square>
    reads b, p
  {
    match p.kind
    case King => KingReachable(b, p)
    case Pawn => PawnReachable(b, p)
    case _ => Capturable(b, p)
  }

  /** Whether `sq` is among the reachable squares, by a scan of them. */
  function AnyEqual(ss: seq<Square>, sq: Square): (r: bool)
    ensures r <==> sq in ss
  {
    if ss == [] then false else ss[0] == sq || AnyEqual(ss[1..], sq)
  }

  function CanReach(b: Board, p: Piece, sq: Square): (r: bool)
    reads b, p
    ensures r <==> sq in Reachable(b, p)
  {
    AnyEqual(Reachable(b, p), sq)
  }

  // ---------------------------------------------------------------------------
  // Moves.

  /** The move of `p` to `sq`, capturing whatever stands there. */
  function MoveTo(b: Board, p: Piece, sq: Square, promotion: Option<Kind>): Move
    reads b, p
  {
    Move(p, p.Location(), sq, b.PieceAt(sq), promotion)
  }

  /** One plain move per square, in order. */
  function MovesTo(b: Board, p: Piece, ss: seq<Square>): (r: seq<Move>)
    reads b, p
    ensures |r| == |ss|
    ensures forall i :: 0 <= i < |ss| ==> r[i] == MoveTo(b, p, ss[i], None)
  {
    if ss == [] then [] else [MoveTo(b, p, ss[0], None)] + MovesTo(b, p, ss[1..])
  }

  /** The kinds a pawn may promote to, in the order the moves are offered. */
  const Promotable: seq<Kind> := [Knight, Bishop, Rook, Queen]

  /** A pawn's moves to `sq`: one per promotable kind on the promotion rank,
      otherwise a single plain move. */
  function PawnMovesFor(b: Board, p: Piece, sq: Square): seq<Move>
    reads b, p
  {
    if sq.1 == PromotionRank(p.owner.color) then
      [MoveTo(b, p, sq, Some(Knight)), MoveTo(b, p, sq, Some(Bishop)),
       MoveTo(b, p, sq, Some(Rook)), MoveTo(b, p, sq, Some(Queen))]
    else
      [MoveTo(b, p, sq, None)]
  }

  function PawnMovesTo(b: Board, p: Piece, ss: seq<Square>): seq<Move>
    reads b, p
  {
    if ss == [] then [] else PawnMovesFor(b, p, ss[0]) + PawnMovesTo(b, p, ss[1..])
  }

  /** The king's moves: only its attacked squares while its owner is in check,
      otherwise all its reachable squares. */
  function KingMoves(b: Board, p: Piece, inCheck: bool): seq<Move>
    reads b, p
  {
    if inCheck then MovesTo(b, p, Leap(b, p, KingVectors)) else MovesTo(b, p, KingReachable(b, p))
  }

  /** The moves of `p`. `inCheck` is whether the board reports the owner of `p`
      in check; only a king consults it. */
  function Moves(b: Board, p: Piece, inCheck: bool): seq<Move>
    reads b, p
  {
    match p.kind
    case King => KingMoves(b, p, inCheck)
    case Pawn => PawnMovesTo(b, p, PawnReachable(b, p))
    case _ => MovesTo(b, p, Reachable(b, p))
  }

  function Destinations(ms: seq<Move>): (r: seq<Square>)
    ensures |r| == |ms|
    ensures forall i :: 0 <= i < |ms| ==> r[i] == ms[i].dest
  {
    if ms == [] then [] else [ms[0].dest] + Destinations(ms[1..])
  }

  /** The moves among `ms` that land on `sq`, in order. */
  function WithDest(ms: seq<Move>, sq: Square): seq<Move>
  {
    if ms == [] then []
    else (if ms[0].dest == sq then [ms[0]] else []) + WithDest(ms[1..], sq)
  }

  // ---------------------------------------------------------------------------
  // King.

  /** Castling squares are offered exactly when the current flag for that side
      holds and both squares on that side are empty; they are never among the
      king's attacked squares. */
  lemma KingCastling(b: Board, p: Piece)
    ensures var x, y, rights := p.x, p.y, CurrentRights(p.owner);
      && ((x - 2, y) in KingReachable(b, p) <==>
            rights.0 && IsEmpty(b, (x - 1, y)) && IsEmpty(b, (x - 2, y)))
      && ((x + 2, y) in KingReachable(b, p) <==>
            rights.1 && IsEmpty(b, (x + 1, y)) && IsEmpty(b, (x + 2, y)))
      && (x - 2, y) !in Leap(b, p, KingVectors) && (x + 2, y) !in Leap(b, p, KingVectors)
  {
    KingLeapAt(b, p, (p.x - 2, p.y));
    KingLeapAt(b, p, (p.x + 2, p.y));
  }

  /** The king reaches its attacked squares and, besides them, only the two
      castling squares, each under its flag and with both squares on its side
      empty. */
  lemma KingReachableSpec(b: Board, p: Piece)
    ensures var x, y, rights := p.x, p.y, CurrentRights(p.owner);
      forall s :: s in KingReachable(b, p) <==>
        || s in Leap(b, p, KingVectors)
        || (s == (x - 2, y) && rights.0 && IsEmpty(b, (x - 1, y)) && IsEmpty(b, (x - 2, y)))
        || (s == (x + 2, y) && rights.1 && IsEmpty(b, (x + 1, y)) && IsEmpty(b, (x + 2, y)))
  {
    var leap, castling := Leap(b, p, KingVectors), CastlingSquares(b, p);
    forall s
      ensures s in KingReachable(b, p) <==> s in leap || s in castling
    {
    }
  }

  /** The king's reachable squares are its attacks and the castling squares, and
      lie on the board when the king is on it with at least two files to either
      side. */
  lemma KingReachableOnBoard(b: Board, p: Piece)
    requires IsOnBoard(p.Location()) && 2 <= p.x <= 5
    ensures forall s :: s in KingReachable(b, p) ==> IsOnBoard(s)
  {
    KingLeapAll(b, p);
  }

  /** In check the king is offered exactly its attacked squares, so no castling
      square; otherwise exactly its reachable squares. */
  lemma KingMovesSpec(b: Board, p: Piece, inCheck: bool)
    ensures Destinations(KingMoves(b, p, inCheck)) ==
              if inCheck then Leap(b, p, KingVectors) else KingReachable(b, p)
    ensures inCheck ==> forall m :: m in KingMoves(b, p, inCheck) ==> m.dest != (p.x - 2, p.y) && m.dest != (p.x + 2, p.y)
  {
    var ss := if inCheck then Leap(b, p, KingVectors) else KingReachable(b, p);
    DestinationsOfMoves(b, p, ss);
    if inCheck {
      KingCastling(b, p);
      forall m | m in KingMoves(b, p, inCheck)
        ensures m.dest in ss
      {
        MovesToDest(b, p, ss, m);
      }
    }
  }

  /** Every move made from a list of squares lands on one of them. */
  lemma MovesToDest(b: Board, p: Piece, ss: seq<Square>, m: Move)
    requires m in MovesTo(b, p, ss)
    ensures m.dest in ss && m.origin == p.Location() && m.promotion == None
  {
    var i :| 0 <= i < |ss| && MovesTo(b, p, ss)[i] == m;
  }

  // ---------------------------------------------------------------------------
  // Pawn.

  /** The single push is offered iff its square is empty; the double push iff the
      single-push square is empty, the pawn stands on its start rank and the
      double-push square is empty; besides these two, only captures are reachable. */
  lemma PawnPushSpec(b: Board, p: Piece)
    ensures var dir := Direction(p.owner.color);
      var one, two := (p.x, p.y + dir), (p.x, p.y + 2 * dir);
      && (one in PawnReachable(b, p) <==> IsEmpty(b, one))
      && (two in PawnReachable(b, p) <==>
            IsEmpty(b, one) && p.y == StartRank(p.owner.color) && IsEmpty(b, two))
      && forall s :: s in PawnReachable(b, p) <==>
           || s in PawnCapturable(b, p)
           || (s == one && IsEmpty(b, one))
           || (s == two && IsEmpty(b, one) && p.y == StartRank(p.owner.color) && IsEmpty(b, two))
  {
    PawnCapturableSpec(b, p);
  }

  lemma PawnReachableNoDup(b: Board, p: Piece)
    ensures NoDup(PawnReachable(b, p))
  {
    PawnCapturableSpec(b, p);
    var caps, pushes := PawnCapturable(b, p), PawnPushes(b, p);
    var r := PawnReachable(b, p);
    forall i, j | 0 <= i < j < |r|
      ensures r[i] != r[j]
    {
      if j < |caps| {
      } else if i < |caps| {
        assert r[i] in caps && r[j] == pushes[j - |caps|];
      } else {
        assert r[i] == pushes[i - |caps|] && r[j] == pushes[j - |caps|];
      }
    }
  }

  /** A pawn that is on the board, short of its promotion rank, on a board
      without off-board pieces, only reaches squares on the board. */
  lemma PawnReachableOnBoard(b: Board, p: Piece)
    requires b.OnBoardOnly() && IsOnBoard(p.Location())
    requires p.y != PromotionRank(p.owner.color)
    ensures forall s :: s in PawnReachable(b, p) ==> IsOnBoard(s)
  {
    forall s | s in PawnReachable(b, p)
      ensures IsOnBoard(s)
    {
      if s in PawnCapturable(b, p) {
        PawnCapturableSpec(b, p);
        assert b.PieceAt(s).Some?;
        assert s in b.pieces;
      } else {
        assert s in PawnPushes(b, p);
      }
    }
  }

  // ---------------------------------------------------------------------------
  // Moves.

  lemma DestinationsOfMoves(b: Board, p: Piece, ss: seq<Square>)
    ensures Destinations(MovesTo(b, p, ss)) == ss
  {
  }

  lemma {:induction false} WithDestConcat(a: seq<Move>, c: seq<Move>, sq: Square)
    ensures WithDest(a + c, sq) == WithDest(a, sq) + WithDest(c, sq)
  {
    if a == [] {
      assert a + c == c;
    } else {
      assert (a + c)[0] == a[0];
      assert (a + c)[1..] == a[1..] + c;
      WithDestConcat(a[1..], c, sq);
      ConcatAssoc(if a[0].dest == sq then [a[0]] else [], WithDest(a[1..], sq), WithDest(c, sq));
    }
  }

  lemma {:induction false} WithDestUniform(ms: seq<Move>, sq: Square)
    requires forall i, j :: 0 <= i < |ms| && 0 <= j < |ms| ==> ms[i].dest == ms[j].dest
    ensures WithDest(ms, sq) == if ms != [] && ms[0].dest == sq then ms else []
  {
    if ms != [] {
      WithDestUniform(ms[1..], sq);
    }
  }

  lemma PawnMovesForAt(b: Board, p: Piece, to: Square, sq: Square)
    ensures WithDest(PawnMovesFor(b, p, to), sq) == if to == sq then PawnMovesFor(b, p, to) else []
  {
    WithDestUniform(PawnMovesFor(b, p, to), sq);
  }

  lemma {:induction false} PawnMovesToAt(b: Board, p: Piece, ss: seq<Square>, sq: Square)
    requires NoDup(ss)
    ensures WithDest(PawnMovesTo(b, p, ss), sq) == if sq in ss then PawnMovesFor(b, p, sq) else []
  {
    if ss != [] {
      var rest := ss[1..];
      assert NoDup(rest) by {
        forall i, j | 0 <= i < j < |rest| ensures rest[i] != rest[j] {
          assert rest[i] == ss[i + 1] && rest[j] == ss[j + 1];
        }
      }
      PawnMovesToAt(b, p, rest, sq);
      WithDestConcat(PawnMovesFor(b, p, ss[0]), PawnMovesTo(b, p, rest), sq);
      PawnMovesForAt(b, p, ss[0], sq);
      if ss[0] == sq {
        assert sq !in rest by {
          forall k | 0 <= k < |rest| ensures rest[k] != sq {
            assert rest[k] == ss[k + 1];
          }
        }
      }
      assert sq in ss <==> sq == ss[0] || sq in rest;
    }
  }

  /** A pawn gets, for each reachable square on its promotion rank, exactly four
      moves promoting to knight, bishop, rook and queen in that order; for every
      other reachable square exactly one move without promotion; and no move to
      any other square. */
  lemma PawnMovesAt(b: Board, p: Piece, inCheck: bool, sq: Square)
    requires p.kind == Pawn
    ensures var ms := WithDest(Moves(b, p, inCheck), sq);
      && (sq in PawnReachable(b, p) && sq.1 == PromotionRank(p.owner.color) ==>
            ms == [Move(p, p.Location(), sq, b.PieceAt(sq), Some(Knight)),
                   Move(p, p.Location(), sq, b.PieceAt(sq), Some(Bishop)),
                   Move(p, p.Location(), sq, b.PieceAt(sq), Some(Rook)),
                   Move(p, p.Location(), sq, b.PieceAt(sq), Some(Queen))])
      && (sq in PawnReachable(b, p) && sq.1 != PromotionRank(p.owner.color) ==>
            ms == [Move(p, p.Location(), sq, b.PieceAt(sq), None)])
      && (sq !in PawnReachable(b, p) ==> ms == [])
  {
    PawnReachableNoDup(b, p);
    PawnMovesToAt(b, p, PawnReachable(b, p), sq);
  }

  lemma {:induction false} PawnMovesToSound(b: Board, p: Piece, ss: seq<Square>, m: Move)
    requires m in PawnMovesTo(b, p, ss)
    ensures m == MoveTo(b, p, m.dest, m.promotion) && m.dest in ss
    ensures m.promotion.Some? <==> m.dest.1 == PromotionRank(p.owner.color)
    ensures m.promotion.Some? ==> m.promotion.value in Promotable
  {
    if m !in PawnMovesFor(b, p, ss[0]) {
      PawnMovesToSound(b, p, ss[1..], m);
    }
  }

  /** Every move starts at the piece's square, lands on one of its reachable
      squares, and captures whatever stands there; only a pawn promotes, exactly
      on its promotion rank and to one of the promotable kinds. */
  lemma MovesSound(b: Board, p: Piece, inCheck: bool)
    ensures forall m :: m in Moves(b, p, inCheck) ==>
      && m.piece == p && m.origin == p.Location()
      && m.dest in Reachable(b, p)
      && m.captured == b.PieceAt(m.dest)
      && (m.promotion.Some? ==> p.kind == Pawn && m.promotion.value in Promotable)
      && (p.kind == Pawn ==> (m.promotion.Some? <==> m.dest.1 == PromotionRank(p.owner.color)))
  {
    forall m | m in Moves(b, p, inCheck)
      ensures m.piece == p && m.origin == p.Location() && m.dest in Reachable(b, p)
      ensures m.captured == b.PieceAt(m.dest)
      ensures m.promotion.Some? ==> p.kind == Pawn && m.promotion.value in Promotable
      ensures p.kind == Pawn ==> (m.promotion.Some? <==> m.dest.1 == PromotionRank(p.owner.color))
    {
      if p.kind == Pawn {
        PawnMovesToSound(b, p, PawnReachable(b, p), m);
      } else {
        var ss := if p.kind == King && inCheck then Leap(b, p, KingVectors) else Reachable(b, p);
        var i :| 0 <= i < |ss| && MovesTo(b, p, ss)[i] == m;
        assert m == MoveTo(b, p, ss[i], None);
      }
    }
  }
}
