/**
 * The squares each kind of piece attacks (`capturable`): fixed offsets for the
 * knight and the king, rays for the bishop, rook and queen, and the two forward
 * diagonals for the pawn.
 */
module Attacks {
  import opened ChessTypes
  import opened ChessBoard

  predicate NoDup<T(==)>(s: seq<T>)
  {
    forall i, j :: 0 <= i < j < |s| ==> s[i] != s[j]
  }

  function Abs(n: int): nat
  {
    if n < 0 then -n else n
  }

  function Shift(sq: Square, d: Square): Square
  {
    (sq.0 + d.0, sq.1 + d.1)
  }

  predicate IsEmpty(b: Board, sq: Square)
    reads b
  {
    b.PieceAt(sq) == None
  }

  predicate IsEnemy(b: Board, p: Piece, sq: Square)
    reads b
  {
    b.PieceAt(sq).Some? && b.PieceAt(sq).value.owner.id != p.owner.id
  }

  predicate IsFriend(b: Board, p: Piece, sq: Square)
    reads b
  {
    b.PieceAt(sq).Some? && b.PieceAt(sq).value.owner.id == p.owner.id
  }

  /** `p` may land on `sq`: the square is empty or holds a piece of another owner. */
  predicate CanLand(b: Board, p: Piece, sq: Square)
    reads b
  {
    IsEmpty(b, sq) || IsEnemy(b, p, sq)
  }

  const KnightVectors: seq<Square> :=
    [(1, 2), (1, -2), (-1, 2), (-1, -2), (2, 1), (2, -1), (-2, 1), (-2, -1)]

  /** The king's offsets: {-1, 0, 1} x {-1, 0, 1} in product order, without (0, 0). */
  const KingVectors: seq<Square> :=
    [(-1, -1), (-1, 0), (-1, 1), (0, -1), (0, 1), (1, -1), (1, 0), (1, 1)]

  const BishopVectors: seq<Square> := [(1, 1), (-1, 1), (-1, -1), (1, -1)]
  const RookVectors: seq<Square> := [(1, 0), (0, 1), (-1, 0), (0, -1)]
  const QueenVectors: seq<Square> :=
    [(1, 0), (0, 1), (-1, 0), (0, -1), (1, 1), (-1, -1), (1, -1), (-1, 1)]

  /** The square reached from `p` by offset `d`. */
  function Target(p: Piece, d: Square): Square
    reads p
  {
    Shift(p.Location(), d)
  }

  // ---------------------------------------------------------------------------
  // Knight and king: a fixed offset list filtered by the board.

  /** The targets of the offsets `ds`, in order, that are on the board and not
      held by a friend. */
  function Leap(b: Board, p: Piece, ds: seq<Square>): (r: seq<Square>)
    reads b, p
    ensures |r| <= |ds|
    ensures forall s :: s in r <==>
              (exists d :: d in ds && s == Target(p, d)) && IsOnBoard(s) && CanLand(b, p, s)
  {
    if ds == [] then []
    else
      var to := Target(p, ds[0]);
      assert forall d :: d in ds <==> d == ds[0] || d in ds[1..];
      (if IsOnBoard(to) && CanLand(b, p, to) then [to] else []) + Leap(b, p, ds[1..])
  }

  lemma {:induction false} LeapNoDup(b: Board, p: Piece, ds: seq<Square>)
    requires NoDup(ds)
    ensures NoDup(Leap(b, p, ds))
  {
    if ds != [] {
      var rest := ds[1..];
      assert NoDup(rest) by {
        forall i, j | 0 <= i < j < |rest| ensures rest[i] != rest[j] {
          assert rest[i] == ds[i + 1] && rest[j] == ds[j + 1];
        }
      }
      LeapNoDup(b, p, rest);
      var to := Target(p, ds[0]);
      var tail := Leap(b, p, rest);
      forall i | 0 <= i < |tail|
        ensures tail[i] != to
      {
        assert tail[i] in tail;
        var d :| d in rest && tail[i] == Target(p, d);
        var k :| 0 <= k < |rest| && rest[k] == d;
        assert ds[k + 1] == d && ds[k + 1] != ds[0];
      }
    }
  }

  predicate KnightJump(dx: int, dy: int)
  {
    (Abs(dx) == 1 && Abs(dy) == 2) || (Abs(dx) == 2 && Abs(dy) == 1)
  }

  lemma KnightVectorsAre(d: Square)
    ensures d in KnightVectors <==> KnightJump(d.0, d.1)
  {
  }

  lemma KingVectorsAre(d: Square)
    ensures d in KingVectors <==> d != (0, 0) && Abs(d.0) <= 1 && Abs(d.1) <= 1
  {
  }

  lemma KnightLeapAt(b: Board, p: Piece, s: Square)
    ensures s in Leap(b, p, KnightVectors) <==>
              KnightJump(s.0 - p.x, s.1 - p.y) && IsOnBoard(s) && CanLand(b, p, s)
  {
    var d := (s.0 - p.x, s.1 - p.y);
    assert s == Target(p, d);
    KnightVectorsAre(d);
    if s in Leap(b, p, KnightVectors) {
      var e :| e in KnightVectors && s == Target(p, e);
      assert e == d;
    }
  }

  lemma KingLeapAt(b: Board, p: Piece, s: Square)
    ensures s in Leap(b, p, KingVectors) <==>
              s != p.Location() && Abs(s.0 - p.x) <= 1 && Abs(s.1 - p.y) <= 1 &&
              IsOnBoard(s) && CanLand(b, p, s)
  {
    var d := (s.0 - p.x, s.1 - p.y);
    assert s == Target(p, d);
    KingVectorsAre(d);
    if s in Leap(b, p, KingVectors) {
      var e :| e in KingVectors && s == Target(p, e);
      assert e == d;
    }
  }

  lemma KnightLeapAll(b: Board, p: Piece)
    ensures forall s :: s in Leap(b, p, KnightVectors) <==>
              KnightJump(s.0 - p.x, s.1 - p.y) && IsOnBoard(s) && CanLand(b, p, s)
  {
    forall s {
      KnightLeapAt(b, p, s);
    }
  }

  lemma KingLeapAll(b: Board, p: Piece)
    ensures forall s :: s in Leap(b, p, KingVectors) <==>
              s != p.Location() && Abs(s.0 - p.x) <= 1 && Abs(s.1 - p.y) <= 1 &&
              IsOnBoard(s) && CanLand(b, p, s)
  {
    forall s {
      KingLeapAt(b, p, s);
    }
  }

  /** A knight attacks at most eight squares, each once: exactly the on-board
      squares a knight's jump away that no friend holds. */
  lemma KnightLeapSpec(b: Board, p: Piece)
    ensures |Leap(b, p, KnightVectors)| <= 8
    ensures NoDup(Leap(b, p, KnightVectors))
    ensures forall s :: s in Leap(b, p, KnightVectors) <==>
           KnightJump(s.0 - p.x, s.1 - p.y) && IsOnBoard(s) && CanLand(b, p, s)
  {
    LeapNoDup(b, p, KnightVectors);
    KnightLeapAll(b, p);
  }

  /** A king attacks at most eight squares, each once: exactly the on-board
      neighbouring squares (its own excluded) that no friend holds. */
  lemma KingLeapSpec(b: Board, p: Piece)
    ensures |Leap(b, p, KingVectors)| <= 8
    ensures NoDup(Leap(b, p, KingVectors))
    ensures forall s :: s in Leap(b, p, KingVectors) <==>
           s != p.Location() && Abs(s.0 - p.x) <= 1 && Abs(s.1 - p.y) <= 1 &&
           IsOnBoard(s) && CanLand(b, p, s)
  {
    LeapNoDup(b, p, KingVectors);
    KingLeapAll(b, p);
  }

  // ---------------------------------------------------------------------------
  // Bishop, rook and queen: rays.

  /** A single step in one of the eight directions. */
  predicate IsStep(d: Square)
  {
    -1 <= d.0 <= 1 && -1 <= d.1 <= 1 && d != (0, 0)
  }

  /** How many more squares a walk along `d` can visit before it leaves the board. */
  function Remaining(sq: Square, d: Square): int
  {
    if d.0 > 0 then Width - sq.0
    else if d.0 < 0 then sq.0 + 1
    else if d.1 > 0 then Height - sq.1
    else sq.1 + 1
  }

  /** The square `n` steps along `d` from `sq`. */
  function Walk(sq: Square, d: Square, n: nat): Square
    decreases n
  {
    if n == 0 then sq else Walk(Shift(sq, d), d, n - 1)
  }

  /** The ray of `p` from `sq` along `d`: every empty square is taken and the walk
      goes on; the first occupied square ends it, and is taken iff it holds an
      enemy; leaving the board ends it too. */
  function RayFrom(b: Board, p: Piece, sq: Square, d: Square): seq<Square>
    requires IsStep(d)
    reads b
    decreases if IsOnBoard(sq) then Remaining(sq, d) else 0
  {
    if !IsOnBoard(sq) then []
    else
      match b.PieceAt(sq)
      case None => [sq] + RayFrom(b, p, Shift(sq, d), d)
      case Some(q) => if q.owner.id != p.owner.id then [sq] else []
  }

  /** The ray of `p` along `d`, starting one step away from it. */
  function Ray(b: Board, p: Piece, d: Square): seq<Square>
    requires IsStep(d)
    reads b, p
  {
    RayFrom(b, p, Target(p, d), d)
  }

  /** The rays along every vector of `ds`, one after the other. */
  function Rays(b: Board, p: Piece, ds: seq<Square>): seq<Square>
    requires forall d :: d in ds ==> IsStep(d)
    reads b, p
  {
    if ds == [] then [] else Ray(b, p, ds[0]) + Rays(b, p, ds[1..])
  }

  /** A ray visits consecutive squares along its direction, all on the board; all
      but the last are empty and the last is empty or an enemy; and the walk
      stopped for a reason: the last square taken held an enemy, or the next
      square is off the board or holds a friend. */
  lemma {:induction false} RayWalk(b: Board, p: Piece, sq: Square, d: Square)
    requires IsStep(d)
    ensures var r := RayFrom(b, p, sq, d);
      && (forall i :: 0 <= i < |r| ==> r[i] == Walk(sq, d, i) && IsOnBoard(r[i]) && CanLand(b, p, r[i]))
      && (forall i :: 0 <= i < |r| - 1 ==> IsEmpty(b, r[i]))
      && ((|r| > 0 && IsEnemy(b, p, r[|r| - 1])) ||
          !IsOnBoard(Walk(sq, d, |r|)) || IsFriend(b, p, Walk(sq, d, |r|)))
    decreases if IsOnBoard(sq) then Remaining(sq, d) else 0
  {
    var r := RayFrom(b, p, sq, d);
    if IsOnBoard(sq) && b.PieceAt(sq).None? {
      var next := Shift(sq, d);
      RayWalk(b, p, next, d);
      var rest := RayFrom(b, p, next, d);
      assert r == [sq] + rest;
      forall i | 0 < i < |r|
        ensures r[i] == Walk(sq, d, i)
      {
        assert r[i] == rest[i - 1];
      }
      assert Walk(sq, d, |r|) == Walk(next, d, |rest|);
    }
  }

  lemma {:induction false} RaysMembership(b: Board, p: Piece, ds: seq<Square>, s: Square)
    requires forall d :: d in ds ==> IsStep(d)
    ensures s in Rays(b, p, ds) <==> exists i :: 0 <= i < |ds| && s in Ray(b, p, ds[i])
  {
    if ds != [] {
      RaysMembership(b, p, ds[1..], s);
      if s in Rays(b, p, ds[1..]) {
        var i :| 0 <= i < |ds[1..]| && s in Ray(b, p, ds[1..][i]);
        assert ds[1..][i] == ds[i + 1];
      }
      if exists i :: 0 <= i < |ds| && s in Ray(b, p, ds[i]) {
        var i :| 0 <= i < |ds| && s in Ray(b, p, ds[i]);
        if i > 0 {
          assert ds[1..][i - 1] == ds[i];
        }
      }
    }
  }

  /** The queen's vectors are the rook's and the bishop's, so a queen attacks
      exactly what a rook and a bishop on its square attack together. */
  lemma QueenIsRookAndBishop(b: Board, p: Piece)
    ensures forall s :: s in Rays(b, p, QueenVectors) <==>
                        s in Rays(b, p, RookVectors) || s in Rays(b, p, BishopVectors)
  {
    forall s
      ensures s in Rays(b, p, QueenVectors) <==>
                s in Rays(b, p, RookVectors) || s in Rays(b, p, BishopVectors)
    {
      QueenIsRookAndBishopAt(b, p, s);
    }
  }

  lemma QueenIsRookAndBishopAt(b: Board, p: Piece, s: Square)
    ensures s in Rays(b, p, QueenVectors) <==>
              s in Rays(b, p, RookVectors) || s in Rays(b, p, BishopVectors)
  {
    if s in Rays(b, p, QueenVectors) {
      QueenRayIsRookOrBishop(b, p, s);
    }
    if s in Rays(b, p, RookVectors) {
      RookRayIsQueen(b, p, s);
    }
    if s in Rays(b, p, BishopVectors) {
      BishopRayIsQueen(b, p, s);
    }
  }

  lemma QueenRayIsRookOrBishop(b: Board, p: Piece, s: Square)
    requires s in Rays(b, p, QueenVectors)
    ensures s in Rays(b, p, RookVectors) || s in Rays(b, p, BishopVectors)
  {
    VectorsAreSteps();
    RaysMembership(b, p, QueenVectors, s);
    var i :| 0 <= i < |QueenVectors| && s in Ray(b, p, QueenVectors[i]);
    var d := QueenVectors[i];
    if i < 4 {
      assert RookVectors[i] == d;
      VectorsAreSteps();
    RaysMembership(b, p, RookVectors, s);
    } else {
      if d == (1, 1) {
        assert BishopVectors[0] == d;
      } else if d == (-1, -1) {
        assert BishopVectors[2] == d;
      } else if d == (1, -1) {
        assert BishopVectors[3] == d;
      } else {
        assert BishopVectors[1] == d;
      }
      VectorsAreSteps();
    RaysMembership(b, p, BishopVectors, s);
    }
  }

  lemma RookRayIsQueen(b: Board, p: Piece, s: Square)
    requires s in Rays(b, p, RookVectors)
    ensures s in Rays(b, p, QueenVectors)
  {
    VectorsAreSteps();
    RaysMembership(b, p, RookVectors, s);
    var i :| 0 <= i < |RookVectors| && s in Ray(b, p, RookVectors[i]);
    assert QueenVectors[..4] == RookVectors;
    assert QueenVectors[i] == QueenVectors[..4][i];
    VectorsAreSteps();
    RaysMembership(b, p, QueenVectors, s);
  }

  lemma BishopRayIsQueen(b: Board, p: Piece, s: Square)
    requires s in Rays(b, p, BishopVectors)
    ensures s in Rays(b, p, QueenVectors)
  {
    VectorsAreSteps();
    RaysMembership(b, p, BishopVectors, s);
    var i :| 0 <= i < |BishopVectors| && s in Ray(b, p, BishopVectors[i]);
    var d := BishopVectors[i];
    if i == 0 {
      assert QueenVectors[4] == d;
    } else if i == 1 {
      assert QueenVectors[7] == d;
    } else if i == 2 {
      assert QueenVectors[5] == d;
    } else {
      assert QueenVectors[6] == d;
    }
    VectorsAreSteps();
    RaysMembership(b, p, QueenVectors, s);
  }

  /** Every square the rays yield is on the board and free of friends. */
  lemma RaysSound(b: Board, p: Piece, ds: seq<Square>)
    requires forall d :: d in ds ==> IsStep(d)
    ensures forall s :: s in Rays(b, p, ds) ==> IsOnBoard(s) && CanLand(b, p, s)
  {
    forall s | s in Rays(b, p, ds)
      ensures IsOnBoard(s) && CanLand(b, p, s)
    {
      RaysMembership(b, p, ds, s);
      var i :| 0 <= i < |ds| && s in Ray(b, p, ds[i]);
      RayWalk(b, p, Target(p, ds[i]), ds[i]);
    }
  }

  lemma ConcatAssoc<T>(a: seq<T>, b: seq<T>, c: seq<T>)
    ensures (a + b) + c == a + (b + c)
  {
  }

  /** One ray of a sliding piece: step outward along `d` while on the board,
      taking empty squares, and stop at the first occupied square, taking it if
      it holds an enemy. */
  method WalkRay(b: Board, p: Piece, d: Square) returns (ray: seq<Square>)
    requires IsStep(d)
    ensures ray == Ray(b, p, d)
  {
    var (u, v) := d;
    var x, y := p.x + u, p.y + v;
    ray := [];
    while IsOnBoard((x, y))
      invariant ray + RayFrom(b, p, (x, y), d) == Ray(b, p, d)
      decreases Remaining((x, y), d)
    {
      var loc := (x, y);
      RemainingStep(loc, d);
      var piece := b.PieceAt(loc);
      if piece.None? {
        ConcatAssoc(ray, [loc], RayFrom(b, p, Shift(loc, d), d));
        ray := ray + [loc];
      } else {
        if piece.value.owner.id != p.owner.id {
          ray := ray + [loc];
        }
        return;
      }
      x := x + u;
      y := y + v;
    }
  }

  /** A step along `d` from a square on the board uses up one square of the walk. */
  lemma RemainingStep(sq: Square, d: Square)
    requires IsStep(d) && IsOnBoard(sq)
    ensures 1 <= Remaining(sq, d)
    ensures Remaining(Shift(sq, d), d) == Remaining(sq, d) - 1
  {
  }

  /** The sliding pieces' attacks: the rays along each of their vectors in turn. */
  method VectorCapturable(b: Board, p: Piece, ds: seq<Square>) returns (r: seq<Square>)
    requires forall d :: d in ds ==> IsStep(d)
    ensures r == Rays(b, p, ds)
  {
    r := [];
    for k := 0 to |ds|
      invariant r + Rays(b, p, ds[k..]) == Rays(b, p, ds)
    {
      var ray := WalkRay(b, p, ds[k]);
      assert ds[k..][1..] == ds[k + 1..];
      ConcatAssoc(r, ray, Rays(b, p, ds[k + 1..]));
      r := r + ray;
    }
    assert ds[|ds|..] == [];
  }

  // ---------------------------------------------------------------------------
  // Pawn.

  function PromotionRank(c: Color): int
  {
    if c == White then 7 else 0
  }

  function StartRank(c: Color): int
  {
    if c == White then 1 else 6
  }

  /** The rank direction the pawn moves in. */
  function Direction(c: Color): int
  {
    if c == White then 1 else -1
  }

  /** The forward diagonal on side `dx`, if it holds an enemy. No bounds check:
      an off-board square simply holds no piece. */
  function PawnAttack(b: Board, p: Piece, dx: int): seq<Square>
    reads b, p
  {
    var sq := (p.x + dx, p.y + Direction(p.owner.color));
    if IsEnemy(b, p, sq) then [sq] else []
  }

  function PawnCapturable(b: Board, p: Piece): seq<Square>
    reads b, p
  {
    PawnAttack(b, p, -1) + PawnAttack(b, p, 1)
  }

  /** A pawn attacks only its two forward diagonals, and only when an enemy
      stands there. */
  lemma PawnCapturableSpec(b: Board, p: Piece)
    ensures var r := PawnCapturable(b, p);
      && NoDup(r)
      && forall s :: s in r <==>
           Abs(s.0 - p.x) == 1 && s.1 == p.y + Direction(p.owner.color) && IsEnemy(b, p, s)
  {
  }

  // ---------------------------------------------------------------------------
  // Dispatch over the kind of piece.

  lemma VectorsAreSteps()
    ensures forall d :: d in BishopVectors ==> IsStep(d)
    ensures forall d :: d in RookVectors ==> IsStep(d)
    ensures forall d :: d in QueenVectors ==> IsStep(d)
  {
  }

  function VectorsOf(k: Kind): (ds: seq<Square>)
    ensures forall d :: d in ds ==> IsStep(d)
  {
    match k
    case Bishop => BishopVectors
    case Rook => RookVectors
    case Queen => QueenVectors
    case _ => []
  }

  /** The squares `p` attacks on `b`. */
  function Capturable(b: Board, p: Piece): seq<Square>
    reads b, p
  {
    match p.kind
    case Knight => Leap(b, p, KnightVectors)
    case King => Leap(b, p, KingVectors)
    case Pawn => PawnCapturable(b, p)
    case _ => Rays(b, p, VectorsOf(p.kind))
  }

  /** Every square any piece attacks is on the board and empty or held by an
      enemy. For a pawn this needs a board without off-board pieces, since its
      diagonals are not bounds-checked. */
  lemma CapturableSound(b: Board, p: Piece)
    requires p.kind == Pawn ==> b.OnBoardOnly()
    ensures forall s :: s in Capturable(b, p) ==> IsOnBoard(s) && CanLand(b, p, s)
  {
    match p.kind
    case Knight =>
    case King =>
    case Pawn =>
    case _ => RaysSound(b, p, VectorsOf(p.kind));
  }
}
