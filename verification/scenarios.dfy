/**
 * Concrete positions and the squares and moves the generator gives for them.
 */
module Scenarios {
  import opened ChessTypes
  import opened ChessBoard
  import opened Attacks
  import opened MoveGen

  const WhitePlayer := Owner(0, White, [(true, true)])

  /** A white rook alone in the corner reaches the rest of its file and rank. */
  method RookInCorner() returns (reach: seq<Square>)
    ensures reach == [(1, 0), (2, 0), (3, 0), (4, 0), (5, 0), (6, 0), (7, 0),
                      (0, 1), (0, 2), (0, 3), (0, 4), (0, 5), (0, 6), (0, 7)]
  {
    var rook := new Piece(Rook, WhitePlayer, (0, 0));
    var b := new Board(map[(0, 0) := rook], map[0 := {rook}]);
    reach := VectorCapturable(b, rook, RookVectors);
    RookInCornerRays(b, rook);
  }

  lemma RookInCornerRays(b: Board, rook: Piece)
    requires b.pieces == map[(0, 0) := rook] && rook.Location() == (0, 0)
    ensures Rays(b, rook, RookVectors) ==
              [(1, 0), (2, 0), (3, 0), (4, 0), (5, 0), (6, 0), (7, 0),
               (0, 1), (0, 2), (0, 3), (0, 4), (0, 5), (0, 6), (0, 7)]
  {
    CornerRookRaysSplit(b, rook);
    EmptyFileRay(b, rook);
    EmptyRankRay(b, rook);
    JoinFileAndRank(Ray(b, rook, (1, 0)), Ray(b, rook, (0, 1)));
  }

  /** From the corner, the rays towards lower files and ranks are empty. */
  lemma CornerRookRaysSplit(b: Board, rook: Piece)
    requires b.pieces == map[(0, 0) := rook] && rook.Location() == (0, 0)
    ensures Rays(b, rook, RookVectors) == Ray(b, rook, (1, 0)) + Ray(b, rook, (0, 1))
  {
    var ds := RookVectors;
    assert Ray(b, rook, (-1, 0)) == [] && Ray(b, rook, (0, -1)) == [];
    assert ds[1..][1..][1..][1..] == [];
    assert Rays(b, rook, ds[1..][1..][1..]) == [];
    assert Rays(b, rook, ds[1..][1..]) == [];
    assert Rays(b, rook, ds[1..]) == Ray(b, rook, (0, 1));
  }

  lemma JoinFileAndRank(file: seq<Square>, rank: seq<Square>)
    requires file == [(1, 0), (2, 0), (3, 0), (4, 0), (5, 0), (6, 0), (7, 0)]
    requires rank == [(0, 1), (0, 2), (0, 3), (0, 4), (0, 5), (0, 6), (0, 7)]
    ensures file + rank == [(1, 0), (2, 0), (3, 0), (4, 0), (5, 0), (6, 0), (7, 0),
                            (0, 1), (0, 2), (0, 3), (0, 4), (0, 5), (0, 6), (0, 7)]
  {
  }

  lemma EmptyFileRay(b: Board, rook: Piece)
    requires b.pieces == map[(0, 0) := rook] && rook.Location() == (0, 0)
    ensures Ray(b, rook, (1, 0)) == [(1, 0), (2, 0), (3, 0), (4, 0), (5, 0), (6, 0), (7, 0)]
  {
    var d := (1, 0);
    assert RayFrom(b, rook, (8, 0), d) == [];
    assert RayFrom(b, rook, (7, 0), d) == [(7, 0)];
    assert RayFrom(b, rook, (6, 0), d) == [(6, 0), (7, 0)];
    assert RayFrom(b, rook, (5, 0), d) == [(5, 0), (6, 0), (7, 0)];
    assert RayFrom(b, rook, (4, 0), d) == [(4, 0), (5, 0), (6, 0), (7, 0)];
    assert RayFrom(b, rook, (3, 0), d) == [(3, 0), (4, 0), (5, 0), (6, 0), (7, 0)];
    assert RayFrom(b, rook, (2, 0), d) == [(2, 0), (3, 0), (4, 0), (5, 0), (6, 0), (7, 0)];
  }

  lemma EmptyRankRay(b: Board, rook: Piece)
    requires b.pieces == map[(0, 0) := rook] && rook.Location() == (0, 0)
    ensures Ray(b, rook, (0, 1)) == [(0, 1), (0, 2), (0, 3), (0, 4), (0, 5), (0, 6), (0, 7)]
  {
    var d := (0, 1);
    assert RayFrom(b, rook, (0, 8), d) == [];
    assert RayFrom(b, rook, (0, 7), d) == [(0, 7)];
    assert RayFrom(b, rook, (0, 6), d) == [(0, 6), (0, 7)];
    assert RayFrom(b, rook, (0, 5), d) == [(0, 5), (0, 6), (0, 7)];
    assert RayFrom(b, rook, (0, 4), d) == [(0, 4), (0, 5), (0, 6), (0, 7)];
    assert RayFrom(b, rook, (0, 3), d) == [(0, 3), (0, 4), (0, 5), (0, 6), (0, 7)];
    assert RayFrom(b, rook, (0, 2), d) == [(0, 2), (0, 3), (0, 4), (0, 5), (0, 6), (0, 7)];
  }

  /** A white pawn on its start rank with nothing ahead may push one or two squares. */
  method PawnOnStartRank() returns (reach: seq<Square>)
    ensures reach == [(3, 2), (3, 3)]
  {
    var pawn := new Piece(Pawn, WhitePlayer, (3, 1));
    var b := new Board(map[(3, 1) := pawn], map[0 := {pawn}]);
    reach := Reachable(b, pawn);
  }

  /** A white pawn one step from the last rank gets four promoting moves. */
  method PawnAboutToPromote() returns (moves: seq<Move>)
    ensures |moves| == 4
    ensures forall m :: m in moves ==> m.origin == (3, 6) && m.dest == (3, 7) && m.captured == None
    ensures [moves[0].promotion, moves[1].promotion, moves[2].promotion, moves[3].promotion] ==
            [Some(Knight), Some(Bishop), Some(Rook), Some(Queen)]
  {
    var pawn := new Piece(Pawn, WhitePlayer, (3, 6));
    var b := new Board(map[(3, 6) := pawn], map[0 := {pawn}]);
    LastPushPromotes(b, pawn);
    moves := Moves(b, pawn, false);
  }

  lemma LastPushPromotes(b: Board, pawn: Piece)
    requires b.pieces == map[(3, 6) := pawn] && pawn.Location() == (3, 6)
    requires pawn.kind == Pawn && pawn.owner == WhitePlayer
    ensures var m := Move(pawn, (3, 6), (3, 7), None, None);
      Moves(b, pawn, false) == [m.(promotion := Some(Knight)), m.(promotion := Some(Bishop)),
                                m.(promotion := Some(Rook)), m.(promotion := Some(Queen))]
  {
    LastPushOnly(b, pawn);
    assert PawnMovesTo(b, pawn, [(3, 7)]) == PawnMovesFor(b, pawn, (3, 7)) + PawnMovesTo(b, pawn, []);
  }

  lemma LastPushOnly(b: Board, pawn: Piece)
    requires b.pieces == map[(3, 6) := pawn] && pawn.Location() == (3, 6)
    requires pawn.owner == WhitePlayer
    ensures PawnReachable(b, pawn) == [(3, 7)]
  {
    assert PawnCapturable(b, pawn) == [];
    assert PawnPushes(b, pawn) == [(3, 7)];
  }

  /** A white king on its home square with flag 1 set and both squares to its
      higher-file side empty is offered the square two files that way, unless in
      check. */
  method KingMayCastle() returns (free: bool, checked: bool)
    ensures free && !checked
  {
    var king := new Piece(King, WhitePlayer, (4, 0));
    var b := new Board(map[(4, 0) := king], map[0 := {king}]);
    HomeKingCastles(b, king);
    free := CanReach(b, king, (6, 0));
    checked := (6, 0) in Destinations(Moves(b, king, true));
  }

  /** `move_piece` as written, asked to move a lone rook from (0, 0) to (0, 5):
      the rook stays on (0, 0) and (0, 5) stays empty. */
  method MoveAsWrittenStaysPut() returns (at: Square, home: bool, target: bool)
    ensures at == (0, 0) && home && !target
  {
    var rook := new Piece(Rook, WhitePlayer, (0, 0));
    var b := new Board(map[(0, 0) := rook], map[0 := {rook}]);
    b.MovePieceAsWritten(rook, (0, 5));
    at := rook.Location();
    home := b.PieceAt((0, 0)) == Some(rook);
    target := b.PieceAt((0, 5)).Some?;
  }

  /** The intended move of the same rook: it ends on (0, 5) and (0, 0) is empty. */
  method MoveRelocates() returns (at: Square, home: bool, target: bool)
    ensures at == (0, 5) && !home && target
  {
    var rook := new Piece(Rook, WhitePlayer, (0, 0));
    var b := new Board(map[(0, 0) := rook], map[0 := {rook}]);
    b.MovePiece(rook, (0, 5));
    at := rook.Location();
    home := b.PieceAt((0, 0)).Some?;
    target := b.PieceAt((0, 5)) == Some(rook);
  }

  lemma HomeKingCastles(b: Board, king: Piece)
    requires b.pieces == map[(4, 0) := king] && king.Location() == (4, 0)
    requires king.kind == King && king.owner == WhitePlayer
    ensures (6, 0) in Reachable(b, king)
    ensures (6, 0) !in Destinations(Moves(b, king, true))
  {
    KingCastling(b, king);
    assert IsEmpty(b, (5, 0)) && IsEmpty(b, (6, 0));
    KingMovesSpec(b, king, true);
  }
}
