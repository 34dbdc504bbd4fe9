// Pseudo-legal move generation (Movegen.cpp): `GenerateQueenMoves`,
// `GenerateRookMoves`, `GenerateKnightMoves`, `GenerateBishopMoves`,
// `GeneratePawnMoves`, `GenerateKingMoves` and `GeneratePseudoLegalMoves`.
//
// Every generator pops the squares of its pieces lowest first and, for each
// piece, pops its target squares lowest first, adding moves to a `MoveList`.
// The functions here list the moves in exactly that order; the methods add
// them, and a full list keeps its first 256 moves as `MoveList::add` does.
// The lookups are the tables of `Attacks`; what the moves mean on the board
// is stated under `TablesReady`, the assumption that those tables hold the
// ray walks and the leaper attacks.

module Generation {
  import opened Bitboards
  import opened Consts
  import opened Attacks
  import opened Chessboard
  import opened Moves
  import opened MoveRules
  import opened Placement
  import opened Legality
  import opened CppInt

  // ------------------------------------------------------------ appending

  /** What a list holding `list` holds after `MoveList::add` of each of `ms`: the moves that fit in its 256 places. */
  function Appended(list: seq<Move>, ms: seq<Move>): (r: seq<Move>)
    requires |list| <= MAX_MOVES
    ensures r <= list + ms
    ensures |r| == if |list| + |ms| <= MAX_MOVES then |list| + |ms| else MAX_MOVES
  {
    if |list| + |ms| <= MAX_MOVES then list + ms else (list + ms)[..MAX_MOVES]
  }

  /** Adding `a` and then `b` is adding `a + b`. */
  lemma AppendedTwice(list: seq<Move>, a: seq<Move>, b: seq<Move>)
    requires |list| <= MAX_MOVES
    ensures Appended(Appended(list, a), b) == Appended(list, a + b)
  {
    assert list + a + b == list + (a + b);
    var once := Appended(list, a);
    if |list| + |a| > MAX_MOVES {
      assert once + b == (list + a)[..MAX_MOVES] + b;
      assert (once + b)[..MAX_MOVES] == (list + (a + b))[..MAX_MOVES];
    }
  }

  /** Adding nothing leaves the list alone. */
  lemma AppendedNothing(list: seq<Move>)
    requires |list| <= MAX_MOVES
    ensures Appended(list, []) == list
  {
    assert list + [] == list;
  }

  /** One `MoveList::add`, as `Appended` describes it. */
  method Push(list: MoveList, m: Move)
    requires list.Valid()
    modifies list`count, list.moves
    ensures list.Valid()
    ensures list.Contents() == Appended(old(list.Contents()), [m])
  {
    ghost var before := list.Contents();
    list.Add(m);
    if |before| == MAX_MOVES {
      assert list.Contents() == list.moves[..list.count];
      assert list.Contents() == before;
    }
  }

  // ------------------------------------------------------- target squares

  /** One move from `from` to `to` for each code of `codes`, in that order. */
  function Expand(from: int, to: int, codes: seq<int>, piece: int): (r: seq<Move>)
    ensures |r| == |codes|
    ensures forall i :: 0 <= i < |codes| ==> r[i] == Move(from, to, codes[i], piece)
  {
    seq(|codes|, i requires 0 <= i < |codes| => Move(from, to, codes[i], piece))
  }

  /**
   * The moves of a piece on `from` to the squares of `targets`, lowest
   * first: the codes `captures` where `enemy` holds a piece, `quiets`
   * elsewhere.
   */
  function TargetMoves(from: int, targets: Bitboard, enemy: Bitboard, quiets: seq<int>, captures: seq<int>, piece: int): seq<Move>
    requires OnBoard(targets)
    decreases |targets|
  {
    if targets == {} then []
    else
      var to := Ls1b(targets);
      Expand(from, to, if to in enemy then captures else quiets, piece)
      + TargetMoves(from, targets - {to}, enemy, quiets, captures, piece)
  }

  /** A move is listed for `targets` exactly when it goes from `from` to one of them, as `piece`, with one of the codes for its square. */
  lemma {:induction false} TargetMovesMean(from: int, targets: Bitboard, enemy: Bitboard, quiets: seq<int>, captures: seq<int>, piece: int, m: Move)
    requires OnBoard(targets)
    ensures m in TargetMoves(from, targets, enemy, quiets, captures, piece) <==>
      m.From == from && m.To in targets && m.Piece == piece && m.Type in (if m.To in enemy then captures else quiets)
    decreases |targets|
  {
    if targets != {} {
      var to := Ls1b(targets);
      var codes := if to in enemy then captures else quiets;
      var here := Expand(from, to, codes, piece);
      TargetMovesMean(from, targets - {to}, enemy, quiets, captures, piece, m);
      if m in here {
        var i :| 0 <= i < |here| && here[i] == m;
        assert m.Type == codes[i];
      }
      if m.From == from && m.To == to && m.Piece == piece && m.Type in codes {
        var i :| 0 <= i < |codes| && codes[i] == m.Type;
        assert here[i] == m;
      }
    }
  }

  /** The moves of one target: one `MoveList::add` per code, as each branch of the generators writes them out. */
  method AddCodes(list: MoveList, from: int, to: int, codes: seq<int>, piece: int)
    requires list.Valid()
    modifies list`count, list.moves
    ensures list.Valid()
    ensures list.Contents() == Appended(old(list.Contents()), Expand(from, to, codes, piece))
  {
    ghost var start := list.Contents();
    for i := 0 to |codes|
      invariant list.Valid()
      invariant list.Contents() == Appended(start, Expand(from, to, codes[..i], piece))
    {
      ghost var done := Expand(from, to, codes[..i], piece);
      Push(list, Move(from, to, codes[i], piece));
      AppendedTwice(start, done, [Move(from, to, codes[i], piece)]);
      assert done + [Move(from, to, codes[i], piece)] == Expand(from, to, codes[..i + 1], piece);
    }
    assert codes[..|codes|] == codes;
  }

  /** The inner loop of every generator: pop the target squares lowest first and add their moves. */
  method AddTargets(list: MoveList, from: int, targets: Bitboard, enemy: Bitboard, quiets: seq<int>, captures: seq<int>, piece: int)
    requires list.Valid() && OnBoard(targets)
    modifies list`count, list.moves
    ensures list.Valid()
    ensures list.Contents() == Appended(old(list.Contents()), TargetMoves(from, targets, enemy, quiets, captures, piece))
  {
    ghost var start := list.Contents();
    var rest := targets;
    while rest != {}
      invariant list.Valid() && OnBoard(rest)
      invariant Appended(list.Contents(), TargetMoves(from, rest, enemy, quiets, captures, piece))
        == Appended(start, TargetMoves(from, targets, enemy, quiets, captures, piece))
      decreases |rest|
    {
      var to := Ls1b(rest);
      ghost var before := list.Contents();
      ghost var here := Expand(from, to, if to in enemy then captures else quiets, piece);
      AddCodes(list, from, to, if to in enemy then captures else quiets, piece);
      AppendedTwice(before, here, TargetMoves(from, rest - {to}, enemy, quiets, captures, piece));
      rest := rest - {to};
    }
    AppendedNothing(list.Contents());
  }

  // ------------------------------------------ knights, sliders and kings

  /** The squares a piece of `kind` on `from` may move to: what its lookup reaches, less `side`'s own pieces (`attacks & ~occupancies[side]`). */
  function Reachable(t: AttackTables, s: BoardState, kind: int, from: int): (b: Bitboard)
    requires TableShape(t) && WellFormed(s) && 0 <= from < 64
    ensures OnBoard(b)
  {
    AttackOf(t, kind, s.side, from, s.occupancies[Both]) * Complement(s.occupancies[s.side])
  }

  /**
   * The moves of the pieces of `kind` on the squares of `pieces`, lowest
   * first, each to its reachable squares lowest first: a capture where the
   * other side stands, a quiet move elsewhere.
   */
  function PieceMoves(t: AttackTables, s: BoardState, kind: int, pieces: Bitboard): seq<Move>
    requires TableShape(t) && WellFormed(s) && kind in {N, B, R, Q, K} && OnBoard(pieces)
    decreases |pieces|
  {
    if pieces == {} then []
    else
      var from := Ls1b(pieces);
      TargetMoves(from, Reachable(t, s, kind, from), s.occupancies[1 - s.side], [quiet_move], [capture], PieceOf(kind, s.side))
      + PieceMoves(t, s, kind, pieces - {from})
  }

  /** All the moves of `side`'s pieces of `kind`. */
  function KindMoves(t: AttackTables, s: BoardState, kind: int): seq<Move>
    requires TableShape(t) && WellFormed(s) && kind in {N, B, R, Q, K}
  {
    PieceMoves(t, s, kind, s.bitboards[PieceOf(kind, s.side)])
  }

  /** A move is listed for `pieces` exactly when it leaves one of them for a reachable square, capturing exactly when the other side stands there. */
  lemma {:induction false} PieceMovesMean(t: AttackTables, s: BoardState, kind: int, pieces: Bitboard, m: Move)
    requires TableShape(t) && WellFormed(s) && kind in {N, B, R, Q, K} && OnBoard(pieces)
    ensures m in PieceMoves(t, s, kind, pieces) <==>
      && m.From in pieces && 0 <= m.To < 64
      && m.To in AttackOf(t, kind, s.side, m.From, s.occupancies[Both]) && m.To !in s.occupancies[s.side]
      && m.Piece == PieceOf(kind, s.side)
      && m.Type == (if m.To in s.occupancies[1 - s.side] then capture else quiet_move)
    decreases |pieces|
  {
    if pieces != {} {
      var from := Ls1b(pieces);
      PieceMovesMean(t, s, kind, pieces - {from}, m);
      TargetMovesMean(from, Reachable(t, s, kind, from), s.occupancies[1 - s.side], [quiet_move], [capture], PieceOf(kind, s.side), m);
    }
  }

  /** What a piece of `kind` on `sq` attacks, seeing through `occupancy`: the leaper patterns and the ray walks (both of them for a queen). */
  function Reach(kind: int, sq: int, occupancy: Bitboard): Bitboard
    requires 0 <= sq < 64
  {
    if kind == K then KingAttacks(sq)
    else if kind == N then KnightAttacks(sq)
    else if kind == B then BishopAttacks(sq, occupancy)
    else if kind == R then RookAttacks(sq, occupancy)
    else RookAttacks(sq, occupancy) + BishopAttacks(sq, occupancy)
  }

  /** With the tables filled, a piece's lookup is its attack pattern. */
  lemma LookupReach(t: AttackTables, kind: int, side: int, sq: int, occupancy: Bitboard)
    requires TablesReady(t) && kind in {N, B, R, Q, K} && IsColour(side) && 0 <= sq < 64
    ensures AttackOf(t, kind, side, sq, occupancy) == Reach(kind, sq, occupancy)
  {
    assert t.knight[sq] == KnightAt(sq) && t.king[sq] == KingAt(sq);
    SliderLookups(t, sq, occupancy);
  }

  /**
   * `GenerateKnightMoves`, `GenerateBishopMoves`, `GenerateRookMoves`,
   * `GenerateQueenMoves` and the first loop of `GenerateKingMoves`: a move
   * of `side`'s piece of `kind` is listed exactly when it goes to a square
   * the piece attacks and `side` does not occupy, as a capture exactly when
   * the other side stands there.
   */
  lemma KindMovesMean(t: AttackTables, s: BoardState, kind: int, m: Move)
    requires TablesReady(t) && WellFormed(s) && kind in {N, B, R, Q, K}
    ensures m in KindMoves(t, s, kind) <==>
      && m.From in s.bitboards[PieceOf(kind, s.side)] && 0 <= m.To < 64
      && m.To in Reach(kind, m.From, s.occupancies[Both]) && m.To !in s.occupancies[s.side]
      && m.Piece == PieceOf(kind, s.side)
      && m.Type == (if m.To in s.occupancies[1 - s.side] then capture else quiet_move)
  {
    var pieces := s.bitboards[PieceOf(kind, s.side)];
    PieceMovesMean(t, s, kind, pieces, m);
    if 0 <= m.From < 64 {
      LookupReach(t, kind, s.side, m.From, s.occupancies[Both]);
    }
  }

  /**
   * The generators of the knights, bishops, rooks and queens (which differ
   * only in the piece and the lookup), and the first loop of the king's:
   * pop the pieces lowest first and add each one's moves.
   */
  method GeneratePieceMoves(list: MoveList, board: Board, t: AttackTables, kind: int)
    requires list.Valid() && TableShape(t) && WellFormed(board.State()) && kind in {N, B, R, Q, K}
    modifies list`count, list.moves
    ensures list.Valid()
    ensures list.Contents() == Appended(old(list.Contents()), KindMoves(t, board.State(), kind))
  {
    ghost var s := board.State();
    var side := board.side;
    var pieces := if side == White then board.bitboards[kind] else board.bitboards[kind + 6];
    var piece := GetPiece(kind + 6, side);
    assert piece == PieceOf(kind, side) && pieces == s.bitboards[PieceOf(kind, side)];
    AddPieces(list, t, s, kind, pieces, board.occupancies, side, piece);
  }

  /** The piece loop of the generators, on the values it reads. */
  method AddPieces(list: MoveList, t: AttackTables, ghost s: BoardState, kind: int, pieces: Bitboard,
      occupancies: seq<Bitboard>, side: int, piece: int)
    requires list.Valid() && TableShape(t) && WellFormed(s) && kind in {N, B, R, Q, K} && OnBoard(pieces)
    requires occupancies == s.occupancies && side == s.side && piece == PieceOf(kind, s.side)
    modifies list`count, list.moves
    ensures list.Valid()
    ensures list.Contents() == Appended(old(list.Contents()), PieceMoves(t, s, kind, pieces))
  {
    ghost var start := list.Contents();
    var rest := pieces;
    while rest != {}
      invariant list.Valid() && OnBoard(rest)
      invariant Appended(list.Contents(), PieceMoves(t, s, kind, rest)) == Appended(start, PieceMoves(t, s, kind, pieces))
      decreases |rest|
    {
      var from := Ls1b(rest);
      var targets := AttackOf(t, kind, side, from, occupancies[Both]) * Complement(occupancies[side]);
      PieceStep(list, t, s, kind, rest, from, targets, occupancies[1 - side], piece);
      rest := rest - {from};
    }
    AppendedNothing(list.Contents());
  }

  /** One round of the piece loop: the moves of the lowest piece are added. */
  method PieceStep(list: MoveList, t: AttackTables, ghost s: BoardState, kind: int, ghost pieces: Bitboard, from: int,
      targets: Bitboard, enemy: Bitboard, piece: int)
    requires list.Valid() && TableShape(t) && WellFormed(s) && kind in {N, B, R, Q, K} && OnBoard(pieces) && pieces != {}
    requires from == Ls1b(pieces) && targets == Reachable(t, s, kind, from)
    requires enemy == s.occupancies[1 - s.side] && piece == PieceOf(kind, s.side)
    modifies list`count, list.moves
    ensures list.Valid()
    ensures Appended(list.Contents(), PieceMoves(t, s, kind, pieces - {from})) == Appended(old(list.Contents()), PieceMoves(t, s, kind, pieces))
  {
    ghost var before := list.Contents();
    AddTargets(list, from, targets, enemy, [quiet_move], [capture], piece);
    AppendedTwice(before, TargetMoves(from, targets, enemy, [quiet_move], [capture], piece), PieceMoves(t, s, kind, pieces - {from}));
  }

  // -------------------------------------------------------------- castling

  /** The right a castling move needs. */
  function CastleFlag(moveType: int, side: int): int
    requires IsColour(side)
  {
    if side == White then (if moveType == king_castle then WhiteKingCastle else WhiteQueenCastle)
    else (if moveType == king_castle then BlackKingCastle else BlackQueenCastle)
  }

  /** The squares that must be empty for a castling move (`WhiteKingCastleEmpty` and the like). */
  function CastlePath(moveType: int, side: int): Bitboard
    requires IsColour(side)
  {
    if side == White then (if moveType == king_castle then WhiteKingCastleEmpty else WhiteQueenCastleEmpty)
    else (if moveType == king_castle then BlackKingCastleEmpty else BlackQueenCastleEmpty)
  }

  /** Those squares are exactly the ones strictly between the king's home square and the rook's corner. */
  lemma CastlePathBetween(moveType: int, side: int, x: int)
    requires moveType == king_castle || moveType == queen_castle
    requires IsColour(side)
    ensures var home, corner := KingHome(side), CastleRookSquare(moveType, side);
      x in CastlePath(moveType, side) <==> (home < x < corner || corner < x < home)
  {
  }

  /** The castling move of one kind when `side` holds the right and the path is clear, else nothing. */
  function CastleMove(s: BoardState, moveType: int): seq<Move>
    requires WellFormed(s)
  {
    if HasRight(s.castle, CastleFlag(moveType, s.side)) && s.occupancies[Both] * CastlePath(moveType, s.side) == {}
    then [Move(KingHome(s.side), KingHome(s.side) + (if moveType == king_castle then 2 else -2), moveType, PieceOf(K, s.side))]
    else []
  }

  /** The king's moves, then king-side and queen-side castling. */
  function KingMoves(t: AttackTables, s: BoardState): seq<Move>
    requires TableShape(t) && WellFormed(s)
  {
    KindMoves(t, s, K) + CastleMove(s, king_castle) + CastleMove(s, queen_castle)
  }

  /**
   * A castling move is listed exactly when the mover holds that right and
   * every square between its king's home and the rook's corner is empty;
   * the king goes two squares towards the rook.
   */
  lemma CastleMovesMean(s: BoardState, m: Move)
    requires WellFormed(s)
    ensures m in CastleMove(s, king_castle) + CastleMove(s, queen_castle) <==>
      && (m.Type == king_castle || m.Type == queen_castle)
      && HasRight(s.castle, CastleFlag(m.Type, s.side))
      && (forall x :: x in CastlePath(m.Type, s.side) ==> x !in s.occupancies[Both])
      && m.From == KingHome(s.side) && m.To == KingHome(s.side) + (if m.Type == king_castle then 2 else -2)
      && m.Piece == PieceOf(K, s.side)
  {
    DisjointMeans(s.occupancies[Both], CastlePath(king_castle, s.side));
    DisjointMeans(s.occupancies[Both], CastlePath(queen_castle, s.side));
    var k, q := CastleMove(s, king_castle), CastleMove(s, queen_castle);
    assert m in k + q <==> m in k || m in q;
  }

  /**
   * `GenerateKingMoves`: the king's moves, then castling. The king loop runs
   * its body before testing the bitboard, so the side must have a king.
   */
  method GenerateKingMoves(list: MoveList, board: Board, t: AttackTables)
    requires list.Valid() && TableShape(t) && WellFormed(board.State())
    requires board.bitboards[PieceOf(K, board.side)] != {}
    modifies list`count, list.moves
    ensures list.Valid()
    ensures list.Contents() == Appended(old(list.Contents()), KingMoves(t, board.State()))
  {
    ghost var s := board.State();
    ghost var start := list.Contents();
    GeneratePieceMoves(list, board, t, K);
    AddCastle(list, board, king_castle);
    AppendedTwice(start, KindMoves(t, s, K), CastleMove(s, king_castle));
    AddCastle(list, board, queen_castle);
    AppendedTwice(start, KindMoves(t, s, K) + CastleMove(s, king_castle), CastleMove(s, queen_castle));
  }

  /** One of the castling tests closing `GenerateKingMoves`: the right is held and the path is empty. */
  method AddCastle(list: MoveList, board: Board, moveType: int)
    requires list.Valid() && WellFormed(board.State())
    requires moveType == king_castle || moveType == queen_castle
    modifies list`count, list.moves
    ensures list.Valid()
    ensures list.Contents() == Appended(old(list.Contents()), CastleMove(board.State(), moveType))
  {
    var side := board.side;
    var flag := if side == White then (if moveType == king_castle then WhiteKingCastle else WhiteQueenCastle)
      else (if moveType == king_castle then BlackKingCastle else BlackQueenCastle);
    var path := if side == White then (if moveType == king_castle then WhiteKingCastleEmpty else WhiteQueenCastleEmpty)
      else (if moveType == king_castle then BlackKingCastleEmpty else BlackQueenCastleEmpty);
    var home := if side == White then E1 else E8;
    var piece := GetPiece(BK, side);
    assert piece == PieceOf(K, side);
    if BitAnd(board.castle, flag) != 0 && board.occupancies[Both] * path == {} {
      Push(list, Move(home, if moveType == king_castle then home + 2 else home - 2, moveType, piece));
    } else {
      AppendedNothing(list.Contents());
    }
  }

  // ------------------------------------------------------------------ pawns

  /** The square `rows` rows ahead of `from` for `side` (up the board for White), which may be off the board. */
  function Step(side: int, from: int, rows: int): int
  {
    if side == White then from - 8 * rows else from + 8 * rows
  }

  /** `currPawnBB >> 8` and `>> 16` for White, `<< 8` and `<< 16` for Black: the square ahead, or none past the edge. */
  function Ahead(side: int, from: int, rows: int): (b: Bitboard)
    ensures OnBoard(b)
  {
    var to := Step(side, from, rows);
    if 0 <= to < 64 then {to} else {}
  }

  /** `promotionSquare` holds `sq`: the rank from which a pawn's step promotes (the seventh for White, the second for Black). */
  predicate PromotionRank(side: int, sq: int)
  {
    if side == White then 8 <= sq < 16 else 48 <= sq < 56
  }

  /** `doublePushSquare` holds `sq`: the pawns' starting rank. */
  predicate StartRank(side: int, sq: int)
  {
    if side == White then 48 <= sq < 56 else 8 <= sq < 16
  }

  const PromoCodes: seq<int> := [knight_promo, bishop_promo, rook_promo, queen_promo]
  const PromoCaptureCodes: seq<int> := [knight_promo_capture, bishop_promo_capture, rook_promo_capture, queen_promo_capture]

  /** The moves to `targets` that all carry the codes `codes`. */
  function CodedMoves(from: int, targets: Bitboard, codes: seq<int>, piece: int): seq<Move>
    requires OnBoard(targets)
  {
    TargetMoves(from, targets, {}, codes, codes, piece)
  }

  /** The squares one and two steps ahead that are empty, the second only when the first is and the pawn is on its starting rank. */
  function OnePush(s: BoardState, from: int): (b: Bitboard)
    requires WellFormed(s)
    ensures OnBoard(b)
  {
    Ahead(s.side, from, 1) * Complement(s.occupancies[Both])
  }

  function TwoPush(s: BoardState, from: int): (b: Bitboard)
    requires WellFormed(s)
    ensures OnBoard(b)
  {
    if OnePush(s, from) != {} && StartRank(s.side, from) then Ahead(s.side, from, 2) * Complement(s.occupancies[Both]) else {}
  }

  /** The pawn's diagonal targets holding a piece of the other side. */
  function PawnCaptures(t: AttackTables, s: BoardState, from: int): (b: Bitboard)
    requires TableShape(t) && WellFormed(s) && 0 <= from < 64
    ensures OnBoard(b)
  {
    t.pawn[s.side][from] * s.occupancies[1 - s.side]
  }

  /** The en-passant square, when there is one and the pawn attacks it. */
  function EpTarget(t: AttackTables, s: BoardState, from: int): (b: Bitboard)
    requires TableShape(t) && WellFormed(s) && 0 <= from < 64
    ensures OnBoard(b)
  {
    if s.enpassent != NO_SQ then t.pawn[s.side][from] * {s.enpassent} else {}
  }

  /**
   * The moves of one pawn: from the promotion rank, the four promotions
   * onto the empty square ahead and the four promotion captures onto each
   * attacked enemy square; elsewhere the single push, the double push, the
   * captures and the en-passant capture.
   */
  function PawnMovesFrom(t: AttackTables, s: BoardState, from: int): seq<Move>
    requires TableShape(t) && WellFormed(s) && 0 <= from < 64
  {
    var pawn := PieceOf(P, s.side);
    if PromotionRank(s.side, from) then
      CodedMoves(from, OnePush(s, from), PromoCodes, pawn) + CodedMoves(from, PawnCaptures(t, s, from), PromoCaptureCodes, pawn)
    else
      CodedMoves(from, OnePush(s, from), [quiet_move], pawn) + CodedMoves(from, TwoPush(s, from), [double_pawn_push], pawn)
      + CodedMoves(from, PawnCaptures(t, s, from), [capture], pawn) + CodedMoves(from, EpTarget(t, s, from), [ep_capture], pawn)
  }

  /** The moves of the pawns on the squares of `pawns`, lowest first. */
  function PawnMoves(t: AttackTables, s: BoardState, pawns: Bitboard): seq<Move>
    requires TableShape(t) && WellFormed(s) && OnBoard(pawns)
    decreases |pawns|
  {
    if pawns == {} then []
    else
      var from := Ls1b(pawns);
      PawnMovesFrom(t, s, from) + PawnMoves(t, s, pawns - {from})
  }

  /** The square `x` exists and is empty. */
  predicate Free(s: BoardState, x: int)
    requires WellFormed(s)
  {
    0 <= x < 64 && x !in s.occupancies[Both]
  }

  /**
   * The pawn rules the generator follows, for a pawn of the side to move on
   * `from`: a pawn on the rank before promotion promotes (to knight, bishop,
   * rook or queen) by stepping onto the empty square ahead or by capturing
   * diagonally forward; any other pawn steps onto the empty square ahead,
   * from its starting rank also two squares over two empty ones, captures
   * diagonally forward, or captures en passant onto the en-passant square it
   * attacks.
   */
  predicate PawnRule(s: BoardState, from: int, m: Move)
    requires WellFormed(s) && 0 <= from < 64
  {
    var side := s.side;
    var one, two := Step(side, from, 1), Step(side, from, 2);
    var diagonal := m.To in PawnAttacks(side, from);
    && m.From == from && m.Piece == PieceOf(P, side)
    && if PromotionRank(side, from) then
         || (m.Type in PromoCodes && m.To == one && Free(s, one))
         || (m.Type in PromoCaptureCodes && diagonal && m.To in s.occupancies[1 - side])
       else
         || (m.Type == quiet_move && m.To == one && Free(s, one))
         || (m.Type == double_pawn_push && StartRank(side, from) && Free(s, one) && m.To == two && Free(s, two))
         || (m.Type == capture && diagonal && m.To in s.occupancies[1 - side])
         || (m.Type == ep_capture && s.enpassent != NO_SQ && m.To == s.enpassent && diagonal)
  }

  /** The square ahead is a push target exactly when it exists and is empty. */
  lemma AheadMean(s: BoardState, from: int, rows: int, x: int)
    requires WellFormed(s)
    ensures x in Ahead(s.side, from, rows) * Complement(s.occupancies[Both]) <==> x == Step(s.side, from, rows) && Free(s, x)
  {
  }

  /** With the tables filled, a pawn's capture lookup is its diagonal attack pattern. */
  lemma PawnLookup(t: AttackTables, side: int, from: int)
    requires TablesReady(t) && IsColour(side) && 0 <= from < 64
    ensures t.pawn[side][from] == PawnAttacks(side, from)
  {
    assert t.pawn[White][from] == WhitePawnAt(from) && t.pawn[Black][from] == BlackPawnAt(from);
  }

  /** One pawn's listed moves are exactly those its rules allow. */
  lemma PawnMovesFromMean(t: AttackTables, s: BoardState, from: int, m: Move)
    requires TablesReady(t) && WellFormed(s) && 0 <= from < 64
    ensures m in PawnMovesFrom(t, s, from) <==> PawnRule(s, from, m)
  {
    PawnLookup(t, s.side, from);
    AheadMean(s, from, 1, m.To);
    if PromotionRank(s.side, from) {
      PromotionMovesMean(t, s, from, m);
    } else {
      AheadMean(s, from, 2, m.To);
      PlainPawnMovesMean(t, s, from, m);
    }
  }

  lemma PromotionMovesMean(t: AttackTables, s: BoardState, from: int, m: Move)
    requires TableShape(t) && WellFormed(s) && 0 <= from < 64 && PromotionRank(s.side, from)
    requires t.pawn[s.side][from] == PawnAttacks(s.side, from)
    requires m.To in OnePush(s, from) <==> m.To == Step(s.side, from, 1) && Free(s, m.To)
    ensures m in PawnMovesFrom(t, s, from) <==> PawnRule(s, from, m)
  {
    var pawn := PieceOf(P, s.side);
    TargetMovesMean(from, OnePush(s, from), {}, PromoCodes, PromoCodes, pawn, m);
    TargetMovesMean(from, PawnCaptures(t, s, from), {}, PromoCaptureCodes, PromoCaptureCodes, pawn, m);
  }

  lemma PlainPawnMovesMean(t: AttackTables, s: BoardState, from: int, m: Move)
    requires TableShape(t) && WellFormed(s) && 0 <= from < 64 && !PromotionRank(s.side, from)
    requires t.pawn[s.side][from] == PawnAttacks(s.side, from)
    requires m.To in OnePush(s, from) <==> m.To == Step(s.side, from, 1) && Free(s, m.To)
    requires m.To in Ahead(s.side, from, 2) * Complement(s.occupancies[Both]) <==> m.To == Step(s.side, from, 2) && Free(s, m.To)
    ensures m in PawnMovesFrom(t, s, from) <==> PawnRule(s, from, m)
  {
    var pawn := PieceOf(P, s.side);
    var one := Step(s.side, from, 1);
    assert OnePush(s, from) != {} <==> Free(s, one) by {
      AheadMean(s, from, 1, one);
    }
    TargetMovesMean(from, OnePush(s, from), {}, [quiet_move], [quiet_move], pawn, m);
    TargetMovesMean(from, TwoPush(s, from), {}, [double_pawn_push], [double_pawn_push], pawn, m);
    TargetMovesMean(from, PawnCaptures(t, s, from), {}, [capture], [capture], pawn, m);
    TargetMovesMean(from, EpTarget(t, s, from), {}, [ep_capture], [ep_capture], pawn, m);
  }

  /** A move is listed for `pawns` exactly when it is one pawn's move by the rules. */
  lemma {:induction false} PawnMovesMean(t: AttackTables, s: BoardState, pawns: Bitboard, m: Move)
    requires TablesReady(t) && WellFormed(s) && OnBoard(pawns)
    ensures m in PawnMoves(t, s, pawns) <==> m.From in pawns && PawnRule(s, m.From, m)
    decreases |pawns|
  {
    if pawns != {} {
      var from := Ls1b(pawns);
      PawnMovesMean(t, s, pawns - {from}, m);
      PawnMovesFromMean(t, s, from, m);
    }
  }

  /** The branches of `GeneratePawnMoves` for the pawn on `from`. */
  method AddPawnMoves(list: MoveList, board: Board, t: AttackTables, from: int)
    requires list.Valid() && TableShape(t) && WellFormed(board.State()) && 0 <= from < 64
    modifies list`count, list.moves
    ensures list.Valid()
    ensures list.Contents() == Appended(old(list.Contents()), PawnMovesFrom(t, board.State(), from))
  {
    ghost var s := board.State();
    var side := board.side;
    var piece := GetPiece(BP, side);
    assert piece == PieceOf(P, side);
    var forward := Ahead(side, from, 1);
    var captureMask := t.pawn[side][from];
    var onePush := forward * Complement(board.occupancies[Both]);
    var captures := captureMask * board.occupancies[1 - side];
    assert onePush == OnePush(s, from) && captures == PawnCaptures(t, s, from);
    if PromotionRank(side, from) {
      AddPromotions(list, from, onePush, captures, piece);
    } else {
      var twoPush: Bitboard := {};
      if onePush != {} && StartRank(side, from) {
        twoPush := Ahead(side, from, 2) * Complement(board.occupancies[Both]);
      }
      var ep: Bitboard := {};
      if board.enpassent != NO_SQ {
        ep := captureMask * {board.enpassent};
      }
      assert twoPush == TwoPush(s, from) && ep == EpTarget(t, s, from);
      AddPawnSteps(list, from, onePush, twoPush, captures, ep, piece);
    }
  }

  /** The promotion branch: the four promotions onto the square ahead, then the four promotion captures. */
  method AddPromotions(list: MoveList, from: int, onePush: Bitboard, captures: Bitboard, piece: int)
    requires list.Valid() && OnBoard(onePush) && OnBoard(captures)
    modifies list`count, list.moves
    ensures list.Valid()
    ensures list.Contents() == Appended(old(list.Contents()),
      CodedMoves(from, onePush, PromoCodes, piece) + CodedMoves(from, captures, PromoCaptureCodes, piece))
  {
    ghost var start := list.Contents();
    AddTargets(list, from, onePush, {}, PromoCodes, PromoCodes, piece);
    AddTargets(list, from, captures, {}, PromoCaptureCodes, PromoCaptureCodes, piece);
    AppendedTwice(start, CodedMoves(from, onePush, PromoCodes, piece), CodedMoves(from, captures, PromoCaptureCodes, piece));
  }

  /** The other branch: the single push, the double push, the captures and the en-passant capture. */
  method AddPawnSteps(list: MoveList, from: int, onePush: Bitboard, twoPush: Bitboard, captures: Bitboard, ep: Bitboard, piece: int)
    requires list.Valid() && OnBoard(onePush) && OnBoard(twoPush) && OnBoard(captures) && OnBoard(ep)
    modifies list`count, list.moves
    ensures list.Valid()
    ensures list.Contents() == Appended(old(list.Contents()),
      CodedMoves(from, onePush, [quiet_move], piece) + CodedMoves(from, twoPush, [double_pawn_push], piece)
      + CodedMoves(from, captures, [capture], piece) + CodedMoves(from, ep, [ep_capture], piece))
  {
    ghost var start := list.Contents();
    ghost var l1 := CodedMoves(from, onePush, [quiet_move], piece);
    ghost var l2 := CodedMoves(from, twoPush, [double_pawn_push], piece);
    ghost var l3 := CodedMoves(from, captures, [capture], piece);
    ghost var l4 := CodedMoves(from, ep, [ep_capture], piece);
    AddTargets(list, from, onePush, {}, [quiet_move], [quiet_move], piece);
    AddTargets(list, from, twoPush, {}, [double_pawn_push], [double_pawn_push], piece);
    AppendedTwice(start, l1, l2);
    AddTargets(list, from, captures, {}, [capture], [capture], piece);
    AppendedTwice(start, l1 + l2, l3);
    AddTargets(list, from, ep, {}, [ep_capture], [ep_capture], piece);
    AppendedTwice(start, l1 + l2 + l3, l4);
  }

  /** `GeneratePawnMoves`: pop the pawns lowest first and add each one's moves. */
  method GeneratePawnMoves(list: MoveList, board: Board, t: AttackTables)
    requires list.Valid() && TableShape(t) && WellFormed(board.State())
    modifies list`count, list.moves
    ensures list.Valid()
    ensures list.Contents() == Appended(old(list.Contents()), PawnMoves(t, board.State(), board.bitboards[PieceOf(P, board.side)]))
  {
    ghost var s := board.State();
    var pawns := if board.side == White then board.bitboards[P] else board.bitboards[BP];
    ghost var all := pawns;
    ghost var start := list.Contents();
    while pawns != {}
      invariant list.Valid() && OnBoard(pawns)
      invariant Appended(list.Contents(), PawnMoves(t, s, pawns)) == Appended(start, PawnMoves(t, s, all))
      decreases |pawns|
    {
      var from := Ls1b(pawns);
      ghost var before := list.Contents();
      AddPawnMoves(list, board, t, from);
      AppendedTwice(before, PawnMovesFrom(t, s, from), PawnMoves(t, s, pawns - {from}));
      pawns := pawns - {from};
    }
    AppendedNothing(list.Contents());
  }

  // --------------------------------------------------------- the full list

  /** The list `GeneratePseudoLegalMoves` builds: queens, rooks, knights, bishops, pawns, then the king and castling. */
  function PseudoLegalMoves(t: AttackTables, s: BoardState): seq<Move>
    requires TableShape(t) && WellFormed(s)
  {
    KindMoves(t, s, Q) + KindMoves(t, s, R) + KindMoves(t, s, N) + KindMoves(t, s, B)
    + PawnMoves(t, s, s.bitboards[PieceOf(P, s.side)]) + KingMoves(t, s)
  }

  /** `GeneratePseudoLegalMoves`: clear the list, then run the generators in the engine's order. */
  method GeneratePseudoLegalMoves(list: MoveList, board: Board, t: AttackTables)
    requires list.Valid() && TableShape(t) && WellFormed(board.State())
    requires board.bitboards[PieceOf(K, board.side)] != {}
    modifies list`count, list.moves
    ensures list.Valid()
    ensures list.Contents() == Appended([], PseudoLegalMoves(t, board.State()))
  {
    ghost var s := board.State();
    list.Clear();
    GeneratePieceMoves(list, board, t, Q);
    ghost var l := KindMoves(t, s, Q);
    GeneratePieceMoves(list, board, t, R);
    AppendedTwice([], l, KindMoves(t, s, R));
    l := l + KindMoves(t, s, R);
    GeneratePieceMoves(list, board, t, N);
    AppendedTwice([], l, KindMoves(t, s, N));
    l := l + KindMoves(t, s, N);
    GeneratePieceMoves(list, board, t, B);
    AppendedTwice([], l, KindMoves(t, s, B));
    l := l + KindMoves(t, s, B);
    GeneratePawnMoves(list, board, t);
    AppendedTwice([], l, PawnMoves(t, s, s.bitboards[PieceOf(P, s.side)]));
    l := l + PawnMoves(t, s, s.bitboards[PieceOf(P, s.side)]);
    GenerateKingMoves(list, board, t);
    AppendedTwice([], l, KingMoves(t, s));
  }

  // ------------------------------------------------ what the moves satisfy

  /** No piece attacks its own square. */
  lemma ReachExcludesOrigin(kind: int, sq: int, occupancy: Bitboard)
    requires 0 <= sq < 64
    ensures sq !in Reach(kind, sq, occupancy)
  {
    if kind == K {
      KingAttacksAreNeighbours(sq, sq);
    } else if kind == N {
      KnightAttacksAreJumps(sq, sq);
      assert RowDelta(sq, sq) == 0;
    } else {
      SlidersExcludeOrigin(sq, occupancy);
    }
  }

  /** Where the placements agree, the mailbox holds piece `p` on a square of `p`'s bitboard. */
  lemma BitboardMailbox(s: BoardState, p: int, x: int)
    requires WellFormed(s) && Agrees(s.bitboards, s.occupancies, s.mailbox) && 0 <= p < 12 && x in s.bitboards[p]
    ensures s.mailbox[x] == p
  {
    assert 0 <= x < 64;
  }

  /** Where the placements agree, the mailbox is empty off both occupancies and holds an enemy piece on the other side's. */
  lemma OccupancyMailbox(s: BoardState, x: int)
    requires WellFormed(s) && Agrees(s.bitboards, s.occupancies, s.mailbox) && 0 <= x < 64
    ensures x !in s.occupancies[White] && x !in s.occupancies[Black] ==> s.mailbox[x] == NO_PIECE
    ensures x in s.occupancies[1 - s.side] ==> IsPiece(s.mailbox[x]) && ColourOf(s.mailbox[x]) == 1 - s.side
  {
  }

  /** The facts about a move's two squares that `MoveFits` asks of it. */
  predicate Landing(s: BoardState, m: Move)
    requires WellFormed(s)
  {
    && 0 <= m.From < 64 && 0 <= m.To < 64 && m.From != m.To
    && IsPiece(m.Piece) && ColourOf(m.Piece) == s.side && s.mailbox[m.From] == m.Piece
  }

  /** A generated move of a knight, bishop, rook, queen or king is one `MakeMove` is specified for. */
  lemma KindMoveFits(t: AttackTables, s: BoardState, kind: int, m: Move)
    requires TablesReady(t) && WellFormed(s) && Agrees(s.bitboards, s.occupancies, s.mailbox) && kind in {N, B, R, Q, K}
    requires m in KindMoves(t, s, kind)
    ensures MoveFits(s.mailbox, m, s.side)
  {
    KindLanding(t, s, kind, m);
    OccupancyMailbox(s, m.To);
    if m.To in s.occupancies[1 - s.side] {
      CaptureFits(s, m);
    } else {
      assert m.To !in s.occupancies[White] && m.To !in s.occupancies[Black];
      StepFits(s, m);
    }
  }

  /** A generated move of a piece leaves a square holding it for another square, quietly exactly when the target is not the other side's. */
  lemma KindLanding(t: AttackTables, s: BoardState, kind: int, m: Move)
    requires TablesReady(t) && WellFormed(s) && Agrees(s.bitboards, s.occupancies, s.mailbox) && kind in {N, B, R, Q, K}
    requires m in KindMoves(t, s, kind)
    ensures Landing(s, m) && m.To !in s.occupancies[s.side]
    ensures m.Type == (if m.To in s.occupancies[1 - s.side] then capture else quiet_move)
  {
    KindMovesMean(t, s, kind, m);
    ReachExcludesOrigin(kind, m.From, s.occupancies[Both]);
    BitboardMailbox(s, PieceOf(kind, s.side), m.From);
  }

  /** A generated pawn move other than en passant is one `MakeMove` is specified for. */
  lemma PawnMoveFits(t: AttackTables, s: BoardState, m: Move)
    requires TablesReady(t) && WellFormed(s) && Agrees(s.bitboards, s.occupancies, s.mailbox)
    requires m in PawnMoves(t, s, s.bitboards[PieceOf(P, s.side)]) && m.Type != ep_capture
    ensures MoveFits(s.mailbox, m, s.side)
  {
    PawnMovesMean(t, s, s.bitboards[PieceOf(P, s.side)], m);
    BitboardMailbox(s, PieceOf(P, s.side), m.From);
    PawnRuleFits(s, m);
  }

  /** A move by the pawn rules, from a square holding the pawn, fits. */
  lemma PawnRuleFits(s: BoardState, m: Move)
    requires WellFormed(s) && Agrees(s.bitboards, s.occupancies, s.mailbox) && 0 <= m.From < 64
    requires PawnRule(s, m.From, m) && m.Type != ep_capture
    requires s.mailbox[m.From] == PieceOf(P, s.side)
    ensures MoveFits(s.mailbox, m, s.side)
  {
    var side := s.side;
    if m.To in PawnAttacks(side, m.From) {
      PawnAttacksAreDiagonal(side, m.From, m.To);
    }
    OccupancyMailbox(s, m.To);
    assert Landing(s, m);
    if m.To in PawnAttacks(side, m.From) && m.To in s.occupancies[1 - side] {
      CaptureFits(s, m);
    } else {
      assert m.Type in PromoCodes || m.Type == quiet_move || m.Type == double_pawn_push;
      StepFits(s, m);
    }
  }

  /** A capture, or a pawn's promotion capture, onto an enemy piece fits. */
  lemma CaptureFits(s: BoardState, m: Move)
    requires WellFormed(s) && Landing(s, m)
    requires m.Type == capture || (m.Type in PromoCaptureCodes && m.Piece == PieceOf(P, s.side))
    requires IsPiece(s.mailbox[m.To]) && ColourOf(s.mailbox[m.To]) == 1 - s.side
    ensures MoveFits(s.mailbox, m, s.side)
  {
  }

  /** A quiet move, or a pawn's promotion or double push, onto an empty square fits. */
  lemma StepFits(s: BoardState, m: Move)
    requires WellFormed(s) && Landing(s, m)
    requires m.Type == quiet_move
      || (m.Piece == PieceOf(P, s.side) && (m.Type in PromoCodes || (m.Type == double_pawn_push && m.To == Step(s.side, m.From, 2))))
    requires s.mailbox[m.To] == NO_PIECE
    ensures MoveFits(s.mailbox, m, s.side)
  {
  }

  /**
   * Every move `GeneratePseudoLegalMoves` lists on a consistent board, apart
   * from castling and en passant, is one `MakeMove` is specified for: the
   * moving piece of the side to move stands on `From`, and the target is
   * empty for a quiet move, push or promotion and holds an enemy piece for a
   * capture. (Castling rights and the en-passant square do not promise the
   * rook in its corner or the pawn behind the square, which `MakeMove`
   * needs.)
   */
  lemma GeneratedMovesFit(t: AttackTables, s: BoardState, m: Move)
    requires TablesReady(t) && WellFormed(s) && Consistent(s)
    requires m in PseudoLegalMoves(t, s) && m.Type !in {king_castle, queen_castle, ep_capture}
    ensures MoveFits(s.mailbox, m, s.side)
  {
    ConsistentAgrees(s);
    if m in KindMoves(t, s, Q) {
      KindMoveFits(t, s, Q, m);
    } else if m in KindMoves(t, s, R) {
      KindMoveFits(t, s, R, m);
    } else if m in KindMoves(t, s, N) {
      KindMoveFits(t, s, N, m);
    } else if m in KindMoves(t, s, B) {
      KindMoveFits(t, s, B, m);
    } else if m in PawnMoves(t, s, s.bitboards[PieceOf(P, s.side)]) {
      PawnMoveFits(t, s, m);
    } else {
      assert m in KindMoves(t, s, K) || m in CastleMove(s, king_castle) + CastleMove(s, queen_castle);
      CastleMovesMean(s, m);
      KindMoveFits(t, s, K, m);
    }
  }
}
