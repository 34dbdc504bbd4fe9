// Attack queries and the legality test of Movegen.cpp: `IsSquareAttacked`
// (is a square attacked by a side), `GetAttackedSquares` (every square a
// side attacks), `isLegal` (does the move just made leave the mover's king
// safe), `is_in_check` and `IsOnlyKingPawn`.
//
// The attack lookups are the tables of `Attacks`; the facts about what the
// pieces attack assume, as there, that the magic lookups agree with the ray
// walks and that the leaper tables have been filled.

module Legality {
  import opened Bitboards
  import opened Consts
  import opened Attacks
  import opened Chessboard
  import opened Placement
  import opened Moves

  /** Every bitboard of a piece list is on the board. */
  predicate PiecesOnBoard(bbs: seq<Bitboard>)
  {
    |bbs| == 12 && forall p :: 0 <= p < 12 ==> OnBoard(bbs[p])
  }

  /** The lookups answer as the ray walks and the leaper attack functions do. */
  ghost predicate TablesReady(t: AttackTables)
  {
    TableShape(t) && LeapersReady(t) && SlidersAgree(t)
  }

  /** The code of `kind` for `side`: the source's `side == White ? X : x` choices (and `get_piece(K, c)` in `isLegal`). */
  function PieceOf(kind: int, side: int): (p: int)
    requires 0 <= kind < 6 && IsColour(side)
    ensures 0 <= p < 12
  {
    if side == White then kind else kind + 6
  }

  /**
   * `IsSquareAttacked`: some piece of `side` attacks `square`, the sliders
   * seeing through `occupancy`. The kinds are tried in the source's order:
   * bishop or queen on a diagonal, rook or queen on a line, knight, pawn
   * (looked up from the attacked square with the other side's pawn table),
   * king.
   */
  function IsSquareAttacked(t: AttackTables, bbs: seq<Bitboard>, square: int, side: int, occupancy: Bitboard): bool
    requires TableShape(t) && |bbs| == 12 && 0 <= square < 64 && IsColour(side)
  {
    var bishop, rook, queen := PieceOf(B, side), PieceOf(R, side), PieceOf(Q, side);
    var knight, king, pawn := PieceOf(N, side), PieceOf(K, side), PieceOf(P, side);
    if t.bishop(square, occupancy) * (bbs[bishop] + bbs[queen]) != {} then true
    else if t.rook(square, occupancy) * (bbs[rook] + bbs[queen]) != {} then true
    else if t.knight[square] * bbs[knight] != {} then true
    else if t.pawn[1 - side][square] * bbs[pawn] != {} then true
    else t.king[square] * bbs[king] != {}
  }

  /** A pawn of `side` attacks `square` diagonally forward. */
  predicate PawnAttacker(bbs: seq<Bitboard>, side: int, square: int)
    requires |bbs| == 12 && IsColour(side)
  {
    exists x :: 0 <= x < 64 && x in bbs[PieceOf(P, side)] && square in PawnAttacks(side, x)
  }

  /** A knight of `side` attacks `square` by its jump. */
  predicate KnightAttacker(bbs: seq<Bitboard>, side: int, square: int)
    requires |bbs| == 12 && IsColour(side)
  {
    exists x :: 0 <= x < 64 && x in bbs[PieceOf(N, side)] && square in KnightAttacks(x)
  }

  /** A bishop or queen of `side` attacks `square` along a diagonal clear of `occupancy`. */
  predicate DiagonalAttacker(bbs: seq<Bitboard>, side: int, square: int, occupancy: Bitboard)
    requires |bbs| == 12 && IsColour(side)
  {
    exists x :: 0 <= x < 64 && x in bbs[PieceOf(B, side)] + bbs[PieceOf(Q, side)] && square in BishopAttacks(x, occupancy)
  }

  /** A rook or queen of `side` attacks `square` along a rank or file clear of `occupancy`. */
  predicate LineAttacker(bbs: seq<Bitboard>, side: int, square: int, occupancy: Bitboard)
    requires |bbs| == 12 && IsColour(side)
  {
    exists x :: 0 <= x < 64 && x in bbs[PieceOf(R, side)] + bbs[PieceOf(Q, side)] && square in RookAttacks(x, occupancy)
  }

  /** A king of `side` stands next to `square`. */
  predicate KingAttacker(bbs: seq<Bitboard>, side: int, square: int)
    requires |bbs| == 12 && IsColour(side)
  {
    exists x :: 0 <= x < 64 && x in bbs[PieceOf(K, side)] && square in KingAttacks(x)
  }

  /** Some piece of `side` attacks `square`, each kind by its own geometry. */
  predicate AttackedBy(bbs: seq<Bitboard>, side: int, square: int, occupancy: Bitboard)
    requires |bbs| == 12 && IsColour(side)
  {
    || PawnAttacker(bbs, side, square) || KnightAttacker(bbs, side, square)
    || DiagonalAttacker(bbs, side, square, occupancy) || LineAttacker(bbs, side, square, occupancy)
    || KingAttacker(bbs, side, square)
  }

  /** The pieces of `side` that `IsSquareAttacked` looks up from `square`, kind by kind. */
  function FoundSet(t: AttackTables, bbs: seq<Bitboard>, square: int, side: int, occupancy: Bitboard): Bitboard
    requires TableShape(t) && |bbs| == 12 && 0 <= square < 64 && IsColour(side)
  {
    t.bishop(square, occupancy) * (bbs[PieceOf(B, side)] + bbs[PieceOf(Q, side)])
    + t.rook(square, occupancy) * (bbs[PieceOf(R, side)] + bbs[PieceOf(Q, side)])
    + t.knight[square] * bbs[PieceOf(N, side)]
    + t.pawn[1 - side][square] * bbs[PieceOf(P, side)]
    + t.king[square] * bbs[PieceOf(K, side)]
  }

  /** `IsSquareAttacked` finds something exactly when the set it looks up is not empty, and that set is on the board. */
  lemma {:induction false} FoundSetShape(t: AttackTables, bbs: seq<Bitboard>, square: int, side: int, occupancy: Bitboard)
    requires TableShape(t) && PiecesOnBoard(bbs) && 0 <= square < 64 && IsColour(side)
    ensures IsSquareAttacked(t, bbs, square, side, occupancy) <==> FoundSet(t, bbs, square, side, occupancy) != {}
    ensures OnBoard(FoundSet(t, bbs, square, side, occupancy))
  {
    assert OnBoard(bbs[PieceOf(B, side)]) && OnBoard(bbs[PieceOf(Q, side)]) && OnBoard(bbs[PieceOf(R, side)]);
    assert OnBoard(bbs[PieceOf(N, side)]) && OnBoard(bbs[PieceOf(P, side)]) && OnBoard(bbs[PieceOf(K, side)]);
  }

  /** The diagonal lookup from `square` meets a bishop or queen of `side` exactly when one of them attacks `square`. */
  lemma {:induction false} DiagonalFound(t: AttackTables, bbs: seq<Bitboard>, side: int, square: int, occupancy: Bitboard)
    requires SlidersAgree(t) && PiecesOnBoard(bbs) && IsColour(side) && 0 <= square < 64
    ensures t.bishop(square, occupancy) * (bbs[PieceOf(B, side)] + bbs[PieceOf(Q, side)]) != {}
            <==> DiagonalAttacker(bbs, side, square, occupancy)
  {
    var pieces := bbs[PieceOf(B, side)] + bbs[PieceOf(Q, side)];
    assert OnBoard(bbs[PieceOf(B, side)]) && OnBoard(bbs[PieceOf(Q, side)]);
    var found := t.bishop(square, occupancy) * pieces;
    if found != {} {
      assert OnBoard(found);
      var x := Ls1b(found);
      SlidersSeen(t, square, x, occupancy);
    }
    if DiagonalAttacker(bbs, side, square, occupancy) {
      var x :| 0 <= x < 64 && x in bbs[PieceOf(B, side)] + bbs[PieceOf(Q, side)] && square in BishopAttacks(x, occupancy);
      SlidersSeen(t, square, x, occupancy);
      assert x in found;
    }
  }

  /** The line lookup from `square` meets a rook or queen of `side` exactly when one of them attacks `square`. */
  lemma {:induction false} LineFound(t: AttackTables, bbs: seq<Bitboard>, side: int, square: int, occupancy: Bitboard)
    requires SlidersAgree(t) && PiecesOnBoard(bbs) && IsColour(side) && 0 <= square < 64
    ensures t.rook(square, occupancy) * (bbs[PieceOf(R, side)] + bbs[PieceOf(Q, side)]) != {}
            <==> LineAttacker(bbs, side, square, occupancy)
  {
    var pieces := bbs[PieceOf(R, side)] + bbs[PieceOf(Q, side)];
    assert OnBoard(bbs[PieceOf(R, side)]) && OnBoard(bbs[PieceOf(Q, side)]);
    var found := t.rook(square, occupancy) * pieces;
    if found != {} {
      assert OnBoard(found);
      var x := Ls1b(found);
      SlidersSeen(t, square, x, occupancy);
    }
    if LineAttacker(bbs, side, square, occupancy) {
      var x :| 0 <= x < 64 && x in bbs[PieceOf(R, side)] + bbs[PieceOf(Q, side)] && square in RookAttacks(x, occupancy);
      SlidersSeen(t, square, x, occupancy);
      assert x in found;
    }
  }

  /** The knight entry of `square` meets a knight of `side` exactly when one of them attacks `square`. */
  lemma {:induction false} KnightFound(t: AttackTables, bbs: seq<Bitboard>, side: int, square: int)
    requires TableShape(t) && LeapersReady(t) && PiecesOnBoard(bbs) && IsColour(side) && 0 <= square < 64
    ensures t.knight[square] * bbs[PieceOf(N, side)] != {} <==> KnightAttacker(bbs, side, square)
  {
    var pieces := bbs[PieceOf(N, side)];
    assert OnBoard(pieces);
    if t.knight[square] * pieces != {} {
      var x :| x in t.knight[square] * pieces;
      LeapersSeen(t, square, x);
    }
    if KnightAttacker(bbs, side, square) {
      var x :| 0 <= x < 64 && x in pieces && square in KnightAttacks(x);
      LeapersSeen(t, square, x);
      assert x in t.knight[square] * pieces;
    }
  }

  /** The king entry of `square` meets a king of `side` exactly when one of them stands next to `square`. */
  lemma {:induction false} KingFound(t: AttackTables, bbs: seq<Bitboard>, side: int, square: int)
    requires TableShape(t) && LeapersReady(t) && PiecesOnBoard(bbs) && IsColour(side) && 0 <= square < 64
    ensures t.king[square] * bbs[PieceOf(K, side)] != {} <==> KingAttacker(bbs, side, square)
  {
    var pieces := bbs[PieceOf(K, side)];
    assert OnBoard(pieces);
    if t.king[square] * pieces != {} {
      var x :| x in t.king[square] * pieces;
      LeapersSeen(t, square, x);
    }
    if KingAttacker(bbs, side, square) {
      var x :| 0 <= x < 64 && x in pieces && square in KingAttacks(x);
      LeapersSeen(t, square, x);
      assert x in t.king[square] * pieces;
    }
  }

  /** The other colour's pawn entry of `square` meets a pawn of `side` exactly when one of them attacks `square`. */
  lemma {:induction false} PawnFound(t: AttackTables, bbs: seq<Bitboard>, side: int, square: int)
    requires TableShape(t) && LeapersReady(t) && PiecesOnBoard(bbs) && IsColour(side) && 0 <= square < 64
    ensures t.pawn[1 - side][square] * bbs[PieceOf(P, side)] != {} <==> PawnAttacker(bbs, side, square)
  {
    var pieces := bbs[PieceOf(P, side)];
    assert OnBoard(pieces);
    if t.pawn[1 - side][square] * pieces != {} {
      var x :| x in t.pawn[1 - side][square] * pieces;
      PawnSeen(t, square, side, x);
    }
    if PawnAttacker(bbs, side, square) {
      var x :| 0 <= x < 64 && x in pieces && square in PawnAttacks(side, x);
      PawnSeen(t, square, side, x);
      assert x in t.pawn[1 - side][square] * pieces;
    }
  }

  /** A pawn of `side` on `x` attacks `square` exactly when the other colour's pawn entry of `square` holds `x`. */
  lemma {:induction false} PawnSeen(t: AttackTables, square: int, side: int, x: int)
    requires TableShape(t) && LeapersReady(t) && 0 <= square < 64 && 0 <= x < 64 && IsColour(side)
    ensures x in t.pawn[1 - side][square] <==> square in PawnAttacks(side, x)
  {
    PawnRowsSeen(t, square, x);
  }

  /** Each colour's pawn entry of `square` holds `x` exactly when a pawn of the other colour on `x` attacks `square`. */
  lemma {:induction false} PawnRowsSeen(t: AttackTables, square: int, x: int)
    requires TableShape(t) && LeapersReady(t) && 0 <= square < 64 && 0 <= x < 64
    ensures x in t.pawn[Black][square] <==> square in PawnAttacks(White, x)
    ensures x in t.pawn[White][square] <==> square in PawnAttacks(Black, x)
  {
    assert t.pawn[White][square] == WhitePawnAt(square) && t.pawn[Black][square] == BlackPawnAt(square);
    PawnAttacksMirror(square, x);
  }

  /** A knight or king on `x` attacks `square` exactly when the table entry of `square` holds `x`. */
  lemma {:induction false} LeapersSeen(t: AttackTables, square: int, x: int)
    requires TableShape(t) && LeapersReady(t) && 0 <= square < 64 && 0 <= x < 64
    ensures x in t.knight[square] <==> square in KnightAttacks(x)
    ensures x in t.king[square] <==> square in KingAttacks(x)
  {
    assert t.knight[square] == KnightAt(square) && t.king[square] == KingAt(square);
    LeapersSymmetric(square, x);
  }

  /** A slider on `x` attacks `square` exactly when the lookup from `square` reaches `x`. */
  lemma {:induction false} SlidersSeen(t: AttackTables, square: int, x: int, occupancy: Bitboard)
    requires SlidersAgree(t) && 0 <= square < 64 && 0 <= x < 64
    ensures x in t.bishop(square, occupancy) <==> square in BishopAttacks(x, occupancy)
    ensures x in t.rook(square, occupancy) <==> square in RookAttacks(x, occupancy)
  {
    SliderLookups(t, square, occupancy);
    SlidersSymmetric(square, x, occupancy);
  }

  /**
   * `IsSquareAttacked` answers yes exactly when some piece of `side` attacks
   * the square: a pawn diagonally forward, a knight by its jump, a bishop,
   * rook or queen along a clear line, a king from next door.
   */
  lemma {:induction false} SquareAttackedMeans(t: AttackTables, bbs: seq<Bitboard>, square: int, side: int, occupancy: Bitboard)
    requires TablesReady(t) && PiecesOnBoard(bbs) && 0 <= square < 64 && IsColour(side)
    ensures IsSquareAttacked(t, bbs, square, side, occupancy) <==> AttackedBy(bbs, side, square, occupancy)
  {
    DiagonalFound(t, bbs, side, square, occupancy);
    LineFound(t, bbs, side, square, occupancy);
    KnightFound(t, bbs, side, square);
    PawnFound(t, bbs, side, square);
    KingFound(t, bbs, side, square);
  }

  /**
   * The squares one kind of piece attacks from square `sq`, by the lookups
   * `GetAttackedSquares` uses: the king, knight and pawn tables (the pawn
   * table of the attacking side) and the magic lookups, both of them for a
   * queen.
   */
  function AttackOf(t: AttackTables, kind: int, side: int, sq: int, occupancy: Bitboard): Bitboard
    requires TableShape(t) && IsColour(side) && 0 <= sq < 64
  {
    if kind == K then t.king[sq]
    else if kind == N then t.knight[sq]
    else if kind == B then t.bishop(sq, occupancy)
    else if kind == R then t.rook(sq, occupancy)
    else if kind == Q then t.rook(sq, occupancy) + t.bishop(sq, occupancy)
    else t.pawn[side][sq]
  }

  /** The union of one kind's attacks over the squares of `bb`, lowest square first. */
  function Spread(t: AttackTables, kind: int, side: int, bb: Bitboard, occupancy: Bitboard): Bitboard
    requires TableShape(t) && IsColour(side) && OnBoard(bb)
    decreases |bb|
  {
    if bb == {} then {}
    else
      var sq := Ls1b(bb);
      AttackOf(t, kind, side, sq, occupancy) + Spread(t, kind, side, bb - {sq}, occupancy)
  }

  /** A square is in the spread exactly when a piece on some square of `bb` attacks it. */
  lemma {:induction false} SpreadMeans(t: AttackTables, kind: int, side: int, bb: Bitboard, occupancy: Bitboard, y: int)
    requires TableShape(t) && IsColour(side) && OnBoard(bb)
    ensures y in Spread(t, kind, side, bb, occupancy) <==> exists x :: x in bb && y in AttackOf(t, kind, side, x, occupancy)
    decreases |bb|
  {
    if bb != {} {
      var sq := Ls1b(bb);
      SpreadMeans(t, kind, side, bb - {sq}, occupancy, y);
      if exists x :: x in bb && y in AttackOf(t, kind, side, x, occupancy) {
        var x :| x in bb && y in AttackOf(t, kind, side, x, occupancy);
        if x != sq {
          assert x in bb - {sq};
        }
      }
    }
  }

  /**
   * `GetAttackedSquares`, as a value: the attacks of the lowest king of
   * `side` (none when it has no king), then of every knight, bishop, rook,
   * queen and pawn.
   */
  function AttackedSquares(t: AttackTables, bbs: seq<Bitboard>, side: int, occupancy: Bitboard): Bitboard
    requires TableShape(t) && PiecesOnBoard(bbs) && IsColour(side)
  {
    var kingBB := bbs[PieceOf(K, side)];
    (if kingBB != {} then t.king[Ls1b(kingBB)] else {})
    + Spread(t, N, side, bbs[PieceOf(N, side)], occupancy)
    + Spread(t, B, side, bbs[PieceOf(B, side)], occupancy)
    + Spread(t, R, side, bbs[PieceOf(R, side)], occupancy)
    + Spread(t, Q, side, bbs[PieceOf(Q, side)], occupancy)
    + Spread(t, P, side, bbs[PieceOf(P, side)], occupancy)
  }

  /**
   * With at most one king of `side`, the attack map is the set of squares
   * `IsSquareAttacked` reports attacked: the map collects each piece's
   * attacks forwards, the query looks backwards from the square, and the
   * two agree because every kind attacks symmetrically (a pawn with the
   * other colour's pattern).
   */
  lemma {:induction false} AttackedSquaresAgree(t: AttackTables, bbs: seq<Bitboard>, side: int, occupancy: Bitboard, square: int)
    requires TablesReady(t) && PiecesOnBoard(bbs) && IsColour(side) && 0 <= square < 64
    requires |bbs[PieceOf(K, side)]| <= 1
    ensures square in AttackedSquares(t, bbs, side, occupancy) <==> IsSquareAttacked(t, bbs, square, side, occupancy)
  {
    FoundSetShape(t, bbs, square, side, occupancy);
    var kingBB := bbs[PieceOf(K, side)];
    var found := FoundSet(t, bbs, square, side, occupancy);
    if square in AttackedSquares(t, bbs, side, occupancy) {
      var x := MappedFrom(t, bbs, side, occupancy, square);
      assert x in found;
    }
    if found != {} {
      var x :| x in found;
      FoundIsMapped(t, bbs, side, occupancy, square, x);
    }
  }

  /**
   * The lookup from `square` for one kind of piece of the other colour holds
   * `x` exactly when that kind of piece of `side` on `x` attacks `square`.
   */
  lemma {:induction false} LookupMirror(t: AttackTables, kind: int, side: int, x: int, square: int, occupancy: Bitboard)
    requires TablesReady(t) && IsColour(side) && 0 <= x < 64 && 0 <= square < 64
    ensures square in AttackOf(t, kind, side, x, occupancy) <==> x in AttackOf(t, kind, 1 - side, square, occupancy)
  {
    if kind == K || kind == N {
      LeapersSeen(t, square, x);
      LeapersSeen(t, x, square);
      LeapersSymmetric(square, x);
    } else if kind == B || kind == R || kind == Q {
      SliderLookups(t, square, occupancy);
      SliderLookups(t, x, occupancy);
      SlidersSymmetric(square, x, occupancy);
    } else {
      PawnSeen(t, square, side, x);
      PawnSeen(t, x, 1 - side, square);
      PawnAttacksMirror(square, x);
    }
  }

  /** A square of the attack map is found by `IsSquareAttacked`'s lookups from some square. */
  lemma {:induction false} MappedFrom(t: AttackTables, bbs: seq<Bitboard>, side: int, occupancy: Bitboard, square: int)
    returns (x: int)
    requires TablesReady(t) && PiecesOnBoard(bbs) && IsColour(side) && 0 <= square < 64
    requires square in AttackedSquares(t, bbs, side, occupancy)
    ensures x in FoundSet(t, bbs, square, side, occupancy)
  {
    var kingBB := bbs[PieceOf(K, side)];
    if kingBB != {} && square in t.king[Ls1b(kingBB)] {
      x := Ls1b(kingBB);
      LookupMirror(t, K, side, x, square, occupancy);
      return;
    }
    var kind := if square in Spread(t, N, side, bbs[PieceOf(N, side)], occupancy) then N
      else if square in Spread(t, B, side, bbs[PieceOf(B, side)], occupancy) then B
      else if square in Spread(t, R, side, bbs[PieceOf(R, side)], occupancy) then R
      else if square in Spread(t, Q, side, bbs[PieceOf(Q, side)], occupancy) then Q
      else P;
    SpreadMeans(t, kind, side, bbs[PieceOf(kind, side)], occupancy, square);
    x :| x in bbs[PieceOf(kind, side)] && square in AttackOf(t, kind, side, x, occupancy);
    assert 0 <= x < 64;
    LookupMirror(t, kind, side, x, square, occupancy);
    KindFound(t, bbs, side, occupancy, square, kind, x);
  }

  /** A piece of one kind whose lookup from `square` holds it is among those `IsSquareAttacked` finds. */
  lemma {:induction false} KindFound(t: AttackTables, bbs: seq<Bitboard>, side: int, occupancy: Bitboard, square: int, kind: int, x: int)
    requires TableShape(t) && |bbs| == 12 && IsColour(side) && 0 <= square < 64 && 0 <= x < 64
    requires kind in {P, N, B, R, Q, K}
    requires x in bbs[PieceOf(kind, side)] && x in AttackOf(t, kind, 1 - side, square, occupancy)
    ensures x in FoundSet(t, bbs, square, side, occupancy)
  {
  }

  /** A piece found by `IsSquareAttacked`'s lookups puts `square` in the attack map, its king being the only one. */
  lemma {:induction false} FoundIsMapped(t: AttackTables, bbs: seq<Bitboard>, side: int, occupancy: Bitboard, square: int, x: int)
    requires TablesReady(t) && PiecesOnBoard(bbs) && IsColour(side) && 0 <= square < 64
    requires |bbs[PieceOf(K, side)]| <= 1
    requires x in FoundSet(t, bbs, square, side, occupancy)
    ensures square in AttackedSquares(t, bbs, side, occupancy)
  {
    FoundSetShape(t, bbs, square, side, occupancy);
    assert 0 <= x < 64;
    var kind := FoundKind(t, bbs, side, occupancy, square, x);
    LookupMirror(t, kind, side, x, square, occupancy);
    if kind == K {
      OnlyMember(bbs[PieceOf(K, side)], x);
    } else {
      KindMapped(t, bbs, side, occupancy, square, kind, x);
    }
  }

  /** The kind of piece by which `IsSquareAttacked` finds `x`. */
  lemma {:induction false} FoundKind(t: AttackTables, bbs: seq<Bitboard>, side: int, occupancy: Bitboard, square: int, x: int)
    returns (kind: int)
    requires TableShape(t) && |bbs| == 12 && IsColour(side) && 0 <= square < 64
    requires x in FoundSet(t, bbs, square, side, occupancy)
    ensures kind in {P, N, B, R, Q, K}
    ensures x in bbs[PieceOf(kind, side)] && x in AttackOf(t, kind, 1 - side, square, occupancy)
  {
    if x in bbs[PieceOf(K, side)] && x in t.king[square] {
      kind := K;
    } else if x in bbs[PieceOf(P, side)] && x in t.pawn[1 - side][square] {
      kind := P;
    } else if x in bbs[PieceOf(N, side)] && x in t.knight[square] {
      kind := N;
    } else if x in bbs[PieceOf(B, side)] && x in t.bishop(square, occupancy) {
      kind := B;
    } else if x in bbs[PieceOf(R, side)] && x in t.rook(square, occupancy) {
      kind := R;
    } else {
      kind := Q;
    }
  }

  /** A piece other than the king that attacks `square` puts it in the attack map. */
  lemma {:induction false} KindMapped(t: AttackTables, bbs: seq<Bitboard>, side: int, occupancy: Bitboard, square: int, kind: int, x: int)
    requires TableShape(t) && PiecesOnBoard(bbs) && IsColour(side)
    requires kind in {P, N, B, R, Q}
    requires x in bbs[PieceOf(kind, side)] && square in AttackOf(t, kind, side, x, occupancy)
    ensures square in AttackedSquares(t, bbs, side, occupancy)
  {
    SpreadMeans(t, kind, side, bbs[PieceOf(kind, side)], occupancy, square);
  }

  /** A set of at most one element holding `x` is `{x}`. */
  lemma {:induction false} OnlyMember(s: set<int>, x: int)
    requires |s| <= 1 && x in s
    ensures s == {x}
  {
    assert |s - {x}| == |s| - 1;
    assert s - {x} == {};
  }

  /**
   * One loop of `GetAttackedSquares`: pop the pieces of `bb` lowest first,
   * OR-ing each one's attacks into the map.
   */
  method AddAttacks(t: AttackTables, kind: int, side: int, bb: Bitboard, occupancy: Bitboard, map0: Bitboard)
    returns (attackMap: Bitboard)
    requires TableShape(t) && IsColour(side) && OnBoard(bb)
    ensures attackMap == map0 + Spread(t, kind, side, bb, occupancy)
  {
    attackMap := map0;
    var rest := bb;
    while rest != {}
      invariant OnBoard(rest)
      invariant attackMap + Spread(t, kind, side, rest, occupancy) == map0 + Spread(t, kind, side, bb, occupancy)
      decreases |rest|
    {
      var sq := Ls1b(rest);
      attackMap := attackMap + AttackOf(t, kind, side, sq, occupancy);
      rest := rest - {sq};
    }
  }

  /** `GetAttackedSquares`: the king's attacks, then a popping loop for each other kind. */
  method GetAttackedSquares(t: AttackTables, bbs: seq<Bitboard>, side: int, occupancy: Bitboard)
    returns (attackMap: Bitboard)
    requires TableShape(t) && PiecesOnBoard(bbs) && IsColour(side)
    ensures attackMap == AttackedSquares(t, bbs, side, occupancy)
  {
    attackMap := {};
    var kingBB := bbs[PieceOf(K, side)];
    if kingBB != {} {
      attackMap := attackMap + t.king[Ls1b(kingBB)];
    }
    attackMap := AddAttacks(t, N, side, bbs[PieceOf(N, side)], occupancy, attackMap);
    attackMap := AddAttacks(t, B, side, bbs[PieceOf(B, side)], occupancy, attackMap);
    attackMap := AddAttacks(t, R, side, bbs[PieceOf(R, side)], occupancy, attackMap);
    attackMap := AddAttacks(t, Q, side, bbs[PieceOf(Q, side)], occupancy, attackMap);
    attackMap := AddAttacks(t, P, side, bbs[PieceOf(P, side)], occupancy, attackMap);
  }

  /**
   * The squares besides the king's own that must not be attacked after
   * castling: its start square and the squares it crosses (the squares
   * `isLegal` names for each castle and colour).
   */
  function CastleArea(moveType: int, mover: int): Bitboard
  {
    if moveType == king_castle then
      (if mover == White then WhiteKingCastleEmpty + {E1} else BlackKingCastleEmpty + {E8})
    else
      (if mover == White then WhiteQueenCastleAttack + {E1} else BlackQueenCastleAttack + {E8})
  }

  /** What `isLegal` needs of the position after a move: its pieces on the board and the mover's king present. */
  predicate LegalityInput(t: AttackTables, s: BoardState)
  {
    && TableShape(t) && PiecesOnBoard(s.bitboards) && |s.occupancies| == 3 && OnBoard(s.occupancies[Both])
    && IsColour(s.side) && s.bitboards[PieceOf(K, 1 - s.side)] != {}
  }

  /**
   * `isLegal` as a value, on the position after the move (the side to move
   * is the opponent of the mover): a non-castling move is legal when the
   * mover's king square is not attacked; a castle when neither the king's
   * squares nor the castling area is in the opponent's attack map.
   */
  function LegalAfter(t: AttackTables, s: BoardState, move: Move): bool
    requires LegalityInput(t, s)
  {
    var kingSquare := s.bitboards[PieceOf(K, 1 - s.side)];
    if move.Type != king_castle && move.Type != queen_castle then
      !IsSquareAttacked(t, s.bitboards, Ls1b(kingSquare), s.side, s.occupancies[Both])
    else
      var attacked := AttackedSquares(t, s.bitboards, s.side, s.occupancies[Both]);
      attacked * kingSquare == {} && attacked * CastleArea(move.Type, 1 - s.side) == {}
  }

  /** `isLegal`: called after `MakeMove`, so `s.side` is the side that replies. */
  method IsLegal(t: AttackTables, s: BoardState, move: Move) returns (legal: bool)
    requires LegalityInput(t, s)
    ensures legal == LegalAfter(t, s, move)
  {
    var kingSquare := s.bitboards[PieceOf(K, 1 - s.side)];
    if move.Type != king_castle && move.Type != queen_castle {
      if !IsSquareAttacked(t, s.bitboards, Ls1b(kingSquare), s.side, s.occupancies[Both]) {
        return true;
      }
      return false;
    } else {
      var attacked := GetAttackedSquares(t, s.bitboards, s.side, s.occupancies[Both]);
      var noAttackArea := CastleArea(move.Type, 1 - s.side);
      if attacked * kingSquare == {} && attacked * noAttackArea == {} {
        return true;
      }
      return false;
    }
  }

  /**
   * What legality means, with one king per side: a non-castling move is
   * legal exactly when no piece of the replying side attacks the mover's
   * king; a castle exactly when no piece of it attacks the king's square or
   * any square of the castling area.
   */
  lemma {:induction false} LegalMeans(t: AttackTables, s: BoardState, move: Move)
    requires LegalityInput(t, s) && TablesReady(t)
    requires |s.bitboards[PieceOf(K, s.side)]| <= 1 && |s.bitboards[PieceOf(K, 1 - s.side)]| == 1
    ensures move.Type != king_castle && move.Type != queen_castle ==>
      (LegalAfter(t, s, move) <==>
       !AttackedBy(s.bitboards, s.side, Ls1b(s.bitboards[PieceOf(K, 1 - s.side)]), s.occupancies[Both]))
    ensures move.Type == king_castle || move.Type == queen_castle ==>
      (LegalAfter(t, s, move) <==>
       forall sq :: sq in s.bitboards[PieceOf(K, 1 - s.side)] + CastleArea(move.Type, 1 - s.side) ==>
         !AttackedBy(s.bitboards, s.side, sq, s.occupancies[Both]))
  {
    if move.Type != king_castle && move.Type != queen_castle {
      SquareAttackedMeans(t, s.bitboards, Ls1b(s.bitboards[PieceOf(K, 1 - s.side)]), s.side, s.occupancies[Both]);
    } else {
      CastleLegalMeans(t, s, move);
    }
  }

  /** A castle is legal exactly when no square of the king or of the castling area is attacked. */
  lemma {:induction false} CastleLegalMeans(t: AttackTables, s: BoardState, move: Move)
    requires LegalityInput(t, s) && TablesReady(t)
    requires |s.bitboards[PieceOf(K, s.side)]| <= 1
    requires move.Type == king_castle || move.Type == queen_castle
    ensures LegalAfter(t, s, move) <==>
      forall sq :: sq in s.bitboards[PieceOf(K, 1 - s.side)] + CastleArea(move.Type, 1 - s.side) ==>
        !AttackedBy(s.bitboards, s.side, sq, s.occupancies[Both])
  {
    var kingSquare := s.bitboards[PieceOf(K, 1 - s.side)];
    var occ := s.occupancies[Both];
    var area := kingSquare + CastleArea(move.Type, 1 - s.side);
    var attacked := AttackedSquares(t, s.bitboards, s.side, occ);
    assert LegalAfter(t, s, move) <==> attacked * area == {};
    CastleAreaOnBoard(move.Type, 1 - s.side);
    assert OnBoard(area);
    forall sq | sq in area
      ensures sq in attacked <==> AttackedBy(s.bitboards, s.side, sq, occ)
    {
      AttackedSquaresAgree(t, s.bitboards, s.side, occ, sq);
      SquareAttackedMeans(t, s.bitboards, sq, s.side, occ);
    }
    DisjointMeans(attacked, area);
  }

  /** The castling area lies on the board. */
  lemma CastleAreaOnBoard(moveType: int, mover: int)
    ensures OnBoard(CastleArea(moveType, mover))
  {
    var area := CastleArea(moveType, mover);
    assert area <= {F1, G1, E1, F8, G8, E8, D1, C1, D8, C8};
    forall sq | sq in area
      ensures 0 <= sq < 64
    {
    }
  }

  /** Two sets are disjoint exactly when no member of the second is in the first. */
  lemma DisjointMeans(a: set<int>, b: set<int>)
    ensures a * b == {} <==> forall x :: x in b ==> x !in a
  {
    if a * b == {} {
      forall x | x in b
        ensures x !in a
      {
        assert x !in a * b;
      }
    }
    if forall x :: x in b ==> x !in a {
      assert a * b == {};
    }
  }

  /** `is_in_check`: the lowest king of the side to move stands on a square the other side attacks. */
  function IsInCheck(t: AttackTables, s: BoardState): bool
    requires TableShape(t) && PiecesOnBoard(s.bitboards) && |s.occupancies| == 3 && IsColour(s.side)
    requires s.bitboards[PieceOf(K, s.side)] != {}
  {
    var king := if s.side == White then s.bitboards[K] else s.bitboards[BK];
    IsSquareAttacked(t, s.bitboards, Ls1b(king), 1 - s.side, s.occupancies[Both])
  }

  /** In check exactly when some piece of the other side attacks the king of the side to move. */
  lemma {:induction false} InCheckMeans(t: AttackTables, s: BoardState)
    requires TablesReady(t) && PiecesOnBoard(s.bitboards) && |s.occupancies| == 3 && IsColour(s.side)
    requires s.bitboards[PieceOf(K, s.side)] != {}
    ensures IsInCheck(t, s) <==> AttackedBy(s.bitboards, 1 - s.side, Ls1b(s.bitboards[PieceOf(K, s.side)]), s.occupancies[Both])
  {
    SquareAttackedMeans(t, s.bitboards, Ls1b(s.bitboards[PieceOf(K, s.side)]), 1 - s.side, s.occupancies[Both]);
  }

  /**
   * `IsOnlyKingPawn`: no occupied square outside the pawn and king
   * bitboards of both colours.
   */
  function IsOnlyKingPawn(s: BoardState): bool
    requires |s.bitboards| == 12 && |s.occupancies| == 3
  {
    s.occupancies[Both] * Complement(s.bitboards[P] + s.bitboards[BP] + s.bitboards[K] + s.bitboards[BK]) == {}
  }

  /** With the placement in agreement: only kings and pawns exactly when every square is empty or holds one. */
  lemma {:induction false} OnlyKingPawnMeans(s: BoardState)
    requires Agrees(s.bitboards, s.occupancies, s.mailbox)
    ensures IsOnlyKingPawn(s) <==> forall sq :: 0 <= sq < 64 ==> s.mailbox[sq] in {P, BP, K, BK, NO_PIECE}
  {
    var kp := s.bitboards[P] + s.bitboards[BP] + s.bitboards[K] + s.bitboards[BK];
    if IsOnlyKingPawn(s) {
      forall sq | 0 <= sq < 64
        ensures s.mailbox[sq] in {P, BP, K, BK, NO_PIECE}
      {
        if s.mailbox[sq] != NO_PIECE {
          assert sq in s.occupancies[Both];
          assert sq !in s.occupancies[Both] * Complement(kp);
        }
      }
    } else {
      var sq :| sq in s.occupancies[Both] * Complement(kp);
      assert s.mailbox[sq] !in {P, BP, K, BK, NO_PIECE};
    }
  }
}
