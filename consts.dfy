// Squares, pieces, castling flags and move-type codes (Const.h).
//
// Squares run a8 = 0, b8 = 1, ..., h8 = 7, a7 = 8, ..., h1 = 63; NO_SQ = 64.

module Consts {
  import opened Bitboards
  import opened CppInt

  // Squares used by name in the engine.
  const A8: int := 0
  const B8: int := 1
  const C8: int := 2
  const D8: int := 3
  const E8: int := 4
  const F8: int := 5
  const G8: int := 6
  const H8: int := 7
  const A1: int := 56
  const B1: int := 57
  const C1: int := 58
  const D1: int := 59
  const E1: int := 60
  const F1: int := 61
  const G1: int := 62
  const H1: int := 63
  const NO_SQ: int := 64

  // Pieces: white P..K are 0..5, black p..k are 6..11.
  const P: int := 0
  const N: int := 1
  const B: int := 2
  const R: int := 3
  const Q: int := 4
  const K: int := 5
  const BP: int := 6
  const BN: int := 7
  const BB: int := 8
  const BR: int := 9
  const BQ: int := 10
  const BK: int := 11
  const NO_PIECE: int := 12

  // Colours and the index of the both-colours occupancy.
  const White: int := 0
  const Black: int := 1
  const Both: int := 2

  // Castling-right flags.
  const WhiteKingCastle: int := 1
  const WhiteQueenCastle: int := 2
  const BlackKingCastle: int := 4
  const BlackQueenCastle: int := 8

  // Move-type flag bits.
  const promotionFlag: int := 8
  const captureFlag: int := 4
  const special1Flag: int := 2
  const special0Flag: int := 1

  // Move types.
  const quiet_move: int := 0
  const double_pawn_push: int := 1
  const king_castle: int := 2
  const queen_castle: int := 3
  const capture: int := 4
  const ep_capture: int := 5
  const knight_promo: int := 8
  const bishop_promo: int := 9
  const rook_promo: int := 10
  const queen_promo: int := 11
  const knight_promo_capture: int := 12
  const bishop_promo_capture: int := 13
  const rook_promo_capture: int := 14
  const queen_promo_capture: int := 15

  /** The fourteen codes the move generator produces. */
  const MoveTypes: seq<int> := [quiet_move, double_pawn_push, king_castle, queen_castle, capture, ep_capture,
    knight_promo, bishop_promo, rook_promo, queen_promo,
    knight_promo_capture, bishop_promo_capture, rook_promo_capture, queen_promo_capture]

  const SideValue: seq<int> := [0, 6]
  const GetWhitepiece: seq<int> := [0, 1, 2, 3, 4, 5, 0, 1, 2, 3, 4, 5]

  // Squares that must be empty (or not attacked) for castling.
  const WhiteKingCastleEmpty: Bitboard := {F1, G1}
  const WhiteQueenCastleEmpty: Bitboard := {D1, C1, B1}
  const BlackKingCastleEmpty: Bitboard := {F8, G8}
  const BlackQueenCastleEmpty: Bitboard := {D8, C8, B8}
  const WhiteQueenCastleAttack: Bitboard := {D1, C1}
  const BlackQueenCastleAttack: Bitboard := {D8, C8}

  predicate IsPiece(x: int)
  {
    0 <= x < 12
  }

  predicate IsColour(c: int)
  {
    c == White || c == Black
  }

  /** `get_piece(piece, col)`: the piece of the same kind in colour `col`. */
  function GetPiece(piece: int, col: int): (r: int)
    requires IsPiece(piece) && IsColour(col)
    ensures IsPiece(r)
    ensures col == White ==> 0 <= r < 6
    ensures col == Black ==> r == GetPiece(piece, White) + 6
    ensures r % 6 == piece % 6
  {
    GetWhitepiece[piece] + SideValue[col]
  }

  /** Recolouring a piece to the colour it already has changes nothing. */
  lemma GetPieceIdempotent(x: int, c: int)
    requires IsPiece(x) && IsColour(c)
    ensures GetPiece(GetPiece(x, c), c) == GetPiece(x, c)
  {
  }

  /** The colour of a piece, as the engine tests it (`piece <= 5` is White). */
  function ColourOf(piece: int): (c: int)
    requires IsPiece(piece)
    ensures IsColour(c)
    ensures GetPiece(piece, c) == piece
  {
    if piece <= 5 then White else Black
  }

  /** The promotion codes are exactly the ones with the promotion flag, and each capture variant adds the capture flag. */
  lemma {:induction false} PromotionCodes()
    ensures forall i :: 0 <= i < |MoveTypes| ==>
      ((MoveTypes[i] / promotionFlag) % 2 == 1 <==> MoveTypes[i] in {knight_promo, bishop_promo, rook_promo, queen_promo,
        knight_promo_capture, bishop_promo_capture, rook_promo_capture, queen_promo_capture})
    ensures knight_promo_capture == knight_promo + captureFlag && bishop_promo_capture == bishop_promo + captureFlag
    ensures rook_promo_capture == rook_promo + captureFlag && queen_promo_capture == queen_promo + captureFlag
    ensures (knight_promo / captureFlag) % 2 == 0 && (bishop_promo / captureFlag) % 2 == 0
    ensures (rook_promo / captureFlag) % 2 == 0 && (queen_promo / captureFlag) % 2 == 0
  {
    forall i | 0 <= i < |MoveTypes|
      ensures (MoveTypes[i] / promotionFlag) % 2 == 1 <==> MoveTypes[i] in {knight_promo, bishop_promo, rook_promo,
        queen_promo, knight_promo_capture, bishop_promo_capture, rook_promo_capture, queen_promo_capture}
    {
      assert i < 14;
      if i < 6 {
        assert MoveTypes[i] < 8;
      } else {
        assert 8 <= MoveTypes[i] < 16;
      }
    }
  }

  /** The move-type codes are pairwise distinct and fit in four bits. */
  lemma {:induction false} MoveTypeCodesDistinct()
    ensures |MoveTypes| == 14
    ensures forall i :: 0 <= i < |MoveTypes| ==> 0 <= MoveTypes[i] < 16
    ensures forall i, j :: 0 <= i < j < |MoveTypes| ==> MoveTypes[i] != MoveTypes[j]
  {
    forall i, j | 0 <= i < j < |MoveTypes|
      ensures MoveTypes[i] != MoveTypes[j]
    {
      assert MoveTypes[i] < MoveTypes[j];
    }
  }

  /** The four castling flags are distinct single bits of the low nibble. */
  lemma CastleFlagsAreBits()
    ensures WhiteKingCastle == Pow2(0) && WhiteQueenCastle == Pow2(1)
    ensures BlackKingCastle == Pow2(2) && BlackQueenCastle == Pow2(3)
    ensures WhiteKingCastle + WhiteQueenCastle + BlackKingCastle + BlackQueenCastle == 15
  {
    assert Pow2(3) == 8 by {
      assert Pow2(1) == 2;
      assert Pow2(2) == 4;
    }
  }

  /**
   * The flag tests the engine applies to a four-bit move-type code: the
   * promotion bit is set from code 8 on, the capture bit in codes 4-7 and
   * 12-15, some capture or promotion bit from code 4 on, and some bit of
   * `ep_capture` (0b0101) in every odd code and every capture code.
   */
  lemma {:induction false} TypeFlagBits(t: int)
    requires 0 <= t < 16
    ensures BitAnd(t, promotionFlag) != 0 <==> t >= 8
    ensures BitAnd(t, captureFlag) != 0 <==> t % 8 >= 4
    ensures BitAnd(t, BitOr(captureFlag, promotionFlag)) != 0 <==> t >= 4
    ensures BitAnd(t, ep_capture) != 0 <==> (t % 2 == 1 || t % 8 >= 4)
  {
    PromotionBit(t);
    CaptureBit(t);
    FlagUnion();
    NoisyBits(t);
    EpBits(t);
  }

  lemma {:induction false} PromotionBit(t: int)
    requires 0 <= t < 16
    ensures BitAnd(t, promotionFlag) != 0 <==> t >= 8
  {
    AndEven(t, 8);
    AndEven(t / 2, 4);
    AndEven(t / 4, 2);
    AndOne(t / 8);
  }

  lemma {:induction false} CaptureBit(t: int)
    requires 0 <= t < 16
    ensures BitAnd(t, captureFlag) != 0 <==> t % 8 >= 4
  {
    AndEven(t, 4);
    AndEven(t / 2, 2);
    AndOne(t / 4);
  }

  lemma {:induction false} FlagUnion()
    ensures BitOr(captureFlag, promotionFlag) == 12
  {
    assert BitOr(4, 8) == 2 * BitOr(2, 4);
    assert BitOr(2, 4) == 2 * BitOr(1, 2);
    assert BitOr(1, 2) == 2 * BitOr(0, 1) + 1;
  }

  lemma {:induction false} NoisyBits(t: int)
    requires 0 <= t < 16
    ensures BitAnd(t, 12) != 0 <==> t >= 4
  {
    AndEven(t, 12);
    AndEven(t / 2, 6);
    AndOdd(t / 4, 3);
    AndOne(t / 8);
  }

  lemma {:induction false} EpBits(t: int)
    requires 0 <= t < 16
    ensures BitAnd(t, ep_capture) != 0 <==> (t % 2 == 1 || t % 8 >= 4)
  {
    AndOdd(t, 5);
    AndEven(t / 2, 2);
    AndOne(t / 4);
  }

  lemma {:induction false} AndOne(x: nat)
    ensures BitAnd(x, 1) == x % 2
  {
  }

  lemma {:induction false} AndEven(a: nat, b: nat)
    requires b > 0 && b % 2 == 0
    ensures BitAnd(a, b) == 2 * BitAnd(a / 2, b / 2)
  {
  }

  lemma {:induction false} AndOdd(a: nat, b: nat)
    requires b % 2 == 1
    ensures BitAnd(a, b) == 2 * BitAnd(a / 2, b / 2) + a % 2
  {
  }
}
