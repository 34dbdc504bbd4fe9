// What a move does to a position, stated as values (Movegen.cpp): the move
// types the generator produces and the board each one leaves, the castling
// rights, the en-passant square and the half-move clock after it, and what
// `UnmakeMove` puts back.

module MoveRules {
  import opened CppInt
  import opened Consts
  import opened Moves
  import opened Chessboard

  // ---------------------------------------------------------- move-type flags

  /** `(Type & captureFlag) != 0` */
  predicate IsCaptureType(t: int)
    requires 0 <= t
  {
    BitAnd(t, captureFlag) != 0
  }

  /** `(Type & promotionFlag) != 0` */
  predicate IsPromotionType(t: int)
    requires 0 <= t
  {
    BitAnd(t, promotionFlag) != 0
  }

  /** Among the generated codes, the capture flag marks captures, en passant and the promotion captures, and the promotion flag the eight promotions. */
  lemma TypeFlags(t: int)
    requires t in MoveTypes
    ensures 0 <= t < 16 && t != 6 && t != 7
    ensures IsCaptureType(t) <==> (t == capture || t == ep_capture || t >= knight_promo_capture)
    ensures IsPromotionType(t) <==> t >= knight_promo
  {
    assert 0 <= t < 16;
    TypeFlagBits(t);
    if t < 8 {
      assert t / 8 == 0;
    } else {
      assert t / 8 == 1;
    }
  }

  /**
   * `GetPromotingPiece`: the piece a promotion code creates, in the colour of
   * the moving piece; NO_PIECE for any other code. The two low bits of the
   * code select knight, bishop, rook or queen.
   */
  function GetPromotingPiece(move: Move): (r: int)
    requires IsPiece(move.Piece)
    ensures knight_promo <= move.Type <= queen_promo_capture ==> r == GetPiece(move.Type % 4 + N, ColourOf(move.Piece))
    ensures !(knight_promo <= move.Type <= queen_promo_capture) ==> r == NO_PIECE
  {
    var side := if move.Piece >= 6 then Black else White;
    if move.Type == queen_promo || move.Type == queen_promo_capture then GetPiece(Q, side)
    else if move.Type == rook_promo || move.Type == rook_promo_capture then GetPiece(R, side)
    else if move.Type == knight_promo || move.Type == knight_promo_capture then GetPiece(N, side)
    else if move.Type == bishop_promo || move.Type == bishop_promo_capture then GetPiece(B, side)
    else NO_PIECE
  }

  // ------------------------------------------------------------- the squares

  /** The square of the pawn an en-passant capture removes (one rank behind `To`), or `To` for any other code. */
  function CaptureSquare(move: Move, side: int): (sq: int)
    requires IsColour(side)
    ensures move.Type != ep_capture ==> sq == move.To
    ensures move.Type == ep_capture ==> sq == move.To + (if side == White then 8 else -8)
  {
    if move.Type == ep_capture then (if side == White then move.To + 8 else move.To - 8) else move.To
  }

  /** The king's square before castling. */
  function KingHome(side: int): int
    requires IsColour(side)
  {
    if side == White then E1 else E8
  }

  /** The corner the castling rook starts on: the h-file for king-side castling, the a-file for queen-side, on the side's back rank. */
  function CastleRookSquare(moveType: int, side: int): (sq: int)
    requires moveType == king_castle || moveType == queen_castle
    requires IsColour(side)
    ensures 0 <= sq < 64
    ensures GetFile(sq) == (if moveType == king_castle then 7 else 0)
    ensures GetRank(sq) == (if side == White then 0 else 7)
  {
    if moveType == king_castle then (if side == White then H1 else H8)
    else (if side == White then A1 else A8)
  }

  /** The square the castling rook lands on: `rookSquare - 2` king-side, `rookSquare + 3` queen-side. */
  function CastleRookTarget(moveType: int, side: int): int
    requires moveType == king_castle || moveType == queen_castle
    requires IsColour(side)
  {
    var rookSquare := CastleRookSquare(moveType, side);
    if moveType == king_castle then rookSquare - 2 else rookSquare + 3
  }

  /** Castling moves the king two squares along its rank, and the rook lands on the square the king crossed. */
  lemma CastleGeometry(moveType: int, side: int)
    requires moveType == king_castle || moveType == queen_castle
    requires IsColour(side)
    ensures var home, to := KingHome(side), KingHome(side) + (if moveType == king_castle then 2 else -2);
      && CastleRookTarget(moveType, side) == (home + to) / 2
      && home / 8 == to / 8 == CastleRookSquare(moveType, side) / 8
      && (moveType == king_castle ==> home < to < CastleRookSquare(moveType, side))
      && (moveType == queen_castle ==> CastleRookSquare(moveType, side) < to < home)
  {
  }

  // ------------------------------------------------------ the moves that fit

  /**
   * The moves the generator produces for side `side` on mailbox `mb`: a
   * generated code, the moving piece of that side on `From`, and for each
   * code the squares it needs: an empty target for the quiet moves, pushes
   * and promotions; an enemy piece on the target for the captures; the
   * enemy pawn behind an empty target for en passant; for castling the king
   * on its home square, the rook in its corner and both landing squares
   * empty.
   */
  predicate MoveFits(mb: seq<int>, move: Move, side: int)
    requires |mb| == 64
  {
    && IsColour(side) && move.Type in MoveTypes
    && 0 <= move.From < 64 && 0 <= move.To < 64 && move.From != move.To
    && IsPiece(move.Piece) && ColourOf(move.Piece) == side && mb[move.From] == move.Piece
    && (move.Type in {quiet_move, double_pawn_push, knight_promo, bishop_promo, rook_promo, queen_promo} ==>
          mb[move.To] == NO_PIECE)
    && (move.Type in {capture, knight_promo_capture, bishop_promo_capture, rook_promo_capture, queen_promo_capture} ==>
          IsPiece(mb[move.To]) && ColourOf(mb[move.To]) == 1 - side)
    && (move.Type >= knight_promo ==> move.Piece == GetPiece(P, side))
    && (move.Type == double_pawn_push ==>
          move.Piece == GetPiece(P, side) && move.To == move.From + (if side == White then -16 else 16))
    && (move.Type == ep_capture ==>
          && move.Piece == GetPiece(P, side) && mb[move.To] == NO_PIECE
          && 0 <= CaptureSquare(move, side) < 64 && mb[CaptureSquare(move, side)] == GetPiece(P, 1 - side))
    && (move.Type in {king_castle, queen_castle} ==>
          && move.Piece == GetPiece(K, side) && move.From == KingHome(side)
          && move.To == KingHome(side) + (if move.Type == king_castle then 2 else -2)
          && mb[move.To] == NO_PIECE
          && mb[CastleRookSquare(move.Type, side)] == GetPiece(BR, side)
          && mb[CastleRookTarget(move.Type, side)] == NO_PIECE)
  }

  /** The piece that stands on `To` after the move: the promoted piece for a promotion, the moving piece otherwise. */
  function PlacedPiece(move: Move): (pc: int)
    requires IsPiece(move.Piece)
    ensures IsPiece(pc)
    ensures 0 <= move.Type < knight_promo ==> pc == move.Piece
    ensures ColourOf(pc) == ColourOf(move.Piece)
  {
    if move.Type >= knight_promo && move.Type <= queen_promo_capture then GetPromotingPiece(move) else move.Piece
  }

  /**
   * The mailbox `MakeMove` leaves: `From` empties and `To` receives the
   * placed piece; castling also moves the rook from its corner to its
   * target, and en passant empties the square of the captured pawn.
   */
  function MailboxAfter(mb: seq<int>, move: Move, side: int): (r: seq<int>)
    requires |mb| == 64 && MoveFits(mb, move, side)
    ensures |r| == 64
  {
    var moved := mb[move.From := NO_PIECE][move.To := PlacedPiece(move)];
    if move.Type == king_castle || move.Type == queen_castle then
      moved[CastleRookSquare(move.Type, side) := NO_PIECE][CastleRookTarget(move.Type, side) := GetPiece(BR, side)]
    else if move.Type == ep_capture then moved[CaptureSquare(move, side) := NO_PIECE]
    else moved
  }

  /** Every square the move touches: `From`, `To`, and the castling rook's two squares or the en-passant victim's square. */
  function Touched(move: Move, side: int): (t: set<int>)
    requires IsColour(side)
    ensures move.From in t && move.To in t
  {
    {move.From, move.To}
    + (if move.Type == king_castle || move.Type == queen_castle
       then {CastleRookSquare(move.Type, side), CastleRookTarget(move.Type, side)} else {})
    + (if move.Type == ep_capture then {CaptureSquare(move, side)} else {})
  }

  /** A move changes no square it does not touch, empties `From` and puts the placed piece on `To`. */
  lemma MailboxAfterFrame(mb: seq<int>, move: Move, side: int)
    requires |mb| == 64 && MoveFits(mb, move, side)
    ensures var after := MailboxAfter(mb, move, side);
      && (forall sq :: 0 <= sq < 64 && sq !in Touched(move, side) ==> after[sq] == mb[sq])
      && after[move.From] == NO_PIECE && after[move.To] == PlacedPiece(move)
  {
  }

  /** Of the other side's pieces, the move keeps every one it does not capture, and places none. */
  predicate CapturesAtMostOne(mb: seq<int>, after: seq<int>, move: Move, side: int)
    requires |mb| == 64 && |after| == 64 && IsColour(side) && 0 <= move.Type
  {
    && (forall sq :: 0 <= sq < 64 && IsPiece(after[sq]) && ColourOf(after[sq]) != side ==> after[sq] == mb[sq])
    && (forall sq :: 0 <= sq < 64 && IsPiece(mb[sq]) && ColourOf(mb[sq]) != side && after[sq] != mb[sq] ==>
          sq == CaptureSquare(move, side) && IsCaptureType(move.Type))
  }

  /**
   * Of the other side's pieces a move removes at most one, the one on the
   * capture square of a capturing move, and it places none.
   */
  lemma MailboxAfterCaptures(mb: seq<int>, move: Move, side: int)
    requires |mb| == 64 && MoveFits(mb, move, side)
    ensures CapturesAtMostOne(mb, MailboxAfter(mb, move, side), move, side)
  {
    TypeFlags(move.Type);
    if move.Type == king_castle || move.Type == queen_castle {
      CastleCapturesNothing(mb, move, side);
    } else if move.Type == ep_capture {
      EnPassantCapturesOne(mb, move, side);
    } else {
      PlainCapturesAtMostOne(mb, move, side);
    }
  }

  lemma CastleCapturesNothing(mb: seq<int>, move: Move, side: int)
    requires |mb| == 64 && MoveFits(mb, move, side) && (move.Type == king_castle || move.Type == queen_castle)
    ensures CapturesAtMostOne(mb, MailboxAfter(mb, move, side), move, side)
  {
    var rs, rt := CastleRookSquare(move.Type, side), CastleRookTarget(move.Type, side);
    assert MailboxAfter(mb, move, side) == mb[move.From := NO_PIECE][move.To := move.Piece][rs := NO_PIECE][rt := GetPiece(BR, side)];
  }

  lemma EnPassantCapturesOne(mb: seq<int>, move: Move, side: int)
    requires |mb| == 64 && MoveFits(mb, move, side) && move.Type == ep_capture
    ensures CapturesAtMostOne(mb, MailboxAfter(mb, move, side), move, side)
  {
    TypeFlags(move.Type);
    assert MailboxAfter(mb, move, side) == mb[move.From := NO_PIECE][move.To := move.Piece][CaptureSquare(move, side) := NO_PIECE];
  }

  lemma PlainCapturesAtMostOne(mb: seq<int>, move: Move, side: int)
    requires |mb| == 64 && MoveFits(mb, move, side)
    requires move.Type != king_castle && move.Type != queen_castle && move.Type != ep_capture
    ensures CapturesAtMostOne(mb, MailboxAfter(mb, move, side), move, side)
  {
    TypeFlags(move.Type);
    assert MailboxAfter(mb, move, side) == mb[move.From := NO_PIECE][move.To := PlacedPiece(move)];
  }

  // -------------------------------------------------------- taking it back

  /**
   * The mailbox `UnmakeMove` expects for `move`, made by `side`, with
   * `captured` the piece that stood on `To` before it: the placed piece on
   * `To`, `From` empty, the castling rook on its target with its corner
   * empty, the en-passant victim's square empty, and `captured` an enemy
   * piece for the captures.
   */
  predicate UnmoveFits(mb: seq<int>, move: Move, side: int, captured: int)
    requires |mb| == 64
  {
    && IsColour(side) && move.Type in MoveTypes
    && 0 <= move.From < 64 && 0 <= move.To < 64 && move.From != move.To
    && IsPiece(move.Piece) && ColourOf(move.Piece) == side
    && mb[move.From] == NO_PIECE && mb[move.To] == PlacedPiece(move)
    && (move.Type >= knight_promo ==> move.Piece == GetPiece(P, side))
    && (move.Type in {capture, knight_promo_capture, bishop_promo_capture, rook_promo_capture, queen_promo_capture} ==>
          IsPiece(captured) && ColourOf(captured) == 1 - side)
    && (move.Type == ep_capture ==>
          && move.Piece == GetPiece(P, side)
          && 0 <= CaptureSquare(move, side) < 64 && CaptureSquare(move, side) != move.From
          && mb[CaptureSquare(move, side)] == NO_PIECE)
    && (move.Type in {king_castle, queen_castle} ==>
          && move.Piece == GetPiece(K, side) && move.From == KingHome(side)
          && move.To == KingHome(side) + (if move.Type == king_castle then 2 else -2)
          && mb[CastleRookSquare(move.Type, side)] == NO_PIECE
          && mb[CastleRookTarget(move.Type, side)] == GetPiece(BR, side))
  }

  /**
   * The mailbox `UnmakeMove` leaves: the moving piece back on `From`, and
   * `To` given back `captured` (empty for the non-captures); castling puts
   * the rook back in its corner, en passant puts the other side's pawn back
   * behind `To`.
   */
  function UnmakeMailbox(mb: seq<int>, move: Move, side: int, captured: int): (r: seq<int>)
    requires |mb| == 64 && UnmoveFits(mb, move, side, captured)
    ensures |r| == 64
  {
    var restored := if move.Type in {capture, knight_promo_capture, bishop_promo_capture, rook_promo_capture, queen_promo_capture}
      then mb[move.To := captured] else mb[move.To := NO_PIECE];
    var moved := restored[move.From := move.Piece];
    if move.Type == king_castle || move.Type == queen_castle then
      moved[CastleRookTarget(move.Type, side) := NO_PIECE][CastleRookSquare(move.Type, side) := GetPiece(BR, side)]
    else if move.Type == ep_capture then moved[CaptureSquare(move, side) := GetPiece(P, 1 - side)]
    else moved
  }

  /** The mailbox after a move is one `UnmakeMove` accepts, with the piece that stood on `To` as the captured piece. */
  lemma UnmoveFitsAfterMake(mb: seq<int>, move: Move, side: int)
    requires |mb| == 64 && MoveFits(mb, move, side)
    ensures UnmoveFits(MailboxAfter(mb, move, side), move, side, mb[move.To])
  {
  }

  /**
   * Making a move and taking it back, with the piece that stood on `To` as
   * the captured piece, gives the mailbox back.
   */
  lemma UnmakeAfterMake(mb: seq<int>, move: Move, side: int)
    requires |mb| == 64 && MoveFits(mb, move, side)
    ensures UnmoveFits(MailboxAfter(mb, move, side), move, side, mb[move.To])
    ensures UnmakeMailbox(MailboxAfter(mb, move, side), move, side, mb[move.To]) == mb
  {
    UnmoveFitsAfterMake(mb, move, side);
    if move.Type == king_castle || move.Type == queen_castle {
      UnmakeCastle(mb, move, side);
    } else if move.Type == ep_capture {
      UnmakeEnPassant(mb, move, side);
    } else {
      UnmakePlain(mb, move, side);
    }
  }

  lemma UnmakeCastle(mb: seq<int>, move: Move, side: int)
    requires |mb| == 64 && MoveFits(mb, move, side) && (move.Type == king_castle || move.Type == queen_castle)
    requires UnmoveFits(MailboxAfter(mb, move, side), move, side, mb[move.To])
    ensures UnmakeMailbox(MailboxAfter(mb, move, side), move, side, mb[move.To]) == mb
  {
    var rs, rt := CastleRookSquare(move.Type, side), CastleRookTarget(move.Type, side);
    var after := mb[move.From := NO_PIECE][move.To := move.Piece][rs := NO_PIECE][rt := GetPiece(BR, side)];
    assert MailboxAfter(mb, move, side) == after;
    assert UnmakeMailbox(after, move, side, mb[move.To]) == after[move.To := NO_PIECE][move.From := move.Piece][rt := NO_PIECE][rs := GetPiece(BR, side)];
  }

  lemma UnmakeEnPassant(mb: seq<int>, move: Move, side: int)
    requires |mb| == 64 && MoveFits(mb, move, side) && move.Type == ep_capture
    requires UnmoveFits(MailboxAfter(mb, move, side), move, side, mb[move.To])
    ensures UnmakeMailbox(MailboxAfter(mb, move, side), move, side, mb[move.To]) == mb
  {
    var cs := CaptureSquare(move, side);
    var after := mb[move.From := NO_PIECE][move.To := move.Piece][cs := NO_PIECE];
    assert MailboxAfter(mb, move, side) == after;
    assert UnmakeMailbox(after, move, side, mb[move.To]) == after[move.To := NO_PIECE][move.From := move.Piece][cs := GetPiece(P, 1 - side)];
  }

  lemma UnmakePlain(mb: seq<int>, move: Move, side: int)
    requires |mb| == 64 && MoveFits(mb, move, side)
    requires move.Type != king_castle && move.Type != queen_castle && move.Type != ep_capture
    requires UnmoveFits(MailboxAfter(mb, move, side), move, side, mb[move.To])
    ensures UnmakeMailbox(MailboxAfter(mb, move, side), move, side, mb[move.To]) == mb
  {
    var after := mb[move.From := NO_PIECE][move.To := PlacedPiece(move)];
    assert MailboxAfter(mb, move, side) == after;
    assert UnmakeMailbox(after, move, side, mb[move.To]) == after[move.To := mb[move.To]][move.From := move.Piece];
  }

  // ------------------------------------------------------- castling rights

  /** The four castling flags. */
  predicate IsCastleFlag(f: int)
  {
    f == WhiteKingCastle || f == WhiteQueenCastle || f == BlackKingCastle || f == BlackQueenCastle
  }

  /** `(castle & flag) != 0` */
  predicate HasRight(castle: int, flag: int)
    requires 0 <= castle && 0 <= flag
  {
    BitAnd(castle, flag) != 0
  }

  /** Bit `k` of the mask `~flag` (on four bits): set except at the flag's own position. */
  lemma MaskBit(flag: int, k: nat)
    requires IsCastleFlag(flag) && k < 4
    ensures Bit(15 - flag, k) <==> Pow2(k) != flag
  {
    CastleFlagsAreBits();
    if flag == WhiteKingCastle {
      assert 15 - flag == 14;
    } else if flag == WhiteQueenCastle {
      assert 15 - flag == 13;
    } else if flag == BlackKingCastle {
      assert 15 - flag == 11;
    } else {
      assert 15 - flag == 7;
    }
  }

  /** `castle & ~flag` keeps every right but `flag`. */
  lemma ClearRightBit(castle: int, flag: int, g: int)
    requires 0 <= castle < 16 && IsCastleFlag(flag) && IsCastleFlag(g)
    ensures HasRight(BitAnd(castle, 15 - flag), g) <==> HasRight(castle, g) && g != flag
  {
    var k := if g == WhiteKingCastle then 0 else if g == WhiteQueenCastle then 1 else if g == BlackKingCastle then 2 else 3;
    CastleFlagsAreBits();
    assert g == Pow2(k);
    AndSingleBit(BitAnd(castle, 15 - flag), k);
    AndSingleBit(castle, k);
    BitAndBit(castle, 15 - flag, k);
    MaskBit(flag, k);
  }

  /**
   * `castle &= ~flag` on the four rights bits: the rights without `flag`,
   * every other right kept.
   */
  function ClearRight(castle: int, flag: int): (r: int)
    requires 0 <= castle < 16 && IsCastleFlag(flag)
    ensures 0 <= r < 16
    ensures forall g :: IsCastleFlag(g) ==> (HasRight(r, g) <==> HasRight(castle, g) && g != flag)
  {
    var r := BitAnd(castle, 15 - flag);
    forall g | IsCastleFlag(g)
      ensures HasRight(r, g) <==> HasRight(castle, g) && g != flag
    {
      ClearRightBit(castle, flag, g);
    }
    r
  }

  /**
   * The rights after the mover's own king or rook moves (the part of
   * `MakeMove` and `UpdateZobrist` before the switch): a king move drops
   * both of its side's rights; a rook leaving `a1` or `h1` (`a8`, `h8` for
   * Black) drops the right of that corner if it is still held.
   */
  function OwnRightsAfter(castle: int, move: Move, side: int): (r: int)
    requires 0 <= castle < 16 && IsPiece(move.Piece) && IsColour(side)
    ensures 0 <= r < 16
  {
    if GetPiece(move.Piece, White) == K then
      if side == White then ClearRight(ClearRight(castle, WhiteKingCastle), WhiteQueenCastle)
      else ClearRight(ClearRight(castle, BlackKingCastle), BlackQueenCastle)
    else if GetPiece(move.Piece, White) == R then
      if side == White then
        if HasRight(castle, WhiteQueenCastle) && move.From == A1 then ClearRight(castle, WhiteQueenCastle)
        else if HasRight(castle, WhiteKingCastle) && move.From == H1 then ClearRight(castle, WhiteKingCastle)
        else castle
      else
        if HasRight(castle, BlackQueenCastle) && move.From == A8 then ClearRight(castle, BlackQueenCastle)
        else if HasRight(castle, BlackKingCastle) && move.From == H8 then ClearRight(castle, BlackKingCastle)
        else castle
    else castle
  }

  /**
   * The rights after a capture takes the other side's rook (`target` is
   * the piece that stood on `To`): a rook taken on the a-file of the
   * other side's back rank drops its queen-side right, on the h-file its
   * king-side right.
   */
  function CapturedRightsAfter(castle: int, move: Move, side: int, target: int): (r: int)
    requires 0 <= castle < 16 && 0 <= move.Type && 0 <= move.To < 64 && IsColour(side)
    ensures 0 <= r < 16
  {
    if IsCaptureType(move.Type) && target == GetPiece(BR, 1 - side) then
      if GetFile(move.To) == 0 then
        if side == White then (if GetRank(move.To) == 7 then ClearRight(castle, BlackQueenCastle) else castle)
        else (if GetRank(move.To) == 0 then ClearRight(castle, WhiteQueenCastle) else castle)
      else if GetFile(move.To) == 7 then
        if side == White then (if GetRank(move.To) == 7 then ClearRight(castle, BlackKingCastle) else castle)
        else (if GetRank(move.To) == 0 then ClearRight(castle, WhiteKingCastle) else castle)
      else castle
    else castle
  }

  /** The rights after `move`, with `target` the piece that stood on `To`. */
  function CastleAfter(castle: int, move: Move, side: int, target: int): int
    requires 0 <= castle < 16 && IsPiece(move.Piece) && 0 <= move.Type && 0 <= move.To < 64 && IsColour(side)
  {
    CapturedRightsAfter(OwnRightsAfter(castle, move, side), move, side, target)
  }

  /** The side a right belongs to. */
  function RightOwner(f: int): int
    requires IsCastleFlag(f)
  {
    if f == WhiteKingCastle || f == WhiteQueenCastle then White else Black
  }

  /** The corner of the rook a right castles with. */
  function RightCorner(f: int): int
    requires IsCastleFlag(f)
  {
    if f == WhiteKingCastle then H1 else if f == WhiteQueenCastle then A1
    else if f == BlackKingCastle then H8 else A8
  }

  /**
   * A move loses right `f` when its owner moves the king, or moves a rook
   * off the right's corner, or when the other side captures the owner's rook
   * standing on that corner.
   */
  predicate LosesRight(f: int, move: Move, side: int, target: int)
    requires IsCastleFlag(f) && IsPiece(move.Piece) && IsColour(side) && 0 <= move.Type
  {
    || (RightOwner(f) == side && GetPiece(move.Piece, White) == K)
    || (RightOwner(f) == side && GetPiece(move.Piece, White) == R && move.From == RightCorner(f))
    || (RightOwner(f) != side && IsCaptureType(move.Type) && target == GetPiece(BR, RightOwner(f))
        && move.To == RightCorner(f))
  }

  /** A right survives a move exactly when it was held and the move does not lose it. */
  lemma CastleAfterMeaning(castle: int, move: Move, side: int, target: int, f: int)
    requires 0 <= castle < 16 && IsPiece(move.Piece) && 0 <= move.Type && 0 <= move.To < 64 && IsColour(side)
    requires IsCastleFlag(f)
    ensures 0 <= CastleAfter(castle, move, side, target) < 16
    ensures HasRight(CastleAfter(castle, move, side, target), f) <==> HasRight(castle, f) && !LosesRight(f, move, side, target)
  {
    var own := OwnRightsAfter(castle, move, side);
    assert HasRight(own, f) <==> (HasRight(castle, f) && !(RightOwner(f) == side &&
      (GetPiece(move.Piece, White) == K || (GetPiece(move.Piece, White) == R && move.From == RightCorner(f)))));
  }

  // ------------------------------------------------- en passant and the clock

  /** The en-passant square after the move: behind a pawn that pushed two squares, none otherwise. */
  function EpAfter(move: Move, side: int): (sq: int)
    requires IsColour(side)
    ensures move.Type != double_pawn_push ==> sq == NO_SQ
  {
    if move.Type == double_pawn_push then (if side == White then move.To + 8 else move.To - 8) else NO_SQ
  }

  /** After a double push the en-passant square is the one the pawn passed over. */
  lemma EpAfterIsPassedSquare(mb: seq<int>, move: Move, side: int)
    requires |mb| == 64 && MoveFits(mb, move, side) && move.Type == double_pawn_push
    ensures EpAfter(move, side) == (move.From + move.To) / 2
    ensures 0 <= EpAfter(move, side) < 64 && EpAfter(move, side) != move.From && EpAfter(move, side) != move.To
    ensures EpAfter(move, side) % 8 == move.From % 8
  {
  }

  /** `is_move_irreversible`: a capture of any kind, or a pawn move. */
  predicate IsMoveIrreversible(move: Move)
    requires 0 <= move.Type
  {
    IsCaptureType(move.Type) || move.Piece == BP || move.Piece == P
  }

  /** The half-move clock after a move, as the rules define it: back to 0 after an irreversible move, one more (in a `uint8_t`) otherwise. */
  function ClockAfter(halfmove: int, move: Move): (h: int)
    requires 0 <= halfmove < 256 && 0 <= move.Type
    ensures 0 <= h < 256
    ensures IsMoveIrreversible(move) ==> h == 0
    ensures !IsMoveIrreversible(move) ==> h == U8(halfmove + 1)
  {
    if IsMoveIrreversible(move) then 0 else (halfmove + 1) % 256
  }

  /** The half-move clock as `MakeMove` leaves it: the `bishop_promo_capture` arm does not reset it. */
  function ClockAfterAsWritten(halfmove: int, move: Move): (h: int)
    requires 0 <= halfmove < 256 && 0 <= move.Type
    ensures 0 <= h < 256
    ensures move.Type != bishop_promo_capture ==> h == ClockAfter(halfmove, move)
  {
    if IsMoveIrreversible(move) && move.Type != bishop_promo_capture then 0 else (halfmove + 1) % 256
  }

  /** A capture promoting to a bishop is irreversible, yet the clock as written counts it as a reversible move. */
  lemma BishopPromoCaptureKeepsClock()
    ensures var move := Move(9, A8, bishop_promo_capture, P);
      && IsMoveIrreversible(move)
      && ClockAfterAsWritten(5, move) == 6 && ClockAfter(5, move) == 0
  {
    TypeFlags(bishop_promo_capture);
  }

  /** The clock after a sequence of moves, applied one at a time. */
  function ClockAfterMoves(halfmove: int, moves: seq<Move>): (h: int)
    requires 0 <= halfmove < 256 && forall i :: 0 <= i < |moves| ==> 0 <= moves[i].Type
    ensures 0 <= h < 256
  {
    if moves == [] then halfmove else ClockAfter(ClockAfterMoves(halfmove, moves[..|moves| - 1]), moves[|moves| - 1])
  }

  /** The number of moves at the end of `moves` after its last irreversible move, or `halfmove` plus all of them when there is none. */
  function ReversibleRun(halfmove: int, moves: seq<Move>): (n: nat)
    requires 0 <= halfmove && forall i :: 0 <= i < |moves| ==> 0 <= moves[i].Type
  {
    if moves == [] then halfmove
    else if IsMoveIrreversible(moves[|moves| - 1]) then 0
    else ReversibleRun(halfmove, moves[..|moves| - 1]) + 1
  }

  /** The clock counts, modulo 256, the moves since the last irreversible one. */
  lemma {:induction false} ClockCountsReversibleMoves(halfmove: int, moves: seq<Move>)
    requires 0 <= halfmove < 256 && forall i :: 0 <= i < |moves| ==> 0 <= moves[i].Type
    ensures ClockAfterMoves(halfmove, moves) == ReversibleRun(halfmove, moves) % 256
  {
    if moves != [] {
      var init := moves[..|moves| - 1];
      ClockCountsReversibleMoves(halfmove, init);
    }
  }
}
