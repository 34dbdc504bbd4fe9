// `UpdateZobrist` and `XORPieceZobrist` (Movegen.cpp): before the board
// changes, the hash and the pawn hash are brought up to date by XORing out
// what the move removes and XORing in what it adds. The ghost `HashTrace`
// records which parts of the hash the keys accounted for so far.

module HashUpdate {
  import opened CppInt
  import opened Bitboards
  import opened Consts
  import opened Moves
  import opened Chessboard
  import opened Placement
  import opened Zobrist
  import opened MoveRules

  /** Twelve on-board bitboards. */
  predicate Shaped(bbs: seq<Bitboard>)
  {
    |bbs| == 12 && forall p :: 0 <= p < 12 ==> OnBoard(bbs[p])
  }

  /** `bbs` with square `x` of piece `p` flipped: what one `XORPieceZobrist` call accounts for. */
  function Toggle(bbs: seq<Bitboard>, p: int, x: int): (r: seq<Bitboard>)
    requires Shaped(bbs) && 0 <= p < 12 && 0 <= x < 64
    ensures Shaped(r)
    ensures x in r[p] <==> x !in bbs[p]
    ensures forall q, y :: 0 <= q < 12 && (q != p || y != x) ==> (y in r[q] <==> y in bbs[q])
  {
    bbs[p := Flip(bbs[p], x)]
  }

  /** Flipping in the piece that stands on `x` takes it off: agreement with the mailbox emptied there. */
  lemma ToggleTake(bbs: seq<Bitboard>, mb: seq<int>, p: int, x: int)
    requires BitsAgree(bbs, mb) && 0 <= x < 64 && IsPiece(p) && mb[x] == p
    ensures BitsAgree(Toggle(bbs, p, x), mb[x := NO_PIECE])
  {
  }

  /** Flipping a piece onto an empty square puts it there. */
  lemma TogglePut(bbs: seq<Bitboard>, mb: seq<int>, p: int, x: int)
    requires BitsAgree(bbs, mb) && 0 <= x < 64 && IsPiece(p) && mb[x] == NO_PIECE
    ensures BitsAgree(Toggle(bbs, p, x), mb[x := p])
  {
  }

  /** Flips of two different pieces commute. */
  lemma ToggleCommute(bbs: seq<Bitboard>, p: int, x: int, q: int, y: int)
    requires Shaped(bbs) && 0 <= p < 12 && 0 <= q < 12 && p != q && 0 <= x < 64 && 0 <= y < 64
    ensures Toggle(Toggle(bbs, p, x), q, y) == Toggle(Toggle(bbs, q, y), p, x)
  {
  }

  /** The same flip twice changes nothing. */
  lemma ToggleTwice(bbs: seq<Bitboard>, p: int, x: int)
    requires Shaped(bbs) && 0 <= p < 12 && 0 <= x < 64
    ensures Toggle(Toggle(bbs, p, x), p, x) == bbs
  {
    assert Flip(Flip(bbs[p], x), x) == bbs[p];
  }

  /** The mover off `From` and onto `To`. */
  function MoverFlips(bbs: seq<Bitboard>, move: Move): (r: seq<Bitboard>)
    requires Shaped(bbs) && IsPiece(move.Piece) && 0 <= move.From < 64 && 0 <= move.To < 64
    ensures Shaped(r)
  {
    Toggle(Toggle(bbs, move.Piece, move.From), move.Piece, move.To)
  }

  /** For a capture, the captured piece off its square (behind `To` for en passant). */
  function CaptureFlips(bbs: seq<Bitboard>, mb: seq<int>, move: Move, side: int): (r: seq<Bitboard>)
    requires Shaped(bbs) && |mb| == 64 && IsColour(side) && 0 <= move.Type
    requires IsCaptureType(move.Type) ==>
      0 <= CaptureSquare(move, side) < 64 && IsPiece(mb[CaptureSquare(move, side)])
    ensures Shaped(r)
  {
    if IsCaptureType(move.Type) then Toggle(bbs, mb[CaptureSquare(move, side)], CaptureSquare(move, side)) else bbs
  }

  /** For castling, the rook off its corner and onto its target. */
  function RookFlips(bbs: seq<Bitboard>, mb: seq<int>, move: Move, side: int): (r: seq<Bitboard>)
    requires Shaped(bbs) && |mb| == 64 && IsColour(side)
    requires move.Type == king_castle || move.Type == queen_castle ==>
      IsPiece(mb[CastleRookSquare(move.Type, side)]) && 0 <= CastleRookTarget(move.Type, side) < 64
    ensures Shaped(r)
  {
    if move.Type == king_castle || move.Type == queen_castle then
      var rs := CastleRookSquare(move.Type, side);
      Toggle(Toggle(bbs, mb[rs], rs), mb[rs], CastleRookTarget(move.Type, side))
    else bbs
  }

  /** For a promotion, the pawn off `To` and the promoted piece onto it. */
  function PromotionFlips(bbs: seq<Bitboard>, move: Move): (r: seq<Bitboard>)
    requires Shaped(bbs) && IsPiece(move.Piece) && 0 <= move.To < 64 && 0 <= move.Type
    ensures Shaped(r)
  {
    if IsPromotionType(move.Type) then Toggle(Toggle(bbs, move.Piece, move.To), PlacedPiece(move), move.To) else bbs
  }

  /**
   * The bitboards as `UpdateZobrist` accounts for them, one flip per
   * `XORPieceZobrist` call and in its order: the mover, the captured
   * piece, the castling rook, then the promotion.
   */
  function ZobristBoards(bbs: seq<Bitboard>, mb: seq<int>, move: Move, side: int): (r: seq<Bitboard>)
    requires Shaped(bbs) && |mb| == 64 && MoveFits(mb, move, side)
    ensures Shaped(r)
  {
    TypeFlags(move.Type);
    PromotionFlips(RookFlips(CaptureFlips(MoverFlips(bbs, move), mb, move, side), mb, move, side), move)
  }

  /** The flips `UpdateZobrist` accounts for turn bitboards agreeing with the mailbox into bitboards agreeing with the mailbox after the move. */
  lemma ZobristBoardsAgree(bbs: seq<Bitboard>, mb: seq<int>, move: Move, side: int)
    requires BitsAgree(bbs, mb) && MoveFits(mb, move, side)
    ensures BitsAgree(ZobristBoards(bbs, mb, move, side), MailboxAfter(mb, move, side))
  {
    TypeFlags(move.Type);
    if move.Type == king_castle || move.Type == queen_castle {
      CastleBoardsAgree(bbs, mb, move, side);
    } else if move.Type == ep_capture {
      EnPassantBoardsAgree(bbs, mb, move, side);
    } else if IsPromotionType(move.Type) {
      PromotionBoardsAgree(bbs, mb, move, side);
    } else {
      PlainBoardsAgree(bbs, mb, move, side);
    }
  }

  lemma CastleBoardsAgree(bbs: seq<Bitboard>, mb: seq<int>, move: Move, side: int)
    requires BitsAgree(bbs, mb) && MoveFits(mb, move, side) && (move.Type == king_castle || move.Type == queen_castle)
    ensures BitsAgree(ZobristBoards(bbs, mb, move, side), MailboxAfter(mb, move, side))
  {
    TypeFlags(move.Type);
    CastleGeometry(move.Type, side);
    var rs, rt, rook := CastleRookSquare(move.Type, side), CastleRookTarget(move.Type, side), GetPiece(BR, side);
    ToggleTake(bbs, mb, move.Piece, move.From);
    var b1, m1 := Toggle(bbs, move.Piece, move.From), mb[move.From := NO_PIECE];
    TogglePut(b1, m1, move.Piece, move.To);
    var b2, m2 := Toggle(b1, move.Piece, move.To), m1[move.To := move.Piece];
    ToggleTake(b2, m2, rook, rs);
    var b3, m3 := Toggle(b2, rook, rs), m2[rs := NO_PIECE];
    TogglePut(b3, m3, rook, rt);
    assert ZobristBoards(bbs, mb, move, side) == Toggle(b3, rook, rt);
    assert MailboxAfter(mb, move, side) == m3[rt := rook];
  }

  lemma EnPassantBoardsAgree(bbs: seq<Bitboard>, mb: seq<int>, move: Move, side: int)
    requires BitsAgree(bbs, mb) && MoveFits(mb, move, side) && move.Type == ep_capture
    ensures BitsAgree(ZobristBoards(bbs, mb, move, side), MailboxAfter(mb, move, side))
  {
    TypeFlags(move.Type);
    var cs, pawn := CaptureSquare(move, side), GetPiece(P, 1 - side);
    ToggleTake(bbs, mb, move.Piece, move.From);
    var b1, m1 := Toggle(bbs, move.Piece, move.From), mb[move.From := NO_PIECE];
    TogglePut(b1, m1, move.Piece, move.To);
    var b2, m2 := Toggle(b1, move.Piece, move.To), m1[move.To := move.Piece];
    ToggleTake(b2, m2, pawn, cs);
    assert ZobristBoards(bbs, mb, move, side) == Toggle(b2, pawn, cs);
    assert MailboxAfter(mb, move, side) == m2[cs := NO_PIECE];
  }

  lemma PromotionBoardsAgree(bbs: seq<Bitboard>, mb: seq<int>, move: Move, side: int)
    requires BitsAgree(bbs, mb) && MoveFits(mb, move, side) && IsPromotionType(move.Type)
    ensures BitsAgree(ZobristBoards(bbs, mb, move, side), MailboxAfter(mb, move, side))
  {
    TypeFlags(move.Type);
    var pc, promoted := move.Piece, PlacedPiece(move);
    ToggleTake(bbs, mb, pc, move.From);
    var b1, m1 := Toggle(bbs, pc, move.From), mb[move.From := NO_PIECE];
    if IsCaptureType(move.Type) {
      var victim := mb[move.To];
      assert victim != pc;
      ToggleCommute(b1, pc, move.To, victim, move.To);
      var b2 := Toggle(b1, victim, move.To);
      ToggleTwice(b2, pc, move.To);
      assert ZobristBoards(bbs, mb, move, side) == Toggle(b2, promoted, move.To);
      ToggleTake(b1, m1, victim, move.To);
      TogglePut(b2, m1[move.To := NO_PIECE], promoted, move.To);
    } else {
      ToggleTwice(b1, pc, move.To);
      assert ZobristBoards(bbs, mb, move, side) == Toggle(b1, promoted, move.To);
      TogglePut(b1, m1, promoted, move.To);
    }
    assert MailboxAfter(mb, move, side) == m1[move.To := promoted];
  }

  lemma PlainBoardsAgree(bbs: seq<Bitboard>, mb: seq<int>, move: Move, side: int)
    requires BitsAgree(bbs, mb) && MoveFits(mb, move, side) && !IsPromotionType(move.Type)
    requires move.Type != king_castle && move.Type != queen_castle && move.Type != ep_capture
    ensures BitsAgree(ZobristBoards(bbs, mb, move, side), MailboxAfter(mb, move, side))
  {
    TypeFlags(move.Type);
    var pc := move.Piece;
    ToggleTake(bbs, mb, pc, move.From);
    var b1, m1 := Toggle(bbs, pc, move.From), mb[move.From := NO_PIECE];
    if IsCaptureType(move.Type) {
      var victim := mb[move.To];
      assert victim != pc;
      ToggleCommute(b1, pc, move.To, victim, move.To);
      var b2 := Toggle(b1, victim, move.To);
      assert ZobristBoards(bbs, mb, move, side) == Toggle(b2, pc, move.To);
      ToggleTake(b1, m1, victim, move.To);
      TogglePut(b2, m1[move.To := NO_PIECE], pc, move.To);
    } else {
      assert ZobristBoards(bbs, mb, move, side) == Toggle(b1, pc, move.To);
      TogglePut(b1, m1, pc, move.To);
    }
    assert MailboxAfter(mb, move, side) == m1[move.To := pc];
  }

  // ------------------------------------------------------------- hash trace

  /** The parts of the hash the XORs so far account for: the flipped bitboards and the en-passant, castling and side parts. */
  datatype HashTrace = HashTrace(bbs: seq<Bitboard>, ep: nat, castle: nat, side: nat)

  /** The hash is its offset `d` XOR the hash of the traced parts, and the pawn hash is `dp` XOR the traced pawns' hash. */
  ghost predicate Tracks(zk: nat, pk: nat, keys: ZobristKeys, d: nat, dp: nat, t: HashTrace)
  {
    && KeysShape(keys) && Shaped(t.bbs)
    && zk == BitXor(d, HashOf(keys, t.bbs, t.ep, t.castle, t.side))
    && pk == BitXor(dp, PawnOf(keys, t.bbs))
  }

  /** XORing a key into the hash XORs it into the en-passant part. */
  lemma TrackEp(zk: nat, pk: nat, keys: ZobristKeys, d: nat, dp: nat, t: HashTrace, k: nat)
    requires Tracks(zk, pk, keys, d, dp, t)
    ensures Tracks(BitXor(zk, k), pk, keys, d, dp, t.(ep := BitXor(t.ep, k)))
  {
    HashOfEp(keys, t.bbs, t.ep, t.castle, t.side, k);
    XorAssoc(d, HashOf(keys, t.bbs, t.ep, t.castle, t.side), k);
  }

  /** XORing a key into the hash XORs it into the castling part. */
  lemma TrackCastle(zk: nat, pk: nat, keys: ZobristKeys, d: nat, dp: nat, t: HashTrace, k: nat)
    requires Tracks(zk, pk, keys, d, dp, t)
    ensures Tracks(BitXor(zk, k), pk, keys, d, dp, t.(castle := BitXor(t.castle, k)))
  {
    HashOfCastle(keys, t.bbs, t.ep, t.castle, t.side, k);
    XorAssoc(d, HashOf(keys, t.bbs, t.ep, t.castle, t.side), k);
  }

  /** XORing a key into the hash XORs it into the side part. */
  lemma TrackSide(zk: nat, pk: nat, keys: ZobristKeys, d: nat, dp: nat, t: HashTrace, k: nat)
    requires Tracks(zk, pk, keys, d, dp, t)
    ensures Tracks(BitXor(zk, k), pk, keys, d, dp, t.(side := BitXor(t.side, k)))
  {
    HashOfSide(keys, t.bbs, t.ep, t.castle, t.side, k);
    XorAssoc(d, HashOf(keys, t.bbs, t.ep, t.castle, t.side), k);
  }

  /**
   * `XORPieceZobrist` without the accumulator: XOR the key of `piece` on
   * `square` into the hash, and into the pawn hash when the piece is a pawn.
   */
  method XorPieceZobrist(board: Board, keys: ZobristKeys, piece: int, square: int,
                         ghost d: nat, ghost dp: nat, ghost t: HashTrace) returns (ghost t': HashTrace)
    requires IsPiece(piece) && 0 <= square < 64
    requires Tracks(board.zobristKey, board.pawnKey, keys, d, dp, t)
    modifies board`zobristKey, board`pawnKey
    ensures t' == t.(bbs := Toggle(t.bbs, piece, square))
    ensures Tracks(board.zobristKey, board.pawnKey, keys, d, dp, t')
  {
    var key := keys.piece[piece][square];
    board.zobristKey := BitXor(board.zobristKey, key);
    if GetPiece(piece, White) == P {
      board.pawnKey := BitXor(board.pawnKey, key);
    }
    t' := t.(bbs := Toggle(t.bbs, piece, square));
    HashOfFlip(keys, t.bbs, t.ep, t.castle, t.side, piece, square);
    XorAssoc(d, HashOf(keys, t.bbs, t.ep, t.castle, t.side), key);
    PawnOfFlip(keys, t.bbs, piece, square);
    XorAssoc(dp, PawnOf(keys, t.bbs), key);
  }

  /** One change of `castle_change`: the key of the rights `before` XORed out, the key of the rights `after` XORed in. */
  method RekeyCastle(board: Board, keys: ZobristKeys, before: int, after: int,
                     ghost d: nat, ghost dp: nat, ghost t: HashTrace) returns (ghost t': HashTrace)
    requires Tracks(board.zobristKey, board.pawnKey, keys, d, dp, t)
    requires 0 <= before < 16 && 0 <= after < 16 && t.castle == keys.castle[before]
    modifies board`zobristKey
    ensures t' == t.(castle := keys.castle[after])
    ensures Tracks(board.zobristKey, board.pawnKey, keys, d, dp, t')
  {
    ghost var kb, ka := keys.castle[before], keys.castle[after];
    ghost var z0 := board.zobristKey;
    board.zobristKey := BitXor(board.zobristKey, keys.castle[GetCastle(before)]);
    GetCastleSmall(before);
    GetCastleSmall(after);
    TrackCastle(z0, board.pawnKey, keys, d, dp, t, kb);
    ghost var t1 := t.(castle := BitXor(t.castle, kb));
    ghost var z1 := board.zobristKey;
    board.zobristKey := BitXor(board.zobristKey, keys.castle[GetCastle(after)]);
    TrackCastle(z1, board.pawnKey, keys, d, dp, t1, ka);
    XorSelf(kb);
    assert BitXor(t1.castle, ka) == ka;
    t' := t1.(castle := BitXor(t1.castle, ka));
  }

  /** The first part of `UpdateZobrist`: rekey the rights the mover's own king or rook takes away. */
  method ZobristOwnRights(board: Board, keys: ZobristKeys, move: Move, ghost d: nat, ghost dp: nat, ghost t: HashTrace)
      returns (castleChange: int, ghost t': HashTrace)
    requires 0 <= board.castle < 16 && IsColour(board.side) && IsPiece(move.Piece)
    requires Tracks(board.zobristKey, board.pawnKey, keys, d, dp, t) && t.castle == keys.castle[board.castle]
    modifies board`zobristKey
    ensures castleChange == OwnRightsAfter(board.castle, move, board.side)
    ensures t' == t.(castle := keys.castle[castleChange])
    ensures Tracks(board.zobristKey, board.pawnKey, keys, d, dp, t')
  {
    castleChange := board.castle;
    t' := t;
    if GetPiece(move.Piece, White) == K {
      var cleared;
      if board.side == White {
        cleared := ClearRight(ClearRight(castleChange, WhiteKingCastle), WhiteQueenCastle);
      } else {
        cleared := ClearRight(ClearRight(castleChange, BlackKingCastle), BlackQueenCastle);
      }
      t' := RekeyCastle(board, keys, castleChange, cleared, d, dp, t');
      castleChange := cleared;
    } else if GetPiece(move.Piece, White) == R {
      if board.side == White {
        if BitAnd(board.castle, WhiteQueenCastle) != 0 && move.From == A1 {
          var cleared := ClearRight(castleChange, WhiteQueenCastle);
          t' := RekeyCastle(board, keys, castleChange, cleared, d, dp, t');
          castleChange := cleared;
        } else if BitAnd(board.castle, WhiteKingCastle) != 0 && move.From == H1 {
          var cleared := ClearRight(castleChange, WhiteKingCastle);
          t' := RekeyCastle(board, keys, castleChange, cleared, d, dp, t');
          castleChange := cleared;
        }
      } else {
        if BitAnd(board.castle, BlackQueenCastle) != 0 && move.From == A8 {
          var cleared := ClearRight(castleChange, BlackQueenCastle);
          t' := RekeyCastle(board, keys, castleChange, cleared, d, dp, t');
          castleChange := cleared;
        } else if BitAnd(board.castle, BlackKingCastle) != 0 && move.From == H8 {
          var cleared := ClearRight(castleChange, BlackKingCastle);
          t' := RekeyCastle(board, keys, castleChange, cleared, d, dp, t');
          castleChange := cleared;
        }
      }
    }
  }

  /**
   * The capture part of `UpdateZobrist`: rekey the right a captured rook in
   * its corner takes away, then XOR out the captured piece (behind `To` for
   * en passant).
   */
  method ZobristCapture(board: Board, keys: ZobristKeys, move: Move, castleChange: int,
                        ghost d: nat, ghost dp: nat, ghost t: HashTrace) returns (castleChange': int, ghost t': HashTrace)
    requires |board.mailbox| == 64 && IsColour(board.side) && move.Type in MoveTypes && 0 <= move.To < 64
    requires IsCaptureType(move.Type)
    requires 0 <= CaptureSquare(move, board.side) < 64 && IsPiece(board.mailbox[CaptureSquare(move, board.side)])
    requires Tracks(board.zobristKey, board.pawnKey, keys, d, dp, t)
    requires 0 <= castleChange < 16 && t.castle == keys.castle[castleChange]
    modifies board`zobristKey, board`pawnKey
    ensures castleChange' == CapturedRightsAfter(castleChange, move, board.side, board.mailbox[move.To])
    ensures t' == t.(castle := keys.castle[castleChange'], bbs := CaptureFlips(t.bbs, board.mailbox, move, board.side))
    ensures Tracks(board.zobristKey, board.pawnKey, keys, d, dp, t')
  {
    TypeFlags(move.Type);
    castleChange', t' := ZobristCapturedRook(board, keys, move, castleChange, d, dp, t);
    var captureSquare;
    if move.Type == ep_capture {
      if board.side == White {
        captureSquare := move.To + 8;
      } else {
        captureSquare := move.To - 8;
      }
    } else {
      captureSquare := move.To;
    }
    assert captureSquare == CaptureSquare(move, board.side);
    var capturedPiece := board.mailbox[captureSquare];
    t' := XorPieceZobrist(board, keys, capturedPiece, captureSquare, d, dp, t');
  }

  /** The rights a rook captured on its corner takes away, rekeyed. */
  method ZobristCapturedRook(board: Board, keys: ZobristKeys, move: Move, castleChange: int,
                             ghost d: nat, ghost dp: nat, ghost t: HashTrace) returns (castleChange': int, ghost t': HashTrace)
    requires |board.mailbox| == 64 && IsColour(board.side) && 0 <= move.Type && 0 <= move.To < 64
    requires IsCaptureType(move.Type)
    requires Tracks(board.zobristKey, board.pawnKey, keys, d, dp, t)
    requires 0 <= castleChange < 16 && t.castle == keys.castle[castleChange]
    modifies board`zobristKey
    ensures castleChange' == CapturedRightsAfter(castleChange, move, board.side, board.mailbox[move.To])
    ensures t' == t.(castle := keys.castle[castleChange'])
    ensures Tracks(board.zobristKey, board.pawnKey, keys, d, dp, t')
  {
    castleChange' := castleChange;
    t' := t;
    var clear := NO_PIECE;
    if board.mailbox[move.To] == GetPiece(BR, 1 - board.side) {
      if GetFile(move.To) == 0 {
        if board.side == White {
          if GetRank(move.To) == 7 {
            clear := BlackQueenCastle;
          }
        } else {
          if GetRank(move.To) == 0 {
            clear := WhiteQueenCastle;
          }
        }
      } else if GetFile(move.To) == 7 {
        if board.side == White {
          if GetRank(move.To) == 7 {
            clear := BlackKingCastle;
          }
        } else {
          if GetRank(move.To) == 0 {
            clear := WhiteKingCastle;
          }
        }
      }
    }
    if clear != NO_PIECE {
      var cleared := ClearRight(castleChange', clear);
      t' := RekeyCastle(board, keys, castleChange', cleared, d, dp, t');
      castleChange' := cleared;
    }
  }

  /** The en-passant key of square `sq`, or nothing for `NO_SQ`. */
  function EpPart(keys: ZobristKeys, sq: int): nat
    requires KeysShape(keys) && 0 <= sq <= NO_SQ
  {
    if sq != NO_SQ then keys.enpassant[sq] else 0
  }

  /**
   * The part of `UpdateZobrist` up to the captures: rekey the mover's own
   * rights, XOR out the old en-passant square, flip the side, move the
   * piece, and XOR in the square a double push passes over.
   */
  method ZobristMover(board: Board, keys: ZobristKeys, move: Move, ghost d: nat, ghost dp: nat, ghost t: HashTrace)
      returns (castleChange: int, ghost t': HashTrace)
    requires |board.mailbox| == 64 && MoveFits(board.mailbox, move, board.side)
    requires 0 <= board.castle < 16 && 0 <= board.enpassent <= NO_SQ
    requires Tracks(board.zobristKey, board.pawnKey, keys, d, dp, t)
    requires t.ep == EpPart(keys, board.enpassent) && t.castle == keys.castle[board.castle]
    requires t.side == SideKey(keys, board.side)
    modifies board`zobristKey, board`pawnKey
    ensures castleChange == OwnRightsAfter(board.castle, move, board.side)
    ensures t' == HashTrace(MoverFlips(t.bbs, move), EpPart(keys, EpAfter(move, board.side)),
      keys.castle[castleChange], SideKey(keys, 1 - board.side))
    ensures Tracks(board.zobristKey, board.pawnKey, keys, d, dp, t')
  {
    castleChange, t' := ZobristOwnRights(board, keys, move, d, dp, t);
    t' := ZobristTurn(board, keys, d, dp, t');
    t' := ZobristMovePiece(board, keys, move, d, dp, t');
    assert move.Type == double_pawn_push ==> 0 <= EpAfter(move, board.side) < 64;
    t' := ZobristPassed(board, keys, move, d, dp, t');
  }

  /** The moving piece's key on `From` and on `To`. */
  method ZobristMovePiece(board: Board, keys: ZobristKeys, move: Move, ghost d: nat, ghost dp: nat, ghost t: HashTrace)
      returns (ghost t': HashTrace)
    requires IsPiece(move.Piece) && 0 <= move.From < 64 && 0 <= move.To < 64
    requires Tracks(board.zobristKey, board.pawnKey, keys, d, dp, t)
    modifies board`zobristKey, board`pawnKey
    ensures t' == t.(bbs := MoverFlips(t.bbs, move))
    ensures Tracks(board.zobristKey, board.pawnKey, keys, d, dp, t')
  {
    t' := XorPieceZobrist(board, keys, move.Piece, move.From, d, dp, t);
    t' := XorPieceZobrist(board, keys, move.Piece, move.To, d, dp, t');
  }

  /** After a double push, the key of the square the pawn passed over enters the hash. */
  method ZobristPassed(board: Board, keys: ZobristKeys, move: Move, ghost d: nat, ghost dp: nat, ghost t: HashTrace)
      returns (ghost t': HashTrace)
    requires IsColour(board.side)
    requires move.Type == double_pawn_push ==> 0 <= EpAfter(move, board.side) < 64
    requires Tracks(board.zobristKey, board.pawnKey, keys, d, dp, t) && t.ep == 0
    modifies board`zobristKey
    ensures t' == t.(ep := EpPart(keys, EpAfter(move, board.side)))
    ensures Tracks(board.zobristKey, board.pawnKey, keys, d, dp, t')
  {
    t' := t;
    if move.Type == double_pawn_push {
      var passed := if board.side == White then move.To + 8 else move.To - 8;
      ghost var z := board.zobristKey;
      board.zobristKey := BitXor(board.zobristKey, keys.enpassant[passed]);
      TrackEp(z, board.pawnKey, keys, d, dp, t', keys.enpassant[passed]);
      t' := t'.(ep := keys.enpassant[passed]);
    }
  }

  /** The en-passant key of the old square, if any, and the side key leave the hash. */
  method ZobristTurn(board: Board, keys: ZobristKeys, ghost d: nat, ghost dp: nat, ghost t: HashTrace)
      returns (ghost t': HashTrace)
    requires 0 <= board.enpassent <= NO_SQ && IsColour(board.side)
    requires Tracks(board.zobristKey, board.pawnKey, keys, d, dp, t)
    requires t.ep == EpPart(keys, board.enpassent) && t.side == SideKey(keys, board.side)
    modifies board`zobristKey
    ensures t' == t.(ep := 0, side := SideKey(keys, 1 - board.side))
    ensures Tracks(board.zobristKey, board.pawnKey, keys, d, dp, t')
  {
    t' := t;
    if board.enpassent != NO_SQ {
      ghost var z := board.zobristKey;
      board.zobristKey := BitXor(board.zobristKey, keys.enpassant[board.enpassent]);
      TrackEp(z, board.pawnKey, keys, d, dp, t', keys.enpassant[board.enpassent]);
      XorSelf(keys.enpassant[board.enpassent]);
      t' := t'.(ep := 0);
    }
    ghost var z := board.zobristKey;
    board.zobristKey := BitXor(board.zobristKey, keys.side);
    TrackSide(z, board.pawnKey, keys, d, dp, t', keys.side);
    XorSelf(keys.side);
    t' := t'.(side := SideKey(keys, 1 - board.side));
  }

  /** The castling part of `UpdateZobrist`: the rook off its corner and onto its target. */
  method ZobristRook(board: Board, keys: ZobristKeys, move: Move, ghost d: nat, ghost dp: nat, ghost t: HashTrace)
      returns (ghost t': HashTrace)
    requires |board.mailbox| == 64 && IsColour(board.side)
    requires move.Type == king_castle || move.Type == queen_castle ==>
      IsPiece(board.mailbox[CastleRookSquare(move.Type, board.side)]) && 0 <= CastleRookTarget(move.Type, board.side) < 64
    requires Tracks(board.zobristKey, board.pawnKey, keys, d, dp, t)
    modifies board`zobristKey, board`pawnKey
    ensures t' == t.(bbs := RookFlips(t.bbs, board.mailbox, move, board.side))
    ensures Tracks(board.zobristKey, board.pawnKey, keys, d, dp, t')
  {
    t' := t;
    if move.Type == king_castle {
      var rookSquare := if board.side == White then H1 else H8;
      t' := XorPieceZobrist(board, keys, board.mailbox[rookSquare], rookSquare, d, dp, t');
      t' := XorPieceZobrist(board, keys, board.mailbox[rookSquare], rookSquare - 2, d, dp, t');
    } else if move.Type == queen_castle {
      var rookSquare := if board.side == White then A1 else A8;
      t' := XorPieceZobrist(board, keys, board.mailbox[rookSquare], rookSquare, d, dp, t');
      t' := XorPieceZobrist(board, keys, board.mailbox[rookSquare], rookSquare + 3, d, dp, t');
    }
  }

  /** The promotion part of `UpdateZobrist`: the pawn off `To` and the promoted piece onto it. */
  method ZobristPromotion(board: Board, keys: ZobristKeys, move: Move, ghost d: nat, ghost dp: nat, ghost t: HashTrace)
      returns (ghost t': HashTrace)
    requires IsPiece(move.Piece) && 0 <= move.To < 64 && move.Type in MoveTypes
    requires Tracks(board.zobristKey, board.pawnKey, keys, d, dp, t)
    modifies board`zobristKey, board`pawnKey
    ensures t' == t.(bbs := PromotionFlips(t.bbs, move))
    ensures Tracks(board.zobristKey, board.pawnKey, keys, d, dp, t')
  {
    TypeFlags(move.Type);
    t' := t;
    if BitAnd(move.Type, promotionFlag) != 0 {
      t' := XorPieceZobrist(board, keys, move.Piece, move.To, d, dp, t');
      var promoPiece := GetPromotingPiece(move);
      assert promoPiece == PlacedPiece(move);
      t' := XorPieceZobrist(board, keys, promoPiece, move.To, d, dp, t');
    }
  }

  /** The sections of `UpdateZobrist` up to the captures: the mover, then the captured piece and the right it takes away. */
  method ZobristMoveAndCapture(board: Board, move: Move, keys: ZobristKeys, ghost d: nat, ghost dp: nat, ghost t: HashTrace)
      returns (ghost t': HashTrace)
    requires |board.mailbox| == 64 && MoveFits(board.mailbox, move, board.side)
    requires 0 <= board.castle < 16 && 0 <= board.enpassent <= NO_SQ
    requires Tracks(board.zobristKey, board.pawnKey, keys, d, dp, t)
    requires IsCaptureType(move.Type) ==> 0 <= CaptureSquare(move, board.side) < 64 && IsPiece(board.mailbox[CaptureSquare(move, board.side)])
    requires t == HashTrace(board.bitboards, EpPart(keys, board.enpassent), keys.castle[board.castle], SideKey(keys, board.side))
    modifies board`zobristKey, board`pawnKey
    ensures Tracks(board.zobristKey, board.pawnKey, keys, d, dp, t')
    ensures t' == HashTrace(CaptureFlips(MoverFlips(board.bitboards, move), board.mailbox, move, board.side),
      EpPart(keys, EpAfter(move, board.side)),
      keys.castle[CastleAfter(board.castle, move, board.side, board.mailbox[move.To])], SideKey(keys, 1 - board.side))
  {
    ghost var mb, side, bbs, castle := board.mailbox, board.side, board.bitboards, board.castle;
    var castleChange;
    castleChange, t' := ZobristMover(board, keys, move, d, dp, t);
    assert board.mailbox == mb && board.side == side && board.bitboards == bbs && board.castle == castle;
    ghost var moved := MoverFlips(bbs, move);
    assert t'.bbs == moved && castleChange == OwnRightsAfter(castle, move, side);
    if BitAnd(move.Type, captureFlag) != 0 {
      castleChange, t' := ZobristCapture(board, keys, move, castleChange, d, dp, t');
    } else {
      assert !IsCaptureType(move.Type);
      assert CaptureFlips(moved, mb, move, side) == moved;
    }
    assert castleChange == CastleAfter(castle, move, side, mb[move.To]);
  }

  /** A fitting move's captured piece and castling rook stand on the board. */
  lemma FittingSquares(mb: seq<int>, move: Move, side: int)
    requires |mb| == 64 && MoveFits(mb, move, side)
    ensures move.Type == king_castle || move.Type == queen_castle ==>
      IsPiece(mb[CastleRookSquare(move.Type, side)]) && 0 <= CastleRookTarget(move.Type, side) < 64
    ensures IsCaptureType(move.Type) ==> 0 <= CaptureSquare(move, side) < 64 && IsPiece(mb[CaptureSquare(move, side)])
  {
    TypeFlags(move.Type);
  }

  /** The sections of `UpdateZobrist` in order, from the trace of the position before the move to the trace of the position after it. */
  method ZobristSections(board: Board, move: Move, keys: ZobristKeys, ghost d: nat, ghost dp: nat, ghost t: HashTrace)
      returns (ghost t': HashTrace)
    requires |board.mailbox| == 64 && MoveFits(board.mailbox, move, board.side)
    requires 0 <= board.castle < 16 && 0 <= board.enpassent <= NO_SQ
    requires Tracks(board.zobristKey, board.pawnKey, keys, d, dp, t)
    requires t == HashTrace(board.bitboards, EpPart(keys, board.enpassent), keys.castle[board.castle], SideKey(keys, board.side))
    modifies board`zobristKey, board`pawnKey
    ensures Tracks(board.zobristKey, board.pawnKey, keys, d, dp, t')
    ensures t' == HashTrace(ZobristBoards(board.bitboards, board.mailbox, move, board.side), EpPart(keys, EpAfter(move, board.side)),
      keys.castle[CastleAfter(board.castle, move, board.side, board.mailbox[move.To])], SideKey(keys, 1 - board.side))
  {
    ghost var mb, side, bbs, castle := board.mailbox, board.side, board.bitboards, board.castle;
    FittingSquares(mb, move, side);
    t' := ZobristMoveAndCapture(board, move, keys, d, dp, t);
    assert board.side == side && board.mailbox == mb;
    TypeFlags(move.Type);
    t' := ZobristPieceChanges(board, keys, move, d, dp, t');
  }

  /** The rook hop of a castle and the piece swap of a promotion, as `UpdateZobrist` applies them one after the other. */
  method ZobristPieceChanges(board: Board, keys: ZobristKeys, move: Move, ghost d: nat, ghost dp: nat, ghost t: HashTrace)
      returns (ghost t': HashTrace)
    requires |board.mailbox| == 64 && IsColour(board.side)
    requires move.Type == king_castle || move.Type == queen_castle ==>
      IsPiece(board.mailbox[CastleRookSquare(move.Type, board.side)]) && 0 <= CastleRookTarget(move.Type, board.side) < 64
    requires IsPiece(move.Piece) && 0 <= move.To < 64 && move.Type in MoveTypes
    requires Tracks(board.zobristKey, board.pawnKey, keys, d, dp, t)
    modifies board`zobristKey, board`pawnKey
    ensures t' == t.(bbs := PromotionFlips(RookFlips(t.bbs, board.mailbox, move, board.side), move))
    ensures Tracks(board.zobristKey, board.pawnKey, keys, d, dp, t')
  {
    ghost var mb, side := board.mailbox, board.side;
    t' := ZobristRook(board, keys, move, d, dp, t);
    assert board.mailbox == mb && board.side == side;
    t' := ZobristPromotion(board, keys, move, d, dp, t');
  }

  /**
   * The position `UpdateZobrist` leaves: `s0` with both keys moved from the
   * hashes of `s0` to the hashes of what the move leaves — the bitboards
   * `ZobristBoards`, the en-passant square `EpAfter`, the rights
   * `CastleAfter` and the other side to move — keeping whatever offset from
   * the true hash a key already had; nothing else changes.
   */
  ghost predicate Rekeyed(s0: BoardState, s1: BoardState, move: Move, keys: ZobristKeys)
    requires KeysShape(keys) && WellFormed(s0) && MoveFits(s0.mailbox, move, s0.side)
  {
    var bbs := ZobristBoards(s0.bitboards, s0.mailbox, move, s0.side);
    s1 == s0.(
      zobristKey := BitXor(BitXor(s0.zobristKey, HashKey(s0, keys)),
        HashOf(keys, bbs, EpPart(keys, EpAfter(move, s0.side)),
          keys.castle[CastleAfter(s0.castle, move, s0.side, s0.mailbox[move.To])], SideKey(keys, 1 - s0.side))),
      pawnKey := BitXor(BitXor(s0.pawnKey, PawnHash(s0, keys)), PawnOf(keys, bbs)))
  }

  /** `UpdateZobrist` without the accumulator, called before the board changes. */
  method UpdateZobrist(board: Board, move: Move, keys: ZobristKeys)
    requires KeysShape(keys) && WellFormed(board.State()) && MoveFits(board.mailbox, move, board.side)
    modifies board`zobristKey, board`pawnKey
    ensures Rekeyed(old(board.State()), board.State(), move, keys)
  {
    ghost var s0 := board.State();
    ghost var d := BitXor(board.zobristKey, HashKey(s0, keys));
    ghost var dp := BitXor(board.pawnKey, PawnHash(s0, keys));
    ghost var t := HashTrace(board.bitboards, EpPart(keys, board.enpassent), keys.castle[board.castle], SideKey(keys, board.side));
    XorInvolutive(board.zobristKey, HashKey(s0, keys));
    XorInvolutive(board.pawnKey, PawnHash(s0, keys));
    t := ZobristSections(board, move, keys, d, dp, t);
  }
}
