// `MakeMove` and `UnmakeMove` (Movegen.cpp): the piece placement a move
// produces, the rights, clock and en-passant square it leaves, and the
// incremental hash update `UpdateZobrist`.

module MakeMoves {
  import opened CppInt
  import opened Bitboards
  import opened Consts
  import opened Moves
  import opened Chessboard
  import opened Placement
  import opened Zobrist
  import opened MoveRules
  import opened HashUpdate

  // ---------------------------------------------------------- placement arms

  /**
   * The `quiet_move` and `double_pawn_push` arms: the piece leaves `From`
   * for the empty square `To`.
   */
  method MoveQuiet(board: Board, move: Move, side: int)
    requires Agrees(board.bitboards, board.occupancies, board.mailbox)
    requires 0 <= move.From < 64 && 0 <= move.To < 64 && move.From != move.To
    requires IsPiece(move.Piece) && IsColour(side) && ColourOf(move.Piece) == side
    requires board.mailbox[move.From] == move.Piece && board.mailbox[move.To] == NO_PIECE
    modifies board`bitboards, board`occupancies, board`mailbox
    ensures Agrees(board.bitboards, board.occupancies, board.mailbox)
    ensures board.mailbox == old(board.mailbox)[move.From := NO_PIECE][move.To := move.Piece]
  {
    var bbs, occ, mb := board.bitboards, board.occupancies, board.mailbox;
    bbs := bbs[move.Piece := bbs[move.Piece] - {move.From}];
    bbs := bbs[move.Piece := bbs[move.Piece] + {move.To}];
    occ := occ[side := occ[side] - {move.From}];
    occ := occ[side := occ[side] + {move.To}];
    occ := occ[Both := occ[Both] - {move.From}];
    occ := occ[Both := occ[Both] + {move.To}];
    mb := mb[move.From := NO_PIECE];
    mb := mb[move.To := move.Piece];
    ghost var b0, o0, m0 := board.bitboards, board.occupancies, board.mailbox;
    TakeAgrees(b0, o0, m0, move.From);
    ghost var b1, o1, m1 := TakeBbs(b0, move.Piece, move.From), TakeOcc(o0, side, move.From), m0[move.From := NO_PIECE];
    PutAgrees(b1, o1, m1, move.Piece, move.To);
    assert bbs == PutBbs(b1, move.Piece, move.To) && occ == PutOcc(o1, side, move.To);
    board.bitboards, board.occupancies, board.mailbox := bbs, occ, mb;
  }

  /**
   * The `capture` arm: the piece on `To`, of the other colour, leaves the
   * board and the moving piece takes its square.
   */
  method MoveCapture(board: Board, move: Move, side: int)
    requires Agrees(board.bitboards, board.occupancies, board.mailbox)
    requires 0 <= move.From < 64 && 0 <= move.To < 64 && move.From != move.To
    requires IsPiece(move.Piece) && IsColour(side) && ColourOf(move.Piece) == side
    requires board.mailbox[move.From] == move.Piece
    requires IsPiece(board.mailbox[move.To]) && ColourOf(board.mailbox[move.To]) == 1 - side
    modifies board`bitboards, board`occupancies, board`mailbox
    ensures Agrees(board.bitboards, board.occupancies, board.mailbox)
    ensures board.mailbox == old(board.mailbox)[move.From := NO_PIECE][move.To := move.Piece]
  {
    var bbs, occ, mb := board.bitboards, board.occupancies, board.mailbox;
    var capturedPiece := mb[move.To];
    bbs := bbs[move.Piece := bbs[move.Piece] - {move.From}];
    bbs := bbs[move.Piece := bbs[move.Piece] + {move.To}];
    bbs := bbs[capturedPiece := bbs[capturedPiece] - {move.To}];
    occ := occ[side := occ[side] - {move.From}];
    occ := occ[side := occ[side] + {move.To}];
    occ := occ[1 - side := occ[1 - side] - {move.To}];
    occ := occ[Both := occ[Both] - {move.From}];
    occ := occ[Both := occ[Both] + {move.To}];
    mb := mb[move.From := NO_PIECE];
    mb := mb[move.To := move.Piece];
    ghost var b0, o0, m0 := board.bitboards, board.occupancies, board.mailbox;
    TakeAgrees(b0, o0, m0, move.To);
    ghost var b1, o1, m1 := TakeBbs(b0, capturedPiece, move.To), TakeOcc(o0, 1 - side, move.To), m0[move.To := NO_PIECE];
    TakeAgrees(b1, o1, m1, move.From);
    ghost var b2, o2, m2 := TakeBbs(b1, move.Piece, move.From), TakeOcc(o1, side, move.From), m1[move.From := NO_PIECE];
    PutAgrees(b2, o2, m2, move.Piece, move.To);
    assert o0[Both] - {move.To} - {move.From} + {move.To} == o0[Both] - {move.From} + {move.To};
    assert bbs == PutBbs(b2, move.Piece, move.To) && occ == PutOcc(o2, side, move.To) && mb == m2[move.To := move.Piece];
    board.bitboards, board.occupancies, board.mailbox := bbs, occ, mb;
  }

  /**
   * The `king_castle` and `queen_castle` arms: the king leaves `From` for
   * `To`, and the side's rook leaves its corner `rookSquare` for
   * `rookTarget` (`rookSquare - 2` or `rookSquare + 3`).
   */
  method MoveCastle(board: Board, move: Move, side: int, rookSquare: int, rookTarget: int)
    requires Agrees(board.bitboards, board.occupancies, board.mailbox)
    requires 0 <= move.From < 64 && 0 <= move.To < 64 && 0 <= rookSquare < 64 && 0 <= rookTarget < 64
    requires move.From != move.To && move.From != rookSquare && move.From != rookTarget
    requires move.To != rookSquare && move.To != rookTarget && rookSquare != rookTarget
    requires IsColour(side) && move.Piece == GetPiece(K, side)
    requires board.mailbox[move.From] == move.Piece && board.mailbox[move.To] == NO_PIECE
    requires board.mailbox[rookSquare] == GetPiece(BR, side) && board.mailbox[rookTarget] == NO_PIECE
    modifies board`bitboards, board`occupancies, board`mailbox
    ensures Agrees(board.bitboards, board.occupancies, board.mailbox)
    ensures board.mailbox == old(board.mailbox)[move.From := NO_PIECE][move.To := move.Piece]
      [rookSquare := NO_PIECE][rookTarget := GetPiece(BR, side)]
  {
    var bbs, occ, mb := board.bitboards, board.occupancies, board.mailbox;
    var rook := GetPiece(BR, side);
    bbs := bbs[move.Piece := bbs[move.Piece] - {move.From}];
    bbs := bbs[move.Piece := bbs[move.Piece] + {move.To}];
    bbs := bbs[rook := bbs[rook] - {rookSquare}];
    bbs := bbs[rook := bbs[rook] + {rookTarget}];
    occ := occ[side := occ[side] - {move.From}];
    occ := occ[side := occ[side] + {move.To}];
    occ := occ[side := occ[side] - {rookSquare}];
    occ := occ[side := occ[side] + {rookTarget}];
    occ := occ[Both := occ[Both] - {move.From}];
    occ := occ[Both := occ[Both] + {move.To}];
    occ := occ[Both := occ[Both] - {rookSquare}];
    occ := occ[Both := occ[Both] + {rookTarget}];
    mb := mb[move.From := NO_PIECE];
    mb := mb[move.To := move.Piece];
    mb := mb[rookSquare := NO_PIECE];
    mb := mb[rookTarget := rook];
    CastleAgrees(board.bitboards, board.occupancies, board.mailbox, side, move.From, move.To, rookSquare, rookTarget);
    board.bitboards, board.occupancies, board.mailbox := bbs, occ, mb;
  }

  /** The king and then the rook move to empty squares: agreement is kept. */
  lemma CastleAgrees(b0: seq<Bitboard>, o0: seq<Bitboard>, m0: seq<int>, side: int, from: int, to: int, rookSquare: int, rookTarget: int)
    requires Agrees(b0, o0, m0)
    requires 0 <= from < 64 && 0 <= to < 64 && 0 <= rookSquare < 64 && 0 <= rookTarget < 64
    requires from != to && from != rookSquare && from != rookTarget
    requires to != rookSquare && to != rookTarget && rookSquare != rookTarget
    requires IsColour(side) && m0[from] == GetPiece(K, side) && m0[to] == NO_PIECE
    requires m0[rookSquare] == GetPiece(BR, side) && m0[rookTarget] == NO_PIECE
    ensures var king, rook := GetPiece(K, side), GetPiece(BR, side);
      Agrees(PutBbs(TakeBbs(PutBbs(TakeBbs(b0, king, from), king, to), rook, rookSquare), rook, rookTarget),
        PutOcc(TakeOcc(PutOcc(TakeOcc(o0, side, from), side, to), side, rookSquare), side, rookTarget),
        m0[from := NO_PIECE][to := king][rookSquare := NO_PIECE][rookTarget := rook])
  {
    var king, rook := GetPiece(K, side), GetPiece(BR, side);
    assert ColourOf(king) == side && ColourOf(rook) == side;
    TakeAgrees(b0, o0, m0, from);
    var b1, o1, m1 := TakeBbs(b0, king, from), TakeOcc(o0, side, from), m0[from := NO_PIECE];
    PutAgrees(b1, o1, m1, king, to);
    var b2, o2, m2 := PutBbs(b1, king, to), PutOcc(o1, side, to), m1[to := king];
    TakeAgrees(b2, o2, m2, rookSquare);
    var b3, o3, m3 := TakeBbs(b2, rook, rookSquare), TakeOcc(o2, side, rookSquare), m2[rookSquare := NO_PIECE];
    PutAgrees(b3, o3, m3, rook, rookTarget);
  }

  /**
   * The four promotion arms: the pawn leaves `From` and the promoted piece
   * `promoted` of the same colour appears on the empty square `To`.
   */
  method MovePromote(board: Board, move: Move, side: int, promoted: int)
    requires Agrees(board.bitboards, board.occupancies, board.mailbox)
    requires 0 <= move.From < 64 && 0 <= move.To < 64 && move.From != move.To
    requires IsPiece(move.Piece) && IsColour(side) && ColourOf(move.Piece) == side
    requires IsPiece(promoted) && ColourOf(promoted) == side
    requires board.mailbox[move.From] == move.Piece && board.mailbox[move.To] == NO_PIECE
    modifies board`bitboards, board`occupancies, board`mailbox
    ensures Agrees(board.bitboards, board.occupancies, board.mailbox)
    ensures board.mailbox == old(board.mailbox)[move.From := NO_PIECE][move.To := promoted]
  {
    var bbs, occ, mb := board.bitboards, board.occupancies, board.mailbox;
    bbs := bbs[move.Piece := bbs[move.Piece] - {move.From}];
    bbs := bbs[promoted := bbs[promoted] + {move.To}];
    occ := occ[side := occ[side] - {move.From}];
    occ := occ[side := occ[side] + {move.To}];
    occ := occ[Both := occ[Both] - {move.From}];
    occ := occ[Both := occ[Both] + {move.To}];
    mb := mb[move.From := NO_PIECE];
    mb := mb[move.To := promoted];
    ghost var b0, o0, m0 := board.bitboards, board.occupancies, board.mailbox;
    TakeAgrees(b0, o0, m0, move.From);
    ghost var b1, o1, m1 := TakeBbs(b0, move.Piece, move.From), TakeOcc(o0, side, move.From), m0[move.From := NO_PIECE];
    PutAgrees(b1, o1, m1, promoted, move.To);
    assert bbs == PutBbs(b1, promoted, move.To) && occ == PutOcc(o1, side, move.To);
    board.bitboards, board.occupancies, board.mailbox := bbs, occ, mb;
  }

  /**
   * The four promotion-capture arms: the piece on `To`, of the other colour,
   * leaves the board, the pawn leaves `From`, and the promoted piece
   * `promoted` takes square `To`.
   */
  method MovePromoteCapture(board: Board, move: Move, side: int, promoted: int)
    requires Agrees(board.bitboards, board.occupancies, board.mailbox)
    requires 0 <= move.From < 64 && 0 <= move.To < 64 && move.From != move.To
    requires IsPiece(move.Piece) && IsColour(side) && ColourOf(move.Piece) == side
    requires IsPiece(promoted) && ColourOf(promoted) == side
    requires board.mailbox[move.From] == move.Piece
    requires IsPiece(board.mailbox[move.To]) && ColourOf(board.mailbox[move.To]) == 1 - side
    modifies board`bitboards, board`occupancies, board`mailbox
    ensures Agrees(board.bitboards, board.occupancies, board.mailbox)
    ensures board.mailbox == old(board.mailbox)[move.From := NO_PIECE][move.To := promoted]
  {
    var bbs, occ, mb := board.bitboards, board.occupancies, board.mailbox;
    var capturedPiece := mb[move.To];
    bbs := bbs[move.Piece := bbs[move.Piece] - {move.From}];
    bbs := bbs[promoted := bbs[promoted] + {move.To}];
    bbs := bbs[capturedPiece := bbs[capturedPiece] - {move.To}];
    occ := occ[side := occ[side] - {move.From}];
    occ := occ[side := occ[side] + {move.To}];
    occ := occ[1 - side := occ[1 - side] - {move.To}];
    occ := occ[Both := occ[Both] - {move.From}];
    occ := occ[Both := occ[Both] + {move.To}];
    mb := mb[move.From := NO_PIECE];
    mb := mb[move.To := promoted];
    ghost var b0, o0, m0 := board.bitboards, board.occupancies, board.mailbox;
    TakeAgrees(b0, o0, m0, move.To);
    ghost var b1, o1, m1 := TakeBbs(b0, capturedPiece, move.To), TakeOcc(o0, 1 - side, move.To), m0[move.To := NO_PIECE];
    TakeAgrees(b1, o1, m1, move.From);
    ghost var b2, o2, m2 := TakeBbs(b1, move.Piece, move.From), TakeOcc(o1, side, move.From), m1[move.From := NO_PIECE];
    PutAgrees(b2, o2, m2, promoted, move.To);
    assert o0[Both] - {move.To} - {move.From} + {move.To} == o0[Both] - {move.From} + {move.To};
    assert bbs == PutBbs(b2, promoted, move.To) && occ == PutOcc(o2, side, move.To) && mb == m2[move.To := promoted];
    board.bitboards, board.occupancies, board.mailbox := bbs, occ, mb;
  }

  /**
   * The `ep_capture` arm: the pawn moves to the empty square `To` and the
   * other side's pawn on `captureSquare`, behind it, leaves the board.
   */
  method MoveEnPassant(board: Board, move: Move, side: int, captureSquare: int)
    requires Agrees(board.bitboards, board.occupancies, board.mailbox)
    requires 0 <= move.From < 64 && 0 <= move.To < 64 && 0 <= captureSquare < 64
    requires move.From != move.To && move.From != captureSquare && move.To != captureSquare
    requires IsPiece(move.Piece) && IsColour(side) && ColourOf(move.Piece) == side
    requires board.mailbox[move.From] == move.Piece && board.mailbox[move.To] == NO_PIECE
    requires IsPiece(board.mailbox[captureSquare]) && ColourOf(board.mailbox[captureSquare]) == 1 - side
    modifies board`bitboards, board`occupancies, board`mailbox
    ensures Agrees(board.bitboards, board.occupancies, board.mailbox)
    ensures board.mailbox == old(board.mailbox)[move.From := NO_PIECE][move.To := move.Piece][captureSquare := NO_PIECE]
  {
    var bbs, occ, mb := board.bitboards, board.occupancies, board.mailbox;
    var capturedPiece := mb[captureSquare];
    bbs := bbs[move.Piece := bbs[move.Piece] - {move.From}];
    bbs := bbs[move.Piece := bbs[move.Piece] + {move.To}];
    bbs := bbs[capturedPiece := bbs[capturedPiece] - {captureSquare}];
    occ := occ[side := occ[side] - {move.From}];
    occ := occ[side := occ[side] + {move.To}];
    occ := occ[1 - side := occ[1 - side] - {captureSquare}];
    occ := occ[Both := occ[Both] - {move.From}];
    occ := occ[Both := occ[Both] - {captureSquare}];
    occ := occ[Both := occ[Both] + {move.To}];
    mb := mb[move.From := NO_PIECE];
    mb := mb[move.To := move.Piece];
    mb := mb[captureSquare := NO_PIECE];
    ghost var b0, o0, m0 := board.bitboards, board.occupancies, board.mailbox;
    TakeAgrees(b0, o0, m0, captureSquare);
    ghost var b1, o1, m1 := TakeBbs(b0, capturedPiece, captureSquare), TakeOcc(o0, 1 - side, captureSquare), m0[captureSquare := NO_PIECE];
    TakeAgrees(b1, o1, m1, move.From);
    ghost var b2, o2, m2 := TakeBbs(b1, move.Piece, move.From), TakeOcc(o1, side, move.From), m1[move.From := NO_PIECE];
    PutAgrees(b2, o2, m2, move.Piece, move.To);
    assert o0[Both] - {captureSquare} - {move.From} + {move.To} == o0[Both] - {move.From} - {captureSquare} + {move.To};
    assert bbs == PutBbs(b2, move.Piece, move.To) && occ == PutOcc(o2, side, move.To);
    assert mb == m2[move.To := move.Piece];
    board.bitboards, board.occupancies, board.mailbox := bbs, occ, mb;
  }

  // ------------------------------------------------------------- MakeMove

  /** The rights the mover's own king or rook takes away, before the switch of `MakeMove`. */
  method ClearOwnRights(board: Board, move: Move, side: int)
    requires 0 <= board.castle < 16 && IsPiece(move.Piece) && IsColour(side)
    modifies board`castle
    ensures board.castle == OwnRightsAfter(old(board.castle), move, side)
  {
    if GetPiece(move.Piece, White) == K {
      if side == White {
        board.castle := ClearRight(board.castle, WhiteKingCastle);
        board.castle := ClearRight(board.castle, WhiteQueenCastle);
      } else {
        board.castle := ClearRight(board.castle, BlackKingCastle);
        board.castle := ClearRight(board.castle, BlackQueenCastle);
      }
    } else if GetPiece(move.Piece, White) == R {
      if side == White {
        if BitAnd(board.castle, WhiteQueenCastle) != 0 && move.From == A1 {
          board.castle := ClearRight(board.castle, WhiteQueenCastle);
        } else if BitAnd(board.castle, WhiteKingCastle) != 0 && move.From == H1 {
          board.castle := ClearRight(board.castle, WhiteKingCastle);
        }
      } else {
        if BitAnd(board.castle, BlackQueenCastle) != 0 && move.From == A8 {
          board.castle := ClearRight(board.castle, BlackQueenCastle);
        } else if BitAnd(board.castle, BlackKingCastle) != 0 && move.From == H8 {
          board.castle := ClearRight(board.castle, BlackKingCastle);
        }
      }
    }
  }

  /** The start of the capture arms: taking the other side's rook in its corner takes away that corner's right. */
  method ClearCapturedRookRight(board: Board, move: Move, side: int)
    requires 0 <= board.castle < 16 && |board.mailbox| == 64 && 0 <= move.To < 64 && IsColour(side)
    requires 0 <= move.Type && IsCaptureType(move.Type)
    modifies board`castle
    ensures board.castle == CapturedRightsAfter(old(board.castle), move, side, board.mailbox[move.To])
  {
    if board.mailbox[move.To] == GetPiece(BR, 1 - side) {
      if GetFile(move.To) == 0 {
        if side == White {
          if GetRank(move.To) == 7 {
            board.castle := ClearRight(board.castle, BlackQueenCastle);
          }
        } else {
          if GetRank(move.To) == 0 {
            board.castle := ClearRight(board.castle, WhiteQueenCastle);
          }
        }
      } else if GetFile(move.To) == 7 {
        if side == White {
          if GetRank(move.To) == 7 {
            board.castle := ClearRight(board.castle, BlackKingCastle);
          }
        } else {
          if GetRank(move.To) == 0 {
            board.castle := ClearRight(board.castle, WhiteKingCastle);
          }
        }
      }
    }
  }

  /** The end of every arm: the other side moves next, and an irreversible move restarts the clock and is remembered by its ply. */
  method EndMove(board: Board, move: Move)
    requires 0 <= move.Type
    modifies board`side, board`halfmove, board`lastIrreversiblePly
    ensures board.State() == old(board.State()).(side := 1 - old(board.side),
      halfmove := if IsMoveIrreversible(move) then 0 else old(board.halfmove),
      lastIrreversiblePly := if IsMoveIrreversible(move) then |old(board.history)| else old(board.lastIrreversiblePly))
  {
    board.side := 1 - board.side;
    if IsMoveIrreversible(move) {
      board.halfmove := 0;
      board.lastIrreversiblePly := |board.history|;
    }
  }

  /** The end of the bishop promotion capture arm, which leaves the clock as it is. */
  method EndBishopPromoCapture(board: Board, move: Move)
    requires 0 <= move.Type
    modifies board`side, board`lastIrreversiblePly
    ensures board.State() == old(board.State()).(side := 1 - old(board.side),
      lastIrreversiblePly := if IsMoveIrreversible(move) then |old(board.history)| else old(board.lastIrreversiblePly))
  {
    board.side := 1 - board.side;
    if IsMoveIrreversible(move) {
      board.lastIrreversiblePly := |board.history|;
    }
  }

  /**
   * The position the switch of `MakeMove` leaves: the pieces agree with the
   * mailbox the move leaves, the other side is to move, a double push leaves
   * its en-passant square, a captured rook takes its corner's right, an
   * irreversible move restarts the clock (except after a bishop promotion
   * capture) and is remembered by its ply, and nothing else changes.
   */
  ghost predicate Placed(s0: BoardState, s1: BoardState, move: Move, side: int)
    requires |s0.mailbox| == 64 && MoveFits(s0.mailbox, move, side) && 0 <= s0.castle < 16
  {
    && Agrees(s1.bitboards, s1.occupancies, s1.mailbox)
    && s1 == s0.(bitboards := s1.bitboards, occupancies := s1.occupancies,
         mailbox := MailboxAfter(s0.mailbox, move, side), side := 1 - side, enpassent := EpAfter(move, side),
         castle := CapturedRightsAfter(s0.castle, move, side, s0.mailbox[move.To]),
         halfmove := if IsMoveIrreversible(move) && move.Type != bishop_promo_capture then 0 else s0.halfmove,
         lastIrreversiblePly := if IsMoveIrreversible(move) then |s0.history| else s0.lastIrreversiblePly)
  }

  /**
   * The part of `Placed` an arm does before its end: the pieces agree with
   * the mailbox the move leaves, a double push leaves its en-passant square
   * and a captured rook takes its corner's right.
   */
  ghost predicate PiecesPlaced(s0: BoardState, s1: BoardState, move: Move, side: int)
    requires |s0.mailbox| == 64 && MoveFits(s0.mailbox, move, side) && 0 <= s0.castle < 16
  {
    && Agrees(s1.bitboards, s1.occupancies, s1.mailbox)
    && s1 == s0.(bitboards := s1.bitboards, occupancies := s1.occupancies,
         mailbox := MailboxAfter(s0.mailbox, move, side), enpassent := EpAfter(move, side),
         castle := CapturedRightsAfter(s0.castle, move, side, s0.mailbox[move.To]))
  }

  /**
   * The switch of `MakeMove` on the move type: the arm that moves the
   * pieces, the rights a captured rook takes away, the en-passant square
   * of a double push, and the end every arm shares.
   */
  method PlaceMove(board: Board, move: Move, side: int)
    requires Agrees(board.bitboards, board.occupancies, board.mailbox) && MoveFits(board.mailbox, move, side)
    requires board.side == side && 0 <= board.castle < 16 && board.enpassent == NO_SQ
    modifies board`bitboards, board`occupancies, board`mailbox, board`side, board`enpassent, board`castle
    modifies board`halfmove, board`lastIrreversiblePly
    ensures Placed(old(board.State()), board.State(), move, side)
  {
    TypeFlags(move.Type);
    if move.Type == double_pawn_push || move.Type == quiet_move || move.Type == capture {
      PlaceSimple(board, move, side);
    } else if move.Type == king_castle || move.Type == queen_castle {
      PlaceCastle(board, move, side);
    } else if move.Type == ep_capture {
      PlaceEnPassant(board, move, side);
    } else {
      PlacePromotion(board, move, side);
    }
    if move.Type == bishop_promo_capture {
      EndBishopPromoCapture(board, move);
    } else {
      EndMove(board, move);
    }
  }

  /** The double push, quiet and capture arms of the switch of `MakeMove`, up to their end. */
  method PlaceSimple(board: Board, move: Move, side: int)
    requires Agrees(board.bitboards, board.occupancies, board.mailbox) && MoveFits(board.mailbox, move, side)
    requires 0 <= board.castle < 16 && board.enpassent == NO_SQ
    requires move.Type == double_pawn_push || move.Type == quiet_move || move.Type == capture
    modifies board`bitboards, board`occupancies, board`mailbox, board`enpassent, board`castle
    ensures PiecesPlaced(old(board.State()), board.State(), move, side)
  {
    TypeFlags(move.Type);
    if move.Type == double_pawn_push {
      PlaceDoublePush(board, move, side);
    } else if move.Type == quiet_move {
      ghost var s0 := board.State();
      MoveQuiet(board, move, side);
      SimplePlaced(s0, board.State(), move, side);
    } else {
      PlaceCapture(board, move, side);
    }
  }

  /** The capture arm: the rights a captured rook takes away, then the capture itself. */
  method PlaceCapture(board: Board, move: Move, side: int)
    requires Agrees(board.bitboards, board.occupancies, board.mailbox) && MoveFits(board.mailbox, move, side)
    requires 0 <= board.castle < 16 && board.enpassent == NO_SQ && move.Type == capture
    modifies board`bitboards, board`occupancies, board`mailbox, board`castle
    ensures PiecesPlaced(old(board.State()), board.State(), move, side)
  {
    ghost var s0 := board.State();
    TypeFlags(move.Type);
    ClearCapturedRookRight(board, move, side);
    MoveCapture(board, move, side);
    SimplePlaced(s0, board.State(), move, side);
  }

  /** The double-push arm: a quiet pawn move that leaves the square it passed over as the en-passant square. */
  method PlaceDoublePush(board: Board, move: Move, side: int)
    requires Agrees(board.bitboards, board.occupancies, board.mailbox) && MoveFits(board.mailbox, move, side)
    requires 0 <= board.castle < 16 && board.enpassent == NO_SQ && move.Type == double_pawn_push
    modifies board`bitboards, board`occupancies, board`mailbox, board`enpassent
    ensures PiecesPlaced(old(board.State()), board.State(), move, side)
  {
    ghost var s0 := board.State();
    TypeFlags(move.Type);
    MoveQuiet(board, move, side);
    if side == White {
      board.enpassent := move.To + 8;
    } else {
      board.enpassent := move.To - 8;
    }
    SimplePlaced(s0, board.State(), move, side);
  }

  /** What the simple arms leave behind is the placement `PiecesPlaced` describes. */
  lemma SimplePlaced(s0: BoardState, s1: BoardState, move: Move, side: int)
    requires |s0.mailbox| == 64 && MoveFits(s0.mailbox, move, side) && 0 <= s0.castle < 16
    requires move.Type == double_pawn_push || move.Type == quiet_move || move.Type == capture
    requires Agrees(s1.bitboards, s1.occupancies, s1.mailbox)
    requires s1.mailbox == s0.mailbox[move.From := NO_PIECE][move.To := move.Piece]
    requires s1.enpassent == EpAfter(move, side)
    requires s1.castle == CapturedRightsAfter(s0.castle, move, side, s0.mailbox[move.To])
    requires s1 == s0.(bitboards := s1.bitboards, occupancies := s1.occupancies, mailbox := s1.mailbox,
                       enpassent := s1.enpassent, castle := s1.castle)
    ensures PiecesPlaced(s0, s1, move, side)
  {
    TypeFlags(move.Type);
    assert PlacedPiece(move) == move.Piece;
  }

  /** The two castling arms of the switch of `MakeMove`, up to their end: the king and the rook from its corner. */
  method PlaceCastle(board: Board, move: Move, side: int)
    requires Agrees(board.bitboards, board.occupancies, board.mailbox) && MoveFits(board.mailbox, move, side)
    requires 0 <= board.castle < 16 && board.enpassent == NO_SQ
    requires move.Type == king_castle || move.Type == queen_castle
    modifies board`bitboards, board`occupancies, board`mailbox
    ensures PiecesPlaced(old(board.State()), board.State(), move, side)
  {
    TypeFlags(move.Type);
    CastleGeometry(move.Type, side);
    var rookSquare, rookTarget;
    if move.Type == king_castle {
      rookSquare := if side == White then H1 else H8;
      rookTarget := rookSquare - 2;
    } else {
      rookSquare := if side == White then A1 else A8;
      rookTarget := rookSquare + 3;
    }
    MoveCastle(board, move, side, rookSquare, rookTarget);
  }

  /** The en-passant arm of the switch of `MakeMove`, up to its end: the captured pawn stands behind `To`. */
  method PlaceEnPassant(board: Board, move: Move, side: int)
    requires Agrees(board.bitboards, board.occupancies, board.mailbox) && MoveFits(board.mailbox, move, side)
    requires 0 <= board.castle < 16 && board.enpassent == NO_SQ && move.Type == ep_capture
    modifies board`bitboards, board`occupancies, board`mailbox
    ensures PiecesPlaced(old(board.State()), board.State(), move, side)
  {
    TypeFlags(move.Type);
    var captureSquare := if side == White then move.To + 8 else move.To - 8;
    MoveEnPassant(board, move, side, captureSquare);
  }

  /** The eight promotion arms of the switch of `MakeMove`, up to their end. */
  method PlacePromotion(board: Board, move: Move, side: int)
    requires Agrees(board.bitboards, board.occupancies, board.mailbox) && MoveFits(board.mailbox, move, side)
    requires 0 <= board.castle < 16 && board.enpassent == NO_SQ && IsPromotionType(move.Type)
    modifies board`bitboards, board`occupancies, board`mailbox, board`castle
    ensures PiecesPlaced(old(board.State()), board.State(), move, side)
  {
    TypeFlags(move.Type);
    var kind := move.Type % 4 + N;
    var promoted := GetPiece(kind, side);
    assert promoted == PlacedPiece(move);
    if !IsCaptureType(move.Type) {
      MovePromote(board, move, side, promoted);
    } else {
      ClearCapturedRookRight(board, move, side);
      MovePromoteCapture(board, move, side, promoted);
    }
  }

  /**
   * The hash of the position a move leaves is the one `UpdateZobrist`
   * builds from the position before it: the bitboards it toggles are the
   * ones that agree with the new mailbox, and the en-passant, castling and
   * side parts are those of the new fields.
   */
  lemma HashAfterMove(s0: BoardState, s1: BoardState, move: Move, keys: ZobristKeys)
    requires KeysShape(keys) && WellFormed(s0) && Agrees(s0.bitboards, s0.occupancies, s0.mailbox)
    requires MoveFits(s0.mailbox, move, s0.side)
    requires WellFormed(s1) && Agrees(s1.bitboards, s1.occupancies, s1.mailbox)
    requires s1.mailbox == MailboxAfter(s0.mailbox, move, s0.side)
    requires s1.side == 1 - s0.side && s1.enpassent == EpAfter(move, s0.side)
    requires s1.castle == CastleAfter(s0.castle, move, s0.side, s0.mailbox[move.To])
    ensures HashKey(s1, keys) == HashOf(keys, ZobristBoards(s0.bitboards, s0.mailbox, move, s0.side),
      EpPart(keys, EpAfter(move, s0.side)), keys.castle[CastleAfter(s0.castle, move, s0.side, s0.mailbox[move.To])],
      SideKey(keys, 1 - s0.side))
    ensures PawnHash(s1, keys) == PawnOf(keys, ZobristBoards(s0.bitboards, s0.mailbox, move, s0.side))
  {
    var bbs := ZobristBoards(s0.bitboards, s0.mailbox, move, s0.side);
    ZobristBoardsAgree(s0.bitboards, s0.mailbox, move, s0.side);
    BitsUnique(bbs, s1.bitboards, s1.mailbox);
  }

  /**
   * The position `ApplyMove` leaves: the pieces agree with the mailbox the
   * move leaves, the other side is to move, the en-passant square, the
   * rights and the clock are the ones the move leaves, an irreversible move
   * is remembered by its ply, and nothing else changes.
   */
  ghost predicate Applied(s0: BoardState, s1: BoardState, move: Move)
    requires |s0.mailbox| == 64 && MoveFits(s0.mailbox, move, s0.side) && 0 <= s0.castle < 16 && 0 <= s0.halfmove < 256
  {
    && Agrees(s1.bitboards, s1.occupancies, s1.mailbox)
    && s1 == s0.(bitboards := s1.bitboards, occupancies := s1.occupancies,
         mailbox := MailboxAfter(s0.mailbox, move, s0.side),
         side := 1 - s0.side, enpassent := EpAfter(move, s0.side),
         castle := CastleAfter(s0.castle, move, s0.side, s0.mailbox[move.To]),
         halfmove := ClockAfterAsWritten(s0.halfmove, move),
         lastIrreversiblePly := if IsMoveIrreversible(move) then |s0.history| else s0.lastIrreversiblePly)
  }

  /**
   * Everything `MakeMove` does after `UpdateZobrist`: the en-passant square
   * is cleared, the mover's own rights are cleared, the clock ticks, and the
   * switch on the move type places the pieces.
   */
  method ApplyMove(board: Board, move: Move)
    requires Agrees(board.bitboards, board.occupancies, board.mailbox) && MoveFits(board.mailbox, move, board.side)
    requires 0 <= board.castle < 16 && 0 <= board.halfmove < 256
    modifies board`bitboards, board`occupancies, board`mailbox, board`side, board`enpassent, board`castle
    modifies board`halfmove, board`lastIrreversiblePly
    ensures Applied(old(board.State()), board.State(), move)
  {
    ghost var s0 := board.State();
    var side := board.side;
    StartMove(board, move, side);
    assert board.mailbox == s0.mailbox;
    PlaceMove(board, move, side);
    AppliedByFields(s0, board.State(), move);
  }

  /** What `MakeMove` does before its switch: the en-passant square is cleared, the mover's own rights are cleared and the clock ticks. */
  method StartMove(board: Board, move: Move, side: int)
    requires 0 <= board.castle < 16 && 0 <= board.halfmove < 256 && IsPiece(move.Piece) && IsColour(side)
    modifies board`enpassent, board`castle, board`halfmove
    ensures board.State() == old(board.State()).(enpassent := NO_SQ,
      castle := OwnRightsAfter(old(board.castle), move, side), halfmove := (old(board.halfmove) + 1) % 256)
  {
    if board.enpassent != NO_SQ {
      board.enpassent := NO_SQ;
    }
    ClearOwnRights(board, move, side);
    board.halfmove := (board.halfmove + 1) % 256;
  }

  /** `Applied`, field by field. */
  lemma AppliedByFields(s0: BoardState, s1: BoardState, move: Move)
    requires |s0.mailbox| == 64 && MoveFits(s0.mailbox, move, s0.side) && 0 <= s0.castle < 16 && 0 <= s0.halfmove < 256
    requires Agrees(s1.bitboards, s1.occupancies, s1.mailbox)
    requires s1.mailbox == MailboxAfter(s0.mailbox, move, s0.side)
    requires s1.side == 1 - s0.side && s1.enpassent == EpAfter(move, s0.side)
    requires s1.castle == CastleAfter(s0.castle, move, s0.side, s0.mailbox[move.To])
    requires s1.halfmove == ClockAfterAsWritten(s0.halfmove, move)
    requires s1.lastIrreversiblePly == if IsMoveIrreversible(move) then |s0.history| else s0.lastIrreversiblePly
    requires s1.zobristKey == s0.zobristKey && s1.pawnKey == s0.pawnKey
    requires s1.whiteNonPawnKey == s0.whiteNonPawnKey && s1.blackNonPawnKey == s0.blackNonPawnKey
    requires s1.minorKey == s0.minorKey && s1.history == s0.history && s1.accumulator == s0.accumulator
    ensures Applied(s0, s1, move)
  {
  }

  /**
   * What `MakeMove` promises, on the positions before and after: the new
   * position is well formed and its bitboards, occupancies and mailbox
   * agree (which `ConsistentAgrees` shows is consistency), its mailbox, side, en-passant
   * square, rights and clock are the ones the move leaves, the history and
   * the other keys are untouched, and the two hash keys moved by exactly
   * the change of the from-scratch hashes.
   */
  ghost predicate MoveMade(s0: BoardState, s1: BoardState, move: Move, keys: ZobristKeys)
    requires KeysShape(keys) && WellFormed(s0) && MoveFits(s0.mailbox, move, s0.side)
  {
    && WellFormed(s1) && Agrees(s1.bitboards, s1.occupancies, s1.mailbox)
    && s1.mailbox == MailboxAfter(s0.mailbox, move, s0.side)
    && s1.side == 1 - s0.side && s1.enpassent == EpAfter(move, s0.side)
    && s1.castle == CastleAfter(s0.castle, move, s0.side, s0.mailbox[move.To])
    && s1.halfmove == ClockAfterAsWritten(s0.halfmove, move)
    && s1.lastIrreversiblePly == (if IsMoveIrreversible(move) then |s0.history| else s0.lastIrreversiblePly)
    && s1.history == s0.history && s1.minorKey == s0.minorKey
    && s1.whiteNonPawnKey == s0.whiteNonPawnKey && s1.blackNonPawnKey == s0.blackNonPawnKey
    && s1.zobristKey == BitXor(BitXor(s0.zobristKey, HashKey(s0, keys)), HashKey(s1, keys))
    && s1.pawnKey == BitXor(BitXor(s0.pawnKey, PawnHash(s0, keys)), PawnHash(s1, keys))
  }

  /** A board whose keys were its from-scratch hashes before a move has them after it. */
  lemma MoveKeepsKeys(s0: BoardState, s1: BoardState, move: Move, keys: ZobristKeys)
    requires KeysShape(keys) && WellFormed(s0) && MoveFits(s0.mailbox, move, s0.side)
    requires MoveMade(s0, s1, move, keys)
    requires s0.zobristKey == HashKey(s0, keys) && s0.pawnKey == PawnHash(s0, keys)
    ensures s1.zobristKey == HashKey(s1, keys) && s1.pawnKey == PawnHash(s1, keys)
  {
    XorSelf(s0.zobristKey);
    XorSelf(s0.pawnKey);
  }

  /** The keys `UpdateZobrist` leaves and the fields `ApplyMove` leaves make up a made move. */
  lemma MadeMoveKeys(s0: BoardState, sz: BoardState, s1: BoardState, move: Move, keys: ZobristKeys)
    requires KeysShape(keys) && WellFormed(s0) && Agrees(s0.bitboards, s0.occupancies, s0.mailbox)
    requires MoveFits(s0.mailbox, move, s0.side)
    requires Rekeyed(s0, sz, move, keys) && Applied(sz, s1, move)
    ensures MoveMade(s0, s1, move, keys)
  {
    if move.Type == double_pawn_push {
      EpAfterIsPassedSquare(s0.mailbox, move, s0.side);
    }
    assert WellFormed(s1);
    HashAfterMove(s0, s1, move, keys);
  }

  /**
   * `MakeMove`: the keys are updated first, then the move is applied; the
   * board goes from the position before to the made move.
   */
  method MakeMove(board: Board, move: Move, keys: ZobristKeys)
    requires KeysShape(keys) && WellFormed(board.State()) && Agrees(board.bitboards, board.occupancies, board.mailbox)
    requires MoveFits(board.mailbox, move, board.side)
    modifies board
    ensures MoveMade(old(board.State()), board.State(), move, keys)
  {
    ghost var s0 := board.State();
    UpdateZobrist(board, move, keys);
    ghost var sz := board.State();
    ApplyMove(board, move);
    MadeMoveKeys(s0, sz, board.State(), move, keys);
  }

  // ----------------------------------------------------------- UnmakeMove

  /**
   * The `quiet_move`, `double_pawn_push` and four promotion arms of
   * `UnmakeMove`: the piece on `To` (`placed`: the moving piece, or the
   * promoted piece) leaves it, and the moving piece reappears on the empty
   * square `From`.
   */
  method UnmoveQuiet(board: Board, move: Move, side: int, placed: int)
    requires Agrees(board.bitboards, board.occupancies, board.mailbox)
    requires 0 <= move.From < 64 && 0 <= move.To < 64 && move.From != move.To
    requires IsPiece(move.Piece) && IsColour(side) && ColourOf(move.Piece) == side
    requires IsPiece(placed) && ColourOf(placed) == side
    requires board.mailbox[move.To] == placed && board.mailbox[move.From] == NO_PIECE
    modifies board`bitboards, board`occupancies, board`mailbox
    ensures Agrees(board.bitboards, board.occupancies, board.mailbox)
    ensures board.mailbox == old(board.mailbox)[move.To := NO_PIECE][move.From := move.Piece]
  {
    var bbs, occ, mb := board.bitboards, board.occupancies, board.mailbox;
    bbs := bbs[placed := bbs[placed] - {move.To}];
    bbs := bbs[move.Piece := bbs[move.Piece] + {move.From}];
    occ := occ[side := occ[side] - {move.To}];
    occ := occ[side := occ[side] + {move.From}];
    occ := occ[Both := occ[Both] - {move.To}];
    occ := occ[Both := occ[Both] + {move.From}];
    mb := mb[move.To := NO_PIECE];
    mb := mb[move.From := move.Piece];
    ghost var b0, o0, m0 := board.bitboards, board.occupancies, board.mailbox;
    TakeAgrees(b0, o0, m0, move.To);
    ghost var b1, o1, m1 := TakeBbs(b0, placed, move.To), TakeOcc(o0, side, move.To), m0[move.To := NO_PIECE];
    PutAgrees(b1, o1, m1, move.Piece, move.From);
    assert bbs == PutBbs(b1, move.Piece, move.From) && occ == PutOcc(o1, side, move.From);
    board.bitboards, board.occupancies, board.mailbox := bbs, occ, mb;
  }

  /**
   * The `capture` and four promotion-capture arms of `UnmakeMove`: the piece
   * on `To` (`placed`) leaves it, the moving piece reappears on the empty
   * square `From`, and the captured piece, of the other colour, is put back
   * on `To`.
   */
  method UnmoveCapture(board: Board, move: Move, side: int, placed: int, captured: int)
    requires Agrees(board.bitboards, board.occupancies, board.mailbox)
    requires 0 <= move.From < 64 && 0 <= move.To < 64 && move.From != move.To
    requires IsPiece(move.Piece) && IsColour(side) && ColourOf(move.Piece) == side
    requires IsPiece(placed) && ColourOf(placed) == side
    requires IsPiece(captured) && ColourOf(captured) == 1 - side
    requires board.mailbox[move.To] == placed && board.mailbox[move.From] == NO_PIECE
    modifies board`bitboards, board`occupancies, board`mailbox
    ensures Agrees(board.bitboards, board.occupancies, board.mailbox)
    ensures board.mailbox == old(board.mailbox)[move.To := captured][move.From := move.Piece]
  {
    var bbs, occ, mb := board.bitboards, board.occupancies, board.mailbox;
    bbs := bbs[placed := bbs[placed] - {move.To}];
    bbs := bbs[move.Piece := bbs[move.Piece] + {move.From}];
    bbs := bbs[captured := bbs[captured] + {move.To}];
    occ := occ[side := occ[side] - {move.To}];
    occ := occ[side := occ[side] + {move.From}];
    occ := occ[1 - side := occ[1 - side] + {move.To}];
    occ := occ[Both := occ[Both] + {move.From}];
    mb := mb[move.To := captured];
    mb := mb[move.From := move.Piece];
    ghost var b0, o0, m0 := board.bitboards, board.occupancies, board.mailbox;
    TakeAgrees(b0, o0, m0, move.To);
    ghost var b1, o1, m1 := TakeBbs(b0, placed, move.To), TakeOcc(o0, side, move.To), m0[move.To := NO_PIECE];
    PutAgrees(b1, o1, m1, move.Piece, move.From);
    ghost var b2, o2, m2 := PutBbs(b1, move.Piece, move.From), PutOcc(o1, side, move.From), m1[move.From := move.Piece];
    PutAgrees(b2, o2, m2, captured, move.To);
    assert o0[Both] - {move.To} + {move.From} + {move.To} == o0[Both] + {move.From};
    assert bbs == PutBbs(b2, captured, move.To) && occ == PutOcc(o2, 1 - side, move.To);
    assert mb == m2[move.To := captured];
    board.bitboards, board.occupancies, board.mailbox := bbs, occ, mb;
  }

  /**
   * The `ep_capture` arm of `UnmakeMove`: the pawn goes back from `To` to
   * `From`, and the other side's pawn is put back on `captureSquare`.
   */
  method UnmoveEnPassant(board: Board, move: Move, side: int, captureSquare: int)
    requires Agrees(board.bitboards, board.occupancies, board.mailbox)
    requires 0 <= move.From < 64 && 0 <= move.To < 64 && 0 <= captureSquare < 64
    requires move.From != move.To && captureSquare != move.From && captureSquare != move.To
    requires IsColour(side) && move.Piece == GetPiece(P, side)
    requires board.mailbox[move.To] == move.Piece && board.mailbox[move.From] == NO_PIECE
    requires board.mailbox[captureSquare] == NO_PIECE
    modifies board`bitboards, board`occupancies, board`mailbox
    ensures Agrees(board.bitboards, board.occupancies, board.mailbox)
    ensures board.mailbox == old(board.mailbox)[move.From := move.Piece][move.To := NO_PIECE]
      [captureSquare := GetPiece(P, 1 - side)]
  {
    var bbs, occ, mb := board.bitboards, board.occupancies, board.mailbox;
    var capturedPawn := GetPiece(P, 1 - side);
    bbs := bbs[move.Piece := bbs[move.Piece] - {move.To}];
    bbs := bbs[move.Piece := bbs[move.Piece] + {move.From}];
    bbs := bbs[capturedPawn := bbs[capturedPawn] + {captureSquare}];
    occ := occ[side := occ[side] - {move.To}];
    occ := occ[side := occ[side] + {move.From}];
    occ := occ[1 - side := occ[1 - side] + {captureSquare}];
    occ := occ[Both := occ[Both] - {move.To}];
    occ := occ[Both := occ[Both] + {captureSquare}];
    occ := occ[Both := occ[Both] + {move.From}];
    mb := mb[move.From := move.Piece];
    mb := mb[move.To := NO_PIECE];
    mb := mb[captureSquare := capturedPawn];
    ghost var b0, o0, m0 := board.bitboards, board.occupancies, board.mailbox;
    TakeAgrees(b0, o0, m0, move.To);
    ghost var b1, o1, m1 := TakeBbs(b0, move.Piece, move.To), TakeOcc(o0, side, move.To), m0[move.To := NO_PIECE];
    PutAgrees(b1, o1, m1, move.Piece, move.From);
    ghost var b2, o2, m2 := PutBbs(b1, move.Piece, move.From), PutOcc(o1, side, move.From), m1[move.From := move.Piece];
    PutAgrees(b2, o2, m2, capturedPawn, captureSquare);
    assert o0[Both] - {move.To} + {captureSquare} + {move.From} == o0[Both] - {move.To} + {move.From} + {captureSquare};
    assert bbs == PutBbs(b2, capturedPawn, captureSquare) && occ == PutOcc(o2, 1 - side, captureSquare);
    assert mb == m2[captureSquare := capturedPawn];
    board.bitboards, board.occupancies, board.mailbox := bbs, occ, mb;
  }

  /**
   * The position `UnmakeMove` leaves: the pieces agree with the mailbox
   * `UnmakeMailbox` gives back, the side that made the move is to move
   * again, and nothing else changes.
   */
  ghost predicate Unmade(s1: BoardState, s2: BoardState, move: Move, captured: int)
    requires |s1.mailbox| == 64 && IsColour(s1.side) && UnmoveFits(s1.mailbox, move, 1 - s1.side, captured)
  {
    && Agrees(s2.bitboards, s2.occupancies, s2.mailbox)
    && s2 == s1.(bitboards := s2.bitboards, occupancies := s2.occupancies,
         mailbox := UnmakeMailbox(s1.mailbox, move, 1 - s1.side, captured), side := 1 - s1.side)
  }

  /**
   * `UnmakeMove`: the side that made the move is `1 - board.side`; the arm
   * for the move type takes the pieces back, with `captured` put back on
   * the target of a capture, and the side flips back. The rights, the
   * en-passant square, the clock and the keys are left to the copy-make
   * restore.
   */
  method UnmakeMove(board: Board, move: Move, captured: int)
    requires Agrees(board.bitboards, board.occupancies, board.mailbox) && IsColour(board.side)
    requires UnmoveFits(board.mailbox, move, 1 - board.side, captured)
    modifies board`bitboards, board`occupancies, board`mailbox, board`side
    ensures Unmade(old(board.State()), board.State(), move, captured)
  {
    var side := 1 - board.side;
    UnplaceMove(board, move, side, captured);
    board.side := 1 - board.side;
  }

  /** The switch of `UnmakeMove` on the move type. */
  method UnplaceMove(board: Board, move: Move, side: int, captured: int)
    requires Agrees(board.bitboards, board.occupancies, board.mailbox) && UnmoveFits(board.mailbox, move, side, captured)
    modifies board`bitboards, board`occupancies, board`mailbox
    ensures Agrees(board.bitboards, board.occupancies, board.mailbox)
    ensures board.mailbox == UnmakeMailbox(old(board.mailbox), move, side, captured)
  {
    TypeFlags(move.Type);
    if move.Type == quiet_move || move.Type == double_pawn_push {
      UnmoveQuiet(board, move, side, move.Piece);
    } else if move.Type == capture {
      UnmoveCapture(board, move, side, move.Piece, captured);
    } else if move.Type == king_castle || move.Type == queen_castle {
      UnplaceCastle(board, move, side, captured);
    } else if move.Type == ep_capture {
      var captureSquare := if side == White then move.To + 8 else move.To - 8;
      UnmoveEnPassant(board, move, side, captureSquare);
    } else {
      UnplacePromotion(board, move, side, captured);
    }
  }

  /** The castling arms of `UnmakeMove`: the king and the rook walk back to their corners. */
  method UnplaceCastle(board: Board, move: Move, side: int, captured: int)
    requires Agrees(board.bitboards, board.occupancies, board.mailbox) && UnmoveFits(board.mailbox, move, side, captured)
    requires move.Type == king_castle || move.Type == queen_castle
    modifies board`bitboards, board`occupancies, board`mailbox
    ensures Agrees(board.bitboards, board.occupancies, board.mailbox)
    ensures board.mailbox == UnmakeMailbox(old(board.mailbox), move, side, captured)
  {
    TypeFlags(move.Type);
    CastleGeometry(move.Type, side);
    var rookSquare, rookTarget;
    if move.Type == king_castle {
      rookSquare := if side == White then H1 else H8;
      rookTarget := rookSquare - 2;
    } else {
      rookSquare := if side == White then A1 else A8;
      rookTarget := rookSquare + 3;
    }
    MoveCastle(board, Move(move.To, move.From, move.Type, move.Piece), side, rookTarget, rookSquare);
  }

  /** The promotion arms of `UnmakeMove`: the promoted piece leaves `To`, a pawn returns to `From`. */
  method UnplacePromotion(board: Board, move: Move, side: int, captured: int)
    requires Agrees(board.bitboards, board.occupancies, board.mailbox) && UnmoveFits(board.mailbox, move, side, captured)
    requires IsPromotionType(move.Type)
    modifies board`bitboards, board`occupancies, board`mailbox
    ensures Agrees(board.bitboards, board.occupancies, board.mailbox)
    ensures board.mailbox == UnmakeMailbox(old(board.mailbox), move, side, captured)
  {
    TypeFlags(move.Type);
    var promoted := GetPiece(move.Type % 4 + N, side);
    assert promoted == PlacedPiece(move);
    if IsCaptureType(move.Type) {
      UnmoveCapture(board, move, side, promoted, captured);
    } else {
      UnmoveQuiet(board, move, side, promoted);
    }
  }

  /**
   * `MakeNullMove`: the side to move passes. A set en-passant square is
   * cleared with its key XORed out, the side flips with the side key XORed
   * in; nothing else changes. The key moves by exactly the change of the
   * from-scratch hash, so a correct key stays correct.
   */
  method MakeNullMove(board: Board, keys: ZobristKeys)
    requires KeysShape(keys) && WellFormed(board.State())
    modifies board`zobristKey, board`enpassent, board`side
    ensures WellFormed(board.State())
    ensures board.State() == old(board.State()).(enpassent := NO_SQ, side := 1 - old(board.side), zobristKey := board.zobristKey)
    ensures board.zobristKey == BitXor(BitXor(old(board.zobristKey), HashKey(old(board.State()), keys)), HashKey(board.State(), keys))
  {
    ghost var s0 := board.State();
    ghost var d := BitXor(board.zobristKey, HashKey(s0, keys));
    XorInvolutive(board.zobristKey, HashKey(s0, keys));
    EpClearHash(s0, keys);
    XorAssoc(d, HashKey(s0, keys), EnPassantKey(s0, keys));
    if board.enpassent != NO_SQ {
      board.zobristKey := BitXor(board.zobristKey, keys.enpassant[board.enpassent]);
      board.enpassent := NO_SQ;
    }
    ghost var s1 := s0.(enpassent := NO_SQ);
    assert board.zobristKey == BitXor(d, HashKey(s1, keys));
    SideFlipHash(s1, keys);
    XorAssoc(d, HashKey(s1, keys), keys.side);
    board.side := 1 - board.side;
    board.zobristKey := BitXor(board.zobristKey, keys.side);
  }

  /**
   * `UnmakeNullmove`: the side flips back with the side key XORed in again;
   * the key moves by exactly the change of the from-scratch hash.
   */
  method UnmakeNullmove(board: Board, keys: ZobristKeys)
    requires KeysShape(keys) && WellFormed(board.State())
    modifies board`zobristKey, board`side
    ensures WellFormed(board.State())
    ensures board.State() == old(board.State()).(side := 1 - old(board.side), zobristKey := board.zobristKey)
    ensures board.zobristKey == BitXor(BitXor(old(board.zobristKey), HashKey(old(board.State()), keys)), HashKey(board.State(), keys))
  {
    ghost var s0 := board.State();
    ghost var d := BitXor(board.zobristKey, HashKey(s0, keys));
    XorInvolutive(board.zobristKey, HashKey(s0, keys));
    SideFlipHash(s0, keys);
    XorAssoc(d, HashKey(s0, keys), keys.side);
    board.side := 1 - board.side;
    board.zobristKey := BitXor(board.zobristKey, keys.side);
  }
}
