// The copy-make scheme of the search (Search.cpp): before a move the board's
// scalar fields are saved on the search stack, and after the move is taken
// back they are put back instead of being recomputed.

module CopyMakeState {
  import opened Moves
  import opened NetDefs
  import opened Chessboard

  /** `CopyMake`: what `SaveCopyMakeInfo` keeps of the board before a move. */
  datatype CopyMake = CopyMake(
    lastEp: int,
    lastCastle: int,
    lastSide: int,
    capturedPiece: int,
    lastPawnKey: nat,
    lastWhiteNp: nat,
    lastBlackNp: nat,
    lastMinor: nat,
    lastIrreversible: int,
    lastHalfmove: int,
    lastZobrist: nat)

  /** `SaveCopyMakeInfo`: the board's scalar fields, and the piece on the move's target square. */
  function SaveCopyMakeInfo(s: BoardState, move: Move): (info: CopyMake)
    requires |s.mailbox| == 64 && 0 <= move.To < 64
    ensures info.capturedPiece == s.mailbox[move.To]
    ensures info.lastEp == s.enpassent && info.lastCastle == s.castle && info.lastSide == s.side
    ensures info.lastZobrist == s.zobristKey && info.lastPawnKey == s.pawnKey && info.lastMinor == s.minorKey
    ensures info.lastWhiteNp == s.whiteNonPawnKey && info.lastBlackNp == s.blackNonPawnKey
    ensures info.lastIrreversible == s.lastIrreversiblePly && info.lastHalfmove == s.halfmove
  {
    CopyMake(s.enpassent, s.castle, s.side, s.mailbox[move.To], s.pawnKey, s.whiteNonPawnKey,
      s.blackNonPawnKey, s.minorKey, s.lastIrreversiblePly, s.halfmove, s.zobristKey)
  }

  /**
   * `ApplyCopyMake`: put the saved scalar fields back, and the accumulator
   * saved on the search stack (`savedAccumulator`). The pieces, the mailbox
   * and the history are left as they are.
   */
  method ApplyCopyMake(board: Board, info: CopyMake, savedAccumulator: AccumulatorPair)
    modifies board
    ensures board.enpassent == info.lastEp && board.castle == info.lastCastle && board.side == info.lastSide
    ensures board.zobristKey == info.lastZobrist && board.accumulator == savedAccumulator
    ensures board.pawnKey == info.lastPawnKey && board.whiteNonPawnKey == info.lastWhiteNp
    ensures board.blackNonPawnKey == info.lastBlackNp && board.minorKey == info.lastMinor
    ensures board.lastIrreversiblePly == info.lastIrreversible && board.halfmove == info.lastHalfmove
    ensures board.bitboards == old(board.bitboards) && board.occupancies == old(board.occupancies)
    ensures board.mailbox == old(board.mailbox) && board.history == old(board.history)
  {
    board.enpassent, board.castle, board.side, board.zobristKey, board.accumulator :=
      info.lastEp, info.lastCastle, info.lastSide, info.lastZobrist, savedAccumulator;
    board.pawnKey, board.whiteNonPawnKey, board.blackNonPawnKey, board.minorKey :=
      info.lastPawnKey, info.lastWhiteNp, info.lastBlackNp, info.lastMinor;
    board.lastIrreversiblePly, board.halfmove := info.lastIrreversible, info.lastHalfmove;
  }
}
