// The three descriptions of where the pieces stand — the twelve piece
// bitboards, the three occupancies and the mailbox — and what it means for
// them to agree. `MakeMove` and `UnmakeMove` update all three side by side;
// the agreement is what they keep.

module Placement {
  import opened Bitboards
  import opened Consts
  import opened Chessboard

  /**
   * Bitboards, occupancies and mailbox describe the same placement: every
   * mailbox code is a piece or NO_PIECE, square `sq` is in piece `p`'s
   * bitboard exactly when the mailbox holds `p` there, and a square is in a
   * colour's occupancy exactly when the mailbox holds a piece of that colour
   * (of either colour for the both-colours occupancy).
   */
  ghost predicate Agrees(bbs: seq<Bitboard>, occ: seq<Bitboard>, mb: seq<int>)
  {
    && |bbs| == 12 && |occ| == 3 && |mb| == 64
    && (forall p :: 0 <= p < 12 ==> OnBoard(bbs[p]))
    && (forall c :: 0 <= c < 3 ==> OnBoard(occ[c]))
    && (forall sq :: 0 <= sq < 64 ==> 0 <= mb[sq] <= NO_PIECE)
    && (forall p, sq :: 0 <= p < 12 && 0 <= sq < 64 ==> (sq in bbs[p] <==> mb[sq] == p))
    && (forall sq :: 0 <= sq < 64 ==>
          && (sq in occ[White] <==> mb[sq] < 6)
          && (sq in occ[Black] <==> 6 <= mb[sq] < NO_PIECE)
          && (sq in occ[Both] <==> mb[sq] != NO_PIECE))
  }

  /** On a well-formed board, `Consistent` (occupancies as unions of bitboards) is exactly agreement. */
  lemma ConsistentAgrees(s: BoardState)
    requires WellFormed(s)
    ensures Consistent(s) <==> Agrees(s.bitboards, s.occupancies, s.mailbox)
  {
    if Consistent(s) {
      forall sq | 0 <= sq < 64
        ensures (sq in s.occupancies[White] <==> s.mailbox[sq] < 6)
        ensures (sq in s.occupancies[Black] <==> 6 <= s.mailbox[sq] < NO_PIECE)
      {
        var code := s.mailbox[sq];
        if code < 12 {
          assert sq in s.bitboards[code];
        }
      }
    }
    if Agrees(s.bitboards, s.occupancies, s.mailbox) {
      UnionsAgree(s, White, 0, 6);
      UnionsAgree(s, Black, 6, 12);
      forall sq
        ensures sq in s.occupancies[Both] <==> sq in s.occupancies[White] + s.occupancies[Black]
      {
        if sq in s.occupancies[Both] || sq in s.occupancies[White] + s.occupancies[Black] {
          assert 0 <= sq < 64;
        }
      }
    }
  }

  /** With agreement, a colour's occupancy is the union of that colour's bitboards. */
  lemma UnionsAgree(s: BoardState, c: int, lo: int, hi: int)
    requires WellFormed(s) && Agrees(s.bitboards, s.occupancies, s.mailbox)
    requires (c == White && lo == 0 && hi == 6) || (c == Black && lo == 6 && hi == 12)
    ensures s.occupancies[c] == PiecesUnion(s.bitboards, lo, hi)
  {
    forall sq
      ensures sq in s.occupancies[c] <==> sq in PiecesUnion(s.bitboards, lo, hi)
    {
      if sq in s.occupancies[c] {
        assert 0 <= sq < 64;
        assert sq in s.bitboards[s.mailbox[sq]];
      }
      if sq in PiecesUnion(s.bitboards, lo, hi) {
        var p :| lo <= p < hi && sq in s.bitboards[p];
        assert 0 <= sq < 64;
        assert s.mailbox[sq] == p;
      }
    }
  }

  /** The mailbox alone decides the bitboards and the occupancies. */
  lemma AgreesUnique(bbs1: seq<Bitboard>, occ1: seq<Bitboard>, bbs2: seq<Bitboard>, occ2: seq<Bitboard>, mb: seq<int>)
    requires Agrees(bbs1, occ1, mb) && Agrees(bbs2, occ2, mb)
    ensures bbs1 == bbs2 && occ1 == occ2
  {
    forall p | 0 <= p < 12
      ensures bbs1[p] == bbs2[p]
    {
      forall sq
        ensures sq in bbs1[p] <==> sq in bbs2[p]
      {
        if 0 <= sq < 64 {
          assert sq in bbs1[p] <==> mb[sq] == p;
          assert sq in bbs2[p] <==> mb[sq] == p;
        }
      }
    }
    forall c | 0 <= c < 3
      ensures occ1[c] == occ2[c]
    {
      forall sq
        ensures sq in occ1[c] <==> sq in occ2[c]
      {
        if sq in occ1[c] || sq in occ2[c] {
          assert 0 <= sq < 64;
        }
      }
    }
  }

  /** The twelve bitboards alone agree with the mailbox. */
  ghost predicate BitsAgree(bbs: seq<Bitboard>, mb: seq<int>)
  {
    && |bbs| == 12 && |mb| == 64
    && (forall p :: 0 <= p < 12 ==> OnBoard(bbs[p]))
    && (forall p, sq :: 0 <= p < 12 && 0 <= sq < 64 ==> (sq in bbs[p] <==> mb[sq] == p))
  }

  /** The mailbox alone decides the twelve bitboards. */
  lemma BitsUnique(bbs1: seq<Bitboard>, bbs2: seq<Bitboard>, mb: seq<int>)
    requires BitsAgree(bbs1, mb) && BitsAgree(bbs2, mb)
    ensures bbs1 == bbs2
  {
    forall p | 0 <= p < 12
      ensures bbs1[p] == bbs2[p]
    {
      forall sq
        ensures sq in bbs1[p] <==> sq in bbs2[p]
      {
        if sq in bbs1[p] || sq in bbs2[p] {
          assert 0 <= sq < 64;
          assert sq in bbs1[p] <==> mb[sq] == p;
        }
      }
    }
  }

  /** Piece `pc`'s bitboard with `sq` removed. */
  function TakeBbs(bbs: seq<Bitboard>, pc: int, sq: int): (r: seq<Bitboard>)
    requires 0 <= pc < |bbs|
    ensures |r| == |bbs|
  {
    bbs[pc := bbs[pc] - {sq}]
  }

  /** Piece `pc`'s bitboard with `sq` added. */
  function PutBbs(bbs: seq<Bitboard>, pc: int, sq: int): (r: seq<Bitboard>)
    requires 0 <= pc < |bbs|
    ensures |r| == |bbs|
  {
    bbs[pc := bbs[pc] + {sq}]
  }

  /** Colour `c`'s occupancy and the both-colours occupancy with `sq` removed. */
  function TakeOcc(occ: seq<Bitboard>, c: int, sq: int): (r: seq<Bitboard>)
    requires |occ| == 3 && 0 <= c < 2
    ensures |r| == 3
  {
    occ[c := occ[c] - {sq}][Both := occ[Both] - {sq}]
  }

  /** Colour `c`'s occupancy and the both-colours occupancy with `sq` added. */
  function PutOcc(occ: seq<Bitboard>, c: int, sq: int): (r: seq<Bitboard>)
    requires |occ| == 3 && 0 <= c < 2
    ensures |r| == 3
  {
    occ[c := occ[c] + {sq}][Both := occ[Both] + {sq}]
  }

  /** Taking the piece off an occupied square, from its bitboard, its colour's occupancy and the mailbox, keeps agreement. */
  lemma TakeAgrees(bbs: seq<Bitboard>, occ: seq<Bitboard>, mb: seq<int>, sq: int)
    requires Agrees(bbs, occ, mb) && 0 <= sq < 64 && IsPiece(mb[sq])
    ensures Agrees(TakeBbs(bbs, mb[sq], sq), TakeOcc(occ, ColourOf(mb[sq]), sq), mb[sq := NO_PIECE])
  {
  }

  /** Putting a piece on an empty square, in its bitboard, its colour's occupancy and the mailbox, keeps agreement. */
  lemma PutAgrees(bbs: seq<Bitboard>, occ: seq<Bitboard>, mb: seq<int>, pc: int, sq: int)
    requires Agrees(bbs, occ, mb) && 0 <= sq < 64 && IsPiece(pc) && mb[sq] == NO_PIECE
    ensures Agrees(PutBbs(bbs, pc, sq), PutOcc(occ, ColourOf(pc), sq), mb[sq := pc])
  {
  }
}
