// The board (Board.h) and the helpers of Board.cpp: piece letters, square
// names, the castling index and the empty board.

module Chessboard {
  import opened CppInt
  import opened Bitboards
  import opened Consts
  import opened NetDefs
  import opened Text

  const PieceLetters: string := "PNBRQKpnbrqk"

  /** `getPieceFromChar`: the piece a FEN letter names, or -1. */
  function GetPieceFromChar(c: char): (p: int)
    ensures p == -1 <==> c !in PieceLetters
    ensures p != -1 ==> IsPiece(p) && PieceLetters[p] == c
  {
    match c
    case 'P' => 0
    case 'N' => 1
    case 'B' => 2
    case 'R' => 3
    case 'Q' => 4
    case 'K' => 5
    case 'p' => 6
    case 'n' => 7
    case 'b' => 8
    case 'r' => 9
    case 'q' => 10
    case 'k' => 11
    case _ => -1
  }

  /** The `char` value -1 that `getCharFromPiece` returns for a non-piece. */
  const NoPieceChar: char := 0xFF as char

  /** `getCharFromPiece`: the FEN letter of a piece. */
  function GetCharFromPiece(p: int): (c: char)
    ensures IsPiece(p) ==> c == PieceLetters[p] && GetPieceFromChar(c) == p
    ensures !IsPiece(p) ==> c == NoPieceChar
  {
    match p
    case 0 => 'P'
    case 1 => 'N'
    case 2 => 'B'
    case 3 => 'R'
    case 4 => 'Q'
    case 5 => 'K'
    case 6 => 'p'
    case 7 => 'n'
    case 8 => 'b'
    case 9 => 'r'
    case 10 => 'q'
    case 11 => 'k'
    case _ => NoPieceChar
  }

  /** Every letter of a piece is the letter of the piece it names. */
  lemma {:induction false} CharPieceRoundTrip(c: char)
    requires c in PieceLetters
    ensures GetCharFromPiece(GetPieceFromChar(c)) == c
  {
  }

  /** `CoordinatesToChessNotation`: the file letter followed by the rank digit. */
  function CoordinatesToChessNotation(square: int): (s: string)
    requires 0 <= square < 64
    ensures |s| == 2
    ensures s[0] == ('a' as int + square % 8) as char
    ensures IsDigit(s[1]) && DigitValue(s[1]) == 8 - square / 8
  {
    var rawFile := square % 8;
    var rawRank := if square == 0 then 8 else 8 - square / 8;
    [('a' as int + rawFile) as char] + NatToString(rawRank)
  }

  /** `GetSquare`'s file switch: 'a'..'h' give 0..7, any other character -1. */
  function FileIndex(c: char): (f: int)
    ensures 'a' <= c <= 'h' ==> f == c as int - 'a' as int
    ensures !('a' <= c <= 'h') ==> f == -1
  {
    match c
    case 'a' => 0
    case 'b' => 1
    case 'c' => 2
    case 'd' => 3
    case 'e' => 4
    case 'f' => 5
    case 'g' => 6
    case 'h' => 7
    case _ => -1
  }

  /** `GetSquare`'s rank switch: '1'..'8' give rows 7..0 (row 0 is the eighth rank), any other character -1. */
  function RankIndex(c: char): (r: int)
    ensures '1' <= c <= '8' ==> r == '8' as int - c as int
    ensures !('1' <= c <= '8') ==> r == -1
  {
    match c
    case '1' => 7
    case '2' => 6
    case '3' => 5
    case '4' => 4
    case '5' => 3
    case '6' => 2
    case '7' => 1
    case '8' => 0
    case _ => -1
  }

  /** A square name: a file letter 'a'..'h' followed by a rank digit '1'..'8'. */
  predicate IsSquareName(name: string)
  {
    |name| == 2 && 'a' <= name[0] <= 'h' && '1' <= name[1] <= '8'
  }

  /**
   * `GetSquare`: the rank's row times 8 plus the file. A character outside
   * the switches counts as -1; a one-character name reads the string's
   * terminating NUL as its rank.
   */
  function GetSquare(name: string): (sq: int)
    requires |name| >= 1
    ensures IsSquareName(name) ==>
      0 <= sq < 64 && sq % 8 == name[0] as int - 'a' as int && sq / 8 == '8' as int - name[1] as int
    ensures !('1' <= (if |name| >= 2 then name[1] else '\0') <= '8') ==> sq < 0
  {
    var rank := if |name| >= 2 then name[1] else '\0';
    RankIndex(rank) * 8 + FileIndex(name[0])
  }

  /** `GetSquare` reads back every square's name. */
  lemma {:induction false} SquareNameRoundTrip(square: int)
    requires 0 <= square < 64
    ensures IsSquareName(CoordinatesToChessNotation(square))
    ensures GetSquare(CoordinatesToChessNotation(square)) == square
  {
    var name := CoordinatesToChessNotation(square);
    assert name[1] as int == '0' as int + 8 - square / 8;
  }

  /** Every square name is the name of the square `GetSquare` reads from it. */
  lemma {:induction false} SquareNameUnique(name: string)
    requires IsSquareName(name)
    ensures CoordinatesToChessNotation(GetSquare(name)) == name
  {
    var back := CoordinatesToChessNotation(GetSquare(name));
    assert back[1] as int == '0' as int + DigitValue(back[1]);
    assert back[0] == name[0] && back[1] == name[1];
  }

  lemma {:induction false} AndSingleBit(c: nat, k: nat)
    ensures BitAnd(c, Pow2(k)) != 0 <==> Bit(c, k)
  {
    BitAndBit(c, Pow2(k), k);
    PowBits(k);
    if BitAnd(c, Pow2(k)) == 0 {
      ZeroHasNoBits(k);
    } else {
      var r := BitAnd(c, Pow2(k));
      forall j: nat
        ensures Bit(r, j) == Bit(if Bit(c, k) then Pow2(k) else 0, j)
      {
        BitAndBit(c, Pow2(k), j);
        ZeroHasNoBits(j);
      }
      if !Bit(c, k) {
        BitsEqual(r, 0);
      }
    }
  }

  /** `1 << k` has bit `k` and no other. */
  lemma {:induction false} PowBits(k: nat)
    ensures forall j: nat :: Bit(Pow2(k), j) <==> j == k
  {
    forall j: nat
      ensures Bit(Pow2(k), j) <==> j == k
    {
      PowBit(k, j);
    }
  }

  lemma {:induction false} PowBit(k: nat, j: nat)
    ensures Bit(Pow2(k), j) <==> j == k
    decreases k
  {
    BitShift(Pow2(k), j);
    if k > 0 {
      assert Pow2(k) / 2 == Pow2(k - 1);
      assert Pow2(k) % 2 == 0;
      if j > 0 {
        PowBit(k - 1, j - 1);
      }
    } else if j > 0 {
      assert Pow2(0) / 2 == 0;
      ZeroHasNoBits(j - 1);
    }
  }

  /** `get_castle`: the four castling bits of `castle` as a number 0..15. */
  function GetCastle(castle: nat): (n: int)
    ensures n == castle % 16
  {
    CastleIndex(castle);
    (if BitAnd(castle, WhiteKingCastle) != 0 then 1 else 0)
    + (if BitAnd(castle, WhiteQueenCastle) != 0 then 2 else 0)
    + (if BitAnd(castle, BlackKingCastle) != 0 then 4 else 0)
    + (if BitAnd(castle, BlackQueenCastle) != 0 then 8 else 0)
  }

  /** Rights already within 0..15 are their own index. */
  lemma GetCastleSmall(castle: nat)
    requires castle < 16
    ensures GetCastle(castle) == castle
  {
  }

  lemma {:induction false} CastleIndex(castle: nat)
    ensures (if BitAnd(castle, WhiteKingCastle) != 0 then 1 else 0)
      + (if BitAnd(castle, WhiteQueenCastle) != 0 then 2 else 0)
      + (if BitAnd(castle, BlackKingCastle) != 0 then 4 else 0)
      + (if BitAnd(castle, BlackQueenCastle) != 0 then 8 else 0) == castle % 16
  {
    assert Pow2(1) == 2 && Pow2(2) == 4 && Pow2(3) == 8;
    AndSingleBit(castle, 0);
    AndSingleBit(castle, 1);
    AndSingleBit(castle, 2);
    AndSingleBit(castle, 3);
    LowNibble(castle);
  }

  lemma {:induction false} LowNibble(c: nat)
    ensures c % 16 == (c % 2) + 2 * ((c / 2) % 2) + 4 * ((c / 4) % 2) + 8 * ((c / 8) % 2)
  {
    ModSplit(c, 8);
    ModSplit(c / 2, 4);
    ModSplit(c / 4, 2);
    DivDiv(c, 2, 2);
    DivDiv(c, 4, 2);
  }

  /**
   * A value of the engine's `Board`: twelve piece bitboards, the white, black
   * and both-colours occupancies, the square-indexed mailbox, the side to move
   * (0 White, 1 Black), the en-passant square (NO_SQ when none), the castling
   * rights, the half-move clock, the hash keys, the hash history of the game,
   * the ply of the last irreversible move and the two accumulators.
   */
  datatype BoardState = BoardState(
    bitboards: seq<Bitboard>,
    occupancies: seq<Bitboard>,
    mailbox: seq<int>,
    side: int,
    enpassent: int,
    castle: int,
    halfmove: int,
    zobristKey: nat,
    pawnKey: nat,
    whiteNonPawnKey: nat,
    blackNonPawnKey: nat,
    minorKey: nat,
    history: seq<nat>,
    lastIrreversiblePly: int,
    accumulator: AccumulatorPair)

  /** The shapes and ranges the fields' C++ types impose. */
  predicate WellFormed(s: BoardState)
  {
    && |s.bitboards| == 12 && (forall p :: 0 <= p < 12 ==> OnBoard(s.bitboards[p]))
    && |s.occupancies| == 3 && (forall c :: 0 <= c < 3 ==> OnBoard(s.occupancies[c]))
    && |s.mailbox| == 64
    && IsColour(s.side)
    && 0 <= s.enpassent <= NO_SQ
    && 0 <= s.castle < 16
    && 0 <= s.halfmove < 256
  }

  /** The union of the bitboards of pieces `lo .. hi-1`. */
  function PiecesUnion(bbs: seq<Bitboard>, lo: int, hi: int): (u: Bitboard)
    requires 0 <= lo <= hi <= |bbs|
    ensures forall sq :: sq in u <==> exists p :: lo <= p < hi && sq in bbs[p]
    decreases hi - lo
  {
    if lo == hi then {} else bbs[lo] + PiecesUnion(bbs, lo + 1, hi)
  }

  /**
   * The redundant representations agree: each square holds at most one piece,
   * the mailbox names it (NO_PIECE for an empty square), and the occupancies
   * are the unions of the colours' bitboards.
   */
  predicate Consistent(s: BoardState)
    requires WellFormed(s)
  {
    && (forall sq :: 0 <= sq < 64 ==> (0 <= s.mailbox[sq] < 12 || s.mailbox[sq] == NO_PIECE))
    && (forall sq, p :: 0 <= sq < 64 && 0 <= p < 12 ==> (sq in s.bitboards[p] <==> s.mailbox[sq] == p))
    && s.occupancies[White] == PiecesUnion(s.bitboards, 0, 6)
    && s.occupancies[Black] == PiecesUnion(s.bitboards, 6, 12)
    && s.occupancies[Both] == s.occupancies[White] + s.occupancies[Black]
  }

  /** The engine's `Board`, whose fields `MakeMove`, `UnmakeMove` and the copy-make restore update in place. */
  class Board {
    var bitboards: seq<Bitboard>
    var occupancies: seq<Bitboard>
    var mailbox: seq<int>
    var side: int
    var enpassent: int
    var castle: int
    var halfmove: int
    var zobristKey: nat
    var pawnKey: nat
    var whiteNonPawnKey: nat
    var blackNonPawnKey: nat
    var minorKey: nat
    var history: seq<nat>
    var lastIrreversiblePly: int
    var accumulator: AccumulatorPair

    /** The current value of every field. */
    function State(): BoardState
      reads this
    {
      BoardState(bitboards, occupancies, mailbox, side, enpassent, castle, halfmove,
        zobristKey, pawnKey, whiteNonPawnKey, blackNonPawnKey, minorKey, history,
        lastIrreversiblePly, accumulator)
    }

    /**
     * `Board()`: empty bitboards and occupancies, a zero-filled mailbox (0 is
     * the white-pawn code), White to move, no en-passant square, no castling
     * rights, a zero half-move clock, zero keys and an empty history. The
     * mailbox thus claims a white pawn on every square while the bitboards
     * are empty, so a fresh board does not satisfy `Consistent`.
     */
    constructor ()
      ensures WellFormed(State())
      ensures forall p :: 0 <= p < 12 ==> bitboards[p] == {}
      ensures forall c :: 0 <= c < 3 ==> occupancies[c] == {}
      ensures forall sq :: 0 <= sq < 64 ==> mailbox[sq] == P
      ensures side == White && enpassent == NO_SQ && castle == 0 && halfmove == 0
      ensures zobristKey == 0 && pawnKey == 0 && whiteNonPawnKey == 0 && blackNonPawnKey == 0 && minorKey == 0
      ensures history == [] && lastIrreversiblePly == 0
      ensures !Consistent(State())
    {
      bitboards := seq(12, _ => {});
      occupancies := seq(3, _ => {});
      mailbox := seq(64, _ => 0);
      side := 0;
      enpassent := NO_SQ;
      castle := 0;
      halfmove := 0;
      zobristKey := 0;
      pawnKey := 0;
      whiteNonPawnKey := 0;
      blackNonPawnKey := 0;
      minorKey := 0;
      history := [];
      lastIrreversiblePly := 0;
      accumulator := AccumulatorPair(seq(HL_SIZE, _ => 0), seq(HL_SIZE, _ => 0));
      new;
      assert mailbox[0] == P && 0 !in bitboards[P];
    }
  }
}
