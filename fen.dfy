// Forsyth-Edwards Notation (Movegen.cpp): `boardToFEN` writes the board as a
// FEN line and `parse_fen` reads one into the board. Reading back what was
// written gives the same placement, side to move, castling rights and
// en-passant square.

module Fen {
  import opened CppInt
  import opened Bitboards
  import opened Consts
  import opened Text
  import opened NetDefs
  import opened Chessboard
  import opened Moves
  import opened Zobrist
  import opened Accumulator
  import opened Uci

  // ------------------------------------------------------------- writing

  /** `std::to_string(emptyCount)` when some empty squares are pending, nothing otherwise. */
  function EmptyRun(n: nat): (s: string)
    ensures n == 0 ==> s == ""
    ensures 0 < n < 10 ==> s == [DigitChar(n)]
  {
    if n > 0 then NatToString(n) else ""
  }

  /**
   * What `boardToFEN` writes for the squares `cells` of a row, when `empty`
   * empty squares before them are counted but not yet written: a piece's
   * letter, or the number of empty squares in a run.
   */
  function RowText(cells: seq<int>, empty: nat): string
    decreases |cells|
  {
    if cells == [] then EmptyRun(empty)
    else if cells[0] == NO_PIECE then RowText(cells[1..], empty + 1)
    else EmptyRun(empty) + [GetCharFromPiece(cells[0])] + RowText(cells[1..], 0)
  }

  /** The rows of the mailbox from the eighth rank down, eight squares each. */
  function Rows(mb: seq<int>): (rows: seq<seq<int>>)
    requires |mb| == 64
    ensures |rows| == 8 && forall r :: 0 <= r < 8 ==> rows[r] == mb[8 * r..8 * r + 8]
  {
    seq(8, r requires 0 <= r < 8 => mb[8 * r..8 * r + 8])
  }

  /** The text of the first `n` rows, each but the last row of `rows` followed by '/'. */
  function RanksText(rows: seq<seq<int>>, n: nat): string
    requires n <= |rows|
  {
    if n == 0 then ""
    else RanksText(rows, n - 1) + RowText(rows[n - 1], 0) + (if n < |rows| then "/" else "")
  }

  /** The placement field: the rows from the eighth rank down, separated by '/'. */
  function PlacementField(mb: seq<int>): string
    requires |mb| == 64
  {
    var rows := Rows(mb);
    RanksText(rows, |rows|)
  }

  /** `getCastlingRights`: "K", "Q", "k", "q" for the rights held, in that order, or "-" for none. */
  function CastlingRights(castle: nat): string
  {
    var rights :=
      (if BitAnd(castle, WhiteKingCastle) != 0 then "K" else "")
      + (if BitAnd(castle, WhiteQueenCastle) != 0 then "Q" else "")
      + (if BitAnd(castle, BlackKingCastle) != 0 then "k" else "")
      + (if BitAnd(castle, BlackQueenCastle) != 0 then "q" else "");
    if rights == "" then "-" else rights
  }

  /** The en-passant field: "-" for NO_SQ, otherwise the square's name. */
  function EnPassantText(ep: int): string
    requires 0 <= ep <= NO_SQ
  {
    if ep == NO_SQ then "-" else CoordinatesToChessNotation(ep)
  }

  /**
   * `boardToFEN`: placement, side to move, castling rights, en-passant
   * square, half-move clock and full-move number (half the length of the
   * hash history, plus one), separated by single spaces.
   */
  function FenText(s: BoardState): string
    requires WellFormed(s)
  {
    PlacementField(s.mailbox) + " " + SideText(s.side)
    + " " + CastlingRights(s.castle) + " " + EnPassantText(s.enpassent)
    + " " + NatToString(s.halfmove) + " " + NatToString(|s.history| / 2 + 1)
  }

  /** The inner loop of `boardToFEN` over the files of one row. */
  method RankText(cells: seq<int>) returns (text: string)
    ensures text == RowText(cells, 0)
  {
    text := "";
    var emptyCount := 0;
    for file := 0 to |cells|
      invariant text + RowText(cells[file..], emptyCount) == RowText(cells, 0)
    {
      assert cells[file..][1..] == cells[file + 1..];
      var piece := cells[file];
      if piece == NO_PIECE {
        emptyCount := emptyCount + 1;
      } else {
        if emptyCount > 0 {
          text := text + NatToString(emptyCount);
          emptyCount := 0;
        }
        text := text + [GetCharFromPiece(piece)];
      }
    }
    if emptyCount > 0 {
      text := text + NatToString(emptyCount);
    }
  }

  /** The outer loop of `boardToFEN`: the ranks from the eighth down, '/' between them. */
  method PlacementText(mb: seq<int>) returns (placement: string)
    requires |mb| == 64
    ensures placement == PlacementField(mb)
  {
    ghost var rows := Rows(mb);
    placement := "";
    var rank := 7;
    while rank >= 0
      invariant -1 <= rank <= 7
      invariant placement == RanksText(rows, 7 - rank)
    {
      var rowText := RankText(mb[8 * (7 - rank)..8 * (7 - rank) + 8]);
      placement := placement + rowText;
      if rank > 0 {
        placement := placement + "/";
      }
      rank := rank - 1;
    }
  }

  /** `boardToFEN`: the placement, then the other five fields. */
  method BoardToFen(board: Board) returns (fen: string)
    requires WellFormed(board.State())
    ensures fen == FenText(board.State())
  {
    var piecePlacement := PlacementText(board.mailbox);
    var sideToMove := if board.side == 0 then "w" else "b";
    var castlingRights := CastlingRights(board.castle);
    var enPassant := if board.enpassent == NO_SQ then "-" else CoordinatesToChessNotation(board.enpassent);
    var halfmove := NatToString(board.halfmove);
    var fullmove := NatToString(|board.history| / 2 + 1);
    fen := piecePlacement + " " + sideToMove + " " + castlingRights + " " + enPassant + " " + halfmove + " " + fullmove;
  }

  // ------------------------------------------------------------- reading

  /** `fen[i]`: the character at `i`, or the terminating NUL at and past the end. */
  function At(fen: string, i: nat): char
  {
    if i < |fen| then fen[i] else '\0'
  }

  /** `std::isalpha` in the C locale. */
  predicate IsAlpha(c: char)
  {
    'a' <= c <= 'z' || 'A' <= c <= 'Z'
  }

  /**
   * The mailbox and the piece bitboards describe the same pieces, and no
   * square at or after `square` holds one yet.
   */
  predicate Matching(mb: seq<int>, bbs: seq<Bitboard>, square: int)
  {
    && |mb| == 64 && |bbs| == 12
    && (forall sq :: 0 <= sq < 64 ==> IsPiece(mb[sq]) || mb[sq] == NO_PIECE)
    && (forall sq :: 0 <= sq < 64 && square <= sq ==> mb[sq] == NO_PIECE)
    && (forall p :: 0 <= p < 12 ==> OnBoard(bbs[p]))
    && (forall sq, p :: 0 <= sq < 64 && 0 <= p < 12 ==> (sq in bbs[p] <==> mb[sq] == p))
  }

  /**
   * The state of the placement loop when it stops: the pieces read, and how
   * many characters follow the space that ended it (-1 when the text ran
   * out first).
   */
  datatype Placed = Placed(mailbox: seq<int>, bitboards: seq<Bitboard>, after: int)

  /**
   * The placement loop of `parse_fen` over the text still to read, with the
   * next piece going to `square`: a space ends it, '/' is skipped, a digit
   * skips that many squares, a letter puts its piece on the square, anything
   * else is ignored. None when a letter is not a piece or the square is off
   * the board, where the engine would write outside its arrays.
   */
  function ScanPlacement(text: string, square: int, mb: seq<int>, bbs: seq<Bitboard>): (r: Option<Placed>)
    requires |mb| == 64 && |bbs| == 12
    ensures r.Some? ==> |r.value.mailbox| == 64 && |r.value.bitboards| == 12 && -1 <= r.value.after < |text|
    decreases |text|
  {
    if text == [] then Some(Placed(mb, bbs, -1))
    else
      var c := text[0];
      if c == ' ' then Some(Placed(mb, bbs, |text| - 1))
      else if c == '/' then ScanPlacement(text[1..], square, mb, bbs)
      else if IsDigit(c) then ScanPlacement(text[1..], square + DigitValue(c), mb, bbs)
      else if IsAlpha(c) then
        var piece := GetPieceFromChar(c);
        if piece == -1 || !(0 <= square < 64) then None
        else ScanPlacement(text[1..], square + 1, mb[square := piece], bbs[piece := bbs[piece] + {square}])
      else ScanPlacement(text[1..], square, mb, bbs)
  }

  /** The mailbox `parse_fen` starts from: every square empty. */
  function EmptyMailbox(): (m: seq<int>)
    ensures |m| == 64 && forall sq :: 0 <= sq < 64 ==> m[sq] == NO_PIECE
  {
    seq(64, _ => NO_PIECE)
  }

  /** The bitboards `parse_fen` starts from: all twelve empty. */
  function NoBitboards(): (b: seq<Bitboard>)
    ensures |b| == 12 && forall p :: 0 <= p < 12 ==> b[p] == {}
  {
    seq(12, _ => {})
  }

  /** The placement of `fen` read onto a cleared board. */
  function PlacementOf(fen: string): Option<Placed>
  {
    ScanPlacement(fen, 0, EmptyMailbox(), NoBitboards())
  }

  /** Where `parse_fen` goes on after the placement: just past the space, or 0 when there was none. */
  function FieldsStart(fen: string, placed: Placed): (index: nat)
    requires -1 <= placed.after < |fen|
  {
    if placed.after == -1 then 0 else |fen| - placed.after
  }

  /** Putting a piece on the first free square keeps the mailbox and the bitboards matching. */
  lemma {:induction false} PutPiece(m: seq<int>, b: seq<Bitboard>, sq: int, piece: int)
    requires Matching(m, b, sq) && 0 <= sq < 64 && IsPiece(piece)
    ensures Matching(m[sq := piece], b[piece := b[piece] + {sq}], sq + 1)
  {
    var m', b' := m[sq := piece], b[piece := b[piece] + {sq}];
    forall j, p | 0 <= j < 64 && 0 <= p < 12
      ensures j in b'[p] <==> m'[j] == p
    {
      if j == sq {
        assert m[j] == NO_PIECE;
      }
    }
  }

  /**
   * Squares only grow, so no square is written twice: the placement loop
   * leaves the mailbox and the bitboards matching.
   */
  lemma {:induction false} ScanMatches(text: string, square: int, mb: seq<int>, bbs: seq<Bitboard>)
    requires Matching(mb, bbs, square)
    ensures ScanPlacement(text, square, mb, bbs).Some? ==>
      Matching(ScanPlacement(text, square, mb, bbs).value.mailbox, ScanPlacement(text, square, mb, bbs).value.bitboards, 64)
    decreases |text|
  {
    if text != [] {
      var c := text[0];
      if c == ' ' {
      } else if c == '/' || !(IsDigit(c) || IsAlpha(c)) {
        ScanMatches(text[1..], square, mb, bbs);
      } else if IsDigit(c) {
        ScanMatches(text[1..], square + DigitValue(c), mb, bbs);
      } else {
        var piece := GetPieceFromChar(c);
        if piece != -1 && 0 <= square < 64 {
          PutPiece(mb, bbs, square, piece);
          ScanMatches(text[1..], square + 1, mb[square := piece], bbs[piece := bbs[piece] + {square}]);
        }
      }
    }
  }

  /** The placement loop of `parse_fen`, on a placement the engine can store. */
  method ReadPlacement(fen: string) returns (mailbox: seq<int>, bitboards: seq<Bitboard>, index: nat)
    requires PlacementOf(fen).Some?
    ensures mailbox == PlacementOf(fen).value.mailbox && bitboards == PlacementOf(fen).value.bitboards
    ensures index == FieldsStart(fen, PlacementOf(fen).value)
  {
    mailbox, bitboards := EmptyMailbox(), NoBitboards();
    var square := 0;
    index := 0;
    var i := 0;
    while i < |fen|
      invariant i <= |fen| && |mailbox| == 64 && |bitboards| == 12
      invariant ScanPlacement(fen[i..], square, mailbox, bitboards) == PlacementOf(fen)
      invariant index == 0
    {
      var text := fen[i];
      assert fen[i..][0] == text && fen[i..][1..] == fen[i + 1..];
      if text == ' ' {
        index := i + 1;
        break;
      }
      if text == '/' {
        i := i + 1;
        continue;
      }
      if IsDigit(text) {
        square := square + DigitValue(text);
      }
      if IsAlpha(text) {
        var piece := GetPieceFromChar(text);
        mailbox := mailbox[square := piece];
        bitboards := bitboards[piece := bitboards[piece] + {square}];
        square := square + 1;
      }
      i := i + 1;
    }
  }

  /** The castling flag a letter sets (K, Q, k, q), 0 for any other character. */
  function CastleLetterFlag(c: char): (flag: int)
    ensures flag == 0 || flag == WhiteKingCastle || flag == WhiteQueenCastle
      || flag == BlackKingCastle || flag == BlackQueenCastle
  {
    if c == 'K' then WhiteKingCastle
    else if c == 'Q' then WhiteQueenCastle
    else if c == 'k' then BlackKingCastle
    else if c == 'q' then BlackQueenCastle
    else 0
  }

  /**
   * The castling loop of `parse_fen`, at its `i`-th of four rounds at
   * `index`: a castling letter ORs its flag in and moves on, a space stops
   * it, '-' stops it with no rights. The rights and the index it stopped at;
   * rights that started as castling bits stay castling bits.
   */
  function ScanCastle(fen: string, index: nat, i: nat, castle: nat): (r: (nat, nat))
    requires i <= 4 && castle < 16
    ensures r.0 < 16
    decreases 4 - i
  {
    if i == 4 then (castle, index)
    else
      var c := At(fen, index);
      if c == ' ' then (castle, index)
      else if c == '-' then (0, index)
      else ScanCastle(fen, index + 1, i + 1, WithRight(castle, c))
  }

  /** The rights after one character of the castling field: its flag OR-ed in, when it is a castling letter. */
  function WithRight(castle: nat, c: char): (r: nat)
    requires castle < 16
    ensures r < 16
  {
    var flag := CastleLetterFlag(c);
    CastleFlagsAreBits();
    assert Pow2(4) == 16;
    OrStaysBelow(castle, flag, 4);
    if flag != 0 then BitOr(castle, flag) else castle
  }

  /** `a | b` keeps within `n` bits when both operands do. */
  lemma {:induction false} OrStaysBelow(a: nat, b: nat, n: nat)
    requires a < Pow2(n) && b < Pow2(n)
    ensures BitOr(a, b) < Pow2(n)
    decreases n
  {
    if n > 0 && a != 0 && b != 0 {
      OrStaysBelow(a / 2, b / 2, n - 1);
    }
  }

  /** `std::stoi`: whitespace skipped, then a sign and digits; no digit is `invalid_argument` (None). */
  function Stoi(s: string): (r: Option<int>)
  {
    var a := FirstNonSpace(s, 0);
    if a == -1 then None else ParseLeadingInt(s[a..])
  }

  /** The one or two characters `parse_fen` hands to `std::stoi` for the half-move clock. */
  function ClockText(fen: string, at: nat): (t: string)
    ensures 1 <= |t| <= 2 && t[0] == At(fen, at)
  {
    [At(fen, at)] + (if At(fen, at + 1) != ' ' then [At(fen, at + 1)] else [])
  }

  /**
   * The en-passant square and half-move clock `parse_fen` reads when the
   * en-passant field starts at `e`: NO_SQ for '-', otherwise the file letter
   * and rank digit turned into a square and stored as `uint8_t`; the clock
   * is 0 when fewer than three characters remain from `e`, otherwise
   * `std::stoi` of the one or two characters two places on, stored as
   * `uint8_t` (None when `std::stoi` throws).
   */
  function EpAndClock(fen: string, e: nat): (r: (int, Option<int>))
  {
    var ep :=
      if At(fen, e) != '-' then U8((8 - (At(fen, e + 1) as int - '0' as int)) * 8 + (At(fen, e) as int - 'a' as int))
      else NO_SQ;
    var clock :=
      if e + 2 >= |fen| then Some(0)
      else match Stoi(ClockText(fen, e + 2))
        case None => None
        case Some(h) => Some(U8(h));
    (ep, clock)
  }

  /** The fields after the placement, read from the side-to-move letter at `index`. */
  datatype Fields = Fields(side: int, castle: int, enpassent: int, halfmove: Option<int>)

  /** Where the en-passant field starts when the castling loop stopped at `castleEnd`: one on, or two when that is a space. */
  function EpStart(fen: string, castleEnd: nat): (e: nat)
    ensures castleEnd + 1 <= e <= castleEnd + 2
  {
    if At(fen, castleEnd + 1) == ' ' then castleEnd + 2 else castleEnd + 1
  }

  /**
   * `parse_fen` after the placement: 'w' is White and anything else Black;
   * the castling loop starts two characters on; the en-passant field starts
   * after the character the loop stopped at, one further if that is a space.
   */
  function FieldsOf(fen: string, index: nat): (f: Fields)
  {
    var side := if At(fen, index) == 'w' then White else Black;
    var scan := ScanCastle(fen, index + 2, 0, 0);
    var tail := EpAndClock(fen, EpStart(fen, scan.1));
    Fields(side, scan.0, tail.0, tail.1)
  }

  /** What `parse_fen` stores: the pieces and the fields. */
  datatype Position = Position(mailbox: seq<int>, bitboards: seq<Bitboard>,
    side: int, castle: int, enpassent: int, halfmove: int)

  /**
   * The board `parse_fen` reads from `fen`; None where the engine would
   * write outside its arrays or `std::stoi` would throw.
   */
  function ParsedFen(fen: string): (r: Option<Position>)
    ensures r.Some? ==> Matching(r.value.mailbox, r.value.bitboards, 64)
    ensures r.Some? ==>
      IsColour(r.value.side) && 0 <= r.value.castle < 16
      && 0 <= r.value.enpassent < 256 && 0 <= r.value.halfmove < 256
  {
    match PlacementOf(fen)
    case None => None
    case Some(placed) =>
      ScanMatches(fen, 0, EmptyMailbox(), NoBitboards());
      var f := FieldsOf(fen, FieldsStart(fen, placed));
      if f.halfmove.None? then None
      else Some(Position(placed.mailbox, placed.bitboards, f.side, f.castle, f.enpassent, f.halfmove.value))
  }

  /** The castling loop of `parse_fen`, from `start`: the rights and the index it stopped at. */
  method ReadCastling(fen: string, start: nat) returns (castle: int, index: nat)
    ensures (castle, index) == ScanCastle(fen, start, 0, 0)
  {
    castle, index := 0, start;
    var i := 0;
    while i < 4
      invariant 0 <= i <= 4 && 0 <= castle < 16
      invariant ScanCastle(fen, index, i, castle) == ScanCastle(fen, start, 0, 0)
    {
      var c := At(fen, index);
      CastleFlagsAreBits();
      assert Pow2(4) == 16;
      OrStaysBelow(castle, CastleLetterFlag(c), 4);
      if c == 'K' {
        castle := BitOr(castle, WhiteKingCastle);
      }
      if c == 'Q' {
        castle := BitOr(castle, WhiteQueenCastle);
      }
      if c == 'k' {
        castle := BitOr(castle, BlackKingCastle);
      }
      if c == 'q' {
        castle := BitOr(castle, BlackQueenCastle);
      }
      if c == ' ' {
        break;
      }
      if c == '-' {
        castle := 0;
        break;
      }
      index := index + 1;
      i := i + 1;
    }
  }

  /** `parse_fen` after the placement, from the side-to-move letter at `index`. */
  method ReadFields(fen: string, index: nat) returns (f: Fields)
    ensures f == FieldsOf(fen, index)
  {
    var side := if At(fen, index) == 'w' then White else Black;
    var castle, at := ReadCastling(fen, index + 2);
    at := at + 1;
    if At(fen, at) == ' ' {
      at := at + 1;
    }
    var enpassent, halfmove := ReadEpAndClock(fen, at);
    f := Fields(side, castle, enpassent, halfmove);
  }

  /** `parse_fen`'s en-passant square and half-move clock, from the en-passant field at `at`. */
  method ReadEpAndClock(fen: string, at: nat) returns (enpassent: int, halfmove: Option<int>)
    ensures (enpassent, halfmove) == EpAndClock(fen, at)
  {
    if At(fen, at) != '-' {
      var file := At(fen, at) as int - 'a' as int;
      var rank := 8 - (At(fen, at + 1) as int - '0' as int);
      enpassent := U8(rank * 8 + file);
    } else {
      enpassent := NO_SQ;
    }
    if at + 2 >= |fen| {
      halfmove := Some(0);
    } else {
      var clock := at + 2;
      var halfmoves := [At(fen, clock)];
      if At(fen, clock + 1) != ' ' {
        halfmoves := halfmoves + [At(fen, clock + 1)];
      }
      assert halfmoves == ClockText(fen, clock);
      var parsed := Stoi(halfmoves);
      halfmove := if parsed.Some? then Some(U8(parsed.value)) else None;
    }
  }

  /** The union loop over the bitboards of pieces `lo .. hi-1`. */
  method UnionOf(bbs: seq<Bitboard>, lo: int, hi: int) returns (u: Bitboard)
    requires 0 <= lo <= hi <= |bbs|
    ensures u == PiecesUnion(bbs, lo, hi)
  {
    u := {};
    for piece := lo to hi
      invariant u + PiecesUnion(bbs, piece, hi) == PiecesUnion(bbs, lo, hi)
    {
      u := u + bbs[piece];
    }
  }

  /**
   * A line `parse_fen` can load: the engine stays inside its arrays and
   * `std::stoi` does not throw, the en-passant square is a square or NO_SQ
   * (the hash keys are looked up with it), and both kings are on the board
   * (the accumulators are oriented by their files).
   */
  predicate Loadable(fen: string)
  {
    && ParsedFen(fen).Some?
    && ParsedFen(fen).value.enpassent <= NO_SQ
    && ParsedFen(fen).value.bitboards[K] != {}
    && ParsedFen(fen).value.bitboards[BK] != {}
  }

  /** Whether a king's accumulator is mirrored: the king stands on files e to h. */
  function KingFlip(king: Bitboard): (flip: bool)
    requires OnBoard(king) && king != {}
    ensures flip <==> Ls1b(king) % 8 >= 4
  {
    GetFile(Ls1b(king)) >= 4
  }

  /** `generate_hash_key` and `generate_pawn_key` stored into the board; nothing else changes. */
  method LoadKeys(board: Board, keys: ZobristKeys)
    requires WellFormed(board.State()) && Consistent(board.State()) && KeysShape(keys)
    modifies board`zobristKey, board`pawnKey
    ensures WellFormed(board.State()) && Consistent(board.State())
    ensures board.zobristKey == HashKey(board.State(), keys)
    ensures board.pawnKey == PawnHash(board.State(), keys)
  {
    ghost var s := board.State();
    var zobristKey := GenerateHashKey(board, keys);
    var pawnKey := GeneratePawnKey(board, keys);
    board.zobristKey, board.pawnKey := zobristKey, pawnKey;
    StoredFrame(s, board.State(), keys);
  }

  /** The accumulator resets of `parse_fen` stored into the board, which is then `Loaded` with `pos`. */
  method LoadAccumulators(board: Board, pos: Position, keys: ZobristKeys, net: Net)
    requires board.mailbox == pos.mailbox && board.bitboards == pos.bitboards
    requires board.side == pos.side && board.castle == pos.castle
    requires board.enpassent == pos.enpassent && board.halfmove == pos.halfmove
    requires WellFormed(board.State()) && Consistent(board.State()) && KeysShape(keys)
    requires board.zobristKey == HashKey(board.State(), keys)
    requires board.pawnKey == PawnHash(board.State(), keys)
    requires board.bitboards[K] != {} && board.bitboards[BK] != {}
    modifies board`accumulator
    ensures Loaded(board.State(), pos, keys, net)
  {
    var s := board.State();
    var accumulator := RebuildAccumulators(net, s);
    board.accumulator := accumulator;
    StoredFrame(s, board.State(), keys);
    RebuiltFrame(net, s, board.State(), White, KingFlip(s.bitboards[K]));
    RebuiltFrame(net, s, board.State(), Black, KingFlip(s.bitboards[BK]));
  }

  /** What `parse_fen` derives from the pieces and fields is not affected by the keys or the accumulators. */
  lemma StoredFrame(s: BoardState, t: BoardState, keys: ZobristKeys)
    requires WellFormed(s) && KeysShape(keys)
    requires t.bitboards == s.bitboards && t.occupancies == s.occupancies && t.mailbox == s.mailbox
    requires t.side == s.side && t.enpassent == s.enpassent && t.castle == s.castle && t.halfmove == s.halfmove
    ensures WellFormed(t) && (Consistent(s) ==> Consistent(t))
    ensures HashKey(t, keys) == HashKey(s, keys) && PawnHash(t, keys) == PawnHash(s, keys)
  {
  }

  /**
   * The accumulator resets of `parse_fen`: both perspectives rebuilt
   * unmirrored, then each rebuilt again, mirrored when its own king stands
   * on files e to h.
   */
  method RebuildAccumulators(net: Net, s: BoardState) returns (accumulator: AccumulatorPair)
    requires WellFormed(s) && Consistent(s)
    requires s.bitboards[K] != {} && s.bitboards[BK] != {}
    ensures PiecesOnOccupied(s)
    ensures accumulator.white == Rebuilt(net, s, White, KingFlip(s.bitboards[K]))
    ensures accumulator.black == Rebuilt(net, s, Black, KingFlip(s.bitboards[BK]))
  {
    ConsistentHasPieces(s);
    var white := new int[HL_SIZE];
    var black := new int[HL_SIZE];
    ResetAccumulators(net, s, white, black);
    var whiteFlip := KingFlip(s.bitboards[K]);
    ResetWhiteAccumulator(net, s, white, whiteFlip);
    var blackFlip := KingFlip(s.bitboards[BK]);
    ResetBlackAccumulator(net, s, black, blackFlip);
    accumulator := AccumulatorPair(white[..], black[..]);
  }

  /** The occupancy loops of `parse_fen`: each colour's is the union of its pieces, and both is their union. */
  method SetOccupancies(board: Board)
    requires Matching(board.mailbox, board.bitboards, 64)
    requires IsColour(board.side) && 0 <= board.castle < 16
    requires 0 <= board.enpassent <= NO_SQ && 0 <= board.halfmove < 256
    modifies board`occupancies
    ensures WellFormed(board.State()) && Consistent(board.State())
  {
    var white := UnionOf(board.bitboards, 0, 6);
    var black := UnionOf(board.bitboards, 6, 12);
    board.occupancies := [white, black, black + white];
  }

  /**
   * The board `parse_fen` leaves for `pos`: the pieces and fields of `pos`,
   * occupancies that are the colours' unions, hash and pawn keys computed
   * from scratch, and each perspective's accumulator rebuilt, mirrored when
   * its king stands on files e to h.
   */
  predicate Loaded(s: BoardState, pos: Position, keys: ZobristKeys, net: Net)
  {
    && s.mailbox == pos.mailbox && s.bitboards == pos.bitboards
    && s.side == pos.side && s.castle == pos.castle
    && s.enpassent == pos.enpassent && s.halfmove == pos.halfmove
    && WellFormed(s) && Consistent(s) && KeysShape(keys)
    && s.zobristKey == HashKey(s, keys) && s.pawnKey == PawnHash(s, keys)
    && PiecesOnOccupied(s)
    && s.bitboards[K] != {} && s.bitboards[BK] != {}
    && s.accumulator.white == Rebuilt(net, s, White, KingFlip(s.bitboards[K]))
    && s.accumulator.black == Rebuilt(net, s, Black, KingFlip(s.bitboards[BK]))
  }

  /** The reading half of `parse_fen`: the pieces and fields of the line. */
  method ReadFen(fen: string) returns (pos: Position)
    requires ParsedFen(fen).Some?
    ensures pos == ParsedFen(fen).value
  {
    var mailbox, bitboards, index := ReadPlacement(fen);
    var fields := ReadFields(fen, index);
    pos := Position(mailbox, bitboards, fields.side, fields.castle, fields.enpassent, fields.halfmove.value);
  }

  /** The storing half of `parse_fen`: the board takes `pos`, and what follows from it is rebuilt. */
  method LoadPosition(board: Board, pos: Position, keys: ZobristKeys, net: Net)
    requires Matching(pos.mailbox, pos.bitboards, 64) && KeysShape(keys)
    requires IsColour(pos.side) && 0 <= pos.castle < 16
    requires 0 <= pos.enpassent <= NO_SQ && 0 <= pos.halfmove < 256
    requires pos.bitboards[K] != {} && pos.bitboards[BK] != {}
    modifies board`mailbox, board`bitboards, board`occupancies, board`side, board`castle
    modifies board`enpassent, board`halfmove, board`zobristKey, board`pawnKey, board`accumulator
    ensures Loaded(board.State(), pos, keys, net)
  {
    board.mailbox, board.bitboards := pos.mailbox, pos.bitboards;
    board.side, board.castle, board.enpassent, board.halfmove := pos.side, pos.castle, pos.enpassent, pos.halfmove;
    SetOccupancies(board);
    LoadKeys(board, keys);
    LoadAccumulators(board, pos, keys, net);
  }

  /**
   * `parse_fen`: the board is `Loaded` with what the line gives. The other
   * keys, the history and the last irreversible ply are outside the frame:
   * they are not touched.
   */
  method ParseFen(fen: string, board: Board, keys: ZobristKeys, net: Net)
    requires Loadable(fen) && KeysShape(keys)
    modifies board`mailbox, board`bitboards, board`occupancies, board`side, board`castle
    modifies board`enpassent, board`halfmove, board`zobristKey, board`pawnKey, board`accumulator
    ensures Loaded(board.State(), ParsedFen(fen).value, keys, net)
  {
    var pos := ReadFen(fen);
    LoadPosition(board, pos, keys, net);
  }

  // ---------------------------------------------------- reading what was written

  /** Every square holds a piece or nothing, as `boardToFEN` expects. */
  predicate Printable(mb: seq<int>)
  {
    |mb| == 64 && forall sq :: 0 <= sq < 64 ==> IsPiece(mb[sq]) || mb[sq] == NO_PIECE
  }

  /** The squares before `upto` hold what `mb` holds. */
  predicate Copied(m: seq<int>, mb: seq<int>, upto: int)
    requires |m| == 64 && |mb| == 64
  {
    forall j :: 0 <= j < upto && j < 64 ==> m[j] == mb[j]
  }

  lemma PieceLetterIsAlpha(p: int)
    requires IsPiece(p)
    ensures IsAlpha(GetCharFromPiece(p)) && !IsDigit(GetCharFromPiece(p))
  {
  }

  /** Reading a piece letter puts the piece on the square and moves to the next one. */
  lemma {:induction false} ReadLetter(tail: string, mb: seq<int>, sq: nat, m: seq<int>, b: seq<Bitboard>)
      returns (m': seq<int>, b': seq<Bitboard>)
    requires Printable(mb) && sq < 64 && IsPiece(mb[sq])
    requires Matching(m, b, sq) && Copied(m, mb, sq)
    ensures Matching(m', b', sq + 1) && Copied(m', mb, sq + 1)
    ensures ScanPlacement([GetCharFromPiece(mb[sq])] + tail, sq, m, b) == ScanPlacement(tail, sq + 1, m', b')
  {
    var piece := mb[sq];
    var text := [GetCharFromPiece(piece)] + tail;
    PieceLetterIsAlpha(piece);
    assert text[0] == GetCharFromPiece(piece) && text[1..] == tail;
    m', b' := m[sq := piece], b[piece := b[piece] + {sq}];
    PutPiece(m, b, sq, piece);
  }

  /** Reading a run length of empty squares moves past them. */
  lemma {:induction false} ReadRun(tail: string, mb: seq<int>, sq: nat, empty: nat, m: seq<int>, b: seq<Bitboard>)
    requires Printable(mb) && empty <= sq <= 64 && empty < 10
    requires forall j :: sq - empty <= j < sq ==> mb[j] == NO_PIECE
    requires Matching(m, b, sq - empty) && Copied(m, mb, sq - empty)
    ensures Matching(m, b, sq) && Copied(m, mb, sq)
    ensures ScanPlacement(EmptyRun(empty) + tail, sq - empty, m, b) == ScanPlacement(tail, sq, m, b)
  {
    if empty > 0 {
      var text := EmptyRun(empty) + tail;
      assert text[0] == DigitChar(empty) && text[1..] == tail;
    } else {
      assert EmptyRun(empty) + tail == tail;
    }
  }

  /**
   * Reading the text of the squares `sq .. end-1` of a row, with `empty`
   * empty squares before `sq` pending, fills those squares as `mb` has them.
   */
  lemma {:induction false} ReadRow(tail: string, mb: seq<int>, sq: nat, end: nat, empty: nat, m: seq<int>, b: seq<Bitboard>)
      returns (m': seq<int>, b': seq<Bitboard>)
    requires Printable(mb) && empty <= sq <= end <= 64 && end - (sq - empty) <= 8
    requires forall j :: sq - empty <= j < sq ==> mb[j] == NO_PIECE
    requires Matching(m, b, sq - empty) && Copied(m, mb, sq - empty)
    ensures Matching(m', b', end) && Copied(m', mb, end)
    ensures ScanPlacement(RowText(mb[sq..end], empty) + tail, sq - empty, m, b) == ScanPlacement(tail, end, m', b')
    decreases end - sq
  {
    var cells := mb[sq..end];
    if sq == end {
      assert cells == [];
      ReadRun(tail, mb, sq, empty, m, b);
      m', b' := m, b;
    } else {
      assert cells[0] == mb[sq] && cells[1..] == mb[sq + 1..end];
      if mb[sq] == NO_PIECE {
        assert RowText(cells, empty) == RowText(mb[sq + 1..end], empty + 1);
        m', b' := ReadRow(tail, mb, sq + 1, end, empty + 1, m, b);
      } else {
        var letter, rest := [GetCharFromPiece(mb[sq])], RowText(mb[sq + 1..end], 0);
        assert RowText(cells, empty) + tail == EmptyRun(empty) + (letter + (rest + tail));
        ReadRun(letter + (rest + tail), mb, sq, empty, m, b);
        var m1, b1 := ReadLetter(rest + tail, mb, sq, m, b);
        m', b' := ReadRow(tail, mb, sq + 1, end, 0, m1, b1);
      }
    }
  }

  /** The cleared board matches before any square is read. */
  lemma ClearedMatches()
    ensures Matching(EmptyMailbox(), NoBitboards(), 0)
  {
  }

  /** Reading the first `n` ranks that `boardToFEN` wrote fills squares `0 .. 8n-1` as `mb` has them. */
  lemma {:induction false} ReadRanks(mb: seq<int>, n: nat, tail: string) returns (m: seq<int>, b: seq<Bitboard>)
    requires Printable(mb) && n <= 8
    ensures Matching(m, b, 8 * n) && Copied(m, mb, 8 * n)
    ensures ScanPlacement(RanksText(Rows(mb), n) + tail, 0, EmptyMailbox(), NoBitboards())
      == ScanPlacement(tail, 8 * n, m, b)
    decreases n
  {
    var rows := Rows(mb);
    if n == 0 {
      ClearedMatches();
      m, b := EmptyMailbox(), NoBitboards();
      assert RanksText(rows, n) + tail == tail;
    } else {
      var row := RowText(rows[n - 1], 0);
      var sep := if n < 8 then "/" else "";
      assert RanksText(rows, n) + tail == RanksText(rows, n - 1) + (row + (sep + tail));
      var m0, b0 := ReadRanks(mb, n - 1, row + (sep + tail));
      var sq := 8 * (n - 1);
      assert rows[n - 1] == mb[sq..8 * n];
      assert sq - 0 == sq;
      m, b := ReadRow(sep + tail, mb, sq, 8 * n, 0, m0, b0);
      assert ScanPlacement(row + (sep + tail), sq, m0, b0) == ScanPlacement(sep + tail, 8 * n, m, b);
      assert ScanPlacement(sep + tail, 8 * n, m, b) == ScanPlacement(tail, 8 * n, m, b) by {
        if n < 8 {
          assert (sep + tail)[0] == '/' && (sep + tail)[1..] == tail;
        } else {
          assert sep + tail == tail;
        }
      }
    }
  }

  /**
   * `parse_fen` reads back the placement `boardToFEN` writes: the same
   * mailbox, bitboards that match it, and the fields start just after the
   * space that ends the placement.
   */
  lemma PlacementRoundTrip(mb: seq<int>, rest: string)
    requires Printable(mb)
    ensures var r := PlacementOf(PlacementField(mb) + " " + rest);
      && r.Some? && r.value.mailbox == mb && Matching(r.value.mailbox, r.value.bitboards, 64)
      && r.value.after == |rest|
  {
    var m, b := ReadRanks(mb, 8, " " + rest);
    assert PlacementField(mb) + " " + rest == RanksText(Rows(mb), 8) + (" " + rest);
    assert (" " + rest)[0] == ' ' && |(" " + rest)| - 1 == |rest|;
    assert m == mb;
  }

  // ------------------------------------------------------------ the fields

  /** A character read at `j == |x| + k` in `x + y` is the one at `k` in `y`. */
  lemma {:induction false} AtShift(x: string, y: string, k: nat, j: nat)
    requires j == |x| + k
    ensures At(x + y, j) == At(y, k)
  {
  }

  /** The castling loop reads the same wherever the text it reads sits. */
  lemma {:induction false} ScanCastleShift(x: string, y: string, k: nat, j: nat, i: nat, castle: nat)
    requires j == |x| + k && i <= 4 && castle < 16
    ensures ScanCastle(x + y, j, i, castle)
      == (ScanCastle(y, k, i, castle).0, |x| + ScanCastle(y, k, i, castle).1)
    decreases 4 - i
  {
    AtShift(x, y, k, j);
    if i < 4 {
      var c := At(y, k);
      if c != ' ' && c != '-' {
        ScanCastleShift(x, y, k + 1, j + 1, i + 1, WithRight(castle, c));
      }
    }
  }

  /** The en-passant square and the clock read the same wherever the text they read sits. */
  lemma {:induction false} EpAndClockShift(x: string, y: string, e: nat)
    ensures EpAndClock(x + y, |x| + e) == EpAndClock(y, e)
  {
    AtShift(x, y, e, |x| + e);
    AtShift(x, y, e + 1, |x| + e + 1);
    AtShift(x, y, e + 2, |x| + e + 2);
    AtShift(x, y, e + 3, |x| + e + 2 + 1);
    assert ClockText(x + y, |x| + e + 2) == ClockText(y, e + 2);
  }

  /** Where the en-passant field starts reads the same wherever the text sits. */
  lemma {:induction false} EpStartShift(x: string, y: string, castleEnd: nat)
    ensures EpStart(x + y, |x| + castleEnd) == |x| + EpStart(y, castleEnd)
  {
    AtShift(x, y, castleEnd + 1, |x| + castleEnd + 1);
  }

  /** The side letter at `k` and the castling field two places on read the same wherever the text sits. */
  lemma {:induction false} HeadShift(x: string, y: string, k: nat)
    ensures At(x + y, |x| + k) == At(y, k)
    ensures ScanCastle(x + y, |x| + k + 2, 0, 0)
      == (ScanCastle(y, k + 2, 0, 0).0, |x| + ScanCastle(y, k + 2, 0, 0).1)
  {
    AtShift(x, y, k, |x| + k);
    ScanCastleShift(x, y, k + 2, |x| + k + 2, 0, 0);
  }

  /** The en-passant square and the clock after a castling field ending at `c` read the same wherever the text sits. */
  lemma {:induction false} TailShift(x: string, y: string, c: nat)
    ensures EpAndClock(x + y, EpStart(x + y, |x| + c)) == EpAndClock(y, EpStart(y, c))
  {
    EpStartShift(x, y, c);
    EpAndClockShift(x, y, EpStart(y, c));
  }

  /** The fields read the same wherever the text they read sits. */
  lemma {:induction false} FieldsOfShift(x: string, y: string, k: nat)
    ensures FieldsOf(x + y, |x| + k) == FieldsOf(y, k)
  {
    HeadShift(x, y, k);
    TailShift(x, y, ScanCastle(y, k + 2, 0, 0).1);
  }

  /** The castling letters for bits `k .. 3` of `castle`, in the order `getCastlingRights` writes them. */
  function RightsFrom(castle: nat, k: nat): (s: string)
    requires k <= 4
    ensures |s| <= 4 - k
    decreases 4 - k
  {
    if k == 4 then ""
    else (if Bit(castle, k) then ["KQkq"[k]] else []) + RightsFrom(castle, k + 1)
  }

  /** `getCastlingRights` writes the letter of each bit that is set, or "-" when none is. */
  lemma CastlingRightsAreBits(castle: nat)
    ensures CastlingRights(castle) == if RightsFrom(castle, 0) == [] then "-" else RightsFrom(castle, 0)
  {
    CastleFlagsAreBits();
    AndSingleBit(castle, 0);
    AndSingleBit(castle, 1);
    AndSingleBit(castle, 2);
    AndSingleBit(castle, 3);
  }

  /** The low `k + 1` bits are the low `k` bits plus bit `k`. */
  lemma LowBitsStep(c: nat, k: nat)
    ensures c % Pow2(k + 1) == c % Pow2(k) + (if Bit(c, k) then Pow2(k) else 0)
  {
    var a := c / Pow2(k);
    var r0 := c % Pow2(k);
    assert c == Pow2(k) * a + r0;
    assert Pow2(k + 1) == 2 * Pow2(k);
    assert c == Pow2(k + 1) * (a / 2) + (Pow2(k) * (a % 2) + r0);
    DivUnique(c, Pow2(k + 1), a / 2, Pow2(k) * (a % 2) + r0);
  }

  /** OR-ing in bit `k` above the bits already held adds it. */
  lemma OrBelow(acc: nat, k: nat)
    requires acc < Pow2(k)
    ensures BitOr(acc, Pow2(k)) == acc + Pow2(k)
  {
    assert !Bit(acc, k) by {
      DivUnique(acc, Pow2(k), 0, acc);
    }
    AndSingleBit(acc, k);
    OrDisjointIsSum(acc, Pow2(k));
  }

  /**
   * The castling loop over the letters of bits `k .. 3` and the space after
   * them, `i` rounds in, holding bits `0 .. k-1`: it ends holding all the
   * bits, at the space.
   */
  lemma {:induction false} ScanRights(c: nat, k: nat, i: nat, acc: nat, v: string)
    requires c < 16 && i <= k <= 4 && acc == c % Pow2(k)
    ensures acc < 16
    ensures ScanCastle(RightsFrom(c, k) + " " + v, 0, i, acc) == (c, |RightsFrom(c, k)|)
    decreases 4 - k
  {
    var k' := k + 1;
    LowBitsNext(c, k, k', acc);
    if k == 4 {
      ScanNoRights(c, i, v);
    } else if Bit(c, k) {
      var i', acc' := i + 1, acc + Pow2(k);
      ScanRights(c, k', i', acc', v);
      ScanLetter(c, k, k', i, i', acc, acc', v);
    } else {
      ScanRights(c, k', i, acc, v);
      ScanClearBit(c, k, k', i, acc, v);
    }
  }

  lemma ScanNoRights(c: nat, i: nat, v: string)
    requires i <= 4 && c < 16
    ensures ScanCastle(RightsFrom(c, 4) + " " + v, 0, i, c) == (c, |RightsFrom(c, 4)|)
  {
    var text := RightsFrom(c, 4) + " " + v;
    assert text[0] == ' ';
  }

  lemma ScanClearBit(c: nat, k: nat, k': nat, i: nat, acc: nat, v: string)
    requires i <= k < 4 && k' == k + 1 && acc < 16 && !Bit(c, k)
    requires ScanCastle(RightsFrom(c, k') + " " + v, 0, i, acc) == (c, |RightsFrom(c, k')|)
    ensures ScanCastle(RightsFrom(c, k) + " " + v, 0, i, acc) == (c, |RightsFrom(c, k)|)
  {
    assert RightsFrom(c, k) == RightsFrom(c, k');
  }

  /** The low bits of a castling value: all of it at bit 4, and one bit more at each step below. */
  lemma LowBitsNext(c: nat, k: nat, k': nat, acc: nat)
    requires c < 16 && k <= 4 && k' == k + 1 && acc == c % Pow2(k)
    ensures acc < 16 && acc < Pow2(k)
    ensures k == 4 ==> acc == c
    ensures k < 4 && Bit(c, k) ==> acc + Pow2(k) == c % Pow2(k') && acc + Pow2(k) < 16
    ensures k < 4 && !Bit(c, k) ==> acc == c % Pow2(k')
  {
    assert Pow2(4) == 16;
    PowMonotone(k, 4);
    if k == 4 {
      DivUnique(c, Pow2(k), 0, c);
    } else {
      LowBitsStep(c, k);
      PowMonotone(k + 1, 4);
    }
  }

  /** The letter for a set bit `k` ORs that bit in and moves the loop one character on. */
  lemma ScanLetter(c: nat, k: nat, k': nat, i: nat, i': nat, acc: nat, acc': nat, v: string)
    requires i <= k < 4 && k' == k + 1 && i' == i + 1
    requires Bit(c, k) && acc < Pow2(k) && acc' == acc + Pow2(k) < 16
    requires ScanCastle(RightsFrom(c, k') + " " + v, 0, i', acc') == (c, |RightsFrom(c, k')|)
    ensures ScanCastle(RightsFrom(c, k) + " " + v, 0, i, acc) == (c, |RightsFrom(c, k)|)
  {
    SetBitText(c, k, k', v);
    LetterAdds(acc, k);
    LetterThenRest(RightsFrom(c, k) + " " + v, "KQkq"[k], RightsFrom(c, k') + " " + v,
      i, i', acc, acc', c, |RightsFrom(c, k')|);
  }

  /** A letter OR-ed in, followed by a rest the loop reads to `(total, n)`, reads to `(total, n + 1)`. */
  lemma LetterThenRest(text: string, letter: char, rest: string, i: nat, i': nat, acc: nat, acc': nat, total: nat, n: nat)
    requires i < 4 && i' == i + 1 && acc < 16 && letter != ' ' && letter != '-'
    requires text == [letter] + rest && WithRight(acc, letter) == acc'
    requires ScanCastle(rest, 0, i', acc') == (total, n)
    ensures ScanCastle(text, 0, i, acc) == (total, 1 + n)
  {
    ScanOneLetter(letter, rest, i, acc);
  }

  /** For a set bit `k` the text starts with its letter. */
  lemma SetBitText(c: nat, k: nat, k': nat, v: string)
    requires k < 4 && k' == k + 1 && Bit(c, k)
    ensures RightsFrom(c, k) + " " + v == ["KQkq"[k]] + (RightsFrom(c, k') + " " + v)
    ensures |RightsFrom(c, k)| == 1 + |RightsFrom(c, k')|
  {
    assert RightsFrom(c, k) == ["KQkq"[k]] + RightsFrom(c, k');
  }

  /** The letter for bit `k` adds that bit to rights held below it. */
  lemma LetterAdds(acc: nat, k: nat)
    requires k < 4 && acc < Pow2(k) && acc + Pow2(k) < 16
    ensures "KQkq"[k] != ' ' && "KQkq"[k] != '-'
    ensures WithRight(acc, "KQkq"[k]) == acc + Pow2(k)
  {
    LetterFlag(k);
    OrBelow(acc, k);
  }

  /** A castling letter other than a space or '-' is OR-ed in, and the loop goes on one character later. */
  lemma ScanOneLetter(letter: char, rest: string, i: nat, acc: nat)
    requires i < 4 && acc < 16 && letter != ' ' && letter != '-'
    ensures ScanCastle([letter] + rest, 0, i, acc)
      == (ScanCastle(rest, 0, i + 1, WithRight(acc, letter)).0, 1 + ScanCastle(rest, 0, i + 1, WithRight(acc, letter)).1)
  {
    assert At([letter] + rest, 0) == letter;
    ScanCastleShift([letter], rest, 0, 1, i + 1, WithRight(acc, letter));
  }

  /** The letter `getCastlingRights` writes for bit `k` sets bit `k`. */
  lemma LetterFlag(k: nat)
    requires k < 4
    ensures CastleLetterFlag("KQkq"[k]) == Pow2(k)
    ensures "KQkq"[k] != ' ' && "KQkq"[k] != '-'
  {
    CastleFlagsAreBits();
  }

  lemma {:induction false} PowMonotone(j: nat, k: nat)
    requires j <= k
    ensures Pow2(j) <= Pow2(k)
    decreases k
  {
    if j < k {
      PowMonotone(j, k - 1);
    }
  }

  /**
   * `parse_fen` reads back the castling rights `getCastlingRights` writes,
   * and the en-passant field is found one character after them.
   */
  lemma CastleRoundTrip(castle: nat, v: string)
    requires castle < 16 && v != [] && v[0] != ' '
    ensures CastleFieldReadsBack(CastlingRights(castle), castle, v)
  {
    CastlingRightsAreBits(castle);
    ScanRights(castle, 0, 0, 0, v);
    var rights := RightsFrom(castle, 0);
    if rights == [] {
      assert ScanCastle(" " + v, 0, 0, 0) == (0, 0);
      assert ("-" + " " + v)[0] == '-' && ("-" + " " + v)[1] == ' ';
    } else {
      var u := rights + " " + v;
      assert At(u, |rights| + 1) == v[0];
    }
  }

  /** `std::stoi` reads a run of digits, alone or after a space, as its value. */
  lemma DigitsParse(t: string)
    requires t != [] && forall k :: 0 <= k < |t| ==> IsDigit(t[k])
    ensures Stoi(t) == Some(DigitsValue(t))
    ensures Stoi(" " + t) == Some(DigitsValue(t))
  {
    DigitsReadBack(t);
    assert !IsSpace(t[0]);
    assert FirstNonSpace(t, 0) == 0;
    assert t[0..] == t;
    assert ParseLeadingInt(t) == Some(DigitsValue(t));
    var u := " " + t;
    assert u[1] == t[0];
    assert FirstNonSpace(u, 0) == 1;
    assert u[1..] == t;
  }

  /** Two decimal digits denote less than 100. */
  lemma TwoDigitsBelow100(t: string)
    requires |t| <= 2 && forall k :: 0 <= k < |t| ==> IsDigit(t[k])
    ensures DigitsValue(t) < 100
  {
    if t != [] {
      assert DigitsValue(t[..|t| - 1]) < 10 by {
        if |t| == 2 {
          assert t[..1][..0] == [];
        }
      }
    }
  }

  /** How many leading digits of the half-move clock's text `parse_fen` reads back after the en-passant field `ep`. */
  function ClockDigits(ep: int, clockText: string): (n: nat)
    ensures n <= 2
  {
    if ep != NO_SQ then 1 else if |clockText| < 2 then |clockText| else 2
  }

  /**
   * `parse_fen` reads back the en-passant square `getEnPassantSquare`
   * writes; of the half-move clock written after it, it reads the leading
   * digit when a square is given (the two characters it hands to
   * `std::stoi` are the space and that digit) and the first two digits
   * otherwise.
   */
  lemma EpClockRoundTrip(ep: int, halfmove: nat, rest: string)
    requires 0 <= ep <= NO_SQ && rest != []
    ensures var h := NatToString(halfmove);
      var n := ClockDigits(ep, h);
      && 1 <= n <= |h|
      && EpAndClock(EnPassantText(ep) + " " + h + " " + rest, 0) == (ep, Some(DigitsValue(h[..n]) as int))
  {
    var h := NatToString(halfmove);
    var n := ClockDigits(ep, h);
    if ep == NO_SQ {
      NoSquareClock(h, rest);
    } else {
      SquareClock(ep, h, rest);
    }
  }

  /** With '-' for the en-passant square, `parse_fen` reads the clock's first one or two digits. */
  lemma NoSquareClock(h: string, rest: string)
    requires h != [] && (forall k :: 0 <= k < |h| ==> IsDigit(h[k])) && rest != []
    ensures var n := ClockDigits(NO_SQ, h);
      EpAndClock("-" + " " + h + " " + rest, 0) == (NO_SQ, Some(DigitsValue(h[..n]) as int))
  {
    var w := "-" + " " + h + " " + rest;
    var n := ClockDigits(NO_SQ, h);
    TwoDigitsBelow100(h[..n]);
    assert At(w, 0) == '-';
    assert At(w, 2) == h[0];
    if |h| < 2 {
      assert At(w, 3) == ' ';
    } else {
      assert At(w, 3) == h[1];
    }
    assert ClockText(w, 2) == h[..n];
    DigitsParse(h[..n]);
  }

  /** After an en-passant square, `parse_fen` hands `std::stoi` the space and the clock's first digit. */
  lemma SquareClock(ep: int, h: string, rest: string)
    requires 0 <= ep < 64
    requires h != [] && (forall k :: 0 <= k < |h| ==> IsDigit(h[k])) && rest != []
    ensures EpAndClock(CoordinatesToChessNotation(ep) + " " + h + " " + rest, 0) == (ep, Some(DigitsValue(h[..1]) as int))
  {
    var e := CoordinatesToChessNotation(ep);
    var w := e + " " + h + " " + rest;
    assert At(w, 0) == e[0] && At(w, 1) == e[1];
    assert (8 - (e[1] as int - '0' as int)) * 8 + (e[0] as int - 'a' as int) == ep;
    assert At(w, 2) == ' ' && At(w, 3) == h[0];
    assert ClockText(w, 2) == " " + h[..1];
    DigitsParse(h[..1]);
    TwoDigitsBelow100(h[..1]);
  }

  /** Of a three-digit clock (100 to 999) with no en-passant square, `parse_fen` reads the first two digits. */
  lemma LongClockTruncated(halfmove: nat)
    requires 100 <= halfmove < 1000
    ensures var h := NatToString(halfmove);
      DigitsValue(h[..ClockDigits(NO_SQ, h)]) == halfmove / 10
  {
    var h := NatToString(halfmove);
    assert h == NatToString(halfmove / 10) + [DigitChar(halfmove % 10)];
    assert |NatToString(halfmove / 10)| == 2 by {
      assert NatToString(halfmove / 10) == NatToString(halfmove / 100) + [DigitChar(halfmove / 10 % 10)];
    }
    assert h[..2] == NatToString(halfmove / 10);
    DigitsOfNatToString(halfmove / 10);
  }

  /** A clock below 100 with no en-passant square comes back whole. */
  lemma ShortClockReadBack(halfmove: nat)
    requires halfmove < 100
    ensures var h := NatToString(halfmove);
      DigitsValue(h[..ClockDigits(NO_SQ, h)]) == halfmove
  {
    var h := NatToString(halfmove);
    assert |h| <= 2 by {
      if halfmove >= 10 {
        assert h == NatToString(halfmove / 10) + [DigitChar(halfmove % 10)];
      }
    }
    assert h[..|h|] == h;
    DigitsOfNatToString(halfmove);
  }

  /**
   * The half-move clock as the record means it: the whole word that starts
   * one space after the en-passant field (one character for '-', two for a
   * square), stored as `uint8_t`; 0 when the text ends before it.
   */
  function ClockIntended(fen: string, e: nat): (r: Option<int>)
    ensures r.Some? ==> 0 <= r.value < 256
  {
    var start := e + (if At(fen, e) == '-' then 1 else 2) + 1;
    if start >= |fen| then Some(0)
    else
      match Stoi(WordFrom(fen[start..]))
      case None => None
      case Some(h) => Some(U8(h))
  }

  /** The first word of `s`: everything before its first space. */
  function WordFrom(s: string): (w: string)
    ensures ' ' !in w && w <= s
  {
    s[..TokenLength(s)]
  }

  /** A word followed by a space is read up to that space. */
  lemma WordBeforeSpace(word: string, rest: string)
    requires forall k :: 0 <= k < |word| ==> IsDigit(word[k])
    ensures TokenLength(word + " " + rest) == |word|
  {
    var t := word + " " + rest;
    assert t[|word|] == ' ';
    assert forall k :: 0 <= k < |word| ==> t[k] == word[k];
  }

  /** The corrected reading, when the clock's digits `h` start where it looks for them. */
  lemma ClockIntendedFrom(w: string, h: string, rest: string)
    requires h != [] && forall k :: 0 <= k < |h| ==> IsDigit(h[k])
    requires var start := (if At(w, 0) == '-' then 1 else 2) + 1;
      start <= |w| && w[start..] == h + " " + rest
    ensures ClockIntended(w, 0) == Some(U8(DigitsValue(h)))
  {
    var start := (if At(w, 0) == '-' then 1 else 2) + 1;
    WordBeforeSpace(h, rest);
    assert WordFrom(w[start..]) == (h + " " + rest)[..|h|] == h;
    DigitsParse(h);
  }

  /** The corrected reading gives back every clock `boardToFEN` writes, whatever the en-passant field. */
  lemma ClockIntendedReadBack(ep: int, halfmove: nat, rest: string)
    requires 0 <= ep <= NO_SQ && halfmove < 256
    ensures ClockIntended(EnPassantText(ep) + " " + NatToString(halfmove) + " " + rest, 0) == Some(halfmove)
  {
    var e := EnPassantText(ep);
    var h := NatToString(halfmove);
    var tail := h + " " + rest;
    var w := e + " " + h + " " + rest;
    assert w == (e + " ") + tail;
    assert |e| == (if ep == NO_SQ then 1 else 2);
    assert At(w, 0) == '-' <==> ep == NO_SQ;
    assert w[|e + " "|..] == tail;
    ClockIntendedFrom(w, h, rest);
    DigitsOfNatToString(halfmove);
  }

  // ------------------------------------------------------------ the whole record

  /** The mailbox determines the piece bitboards that match it. */
  lemma BitboardsDetermined(mb: seq<int>, b1: seq<Bitboard>, b2: seq<Bitboard>)
    requires Matching(mb, b1, 64) && Matching(mb, b2, 64)
    ensures b1 == b2
  {
    forall p | 0 <= p < 12
      ensures b1[p] == b2[p]
    {
      forall sq | sq in b1[p]
        ensures sq in b2[p]
      {
        assert 0 <= sq < 64 && mb[sq] == p;
      }
      forall sq | sq in b2[p]
        ensures sq in b1[p]
      {
        assert 0 <= sq < 64 && mb[sq] == p;
      }
    }
  }

  /** The letter `boardToFEN` writes for the side to move. */
  function SideText(side: int): (t: string)
    ensures |t| == 1 && (t[0] == 'w' <==> side == White)
  {
    if side == 0 then "w" else "b"
  }

  /** The record `boardToFEN` writes, split after the placement. */
  lemma FenTextSplit(s: BoardState)
    requires WellFormed(s)
    ensures FenText(s) == (PlacementField(s.mailbox) + " ")
      + (SideText(s.side) + " " + CastlingRights(s.castle) + " "
         + (EnPassantText(s.enpassent) + " " + NatToString(s.halfmove) + " " + NatToString(|s.history| / 2 + 1)))
  {
    RegroupRecord(PlacementField(s.mailbox), SideText(s.side), CastlingRights(s.castle),
      EnPassantText(s.enpassent), NatToString(s.halfmove), NatToString(|s.history| / 2 + 1));
  }

  lemma RegroupRecord(p: string, side: string, c: string, e: string, h: string, f: string)
    ensures p + " " + side + " " + c + " " + e + " " + h + " " + f
      == (p + " ") + (side + " " + c + " " + (e + " " + h + " " + f))
  {
  }

  lemma RegroupFields(side: string, c: string, v: string)
    ensures side + " " + c + " " + v == (side + " ") + (c + " " + v)
    ensures side + " " + c + " " + v == (side + " " + c + " ") + v
  {
  }

  /** After the placement `boardToFEN` writes, `parse_fen` goes on with the fields that follow it. */
  lemma ParsedAfterPlacement(p: string, t: string)
    requires var placed := PlacementOf(p + " " + t); placed.Some? && placed.value.after == |t|
    ensures var fen := p + " " + t;
      var placed := PlacementOf(fen).value;
      var f := FieldsOf(t, 0);
      f.halfmove.Some? ==>
        ParsedFen(fen) == Some(Position(placed.mailbox, placed.bitboards, f.side, f.castle, f.enpassent, f.halfmove.value))
  {
    var fen := p + " " + t;
    var placed := PlacementOf(fen).value;
    assert FieldsStart(fen, placed) == |p + " "| + 0;
    FieldsOfShift(p + " ", t, 0);
  }

  /** The en-passant field `boardToFEN` writes never starts with a space. */
  lemma EnPassantTextStart(ep: int)
    requires 0 <= ep <= NO_SQ
    ensures EnPassantText(ep) != [] && EnPassantText(ep)[0] != ' '
  {
  }

  /**
   * The castling field `c` followed by a space and `v` reads back as
   * `castle`, and the en-passant field is found one character after it.
   */
  predicate CastleFieldReadsBack(c: string, castle: int, v: string)
  {
    var u := c + " " + v;
    var scan := ScanCastle(u, 0, 0, 0);
    && scan.0 == castle
    && EpStart(u, scan.1) == |c| + 1
  }

  /** `parse_fen` reads the side to move and the castling rights back, and finds the en-passant field after them. */
  lemma SideAndCastleReadBack(side: int, c: string, castle: int, v: string)
    requires IsColour(side) && CastleFieldReadsBack(c, castle, v)
    ensures var t := SideText(side) + " " + c + " " + v;
      var scan := ScanCastle(t, 2, 0, 0);
      && (if At(t, 0) == 'w' then White else Black) == side
      && scan.0 == castle
      && EpStart(t, scan.1) == |SideText(side) + " " + c + " "| + 0
  {
    var sideText := SideText(side);
    var u := c + " " + v;
    RegroupFields(sideText, c, v);
    var scanU := ScanCastle(u, 0, 0, 0);
    ScanCastleShift(sideText + " ", u, 0, 2, 0, 0);
    AtShift(sideText + " ", u, scanU.1 + 1, 2 + scanU.1 + 1);
  }

  /** `parse_fen` reads back the fields `boardToFEN` writes after the placement. */
  lemma FieldsReadBack(side: int, c: string, castle: int, ep: int, halfmove: nat, rest: string)
    requires IsColour(side) && 0 <= ep <= NO_SQ && rest != []
    requires CastleFieldReadsBack(c, castle, EnPassantText(ep) + " " + NatToString(halfmove) + " " + rest)
    ensures var h := NatToString(halfmove);
      var v := EnPassantText(ep) + " " + h + " " + rest;
      FieldsOf(SideText(side) + " " + c + " " + v, 0)
        == Fields(side, castle, ep, Some(DigitsValue(h[..ClockDigits(ep, h)]) as int))
  {
    var h := NatToString(halfmove);
    var v := EnPassantText(ep) + " " + h + " " + rest;
    SideAndCastleReadBack(side, c, castle, v);
    RegroupFields(SideText(side), c, v);
    EpAndClockShift(SideText(side) + " " + c + " ", v, 0);
    EpClockRoundTrip(ep, halfmove, rest);
  }

  /**
   * `parse_fen` reads back what `boardToFEN` writes: the pieces, the side to
   * move, the castling rights and the en-passant square all come back; the
   * half-move clock comes back whole when no en-passant square is given and
   * it is below 100, and otherwise as its first one or two digits.
   */
  lemma FenRoundTrip(s: BoardState)
    requires WellFormed(s) && Consistent(s)
    ensures var r := ParsedFen(FenText(s));
      var h := NatToString(s.halfmove);
      && r.Some?
      && r.value.mailbox == s.mailbox && r.value.bitboards == s.bitboards
      && r.value.side == s.side && r.value.castle == s.castle && r.value.enpassent == s.enpassent
      && r.value.halfmove == DigitsValue(h[..ClockDigits(s.enpassent, h)])
      && (s.enpassent == NO_SQ && s.halfmove < 100 ==> r.value.halfmove == s.halfmove)
  {
    var rest := NatToString(|s.history| / 2 + 1);
    var t := SideText(s.side) + " " + CastlingRights(s.castle) + " "
      + (EnPassantText(s.enpassent) + " " + NatToString(s.halfmove) + " " + rest);
    FenTextSplit(s);
    var v := EnPassantText(s.enpassent) + " " + NatToString(s.halfmove) + " " + rest;
    EnPassantTextStart(s.enpassent);
    CastleRoundTrip(s.castle, v);
    FieldsReadBack(s.side, CastlingRights(s.castle), s.castle, s.enpassent, s.halfmove, rest);
    PlacementRoundTrip(s.mailbox, t);
    ParsedAfterPlacement(PlacementField(s.mailbox), t);
    var r := ParsedFen(FenText(s));
    BitboardsDetermined(s.mailbox, r.value.bitboards, s.bitboards);
    if s.enpassent == NO_SQ && s.halfmove < 100 {
      ShortClockReadBack(s.halfmove);
    }
  }
}
