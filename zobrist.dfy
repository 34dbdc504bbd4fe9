// Zobrist hashing (Movegen.cpp): the xorshift generator that fills the key
// tables, and the full hash and pawn hash of a position that `MakeMove` keeps
// up to date incrementally.

module Zobrist {
  import opened CppInt
  import opened Bitboards
  import opened Consts
  import opened Chessboard

  // -------------------------------------------------------------- generator

  /** One xorshift step of `get_random_U32_number` on the 32-bit state. */
  function XorShift32(x: bv32): (y: bv32)
  {
    var a := x ^ (x << 13);
    var b := a ^ (a >> 17);
    b ^ (b << 5)
  }

  /** Each xorshift step is invertible, so a non-zero state never becomes zero. */
  lemma XorShiftKeepsNonZero(x: bv32)
    requires x != 0
    ensures XorShift32(x) != 0
  {
    var a := x ^ (x << 13);
    assert a != 0;
    var b := a ^ (a >> 17);
    assert b != 0;
  }

  /** The state after `n` draws. */
  function Advance(x: bv32, n: nat): bv32
  {
    if n == 0 then x else XorShift32(Advance(x, n - 1))
  }

  lemma {:induction false} AdvanceAdd(x: bv32, a: nat, b: nat)
    ensures Advance(Advance(x, a), b) == Advance(x, a + b)
  {
    if b > 0 {
      AdvanceAdd(x, a, b - 1);
    }
  }

  /** From a non-zero seed the generator never reaches the all-zero state, where it would stay. */
  lemma {:induction false} AdvanceNonZero(x: bv32, n: nat)
    requires x != 0
    ensures Advance(x, n) != 0
  {
    if n > 0 {
      AdvanceNonZero(x, n - 1);
      XorShiftKeepsNonZero(Advance(x, n - 1));
    }
  }

  /** The low 16 bits of a draw, widened to 64 bits. */
  function Low16(n: bv32): bv64
  {
    (n as bv64) & 0xFFFF
  }

  /** `get_random_U64_number`: four 16-bit slices, the first draw in the lowest bits. */
  function Assemble(n1: bv32, n2: bv32, n3: bv32, n4: bv32): (r: bv64)
  {
    Low16(n1) | (Low16(n2) << 16) | (Low16(n3) << 32) | (Low16(n4) << 48)
  }

  /** Each 16-bit field of the assembled number is the low half of the corresponding draw. */
  lemma AssembleSlices(n1: bv32, n2: bv32, n3: bv32, n4: bv32)
    ensures var r := Assemble(n1, n2, n3, n4);
      && r & 0xFFFF == Low16(n1) && (r >> 16) & 0xFFFF == Low16(n2)
      && (r >> 32) & 0xFFFF == Low16(n3) && r >> 48 == Low16(n4)
  {
  }

  /** The 64-bit number drawn from state `x`. */
  function Draw64(x: bv32): bv64
  {
    Assemble(Advance(x, 1), Advance(x, 2), Advance(x, 3), Advance(x, 4))
  }

  /** The generator's global state `random_state`. */
  class RandomState {
    var state: bv32

    constructor (seed: bv32)
      ensures state == seed
    {
      state := seed;
    }

    /** `get_random_U32_number`: advance the state and return it. */
    method GetRandomU32() returns (number: bv32)
      modifies this
      ensures state == XorShift32(old(state)) && number == state
    {
      state := XorShift32(state);
      number := state;
    }

    /** `get_random_U64_number`: four draws, sliced and assembled. */
    method GetRandomU64() returns (number: bv64)
      modifies this
      ensures number == Draw64(old(state)) && state == Advance(old(state), 4)
    {
      ghost var start := state;
      var d1 := GetRandomU32();
      assert d1 == Advance(start, 1);
      var d2 := GetRandomU32();
      assert d2 == Advance(start, 2);
      var d3 := GetRandomU32();
      assert d3 == Advance(start, 3);
      var d4 := GetRandomU32();
      assert d4 == Advance(start, 4);
      number := Assemble(d1, d2, d3, d4);
    }
  }

  // ------------------------------------------------------------- key tables

  /**
   * `piece_keys[12][64]`, `enpassant_keys[64]`, `castle_keys[16]` and
   * `side_key`. Keys are the unsigned 64-bit values as numbers, combined
   * with `BitXor`.
   */
  datatype ZobristKeys = ZobristKeys(piece: seq<seq<nat>>, enpassant: seq<nat>, castle: seq<nat>, side: nat)

  predicate KeysShape(keys: ZobristKeys)
  {
    && |keys.piece| == 12 && (forall p :: 0 <= p < 12 ==> |keys.piece[p]| == 64)
    && |keys.enpassant| == 64 && |keys.castle| == 16
  }

  /** The fixed seed `init_random_keys` restarts the generator from. */
  function Seed(): bv32 { 1804289383 }

  /** An unsigned 64-bit value as a number. */
  function Num64(x: bv64): nat
  {
    x as nat
  }

  /** The `i`-th 64-bit number the generator produces from `seed`. */
  function KeyNumber(seed: bv32, i: nat): nat
  {
    Num64(Draw64(Advance(seed, 4 * i)))
  }

  /** One draw moves the stream on by one number. */
  lemma NextKeyNumber(seed: bv32, i: nat)
    ensures Advance(Advance(seed, 4 * i), 4) == Advance(seed, 4 * (i + 1))
  {
    AdvanceAdd(seed, 4 * i, 4);
  }

  /** `n` keys drawn one after the other: the numbers `start .. start + n - 1` of the stream. */
  method DrawKeys(rng: RandomState, ghost seed: bv32, start: nat, n: nat) returns (row: seq<nat>)
    requires rng.state == Advance(seed, 4 * start)
    modifies rng
    ensures rng.state == Advance(seed, 4 * (start + n))
    ensures |row| == n && forall i :: 0 <= i < n ==> row[i] == KeyNumber(seed, start + i)
  {
    row := [];
    for i := 0 to n
      invariant rng.state == Advance(seed, 4 * (start + i))
      invariant |row| == i && forall j :: 0 <= j < i ==> row[j] == KeyNumber(seed, start + j)
    {
      NextKeyNumber(seed, start + i);
      var number := rng.GetRandomU64();
      row := row + [Num64(number)];
    }
  }

  /** The piece keys, piece by piece and square by square: the first 768 numbers of the stream. */
  method DrawPieceKeys(rng: RandomState, ghost seed: bv32) returns (pieceKeys: seq<seq<nat>>)
    requires rng.state == seed
    modifies rng
    ensures rng.state == Advance(seed, 4 * 768)
    ensures |pieceKeys| == 12 && forall p :: 0 <= p < 12 ==> |pieceKeys[p]| == 64
    ensures forall p, sq :: 0 <= p < 12 && 0 <= sq < 64 ==> pieceKeys[p][sq] == KeyNumber(seed, 64 * p + sq)
  {
    pieceKeys := [];
    for piece := 0 to 12
      invariant rng.state == Advance(seed, 4 * (64 * piece))
      invariant |pieceKeys| == piece
      invariant forall p :: 0 <= p < piece ==> |pieceKeys[p]| == 64
      invariant forall p, sq :: 0 <= p < piece && 0 <= sq < 64 ==> pieceKeys[p][sq] == KeyNumber(seed, 64 * p + sq)
    {
      var row := DrawKeys(rng, seed, 64 * piece, 64);
      pieceKeys := pieceKeys + [row];
    }
  }

  /** The key tables drawn in order from a generator standing at `seed`. */
  method DrawAllKeys(rng: RandomState, ghost seed: bv32) returns (keys: ZobristKeys)
    requires rng.state == seed
    modifies rng
    ensures KeysShape(keys)
    ensures forall p, sq :: 0 <= p < 12 && 0 <= sq < 64 ==> keys.piece[p][sq] == KeyNumber(seed, 64 * p + sq)
    ensures forall sq :: 0 <= sq < 64 ==> keys.enpassant[sq] == KeyNumber(seed, 768 + sq)
    ensures forall c :: 0 <= c < 16 ==> keys.castle[c] == KeyNumber(seed, 832 + c)
    ensures keys.side == KeyNumber(seed, 848)
  {
    var pieceKeys := DrawPieceKeys(rng, seed);
    var epKeys := DrawKeys(rng, seed, 768, 64);
    var castleKeys := DrawKeys(rng, seed, 832, 16);
    NextKeyNumber(seed, 848);
    var sideKey := rng.GetRandomU64();
    keys := ZobristKeys(pieceKeys, epKeys, castleKeys, Num64(sideKey));
  }

  /**
   * `init_random_keys`: reseed, then draw the piece keys piece by piece and
   * square by square, then the en-passant keys, the castling keys and the
   * side key, so key number `i` of that order is the `i`-th number drawn.
   */
  method InitRandomKeys(rng: RandomState) returns (keys: ZobristKeys)
    modifies rng
    ensures KeysShape(keys)
    ensures forall p, sq :: 0 <= p < 12 && 0 <= sq < 64 ==> keys.piece[p][sq] == KeyNumber(Seed(), 64 * p + sq)
    ensures forall sq :: 0 <= sq < 64 ==> keys.enpassant[sq] == KeyNumber(Seed(), 768 + sq)
    ensures forall c :: 0 <= c < 16 ==> keys.castle[c] == KeyNumber(Seed(), 832 + c)
    ensures keys.side == KeyNumber(Seed(), 848)
  {
    rng.state := Seed();
    keys := DrawAllKeys(rng, Seed());
  }

  // ------------------------------------------------------ hash of a position

  /** `(a ^ b) ^ c == (a ^ c) ^ b` */
  lemma XorSwapRight(a: nat, b: nat, c: nat)
    ensures BitXor(BitXor(a, b), c) == BitXor(BitXor(a, c), b)
  {
    XorAssoc(a, b, c);
    XorAssoc(a, c, b);
    XorComm(b, c);
  }

  /** `a ^ (b ^ c) == b ^ (a ^ c)` */
  lemma XorSwapLeft(a: nat, b: nat, c: nat)
    ensures BitXor(a, BitXor(b, c)) == BitXor(b, BitXor(a, c))
  {
    XorAssoc(a, b, c);
    XorAssoc(b, a, c);
    XorComm(a, b);
  }

  /** The XOR of `row[sq]` over the squares of `b`, taken lowest square first. */
  function SquaresHash(row: seq<nat>, b: Bitboard): nat
    requires |row| == 64 && OnBoard(b)
    decreases |b|
  {
    if b == {} then 0 else BitXor(row[Ls1b(b)], SquaresHash(row, b - {Ls1b(b)}))
  }

  /** The order does not matter: any square's key can be taken out first. */
  lemma {:induction false} SquaresHashToggle(row: seq<nat>, b: Bitboard, x: int)
    requires |row| == 64 && OnBoard(b) && x in b
    ensures SquaresHash(row, b) == BitXor(row[x], SquaresHash(row, b - {x}))
    decreases |b|
  {
    var m := Ls1b(b);
    if x != m {
      var rest := b - {x} - {m};
      assert b - {m} - {x} == rest;
      SquaresHashToggle(row, b - {m}, x);
      LowestAfterRemoval(b, x);
      XorSwapLeft(row[m], row[x], SquaresHash(row, rest));
    }
  }

  /** Removing a square other than the lowest keeps the lowest. */
  lemma LowestAfterRemoval(b: Bitboard, x: int)
    requires OnBoard(b) && x in b && x != Ls1b(b)
    ensures Ls1b(b) in b - {x} && Ls1b(b - {x}) == Ls1b(b)
  {
  }

  /** `b` with square `x` added when absent and removed when present. */
  function Flip(b: Bitboard, x: int): (r: Bitboard)
    requires OnBoard(b) && 0 <= x < 64
    ensures OnBoard(r) && (x in r <==> x !in b) && r - {x} == b - {x}
  {
    if x in b then b - {x} else b + {x}
  }

  /** The XOR of the square hashes of pieces `0 .. n-1`. */
  function PiecesHash(keys: ZobristKeys, bbs: seq<Bitboard>, n: nat): nat
    requires KeysShape(keys) && |bbs| == 12 && n <= 12 && forall p :: 0 <= p < 12 ==> OnBoard(bbs[p])
  {
    if n == 0 then 0 else BitXor(PiecesHash(keys, bbs, n - 1), SquaresHash(keys.piece[n - 1], bbs[n - 1]))
  }

  /** Adding a square to one piece's bitboard, or removing it, XORs that piece's key for the square into the hash. */
  lemma {:induction false} PiecesHashToggle(keys: ZobristKeys, bbs: seq<Bitboard>, n: nat, p: int, x: int)
    requires KeysShape(keys) && |bbs| == 12 && n <= 12 && forall q :: 0 <= q < 12 ==> OnBoard(bbs[q])
    requires 0 <= p < 12 && 0 <= x < 64
    ensures PiecesHash(keys, bbs[p := Flip(bbs[p], x)], n)
      == BitXor(PiecesHash(keys, bbs, n), if p < n then keys.piece[p][x] else 0)
  {
    var flipped := Flip(bbs[p], x);
    if n > 0 {
      PiecesHashToggle(keys, bbs, n - 1, p, x);
      var before := PiecesHash(keys, bbs, n - 1);
      var key := keys.piece[p][x];
      if n - 1 == p {
        if x in bbs[p] {
          SquaresHashToggle(keys.piece[p], bbs[p], x);
          assert bbs[p] - {x} == flipped;
          XorCancel(before, key, SquaresHash(keys.piece[p], flipped));
        } else {
          SquaresHashToggle(keys.piece[p], flipped, x);
          assert flipped - {x} == bbs[p];
          XorAssoc(before, key, SquaresHash(keys.piece[p], bbs[p]));
          XorSwapRight(before, key, SquaresHash(keys.piece[p], bbs[p]));
        }
      } else if p < n - 1 {
        XorSwapRight(before, key, SquaresHash(keys.piece[n - 1], bbs[n - 1]));
      }
    }
  }

  /** `a ^ c == (a ^ (k ^ c)) ^ k` */
  lemma XorCancel(a: nat, k: nat, c: nat)
    ensures BitXor(a, c) == BitXor(BitXor(a, BitXor(k, c)), k)
  {
    XorAssoc(a, BitXor(k, c), k);
    XorComm(k, c);
    XorInvolutive(c, k);
  }

  /** The key of the en-passant square, or nothing when there is none. */
  function EnPassantKey(s: BoardState, keys: ZobristKeys): nat
    requires WellFormed(s) && KeysShape(keys)
  {
    if s.enpassent != NO_SQ then keys.enpassant[s.enpassent] else 0
  }

  /** The XOR of the piece hash and the en-passant, castling and side parts. */
  function HashOf(keys: ZobristKeys, bbs: seq<Bitboard>, epKey: nat, castleKey: nat, sideKey: nat): nat
    requires KeysShape(keys) && |bbs| == 12 && forall p :: 0 <= p < 12 ==> OnBoard(bbs[p])
  {
    BitXor(BitXor(BitXor(PiecesHash(keys, bbs, 12), epKey), castleKey), sideKey)
  }

  /** The side part of the hash: the side key when Black is to move. */
  function SideKey(keys: ZobristKeys, side: int): nat
  {
    if side == Black then keys.side else 0
  }

  /**
   * `generate_hash_key`, as a value: pieces, en-passant square, castling
   * rights and side. The rights of a well-formed board are within 0..15,
   * where `get_castle` is the identity, so they index the castle keys as
   * they are.
   */
  function HashKey(s: BoardState, keys: ZobristKeys): nat
    requires WellFormed(s) && KeysShape(keys)
  {
    HashOf(keys, s.bitboards, EnPassantKey(s, keys), keys.castle[s.castle], SideKey(keys, s.side))
  }

  /** The XOR of the white and the black pawns' square hashes. */
  function PawnOf(keys: ZobristKeys, bbs: seq<Bitboard>): nat
    requires KeysShape(keys) && |bbs| == 12 && forall p :: 0 <= p < 12 ==> OnBoard(bbs[p])
  {
    BitXor(SquaresHash(keys.piece[P], bbs[P]), SquaresHash(keys.piece[BP], bbs[BP]))
  }

  /** `generate_pawn_key`, as a value: the white and then the black pawns. */
  function PawnHash(s: BoardState, keys: ZobristKeys): nat
    requires WellFormed(s) && KeysShape(keys)
  {
    PawnOf(keys, s.bitboards)
  }

  /** Flipping square `x` of a bitboard XORs its key into the square hash. */
  lemma SquaresHashFlip(row: seq<nat>, b: Bitboard, x: int)
    requires |row| == 64 && OnBoard(b) && 0 <= x < 64
    ensures SquaresHash(row, Flip(b, x)) == BitXor(SquaresHash(row, b), row[x])
  {
    var flipped := Flip(b, x);
    if x in b {
      SquaresHashToggle(row, b, x);
      assert b - {x} == flipped;
      XorComm(row[x], SquaresHash(row, flipped));
      XorInvolutive(SquaresHash(row, flipped), row[x]);
    } else {
      SquaresHashToggle(row, flipped, x);
      assert flipped - {x} == b;
      XorComm(row[x], SquaresHash(row, b));
    }
  }

  /** Flipping a square of piece `p` XORs that piece's key for the square into the hash. */
  lemma HashOfFlip(keys: ZobristKeys, bbs: seq<Bitboard>, epKey: nat, castleKey: nat, sideKey: nat, p: int, x: int)
    requires KeysShape(keys) && |bbs| == 12 && forall q :: 0 <= q < 12 ==> OnBoard(bbs[q])
    requires 0 <= p < 12 && 0 <= x < 64
    ensures HashOf(keys, bbs[p := Flip(bbs[p], x)], epKey, castleKey, sideKey)
      == BitXor(HashOf(keys, bbs, epKey, castleKey, sideKey), keys.piece[p][x])
  {
    var k := keys.piece[p][x];
    var ph := PiecesHash(keys, bbs, 12);
    PiecesHashToggle(keys, bbs, 12, p, x);
    XorSwapRight(ph, k, epKey);
    XorSwapRight(BitXor(ph, epKey), k, castleKey);
    XorSwapRight(BitXor(BitXor(ph, epKey), castleKey), k, sideKey);
  }

  /** XORing a key into the en-passant part XORs it into the hash. */
  lemma HashOfEp(keys: ZobristKeys, bbs: seq<Bitboard>, epKey: nat, castleKey: nat, sideKey: nat, k: nat)
    requires KeysShape(keys) && |bbs| == 12 && forall q :: 0 <= q < 12 ==> OnBoard(bbs[q])
    ensures HashOf(keys, bbs, BitXor(epKey, k), castleKey, sideKey) == BitXor(HashOf(keys, bbs, epKey, castleKey, sideKey), k)
  {
    var ph := PiecesHash(keys, bbs, 12);
    XorAssoc(ph, epKey, k);
    XorSwapRight(BitXor(ph, epKey), k, castleKey);
    XorSwapRight(BitXor(BitXor(ph, epKey), castleKey), k, sideKey);
  }

  /** XORing a key into the castling part XORs it into the hash. */
  lemma HashOfCastle(keys: ZobristKeys, bbs: seq<Bitboard>, epKey: nat, castleKey: nat, sideKey: nat, k: nat)
    requires KeysShape(keys) && |bbs| == 12 && forall q :: 0 <= q < 12 ==> OnBoard(bbs[q])
    ensures HashOf(keys, bbs, epKey, BitXor(castleKey, k), sideKey) == BitXor(HashOf(keys, bbs, epKey, castleKey, sideKey), k)
  {
    var pe := BitXor(PiecesHash(keys, bbs, 12), epKey);
    XorAssoc(pe, castleKey, k);
    XorSwapRight(BitXor(pe, castleKey), k, sideKey);
  }

  /** XORing a key into the side part XORs it into the hash. */
  lemma HashOfSide(keys: ZobristKeys, bbs: seq<Bitboard>, epKey: nat, castleKey: nat, sideKey: nat, k: nat)
    requires KeysShape(keys) && |bbs| == 12 && forall q :: 0 <= q < 12 ==> OnBoard(bbs[q])
    ensures HashOf(keys, bbs, epKey, castleKey, BitXor(sideKey, k)) == BitXor(HashOf(keys, bbs, epKey, castleKey, sideKey), k)
  {
    XorAssoc(BitXor(BitXor(PiecesHash(keys, bbs, 12), epKey), castleKey), sideKey, k);
  }

  /** Flipping a pawn square XORs its key into the pawn hash; flipping any other piece's square leaves it. */
  lemma PawnOfFlip(keys: ZobristKeys, bbs: seq<Bitboard>, p: int, x: int)
    requires KeysShape(keys) && |bbs| == 12 && forall q :: 0 <= q < 12 ==> OnBoard(bbs[q])
    requires 0 <= p < 12 && 0 <= x < 64
    ensures PawnOf(keys, bbs[p := Flip(bbs[p], x)])
      == if p == P || p == BP then BitXor(PawnOf(keys, bbs), keys.piece[p][x]) else PawnOf(keys, bbs)
  {
    var w, b := SquaresHash(keys.piece[P], bbs[P]), SquaresHash(keys.piece[BP], bbs[BP]);
    var k := keys.piece[p][x];
    if p == P {
      SquaresHashFlip(keys.piece[P], bbs[P], x);
      XorSwapRight(w, k, b);
    } else if p == BP {
      SquaresHashFlip(keys.piece[BP], bbs[BP], x);
      XorAssoc(w, b, k);
    }
  }

  /**
   * The loop of `generate_hash_key` over one bitboard: pop the lowest square
   * and XOR in its key until the copy is empty.
   */
  method XorSquares(row: seq<nat>, b: Bitboard) returns (key: nat)
    requires |row| == 64 && OnBoard(b)
    ensures key == SquaresHash(row, b)
  {
    key := 0;
    var bitboard := b;
    while bitboard != {}
      invariant OnBoard(bitboard) && bitboard <= b
      invariant BitXor(key, SquaresHash(row, bitboard)) == SquaresHash(row, b)
      decreases |bitboard|
    {
      var square := Ls1b(bitboard);
      XorAssoc(key, row[square], SquaresHash(row, bitboard - {square}));
      key := BitXor(key, row[square]);
      bitboard := bitboard - {square};
    }
  }

  /** `generate_hash_key`: the hash of the board computed from scratch. */
  method GenerateHashKey(board: Board, keys: ZobristKeys) returns (finalKey: nat)
    requires WellFormed(board.State()) && KeysShape(keys)
    ensures finalKey == HashKey(board.State(), keys)
  {
    finalKey := 0;
    for piece := 0 to 12
      invariant finalKey == PiecesHash(keys, board.bitboards, piece)
    {
      var pieceKey := XorSquares(keys.piece[piece], board.bitboards[piece]);
      finalKey := BitXor(finalKey, pieceKey);
    }
    var epKey := 0;
    if board.enpassent != NO_SQ {
      epKey := keys.enpassant[board.enpassent];
    }
    finalKey := BitXor(finalKey, epKey);
    GetCastleSmall(board.castle);
    finalKey := BitXor(finalKey, keys.castle[GetCastle(board.castle)]);
    var sideKey := 0;
    if board.side == Black {
      sideKey := keys.side;
    }
    finalKey := BitXor(finalKey, sideKey);
  }

  /** `generate_pawn_key`: the hash of the pawns computed from scratch. */
  method GeneratePawnKey(board: Board, keys: ZobristKeys) returns (finalKey: nat)
    requires WellFormed(board.State()) && KeysShape(keys)
    ensures finalKey == PawnHash(board.State(), keys)
  {
    var whitePawns := XorSquares(keys.piece[P], board.bitboards[P]);
    var blackPawns := XorSquares(keys.piece[BP], board.bitboards[BP]);
    finalKey := BitXor(whitePawns, blackPawns);
  }

  /** Flipping the side to move XORs the side key into the hash. */
  lemma SideFlipHash(s: BoardState, keys: ZobristKeys)
    requires WellFormed(s) && KeysShape(keys)
    ensures WellFormed(s.(side := 1 - s.side))
    ensures HashKey(s.(side := 1 - s.side), keys) == BitXor(HashKey(s, keys), keys.side)
  {
    var ep, castle := EnPassantKey(s, keys), keys.castle[s.castle];
    HashOfSide(keys, s.bitboards, ep, castle, SideKey(keys, s.side), keys.side);
    if s.side == Black {
      XorSelf(keys.side);
    }
  }

  /** Clearing the en-passant square XORs its key out of the hash. */
  lemma EpClearHash(s: BoardState, keys: ZobristKeys)
    requires WellFormed(s) && KeysShape(keys)
    ensures WellFormed(s.(enpassent := NO_SQ))
    ensures HashKey(s.(enpassent := NO_SQ), keys) == BitXor(HashKey(s, keys), EnPassantKey(s, keys))
  {
    var ep := EnPassantKey(s, keys);
    HashOfEp(keys, s.bitboards, ep, keys.castle[s.castle], SideKey(keys, s.side), ep);
    XorSelf(ep);
  }
}
