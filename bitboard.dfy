// A 64-bit bitboard (`uint64_t`) is modelled as the set of the squares whose
// bit is set, with square 0 = a8 in bit 0 and square 63 = h1 in bit 63.
// Bitwise `&`, `|`, `^` and `~` are intersection, union, symmetric difference
// and complement within the 64 squares; `get_ls1b` (count trailing zeros) is
// the smallest square; `Pop_bit` removes a square; a population count is the
// cardinality.

module Bitboards {

  type Bitboard = set<int>

  predicate OnBoard(b: Bitboard)
  {
    forall s :: s in b ==> 0 <= s < 64
  }

  const AllSquares: Bitboard := set s | 0 <= s < 64

  /** `~b` restricted to the board. */
  function Complement(b: Bitboard): (c: Bitboard)
    ensures OnBoard(c)
    ensures forall s :: 0 <= s < 64 ==> (s in c <==> s !in b)
  {
    set s | 0 <= s < 64 && s !in b
  }

  /** `a ^ b`: the squares in exactly one of the two. */
  function Xor(a: Bitboard, b: Bitboard): (c: Bitboard)
    ensures forall s :: s in c <==> (s in a) != (s in b)
  {
    (a - b) + (b - a)
  }

  /** `get_ls1b`: the lowest set square. */
  function Ls1b(b: Bitboard): (sq: int)
    requires OnBoard(b) && b != {}
    ensures sq in b && 0 <= sq < 64
    ensures forall s :: s in b ==> sq <= s
  {
    NonEmptyHasSquare(b);
    LowestFrom(b, 0)
  }

  function LowestFrom(b: Bitboard, i: nat): (sq: int)
    requires i < 64 && OnBoard(b)
    requires exists s :: s in b && i <= s
    ensures sq in b && i <= sq
    ensures forall s :: s in b && i <= s ==> sq <= s
    decreases 64 - i
  {
    if i in b || i == 63 then i else LowestFrom(b, i + 1)
  }

  lemma NonEmptyHasSquare(b: Bitboard)
    requires OnBoard(b) && b != {}
    ensures exists s :: s in b && 0 <= s
  {
    if forall s :: s !in b {
      assert false;
    }
  }

  /** The squares of `b` in the order a loop popping `get_ls1b` visits them. */
  function Squares(b: Bitboard): (s: seq<int>)
    requires OnBoard(b)
    ensures |s| == |b|
    ensures forall i :: 0 <= i < |s| ==> s[i] in b
    ensures forall i, j :: 0 <= i < j < |s| ==> s[i] < s[j]
    decreases |b|
  {
    if b == {} then []
    else
      var sq := Ls1b(b);
      var rest := Squares(b - {sq});
      AboveLowest(b, sq, rest);
      [sq] + rest
  }

  /** Every square of `b` other than its lowest lies above it. */
  lemma AboveLowest(b: Bitboard, sq: int, rest: seq<int>)
    requires forall s :: s in b ==> sq <= s
    requires forall i :: 0 <= i < |rest| ==> rest[i] in b - {sq}
    ensures forall j :: 0 <= j < |rest| ==> sq < rest[j]
  {
    forall j | 0 <= j < |rest|
      ensures sq < rest[j]
    {
      assert rest[j] in b && rest[j] != sq;
    }
  }

  lemma {:induction false} SquaresComplete(b: Bitboard, x: int)
    requires OnBoard(b) && x in b
    ensures x in Squares(b)
    decreases |b|
  {
    var sq := Ls1b(b);
    if x != sq {
      SquaresComplete(b - {sq}, x);
    }
  }
}
