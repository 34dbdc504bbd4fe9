// Attack sets (Movegen.cpp): the ray walks of the sliding pieces, with and
// without the board edge, and the shift-and-mask leaper attacks.
//
// A square is `8 * row + file` with row 0 the eighth rank and file 0 the
// a-file. The magic-bitboard lookups `get_bishop_attacks` and
// `get_rook_attacks` are taken to return what the ray walks compute for the
// same occupancy; the magic tables themselves are not part of this model.

module Attacks {
  import opened Bitboards
  import opened Consts
  import opened CppInt

  /** A rectangle of rows `rlo..rhi` and files `flo..fhi` that a ray walk stays inside. */
  datatype Box = Box(rlo: int, rhi: int, flo: int, fhi: int)

  predicate ValidBox(box: Box)
  {
    0 <= box.rlo && box.rhi <= 7 && 0 <= box.flo && box.fhi <= 7
  }

  /** The whole board. */
  const FullBox: Box := Box(0, 7, 0, 7)

  predicate InBox(r: int, f: int, box: Box)
  {
    box.rlo <= r <= box.rhi && box.flo <= f <= box.fhi
  }

  /** A ray: from the square on row `r0` and file `f0`, each step moves `dr` rows and `df` files. */
  datatype Dir = Dir(r0: int, f0: int, dr: int, df: int)

  /** The origin is on the board; each coordinate steps by -1, 0 or +1, not both by 0. */
  predicate ValidDir(d: Dir)
  {
    0 <= d.r0 < 8 && 0 <= d.f0 < 8
    && -1 <= d.dr <= 1 && -1 <= d.df <= 1 && (d.dr != 0 || d.df != 0)
  }

  /** The ray from `square` in direction `(dr, df)`. */
  function DirFrom(square: int, dr: int, df: int): (d: Dir)
    requires 0 <= square < 64 && -1 <= dr <= 1 && -1 <= df <= 1 && (dr != 0 || df != 0)
    ensures ValidDir(d) && 8 * d.r0 + d.f0 == square
  {
    Dir(square / 8, square % 8, dr, df)
  }

  /** The coordinate `x` after `i` steps of `s`. */
  function Step(x: int, s: int, i: int): int
  {
    if s == 1 then x + i else if s == -1 then x - i else x
  }

  /** The row, the file and the square `i` steps along the ray. */
  function RowAt(d: Dir, i: int): int
  {
    Step(d.r0, d.dr, i)
  }

  function FileAt(d: Dir, i: int): int
  {
    Step(d.f0, d.df, i)
  }

  function RayAt(d: Dir, i: int): int
  {
    8 * RowAt(d, i) + FileAt(d, i)
  }

  predicate RayInBox(d: Dir, box: Box, i: int)
  {
    InBox(RowAt(d, i), FileAt(d, i), box)
  }

  /**
   * The squares a ray walk adds from step `k` on: each square inside the
   * box, up to and including the first one in `block`. (Eight steps always
   * leave the board; the bound on `k` is only for termination.)
   */
  function Ray(d: Dir, box: Box, block: Bitboard, k: nat): Bitboard
    requires ValidDir(d) && ValidBox(box)
    decreases 8 - k
  {
    if k > 7 || !RayInBox(d, box, k) then {}
    else
      var sq := RayAt(d, k);
      {sq} + (if sq in block then {} else Ray(d, box, block, k + 1))
  }

  /** The row and file of the square `8 * r + f`. */
  lemma {:induction false} SquareOf(r: int, f: int)
    requires 0 <= f < 8
    ensures (8 * r + f) / 8 == r && (8 * r + f) % 8 == f
  {
  }

  /** A square's number is its row times 8 plus its file. */
  lemma {:induction false} Coordinates(t: int)
    requires 0 <= t < 64
    ensures t == 8 * (t / 8) + t % 8 && 0 <= t / 8 < 8 && 0 <= t % 8 < 8
  {
  }

  /** Different numbers of steps along a ray reach different squares of the board. */
  lemma {:induction false} RayAtInjective(d: Dir, i: int, j: int)
    requires ValidDir(d) && i != j
    requires RayInBox(d, FullBox, i) && RayInBox(d, FullBox, j)
    ensures RayAt(d, i) != RayAt(d, j)
  {
    SquareOf(RowAt(d, i), FileAt(d, i));
    SquareOf(RowAt(d, j), FileAt(d, j));
  }

  /** Eight or more steps leave the board. */
  lemma {:induction false} RayLeavesBoard(d: Dir, box: Box, i: int)
    requires ValidDir(d) && ValidBox(box) && i > 7
    ensures !RayInBox(d, box, i)
  {
  }

  /** One step of a walk: the square `k` steps along, then (unless it blocks) the rest. */
  lemma {:induction false} RayUnfold(d: Dir, box: Box, block: Bitboard, k: nat)
    requires ValidDir(d) && ValidBox(box)
    ensures !RayInBox(d, box, k) ==> Ray(d, box, block, k) == {}
    ensures RayInBox(d, box, k) ==> k <= 7
    ensures RayInBox(d, box, k) ==>
      Ray(d, box, block, k) == {RayAt(d, k)} + (if RayAt(d, k) in block then {} else Ray(d, box, block, k + 1))
  {
    if k > 7 {
      RayLeavesBoard(d, box, k);
    }
  }

  /**
   * Up to the first blocker and none beyond: the square `j` steps along the
   * ray (on the board) is in the walk from step `k` exactly when every step
   * from `k` to `j` stays inside the box and none of the steps from `k`
   * before `j` is blocked.
   */
  lemma {:induction false} RayContains(d: Dir, box: Box, block: Bitboard, k: nat, j: int)
    requires ValidDir(d) && ValidBox(box) && k <= j
    requires RayInBox(d, FullBox, j)
    ensures RayAt(d, j) in Ray(d, box, block, k) <==>
      (forall i :: k <= i <= j ==> RayInBox(d, box, i)) &&
      (forall i :: k <= i < j ==> RayAt(d, i) !in block)
    decreases 8 - k
  {
    RayUnfold(d, box, block, k);
    if !RayInBox(d, box, k) {
      assert Ray(d, box, block, k) == {};
    } else if k == j {
      assert RayAt(d, j) in Ray(d, box, block, k);
    } else {
      RayAtInjective(d, k, j);
      RayContains(d, box, block, k + 1, j);
      assert RayAt(d, j) in Ray(d, box, block, k) <==>
        RayAt(d, k) !in block && RayAt(d, j) in Ray(d, box, block, k + 1);
      assert (forall i :: k <= i <= j ==> RayInBox(d, box, i)) <==>
        (forall i :: k + 1 <= i <= j ==> RayInBox(d, box, i));
      assert (forall i :: k <= i < j ==> RayAt(d, i) !in block) <==>
        RayAt(d, k) !in block && (forall i :: k + 1 <= i < j ==> RayAt(d, i) !in block);
    }
  }

  /** Every square of a walk is some step `j` from `k` on, inside the box. */
  lemma {:induction false} RayMembers(d: Dir, box: Box, block: Bitboard, k: nat, x: int) returns (j: int)
    requires ValidDir(d) && ValidBox(box)
    requires x in Ray(d, box, block, k)
    ensures k <= j <= 7 && x == RayAt(d, j) && RayInBox(d, box, j)
    decreases 8 - k
  {
    RayUnfold(d, box, block, k);
    if x == RayAt(d, k) {
      j := k;
    } else {
      j := RayMembers(d, box, block, k + 1, x);
    }
  }

  /** A step or more along a ray leaves the origin. */
  lemma {:induction false} StepLeaves(d: Dir, j: int)
    requires ValidDir(d) && 1 <= j
    ensures RowAt(d, j) != d.r0 || FileAt(d, j) != d.f0
    ensures d.dr == 0 ==> RowAt(d, j) == d.r0
    ensures d.df == 0 ==> FileAt(d, j) == d.f0
  {
  }

  /**
   * Every square of a walk lies inside its box, on the origin's row or file
   * when the ray keeps to it, and is not the origin.
   */
  lemma {:induction false} RayInsideBox(d: Dir, box: Box, block: Bitboard, x: int)
    requires ValidDir(d) && ValidBox(box)
    requires x in Ray(d, box, block, 1)
    ensures box.rlo <= x / 8 <= box.rhi && box.flo <= x % 8 <= box.fhi
    ensures d.dr == 0 ==> x / 8 == d.r0
    ensures d.df == 0 ==> x % 8 == d.f0
    ensures x != 8 * d.r0 + d.f0
  {
    var j := RayMembers(d, box, block, 1, x);
    StepLeaves(d, j);
    var r, f := RowAt(d, j), FileAt(d, j);
    assert x == 8 * r + f && InBox(r, f, box);
    SquareOf(r, f);
    assert x / 8 == r && x % 8 == f;
    SquareOf(d.r0, d.f0);
  }

  /**
   * One ray loop of the attack and mask functions: starting one step from
   * the origin, add each square while inside the box, stopping after the
   * first square in `block`.
   */
  method RayWalk(d: Dir, box: Box, block: Bitboard) returns (attacks: Bitboard)
    requires ValidDir(d) && ValidBox(box)
    ensures attacks == Ray(d, box, block, 1)
  {
    attacks := {};
    var r, f := d.r0 + d.dr, d.f0 + d.df;
    ghost var k := 1;
    while InBox(r, f, box)
      invariant 1 <= k <= 8 && r == RowAt(d, k) && f == FileAt(d, k)
      invariant attacks + Ray(d, box, block, k) == Ray(d, box, block, 1)
      decreases 8 - k
    {
      assert RayInBox(d, box, k);
      RayUnfold(d, box, block, k);
      var sq := 8 * r + f;
      assert sq == RayAt(d, k);
      ghost var rest := if sq in block then {} else Ray(d, box, block, k + 1);
      AddNext(attacks, sq, rest, Ray(d, box, block, k));
      attacks := attacks + {sq};
      if sq in block {
        break;
      }
      r, f := r + d.dr, f + d.df;
      k := k + 1;
    }
    if !InBox(r, f, box) {
      RayUnfold(d, box, block, k);
    }
  }

  /** Moving the next square of a walk from what remains to what has been collected. */
  lemma {:induction false} AddNext(collected: Bitboard, sq: int, rest: Bitboard, remaining: Bitboard)
    requires remaining == {sq} + rest
    ensures (collected + {sq}) + rest == collected + remaining
  {
  }

  /** The rook's four rays: towards the first rank, the eighth rank, the h-file and the a-file. */
  function RookAttacks(square: int, block: Bitboard): Bitboard
    requires 0 <= square < 64
  {
    Ray(DirFrom(square, 1, 0), FullBox, block, 1) + Ray(DirFrom(square, -1, 0), FullBox, block, 1)
    + Ray(DirFrom(square, 0, 1), FullBox, block, 1) + Ray(DirFrom(square, 0, -1), FullBox, block, 1)
  }

  /** The bishop's four diagonals. */
  function BishopAttacks(square: int, block: Bitboard): Bitboard
    requires 0 <= square < 64
  {
    Ray(DirFrom(square, 1, 1), FullBox, block, 1) + Ray(DirFrom(square, -1, 1), FullBox, block, 1)
    + Ray(DirFrom(square, 1, -1), FullBox, block, 1) + Ray(DirFrom(square, -1, -1), FullBox, block, 1)
  }

  /** `get_queen_attacks`: the rook's and the bishop's attacks together. */
  function QueenAttacks(square: int, block: Bitboard): (a: Bitboard)
    requires 0 <= square < 64
    ensures a == RookAttacks(square, block) + BishopAttacks(square, block)
  {
    RookAttacks(square, block) + BishopAttacks(square, block)
  }

  /** The relevant-occupancy boxes of the masks: the rook's files or ranks without their end squares, the bishop's inner 6x6. */
  const RankInner: Box := Box(1, 6, 0, 7)
  const FileInner: Box := Box(0, 7, 1, 6)
  const Inner: Box := Box(1, 6, 1, 6)

  function RookMask(square: int): Bitboard
    requires 0 <= square < 64
  {
    Ray(DirFrom(square, 1, 0), RankInner, {}, 1) + Ray(DirFrom(square, -1, 0), RankInner, {}, 1)
    + Ray(DirFrom(square, 0, 1), FileInner, {}, 1) + Ray(DirFrom(square, 0, -1), FileInner, {}, 1)
  }

  function BishopMask(square: int): Bitboard
    requires 0 <= square < 64
  {
    Ray(DirFrom(square, 1, 1), Inner, {}, 1) + Ray(DirFrom(square, -1, 1), Inner, {}, 1)
    + Ray(DirFrom(square, 1, -1), Inner, {}, 1) + Ray(DirFrom(square, -1, -1), Inner, {}, 1)
  }

  /** `CalculateRookAttack`: the four ray loops, each stopping at its first blocker. */
  method CalculateRookAttack(square: int, block: Bitboard) returns (attacks: Bitboard)
    requires 0 <= square < 64
    ensures attacks == RookAttacks(square, block)
  {
    var down := RayWalk(DirFrom(square, 1, 0), FullBox, block);
    var up := RayWalk(DirFrom(square, -1, 0), FullBox, block);
    var right := RayWalk(DirFrom(square, 0, 1), FullBox, block);
    var left := RayWalk(DirFrom(square, 0, -1), FullBox, block);
    attacks := down + up + right + left;
  }

  /** `CalculateBishopAttack`: the four diagonal loops, each stopping at its first blocker. */
  method CalculateBishopAttack(square: int, block: Bitboard) returns (attacks: Bitboard)
    requires 0 <= square < 64
    ensures attacks == BishopAttacks(square, block)
  {
    var a := RayWalk(DirFrom(square, 1, 1), FullBox, block);
    var b := RayWalk(DirFrom(square, -1, 1), FullBox, block);
    var c := RayWalk(DirFrom(square, 1, -1), FullBox, block);
    var d := RayWalk(DirFrom(square, -1, -1), FullBox, block);
    attacks := a + b + c + d;
  }

  /** `MaskRookAttack`: the unblocked rook rays without the last square of each. */
  method MaskRookAttack(square: int) returns (attacks: Bitboard)
    requires 0 <= square < 64
    ensures attacks == RookMask(square)
  {
    var down := RayWalk(DirFrom(square, 1, 0), RankInner, {});
    var up := RayWalk(DirFrom(square, -1, 0), RankInner, {});
    var right := RayWalk(DirFrom(square, 0, 1), FileInner, {});
    var left := RayWalk(DirFrom(square, 0, -1), FileInner, {});
    attacks := down + up + right + left;
  }

  /** `MaskBishopAttack`: the unblocked diagonals inside the board's edge. */
  method MaskBishopAttack(square: int) returns (attacks: Bitboard)
    requires 0 <= square < 64
    ensures attacks == BishopMask(square)
  {
    var a := RayWalk(DirFrom(square, 1, 1), Inner, {});
    var b := RayWalk(DirFrom(square, -1, 1), Inner, {});
    var c := RayWalk(DirFrom(square, 1, -1), Inner, {});
    var d := RayWalk(DirFrom(square, -1, -1), Inner, {});
    attacks := a + b + c + d;
  }

  /** `RayInsideBox` for the walk from `square`: inside the box, on the square's row or file when the ray keeps to it, not the square itself. */
  lemma {:induction false} WalkInsideBox(square: int, dr: int, df: int, box: Box, block: Bitboard, x: int)
    requires 0 <= square < 64 && -1 <= dr <= 1 && -1 <= df <= 1 && (dr != 0 || df != 0) && ValidBox(box)
    requires x in Ray(DirFrom(square, dr, df), box, block, 1)
    ensures box.rlo <= x / 8 <= box.rhi && box.flo <= x % 8 <= box.fhi
    ensures dr == 0 ==> x / 8 == square / 8
    ensures df == 0 ==> x % 8 == square % 8
    ensures x != square
  {
    RayInsideBox(DirFrom(square, dr, df), box, block, x);
  }

  /** A walk never contains its origin. */
  lemma {:induction false} RayExcludesOrigin(square: int, dr: int, df: int, box: Box, block: Bitboard)
    requires 0 <= square < 64 && -1 <= dr <= 1 && -1 <= df <= 1 && (dr != 0 || df != 0) && ValidBox(box)
    ensures square !in Ray(DirFrom(square, dr, df), box, block, 1)
  {
    if square in Ray(DirFrom(square, dr, df), box, block, 1) {
      WalkInsideBox(square, dr, df, box, block, square);
    }
  }

  /** No slider attacks its own square, whatever the occupancy. */
  lemma {:induction false} SlidersExcludeOrigin(square: int, block: Bitboard)
    requires 0 <= square < 64
    ensures square !in RookAttacks(square, block) && square !in BishopAttacks(square, block)
  {
    RayExcludesOrigin(square, 1, 0, FullBox, block);
    RayExcludesOrigin(square, -1, 0, FullBox, block);
    RayExcludesOrigin(square, 0, 1, FullBox, block);
    RayExcludesOrigin(square, 0, -1, FullBox, block);
    RayExcludesOrigin(square, 1, 1, FullBox, block);
    RayExcludesOrigin(square, -1, 1, FullBox, block);
    RayExcludesOrigin(square, 1, -1, FullBox, block);
    RayExcludesOrigin(square, -1, -1, FullBox, block);
  }

  /**
   * A ray walked back: when the walk from `sq` reaches `x`, the walk from `x`
   * in the opposite direction reaches `sq`, the squares between being the
   * same ones in reverse order.
   */
  lemma {:induction false} RayReverse(sq: int, x: int, dr: int, df: int, block: Bitboard)
    requires 0 <= sq < 64 && 0 <= x < 64
    requires -1 <= dr <= 1 && -1 <= df <= 1 && (dr != 0 || df != 0)
    requires x in Ray(DirFrom(sq, dr, df), FullBox, block, 1)
    ensures sq in Ray(DirFrom(x, -dr, -df), FullBox, block, 1)
  {
    var d := DirFrom(sq, dr, df);
    var j := RayMembers(d, FullBox, block, 1, x);
    SquareOf(RowAt(d, j), FileAt(d, j));
    var e := Dir(RowAt(d, j), FileAt(d, j), -dr, -df);
    assert e == DirFrom(x, -dr, -df);
    RayContains(d, FullBox, block, 1, j);
    ReverseSteps(d, e, j, block);
    assert RayAt(e, j) == sq by {
      Coordinates(sq);
    }
    RayContains(e, FullBox, block, 1, j);
  }

  /** The squares of the reversed walk, `i` steps back from step `j`, are the forward walk's step `j - i`. */
  lemma {:induction false} ReverseSteps(d: Dir, e: Dir, j: int, block: Bitboard)
    requires ValidDir(d) && 1 <= j <= 7
    requires e == Dir(RowAt(d, j), FileAt(d, j), -d.dr, -d.df)
    requires forall i :: 1 <= i <= j ==> RayInBox(d, FullBox, i)
    requires forall i :: 1 <= i < j ==> RayAt(d, i) !in block
    ensures forall i :: 1 <= i <= j ==> RayInBox(e, FullBox, i)
    ensures forall i :: 1 <= i < j ==> RayAt(e, i) !in block
    ensures RowAt(e, j) == d.r0 && FileAt(e, j) == d.f0
  {
    forall i | 0 <= i <= j
      ensures RowAt(e, i) == RowAt(d, j - i) && FileAt(e, i) == FileAt(d, j - i)
    {
      StepBack(d.r0, d.dr, j, i);
      StepBack(d.f0, d.df, j, i);
    }
    forall i | 1 <= i <= j
      ensures RayInBox(e, FullBox, i)
    {
      if i < j {
        assert RayInBox(d, FullBox, j - i);
      }
    }
    forall i | 1 <= i < j
      ensures RayAt(e, i) !in block
    {
      assert RayAt(e, i) == RayAt(d, j - i);
    }
  }

  /** `i` steps back from `j` steps forward is `j - i` steps forward. */
  lemma {:induction false} StepBack(x0: int, s: int, j: int, i: int)
    requires -1 <= s <= 1
    ensures Step(Step(x0, s, j), -s, i) == Step(x0, s, j - i)
  {
  }

  /** One direction of the rook's symmetry: its rays reversed are its rays. */
  lemma {:induction false} RookReverse(sq: int, x: int, block: Bitboard)
    requires 0 <= sq < 64 && 0 <= x < 64
    ensures x in RookAttacks(sq, block) ==> sq in RookAttacks(x, block)
  {
    if x in Ray(DirFrom(sq, 1, 0), FullBox, block, 1) {
      RayReverse(sq, x, 1, 0, block);
    } else if x in Ray(DirFrom(sq, -1, 0), FullBox, block, 1) {
      RayReverse(sq, x, -1, 0, block);
    } else if x in Ray(DirFrom(sq, 0, 1), FullBox, block, 1) {
      RayReverse(sq, x, 0, 1, block);
    } else if x in Ray(DirFrom(sq, 0, -1), FullBox, block, 1) {
      RayReverse(sq, x, 0, -1, block);
    }
  }

  /** One direction of the bishop's symmetry: its diagonals reversed are its diagonals. */
  lemma {:induction false} BishopReverse(sq: int, x: int, block: Bitboard)
    requires 0 <= sq < 64 && 0 <= x < 64
    ensures x in BishopAttacks(sq, block) ==> sq in BishopAttacks(x, block)
  {
    if x in Ray(DirFrom(sq, 1, 1), FullBox, block, 1) {
      RayReverse(sq, x, 1, 1, block);
    } else if x in Ray(DirFrom(sq, -1, 1), FullBox, block, 1) {
      RayReverse(sq, x, -1, 1, block);
    } else if x in Ray(DirFrom(sq, 1, -1), FullBox, block, 1) {
      RayReverse(sq, x, 1, -1, block);
    } else if x in Ray(DirFrom(sq, -1, -1), FullBox, block, 1) {
      RayReverse(sq, x, -1, -1, block);
    }
  }

  /**
   * Slider attacks are symmetric for a fixed occupancy: a rook (bishop) on
   * `sq` attacks `x` exactly when one on `x` attacks `sq`, since both see
   * the same squares between them.
   */
  lemma {:induction false} SlidersSymmetric(sq: int, x: int, block: Bitboard)
    requires 0 <= sq < 64 && 0 <= x < 64
    ensures x in RookAttacks(sq, block) <==> sq in RookAttacks(x, block)
    ensures x in BishopAttacks(sq, block) <==> sq in BishopAttacks(x, block)
  {
    RookReverse(sq, x, block);
    RookReverse(x, sq, block);
    BishopReverse(sq, x, block);
    BishopReverse(x, sq, block);
  }

  /** The bishop mask never reaches the board's edge. */
  lemma {:induction false} BishopMaskInsideEdge(square: int, x: int)
    requires 0 <= square < 64 && x in BishopMask(square)
    ensures 1 <= x / 8 <= 6 && 1 <= x % 8 <= 6
  {
    if x in Ray(DirFrom(square, 1, 1), Inner, {}, 1) {
      WalkInsideBox(square, 1, 1, Inner, {}, x);
    } else if x in Ray(DirFrom(square, -1, 1), Inner, {}, 1) {
      WalkInsideBox(square, -1, 1, Inner, {}, x);
    } else if x in Ray(DirFrom(square, 1, -1), Inner, {}, 1) {
      WalkInsideBox(square, 1, -1, Inner, {}, x);
    } else {
      WalkInsideBox(square, -1, -1, Inner, {}, x);
    }
  }

  /** The rook mask's file squares stop short of ranks 1 and 8, and its rank squares short of files a and h. */
  lemma {:induction false} RookMaskInsideEdge(square: int, x: int)
    requires 0 <= square < 64 && x in RookMask(square)
    ensures x % 8 == square % 8 ==> 1 <= x / 8 <= 6
    ensures x / 8 == square / 8 ==> 1 <= x % 8 <= 6
    ensures x != square
  {
    if x in Ray(DirFrom(square, 1, 0), RankInner, {}, 1) {
      WalkInsideBox(square, 1, 0, RankInner, {}, x);
    } else if x in Ray(DirFrom(square, -1, 0), RankInner, {}, 1) {
      WalkInsideBox(square, -1, 0, RankInner, {}, x);
    } else if x in Ray(DirFrom(square, 0, 1), FileInner, {}, 1) {
      WalkInsideBox(square, 0, 1, FileInner, {}, x);
    } else {
      WalkInsideBox(square, 0, -1, FileInner, {}, x);
    }
  }

  // Leaper attacks. `bitboard >> k` of the single square `sq` is the square
  // `sq - k` when `sq >= k` and nothing otherwise; `bitboard << k` is
  // `sq + k` when that is below 64, the higher bits being shifted out.

  const NotAFile: Bitboard := set s | 0 <= s < 64 && s % 8 != 0
  const NotHFile: Bitboard := set s | 0 <= s < 64 && s % 8 != 7
  const NotHGFile: Bitboard := set s | 0 <= s < 64 && s % 8 < 6
  const NotABFile: Bitboard := set s | 0 <= s < 64 && s % 8 > 1
  const AnyFile: Bitboard := AllSquares

  /** `if ((bitboard shifted) & mask) != 0) attacks |= bitboard shifted`, for the single square `sq` shifted by `delta`. */
  function Leap(sq: int, delta: int, mask: Bitboard): (a: Bitboard)
    ensures OnBoard(a)
  {
    if 0 <= sq + delta < 64 && sq + delta in mask then {sq + delta} else {}
  }

  /** The file mask a shift by `delta` is paired with: it excludes the files a wrapped square would land on. */
  function WrapMask(df: int): Bitboard
  {
    if df == 1 then NotAFile else if df == 2 then NotABFile
    else if df == -1 then NotHFile else if df == -2 then NotHGFile else AnyFile
  }

  /**
   * A shift by `8 * dr + df`, masked as the engine masks it, lands exactly
   * on the square `dr` rows and `df` files away, when that square exists:
   * no attack wraps from one edge file to the other.
   */
  lemma {:induction false} LeapStep(sq: int, dr: int, df: int, t: int)
    requires 0 <= sq < 64 && -2 <= df <= 2 && -2 <= dr <= 2
    ensures t in Leap(sq, 8 * dr + df, WrapMask(df)) <==>
      (0 <= t < 64 && RowDelta(sq, t) == dr && FileDelta(sq, t) == df)
  {
    Coordinates(sq);
    if 0 <= t < 64 {
      Coordinates(t);
      var x, y := t / 8, t % 8;
      var r0, f0 := sq / 8, sq % 8;
      assert t in WrapMask(df) <==> (df > 0 ==> y >= df) && (df < 0 ==> y <= 7 + df);
      if t == sq + 8 * dr + df && t in WrapMask(df) {
        assert 8 * (x - r0 - dr) == f0 + df - y;
      }
    }
  }

  /** Row and file distance of two squares. */
  function RowDelta(from: int, to: int): int { to / 8 - from / 8 }
  function FileDelta(from: int, to: int): int { to % 8 - from % 8 }

  /** `CalculateKnightAttack`: the eight knight jumps, each behind its wrap mask. */
  function KnightAttacks(sq: int): Bitboard
    requires 0 <= sq < 64
  {
    Leap(sq, -17, NotHFile) + Leap(sq, -15, NotAFile) + Leap(sq, -10, NotHGFile) + Leap(sq, -6, NotABFile)
    + Leap(sq, 17, NotAFile) + Leap(sq, 15, NotHFile) + Leap(sq, 10, NotABFile) + Leap(sq, 6, NotHGFile)
  }

  /** `CalculateKingAttack`: the eight neighbours, the vertical ones needing no mask. */
  function KingAttacks(sq: int): Bitboard
    requires 0 <= sq < 64
  {
    Leap(sq, -8, AnyFile) + Leap(sq, -9, NotHFile) + Leap(sq, -7, NotAFile) + Leap(sq, -1, NotHFile)
    + Leap(sq, 8, AnyFile) + Leap(sq, 9, NotAFile) + Leap(sq, 7, NotHFile) + Leap(sq, 1, NotAFile)
  }

  /** `CalculatePawnAttack`: a white pawn attacks the two diagonal squares one row up, a black pawn one row down. */
  function PawnAttacks(side: int, sq: int): Bitboard
    requires 0 <= sq < 64
  {
    if side == White then Leap(sq, -7, NotAFile) + Leap(sq, -9, NotHFile)
    else Leap(sq, 7, NotHFile) + Leap(sq, 9, NotAFile)
  }

  /** The knight's attacks are the squares two rows and one file, or one row and two files, away. */
  lemma {:induction false} KnightAttacksAreJumps(sq: int, t: int)
    requires 0 <= sq < 64
    ensures t in KnightAttacks(sq) <==> (0 <= t < 64 &&
      ((Abs(RowDelta(sq, t)) == 2 && Abs(FileDelta(sq, t)) == 1) ||
       (Abs(RowDelta(sq, t)) == 1 && Abs(FileDelta(sq, t)) == 2)))
  {
    LeapStep(sq, -2, -1, t);
    LeapStep(sq, -2, 1, t);
    LeapStep(sq, -1, -2, t);
    LeapStep(sq, -1, 2, t);
    LeapStep(sq, 2, 1, t);
    LeapStep(sq, 2, -1, t);
    LeapStep(sq, 1, 2, t);
    LeapStep(sq, 1, -2, t);
  }

  /** The king's attacks are the squares at most one row and one file away, other than its own. */
  lemma {:induction false} KingAttacksAreNeighbours(sq: int, t: int)
    requires 0 <= sq < 64
    ensures t in KingAttacks(sq) <==> (0 <= t < 64 && t != sq &&
      Abs(RowDelta(sq, t)) <= 1 && Abs(FileDelta(sq, t)) <= 1)
  {
    LeapStep(sq, -1, 0, t);
    LeapStep(sq, -1, -1, t);
    LeapStep(sq, -1, 1, t);
    LeapStep(sq, 0, -1, t);
    LeapStep(sq, 1, 0, t);
    LeapStep(sq, 1, 1, t);
    LeapStep(sq, 1, -1, t);
    LeapStep(sq, 0, 1, t);
    if 0 <= t < 64 {
      Coordinates(t);
      Coordinates(sq);
    }
  }

  /** A pawn attacks the two squares diagonally forward: one row towards the opponent and one file aside. */
  lemma {:induction false} PawnAttacksAreDiagonal(side: int, sq: int, t: int)
    requires 0 <= sq < 64
    ensures t in PawnAttacks(side, sq) <==> (0 <= t < 64 &&
      RowDelta(sq, t) == (if side == White then -1 else 1) && Abs(FileDelta(sq, t)) == 1)
  {
    LeapStep(sq, -1, 1, t);
    LeapStep(sq, -1, -1, t);
    LeapStep(sq, 1, -1, t);
    LeapStep(sq, 1, 1, t);
  }

  /** A black pawn on `x` attacks `sq` exactly when a white pawn on `sq` attacks `x`. */
  lemma {:induction false} PawnAttacksMirror(sq: int, x: int)
    requires 0 <= sq < 64 && 0 <= x < 64
    ensures x in PawnAttacks(White, sq) <==> sq in PawnAttacks(Black, x)
    ensures x in PawnAttacks(Black, sq) <==> sq in PawnAttacks(White, x)
  {
    PawnAttacksAreDiagonal(White, sq, x);
    PawnAttacksAreDiagonal(Black, sq, x);
    PawnAttacksAreDiagonal(White, x, sq);
    PawnAttacksAreDiagonal(Black, x, sq);
  }

  /** Knight and king attacks are symmetric: `x` attacks `sq` when `sq` attacks `x`. */
  lemma {:induction false} LeapersSymmetric(sq: int, x: int)
    requires 0 <= sq < 64 && 0 <= x < 64
    ensures x in KnightAttacks(sq) <==> sq in KnightAttacks(x)
    ensures x in KingAttacks(sq) <==> sq in KingAttacks(x)
  {
    KnightAttacksAreJumps(sq, x);
    KnightAttacksAreJumps(x, sq);
    KingAttacksAreNeighbours(sq, x);
    KingAttacksAreNeighbours(x, sq);
  }

  /**
   * The attack lookups: the tables `pawn_attacks[2][64]`, `knight_attacks[64]`
   * and `king_attacks[64]`, and the magic lookups `get_bishop_attacks` and
   * `get_rook_attacks` as functions of square and occupancy.
   */
  datatype AttackTables = AttackTables(
    pawn: seq<seq<Bitboard>>, knight: seq<Bitboard>, king: seq<Bitboard>,
    bishop: (int, Bitboard) -> Bitboard, rook: (int, Bitboard) -> Bitboard)

  /** The magic lookups return the ray walks' attacks for every square and occupancy. */
  ghost predicate SlidersAgree(t: AttackTables)
  {
    forall sq, block {:trigger SliderProbe(sq, block)} :: 0 <= sq < 64 && SliderProbe(sq, block) ==>
      t.bishop(sq, block) == BishopAttacks(sq, block) && t.rook(sq, block) == RookAttacks(sq, block)
  }

  predicate SliderProbe(sq: int, block: Bitboard)
  {
    true
  }

  lemma {:induction false} SliderLookups(t: AttackTables, sq: int, block: Bitboard)
    requires SlidersAgree(t) && 0 <= sq < 64
    ensures t.bishop(sq, block) == BishopAttacks(sq, block) && t.rook(sq, block) == RookAttacks(sq, block)
  {
    assert SliderProbe(sq, block);
  }

  /** The leaper tables' dimensions. */
  predicate TableShape(t: AttackTables)
  {
    |t.pawn| == 2 && |t.pawn[White]| == 64 && |t.pawn[Black]| == 64 && |t.knight| == 64 && |t.king| == 64
  }

  /** Entry `sq` of `row`, for every square below `n`, is `f(sq)`. */
  predicate Tabulates(row: seq<Bitboard>, f: int -> Bitboard, n: int)
  {
    |row| == n && forall sq :: 0 <= sq < n ==> row[sq] == f(sq)
  }

  lemma {:induction false} TabulateStep(row: seq<Bitboard>, f: int -> Bitboard, n: int)
    requires Tabulates(row, f, n)
    ensures Tabulates(row + [f(n)], f, n + 1)
  {
  }

  /** The attack functions, extended with the empty set off the board so that they can fill a table. */
  function WhitePawnAt(sq: int): Bitboard { if 0 <= sq < 64 then PawnAttacks(White, sq) else {} }
  function BlackPawnAt(sq: int): Bitboard { if 0 <= sq < 64 then PawnAttacks(Black, sq) else {} }
  function KnightAt(sq: int): Bitboard { if 0 <= sq < 64 then KnightAttacks(sq) else {} }
  function KingAt(sq: int): Bitboard { if 0 <= sq < 64 then KingAttacks(sq) else {} }

  /** The tables as `InitializeLeaper` leaves them. */
  predicate LeapersReady(t: AttackTables)
  {
    |t.pawn| == 2 && Tabulates(t.pawn[White], WhitePawnAt, 64) && Tabulates(t.pawn[Black], BlackPawnAt, 64)
    && Tabulates(t.knight, KnightAt, 64) && Tabulates(t.king, KingAt, 64)
  }

  /** `InitializeLeaper`: each square's pawn, knight and king attacks, in square order; the magic lookups are left alone. */
  method InitializeLeaper(tables: AttackTables) returns (t: AttackTables)
    ensures LeapersReady(t) && TableShape(t)
    ensures t.bishop == tables.bishop && t.rook == tables.rook
  {
    var white, black, knight, king := [], [], [], [];
    for i := 0 to 64
      invariant Tabulates(white, WhitePawnAt, i) && Tabulates(black, BlackPawnAt, i)
      invariant Tabulates(knight, KnightAt, i) && Tabulates(king, KingAt, i)
    {
      TabulateStep(white, WhitePawnAt, i);
      TabulateStep(black, BlackPawnAt, i);
      TabulateStep(knight, KnightAt, i);
      TabulateStep(king, KingAt, i);
      white := white + [WhitePawnAt(i)];
      black := black + [BlackPawnAt(i)];
      knight := knight + [KnightAt(i)];
      king := king + [KingAt(i)];
    }
    t := tables.(pawn := [white, black], knight := knight, king := king);
  }
}
