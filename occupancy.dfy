// `set_occupancy`: the blocker configurations of a slider mask, enumerated
// by an index whose bit `k` says whether the `k`-th lowest square of the
// mask is occupied. The magic tables are filled from these configurations.

module Occupancy {
  import opened CppInt
  import opened Bitboards

  /**
   * The squares of `sqs` whose position `k` has bit `k` of `index` set:
   * the occupancy that `index` encodes over the ascending squares `sqs`.
   */
  function Selected(index: int, sqs: seq<int>): (occ: Bitboard)
  {
    if sqs == [] then {}
    else Selected(index, sqs[..|sqs| - 1]) + (if Bit(index, |sqs| - 1) then {sqs[|sqs| - 1]} else {})
  }

  /**
   * `set_occupancy(index, bits_in_mask, attack_mask)`: pop the lowest square of
   * the mask `bits_in_mask` times, keeping the `count`-th one when bit `count`
   * of `index` is set. The count may not exceed the squares in the mask (the
   * callers pass its population count), and `1 << count` is an `int` shift.
   */
  method SetOccupancy(index: int, bitsInMask: int, attackMask: Bitboard) returns (occupancy: Bitboard)
    requires OnBoard(attackMask) && 0 <= bitsInMask <= |attackMask| && bitsInMask < 32
    ensures occupancy == Selected(index, Squares(attackMask)[..bitsInMask])
  {
    ghost var all := Squares(attackMask);
    occupancy := {};
    var mask := attackMask;
    for count := 0 to bitsInMask
      invariant OnBoard(mask) && Squares(mask) == all[count..]
      invariant occupancy == Selected(index, all[..count])
    {
      var square := Ls1b(mask);
      PopLowest(mask);
      SelectedStep(index, all, count);
      mask := mask - {square};
      if Bit(index, count) {
        occupancy := occupancy + {square};
      }
    }
  }

  /** Popping the lowest square drops the first of the ascending squares. */
  lemma PopLowest(mask: Bitboard)
    requires OnBoard(mask) && mask != {}
    ensures Squares(mask)[0] == Ls1b(mask) && Squares(mask - {Ls1b(mask)}) == Squares(mask)[1..]
  {
  }

  /** One more square considered: it joins the occupancy when its bit is set. */
  lemma SelectedStep(index: int, sqs: seq<int>, n: int)
    requires 0 <= n < |sqs|
    ensures Selected(index, sqs[..n + 1]) == Selected(index, sqs[..n]) + (if Bit(index, n) then {sqs[n]} else {})
  {
    assert sqs[..n + 1][..n] == sqs[..n];
  }

  /** Every selected square is one of `sqs`. */
  lemma {:induction false} SelectedWithin(index: int, sqs: seq<int>, x: int)
    requires x in Selected(index, sqs)
    ensures x in sqs
  {
    if sqs != [] && x !in (if Bit(index, |sqs| - 1) then {sqs[|sqs| - 1]} else {}) {
      SelectedWithin(index, sqs[..|sqs| - 1], x);
    }
  }

  /** With distinct squares, square `k` is selected exactly when bit `k` of `index` is set. */
  lemma {:induction false} SelectedAt(index: int, sqs: seq<int>, k: int)
    requires forall i, j :: 0 <= i < j < |sqs| ==> sqs[i] != sqs[j]
    requires 0 <= k < |sqs|
    ensures sqs[k] in Selected(index, sqs) <==> Bit(index, k)
  {
    var init := sqs[..|sqs| - 1];
    if k < |sqs| - 1 {
      SelectedAt(index, init, k);
      assert init[k] == sqs[k] != sqs[|sqs| - 1];
    } else if sqs[k] in Selected(index, init) {
      SelectedWithin(index, init, sqs[k]);
    }
  }

  /** The occupancy is always part of the mask. */
  lemma SetOccupancyWithinMask(index: int, n: int, mask: Bitboard)
    requires OnBoard(mask) && 0 <= n <= |mask|
    ensures Selected(index, Squares(mask)[..n]) <= mask
  {
    forall x | x in Selected(index, Squares(mask)[..n])
      ensures x in mask
    {
      SelectedWithin(index, Squares(mask)[..n], x);
    }
  }

  /** Index 0 selects no square. */
  lemma {:induction false} IndexZeroIsEmpty(sqs: seq<int>)
    ensures Selected(0, sqs) == {}
  {
    if sqs != [] {
      IndexZeroIsEmpty(sqs[..|sqs| - 1]);
      ZeroHasNoBits(|sqs| - 1);
    }
  }

  /** The bits below `n` of `2^n - 1` are all set. */
  lemma {:induction false} AllOnes(n: nat, k: nat)
    requires k < n
    ensures Bit(Pow2(n) - 1, k)
  {
    BitShift(Pow2(n) - 1, k);
    if k > 0 {
      assert (Pow2(n) - 1) / 2 == Pow2(n - 1) - 1;
      AllOnes(n - 1, k - 1);
    }
  }

  lemma AllOnesBelow(n: nat, index: int)
    requires index == Pow2(n) - 1
    ensures forall k :: 0 <= k < n ==> Bit(index, k)
  {
    forall k | 0 <= k < n
      ensures Bit(index, k)
    {
      AllOnes(n, k);
    }
  }

  /** No bit at or above `n` is set in a number below `2^n`. */
  lemma {:induction false} NoHighBits(x: nat, n: nat, k: nat)
    requires x < Pow2(n) && n <= k
    ensures !Bit(x, k)
  {
    BitShift(x, k);
    if n > 0 {
      NoHighBits(x / 2, n - 1, k - 1);
    } else if k > 0 {
      assert x == 0;
      ZeroHasNoBits(k);
    }
  }

  /** An index with every bit below `|sqs|` set selects each of the distinct squares. */
  lemma SelectedAll(index: int, sqs: seq<int>)
    requires forall i, j :: 0 <= i < j < |sqs| ==> sqs[i] != sqs[j]
    requires forall k :: 0 <= k < |sqs| ==> Bit(index, k)
    ensures forall x :: x in sqs ==> x in Selected(index, sqs)
  {
    forall x | x in sqs
      ensures x in Selected(index, sqs)
    {
      var k :| 0 <= k < |sqs| && sqs[k] == x;
      SelectedAt(index, sqs, k);
    }
  }

  /** Each square of the mask is selected by the all-ones index. */
  lemma AllOnesCoversMask(mask: Bitboard, index: int)
    requires OnBoard(mask) && index == Pow2(|mask|) - 1
    ensures mask <= Selected(index, Squares(mask))
  {
    var sqs := Squares(mask);
    AllOnesBelow(|sqs|, index);
    SelectedAll(index, sqs);
    forall x | x in mask
      ensures x in sqs
    {
      SquaresComplete(mask, x);
    }
  }

  /** Index `2^n - 1` with `n` the population count selects the whole mask. */
  lemma IndexAllOnesIsMask(mask: Bitboard)
    requires OnBoard(mask)
    ensures Selected(Pow2(|mask|) - 1, Squares(mask)[..|mask|]) == mask
  {
    var sqs := Squares(mask);
    var index := Pow2(|mask|) - 1;
    SelectedPrefixAll(index, sqs);
    SetOccupancyWithinMask(index, |mask|, mask);
    AllOnesCoversMask(mask, index);
  }

  lemma SelectedPrefixAll(index: int, sqs: seq<int>)
    ensures Selected(index, sqs[..|sqs|]) == Selected(index, sqs)
  {
    assert sqs[..|sqs|] == sqs;
  }

  /** Different indices below `2^n` select different occupancies of the `n` lowest squares. */
  lemma IndexInjective(i: nat, j: nat, mask: Bitboard, n: nat)
    requires OnBoard(mask) && n <= |mask| && i < Pow2(n) && j < Pow2(n)
    requires Selected(i, Squares(mask)[..n]) == Selected(j, Squares(mask)[..n])
    ensures i == j
  {
    var sqs := Squares(mask)[..n];
    forall k: nat
      ensures Bit(i, k) == Bit(j, k)
    {
      if k < n {
        SelectedAt(i, sqs, k);
        SelectedAt(j, sqs, k);
      } else {
        NoHighBits(i, n, k);
        NoHighBits(j, n, k);
      }
    }
    BitsEqual(i, j);
  }
}
