// The transposition-table record (Transpositions.h) and the table itself
// (Transpositions.cpp).
//
// Bit fields of the 16-bit words are written arithmetically: `x & (2^k - 1)`
// is `x % 2^k`, `x >> k` is `x / 2^k`, and the `|` of fields that occupy
// disjoint bit ranges is their sum. For a negative `int`, `x & 0x3F` in two's
// complement equals the Euclidean `x % 64`, which is what Dafny's `%` computes.

module TTEntry {
  import opened CppInt

  // Bound tags.
  const HFLOWER: int := 0
  const HFEXACT: int := 1
  const HFUPPER: int := 2
  const HFNONE: int := 3

  /** The bound tags are distinct and each fits in the two-bit bound field. */
  lemma BoundTagsDistinct()
    ensures HFLOWER != HFEXACT && HFLOWER != HFUPPER && HFLOWER != HFNONE
    ensures HFEXACT != HFUPPER && HFEXACT != HFNONE && HFUPPER != HFNONE
    ensures 0 <= HFLOWER < 4 && 0 <= HFEXACT < 4 && 0 <= HFUPPER < 4 && 0 <= HFNONE < 4
  {
  }

  /** A move squeezed into 16 bits: from in bits 0-5, to in bits 6-11, type in bits 12-15. */
  datatype Move16 = Move16(data: int)

  function From(m: Move16): (r: int)
    ensures 0 <= r < 64
  {
    m.data % 64
  }

  function To(m: Move16): (r: int)
    ensures 0 <= r < 64
  {
    (m.data / 64) % 64
  }

  function Type(m: Move16): (r: int)
    ensures 0 <= r < 16
  {
    (m.data / 4096) % 16
  }

  /** The constructor `Move16(from, to, type)`: each field keeps its low bits and reads back exactly. */
  function EncodeMove16(from: int, to: int, moveType: int): (m: Move16)
    ensures 0 <= m.data < 0x1_0000
    ensures From(m) == from % 64 && To(m) == to % 64 && Type(m) == moveType % 16
    ensures 0 <= from < 64 && 0 <= to < 64 && 0 <= moveType < 16 ==>
      From(m) == from && To(m) == to && Type(m) == moveType
  {
    var f, t, y := from % 64, to % 64, moveType % 16;
    assert (f + 64 * t + 4096 * y) / 64 == t + 64 * y;
    Move16(f + 64 * t + 4096 * y)
  }

  /** The default constructor `Move16()` holds the word 0. */
  const NullMove16: Move16 := Move16(0)

  /**
   * `packData(depth, bound, ttPv)`: depth in bits 0-7, bound in bits 8-9 and
   * the PV flag in bit 10; the arguments are `uint8_t`, so callers' values are
   * first reduced modulo 256.
   */
  function PackData(depth: int, bound: int, ttPv: bool): (w: int)
    ensures 0 <= w < 0x800
    ensures UnpackDepth(w) == U8(depth)
    ensures UnpackBound(w) == U8(bound) % 4
    ensures UnpackTtPv(w) == ttPv
  {
    var d, b, v := U8(depth), U8(bound) % 4, if ttPv then 1 else 0;
    assert (d + 256 * b + 1024 * v) / 256 == b + 4 * v;
    assert (d + 256 * b + 1024 * v) / 1024 == v;
    d + 256 * b + 1024 * v
  }

  function UnpackDepth(w: int): (d: int)
    ensures 0 <= d < 256
  {
    w % 256
  }

  function UnpackBound(w: int): (b: int)
    ensures 0 <= b < 4
  {
    (w / 256) % 4
  }

  function UnpackTtPv(w: int): bool
  {
    (w / 1024) % 2 == 1
  }

  /** One slot of the table. */
  datatype Entry = Entry(zobristKey: nat, score: int, bestMove: Move16, packedInfo: int)

  /**
   * A value-initialised `TranspositionEntry`: key and score zero, best move
   * `Move16(0, 0, 0)`, depth 0, bound HFNONE and no PV flag.
   */
  function DefaultEntry(): (e: Entry)
    ensures e.zobristKey == 0 && e.score == 0
    ensures From(e.bestMove) == 0 && To(e.bestMove) == 0 && Type(e.bestMove) == 0
    ensures UnpackDepth(e.packedInfo) == 0
    ensures UnpackBound(e.packedInfo) == HFNONE
    ensures !UnpackTtPv(e.packedInfo)
  {
    Entry(0, 0, EncodeMove16(0, 0, 0), PackData(0, HFNONE, false))
  }
}

module TTable {
  import opened TTEntry
  import opened Limits
  import opened CppInt

  /** `sizeof(TranspositionEntry)`: 8 + 4 + 2 + 2 bytes. */
  const ENTRY_BYTES: int := 16

  /** The number of slots `Initialize_TT(sizeMB)` allocates. */
  function SlotCount(sizeMB: nat): (n: nat)
    ensures n % 2 == 0
    ensures n == sizeMB * 65536
    ensures sizeMB > 0 ==> n >= 1000
  {
    var slots := (sizeMB * 1024 * 1024) / ENTRY_BYTES;
    // an odd count loses its last slot
    slots - slots % 2
  }

  /** `adjustMateStore`: mate scores are made relative to the node before storing. */
  function AdjustMateStore(score: int, ply: int): (r: int)
    ensures -MATE_FOUND < score < MATE_FOUND ==> r == score
    ensures ply >= 0 ==> AdjustMateProbe(r, ply) == score
  {
    if score >= MATE_FOUND then score + ply
    else if score <= -MATE_FOUND then score - ply
    else score
  }

  /** `adjustMateProbe`: mate scores read from the table are made relative to the root again. */
  function AdjustMateProbe(score: int, ply: int): (r: int)
    ensures -MATE_FOUND < score < MATE_FOUND ==> r == score
    ensures ply >= 0 && score >= MATE_FOUND + ply ==> r >= MATE_FOUND
    ensures ply >= 0 && score <= -MATE_FOUND - ply ==> r <= -MATE_FOUND
  {
    if score >= MATE_FOUND then score - ply
    else if score <= -MATE_FOUND then score + ply
    else score
  }

  /** Number of slots among the first `n` whose bound is not HFNONE. */
  function UsedCount(s: seq<Entry>, n: nat): (c: nat)
    requires n <= |s|
    ensures c <= n
  {
    if n == 0 then 0
    else UsedCount(s, n - 1) + (if UnpackBound(s[n - 1].packedInfo) != HFNONE then 1 else 0)
  }

  lemma {:induction false} UsedCountAllDefault(s: seq<Entry>, n: nat)
    requires n <= |s|
    requires forall i :: 0 <= i < n ==> s[i] == DefaultEntry()
    ensures UsedCount(s, n) == 0
  {
    if n > 0 {
      UsedCountAllDefault(s, n - 1);
    }
  }

  /** The global table `TranspositionTable` with its length `TTSize`. */
  class TranspositionTable {
    var table: array<Entry>
    var size: nat

    ghost predicate Valid()
      reads this
    {
      table.Length == size && size > 0
    }

    /** The program's initial state: `TTSize` is 1 and no table is allocated yet. */
    constructor ()
      ensures size == 1 && table.Length == 0 && !Valid()
    {
      size := 1;
      table := new Entry[0];
    }

    /** The slot `zobrist % TTSize`. */
    function Slot(key: nat): (i: nat)
      reads this
      requires Valid()
      ensures i < table.Length
    {
      key % size
    }

    /** `ttLookUp`: the entry in the key's slot. */
    function LookUp(key: nat): Entry
      reads this, table
      requires Valid()
    {
      table[Slot(key)]
    }

    /** `Initialize_TT(sizeMB)`: a fresh table of `SlotCount(sizeMB)` default entries. */
    method Initialize(sizeMB: nat)
      modifies this
      ensures fresh(table)
      ensures size == SlotCount(sizeMB) && table.Length == size
      ensures Valid() <==> sizeMB > 0
      ensures forall i :: 0 <= i < table.Length ==> table[i] == DefaultEntry()
    {
      var bytes := sizeMB * 1024 * 1024;
      size := bytes / ENTRY_BYTES;
      if size % 2 != 0 {
        size := size - 1;
      }
      table := new Entry[size](_ => DefaultEntry());
    }

    /** `ClearTT`: every slot goes back to the default entry. */
    method Clear()
      requires table.Length == size
      modifies table
      ensures forall i :: 0 <= i < table.Length ==> table[i] == DefaultEntry()
    {
      if size > 0 {
        forall i | 0 <= i < table.Length {
          table[i] := DefaultEntry();
        }
      }
    }

    /** `ttStore`: the entry overwrites the key's slot, whatever was there. */
    method Store(e: Entry, key: nat)
      requires Valid()
      modifies table
      ensures LookUp(key) == e
      ensures forall i :: 0 <= i < table.Length && i != Slot(key) ==> table[i] == old(table[i])
    {
      table[key % size] := e;
    }

    /** `get_hashfull`: how many of the first 1000 slots hold a stored bound. */
    method Hashfull() returns (count: int)
      requires Valid() && size >= 1000
      ensures 0 <= count <= 1000
      ensures count == UsedCount(table[..], 1000)
    {
      count := 0;
      var i := 0;
      while i < 1000
        invariant 0 <= i <= 1000
        invariant count == UsedCount(table[..], i)
      {
        if UnpackBound(table[i].packedInfo) != HFNONE {
          count := count + 1;
        }
        i := i + 1;
      }
    }
  }

  /** A table just cleared (or just initialised) reports itself empty. */
  lemma ClearedTableIsEmpty(s: seq<Entry>)
    requires |s| >= 1000
    requires forall i :: 0 <= i < |s| ==> s[i] == DefaultEntry()
    ensures UsedCount(s, 1000) == 0
  {
    UsedCountAllDefault(s, 1000);
  }
}
