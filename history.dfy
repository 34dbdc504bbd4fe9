// Move-ordering histories and correction histories (History.cpp).
//
// The tables of `ThreadData::histories` are `int16_t` arrays; here they are
// Dafny multi-dimensional arrays of the same shapes. A `bool` index is 0 or 1.
// The declaration of the histories struct is not part of this model: the
// shapes below are the ones History.cpp's indexing implies (the capture
// history's attacker index is a `bool`, its victim a mailbox value 0..12).

module History {
  import opened CppInt
  import opened Limits
  import opened Bitboards
  import opened Consts
  import opened Moves
  import opened Chessboard

  function BoolIndex(b: bool): (i: int)
    ensures i == 0 || i == 1
    ensures b <==> i == 1
  {
    if b then 1 else 0
  }

  /**
   * The history update law shared by `UpdateHistoryEntry` and
   * `UpdateSingleContHist`: the bonus is clamped to `[-max, max]`, then the
   * entry moves by `bonus - entry * |bonus| / max` (truncating) and is
   * stored back into `int16_t`. It never leaves `[-max, max]`, and it moves
   * the entry in the direction of the bonus.
   */
  function Decay(entry: int, bonus: int, max: int): (r: int)
    requires 0 < max < 32768
    ensures IsI16(r)
    ensures Abs(entry) <= max ==> Abs(r) <= max
    ensures Abs(entry) <= max && bonus >= 0 ==> r >= entry
    ensures Abs(entry) <= max && bonus <= 0 ==> r <= entry
    ensures IsI16(entry) && bonus == 0 ==> r == entry
  {
    var clamped := Clamp(bonus, -max, max);
    var moved := entry + clamped - Quot(entry * Abs(clamped), max);
    assert Abs(entry) <= max ==>
      (-max <= moved <= max && (clamped >= 0 ==> moved >= entry) && (clamped <= 0 ==> moved <= entry)) by {
      if Abs(entry) <= max {
        if clamped >= 0 {
          DecayTowardsPositive(entry, clamped, max);
        } else {
          DecayTowardsNegative(entry, clamped, max);
        }
      }
    }
    assert bonus == 0 ==> Quot(entry * Abs(clamped), max) == 0;
    I16(moved)
  }

  lemma {:induction false} QuotExact(k: int, m: int)
    requires m > 0
    ensures Quot(k * m, m) == k
  {
    var q := Quot(k * m, m);
    assert k * m - q * m == (k - q) * m;
    if k - q >= 1 {
      MulAtLeast(m, k - q);
    } else if q - k >= 1 {
      MulAtLeast(m, q - k);
    }
  }

  lemma {:induction false} QuotNegate(x: int, m: int)
    requires m > 0
    ensures Quot(-x, m) == -Quot(x, m)
  {
  }

  lemma {:induction false} MulNonNegative(a: int, b: int)
    requires a >= 0 && b >= 0
    ensures a * b >= 0
  {
  }

  /** A non-negative bonus: `entry <= entry + b - entry * b / max <= max`. */
  lemma {:induction false} DecayTowardsPositive(e: int, b: int, m: int)
    requires 0 < m && -m <= e <= m && 0 <= b <= m
    ensures e <= e + b - Quot(e * Abs(b), m) <= m
  {
    assert Abs(b) == b;
    DecayAtMostBonus(e, b, m);
    DecayAtLeastExcess(e, b, m);
  }

  /** The decay term `e * b / m` is at most the bonus `b`. */
  lemma {:induction false} DecayAtMostBonus(e: int, b: int, m: int)
    requires 0 < m && -m <= e <= m && 0 <= b <= m
    ensures Quot(e * b, m) <= b
  {
    var p, top := e * b, b * m;
    assert p <= top by {
      MulNonNegative(m - e, b);
      assert top - p == (m - e) * b;
    }
    QuotMonotone(p, top, m);
    QuotExact(b, m);
  }

  /** The decay term `e * b / m` is at least `e + b - m`. */
  lemma {:induction false} DecayAtLeastExcess(e: int, b: int, m: int)
    requires 0 < m && -m <= e <= m && 0 <= b <= m
    ensures e + b - m <= Quot(e * b, m)
  {
    var p, low := e * b, (e + b - m) * m;
    assert low <= p by {
      MulNonNegative(m - e, m - b);
      assert p - low == (m - e) * (m - b);
    }
    QuotMonotone(low, p, m);
    QuotExact(e + b - m, m);
  }

  /** A non-positive bonus: `-max <= entry + b - entry * |b| / max <= entry`. */
  lemma {:induction false} DecayTowardsNegative(e: int, b: int, m: int)
    requires 0 < m && -m <= e <= m && -m <= b <= 0
    ensures -m <= e + b - Quot(e * Abs(b), m) <= e
  {
    DecayTowardsPositive(-e, -b, m);
    assert Abs(-b) == -b == Abs(b);
    assert e * Abs(b) == -((-e) * Abs(-b));
    QuotNegate((-e) * Abs(-b), m);
  }

  /** `n` applications of the update law with the same bonus. */
  function DecayTimes(entry: int, bonus: int, max: int, n: nat): int
    requires 0 < max < 32768
  {
    if n == 0 then entry else Decay(DecayTimes(entry, bonus, max, n - 1), bonus, max)
  }

  /** Repeated updates keep the entry in range and keep moving it with the bonus's sign. */
  lemma {:induction false} DecayTimesBounded(entry: int, bonus: int, max: int, n: nat)
    requires 0 < max < 32768 && Abs(entry) <= max
    ensures Abs(DecayTimes(entry, bonus, max, n)) <= max
    ensures bonus >= 0 ==> DecayTimes(entry, bonus, max, n) >= entry
    ensures bonus <= 0 ==> DecayTimes(entry, bonus, max, n) <= entry
  {
    if n > 0 {
      DecayTimesBounded(entry, bonus, max, n - 1);
    }
  }

  /** `UpdateHistoryEntry(entry, bonus)` for an `int16_t` bonus. */
  function HistoryUpdate(entry: int, bonus: int): (r: int)
    requires IsI16(bonus)
    ensures Abs(entry) <= MAX_HISTORY ==> Abs(r) <= MAX_HISTORY
    ensures Abs(entry) <= MAX_HISTORY && bonus >= 0 ==> entry <= r
    ensures Abs(entry) <= MAX_HISTORY && bonus <= 0 ==> r <= entry
    ensures IsI16(entry) && bonus == 0 ==> r == entry
  {
    Decay(entry, bonus, MAX_HISTORY)
  }

  /** The fields of a move that the tables are indexed by are in range. */
  predicate ValidMove(m: Move)
  {
    0 <= m.From < 64 && 0 <= m.To < 64 && 0 <= m.Piece < 12
  }

  /** Every move of `moves` is a `ValidMove`. */
  predicate AllValid(moves: seq<Move>)
  {
    forall i :: 0 <= i < |moves| ==> 0 <= moves[i].From < 64 && 0 <= moves[i].To < 64 && 0 <= moves[i].Piece < 12
  }

  /** `bonus_move.Piece <= 5 ? White : Black`: the colour the malus loops charge. */
  function MoverColour(m: Move): (c: int)
    ensures c == White <==> m.Piece <= 5
    ensures IsColour(c)
  {
    if m.Piece <= 5 then White else Black
  }

  /** The main-history index `[stm][from][to][fromThreat][toThreat]` of a quiet move. */
  function MainKey(stm: int, from: int, to: int, threat: Bitboard): (int, int, int, int, int)
  {
    (stm, from, to, BoolIndex(from in threat), BoolIndex(to in threat))
  }

  /** The capture-history index `[attacker][to][victim][fromThreat][toThreat]`; `attacker` is a `bool`. */
  function CaptKey(attacker: int, from: int, to: int, victim: int, threat: Bitboard): (int, int, int, int, int)
  {
    (BoolIndex(attacker != 0), to, victim, BoolIndex(from in threat), BoolIndex(to in threat))
  }

  /** How many of the first `n` moves, other than `bonusMove`, the main-history malus charges to `key`. */
  function MainHits(moves: seq<Move>, n: nat, bonusMove: Move, threat: Bitboard,
                    key: (int, int, int, int, int)): (c: nat)
    requires n <= |moves|
    ensures c <= n
  {
    if n == 0 then 0
    else
      var m := moves[n - 1];
      MainHits(moves, n - 1, bonusMove, threat, key)
      + (if m != bonusMove && MainKey(MoverColour(bonusMove), m.From, m.To, threat) == key then 1 else 0)
  }

  /** How many of the first `n` moves, other than `bonusMove`, the capture-history malus charges to `key`. */
  function CaptHits(moves: seq<Move>, n: nat, bonusMove: Move, mailbox: seq<int>, threat: Bitboard,
                    key: (int, int, int, int, int)): (c: nat)
    requires n <= |moves| && |mailbox| == 64
    requires AllValid(moves)
    ensures c <= n
  {
    if n == 0 then 0
    else
      var m := moves[n - 1];
      CaptHits(moves, n - 1, bonusMove, mailbox, threat, key)
      + (if m != bonusMove && CaptKey(m.Piece, m.From, m.To, mailbox[m.To], threat) == key then 1 else 0)
  }

  /** The continuation-history index `[prevPiece][prevTo][piece][to]` the move `offset` plies back gives. */
  function ContKey(move: Move, offset: int, ply: int, stack: seq<Move>): (int, int, int, int)
    requires 0 < offset <= ply <= |stack|
  {
    var prev := stack[ply - offset];
    (prev.Piece, prev.To, move.Piece, move.To)
  }

  /** Whether `UpdateSingleContHist(move, _, offset)` updates `key`: 1 if the ply allows the offset and the key is its index. */
  function SingleHit(move: Move, offset: int, ply: int, stack: seq<Move>, key: (int, int, int, int)): (c: nat)
    requires 0 < offset && 0 <= ply <= |stack|
    ensures c <= 1
    ensures ply < offset ==> c == 0
  {
    if ply >= offset && ContKey(move, offset, ply, stack) == key then 1 else 0
  }

  /** How often `UpdateContHist(move, ...)` updates `key`: once for each of the offsets 1 and 2 the ply allows. */
  function ContHitsOf(move: Move, ply: int, stack: seq<Move>, key: (int, int, int, int)): (c: nat)
    requires 0 <= ply <= |stack|
    ensures c <= 2
    ensures ply == 0 ==> c == 0
  {
    SingleHit(move, 1, ply, stack, key) + SingleHit(move, 2, ply, stack, key)
  }

  /** The continuation-history updates of the first `n` moves other than `bonusMove`. */
  function ContHits(moves: seq<Move>, n: nat, bonusMove: Move, ply: int, stack: seq<Move>,
                    key: (int, int, int, int)): (c: nat)
    requires n <= |moves| && 0 <= ply <= |stack|
    ensures c <= 2 * n
    ensures ply == 0 ==> c == 0
  {
    if n == 0 then 0
    else
      var m := moves[n - 1];
      ContHits(moves, n - 1, bonusMove, ply, stack, key)
      + (if m != bonusMove then ContHitsOf(m, ply, stack, key) else 0)
  }

  /** A move other than the bonus move with the bonus move's squares is what lets the malus reach the bonus move's entry. */
  lemma {:induction false} MainMalusSparesBonusMove(moves: seq<Move>, n: nat, bonusMove: Move, threat: Bitboard)
    requires n <= |moves|
    requires forall i :: 0 <= i < n && moves[i] != bonusMove ==>
      moves[i].From != bonusMove.From || moves[i].To != bonusMove.To
    ensures MainHits(moves, n, bonusMove, threat,
      MainKey(MoverColour(bonusMove), bonusMove.From, bonusMove.To, threat)) == 0
  {
    if n > 0 {
      MainMalusSparesBonusMove(moves, n - 1, bonusMove, threat);
    }
  }

  /** Every searched move other than the bonus move is charged: its own entry is hit at least once. */
  lemma {:induction false} MainMalusReachesSearched(moves: seq<Move>, n: nat, bonusMove: Move, threat: Bitboard, i: nat)
    requires i < n <= |moves| && moves[i] != bonusMove
    ensures MainHits(moves, n, bonusMove, threat,
      MainKey(MoverColour(bonusMove), moves[i].From, moves[i].To, threat)) >= 1
  {
    if i < n - 1 {
      MainMalusReachesSearched(moves, n - 1, bonusMove, threat, i);
    }
  }

  /** `std::min(depth + 1, 16)`: the weight a new correction-history sample gets. */
  function CorrWeight(depth: int): (w: int)
    ensures w <= 16 && w <= depth + 1
    ensures w == 16 || w == depth + 1
  {
    if depth + 1 < 16 then depth + 1 else 16
  }

  /**
   * The correction-history update: a weighted average of the old entry and
   * the scaled difference, out of `CORRHIST_WEIGHT_SCALE`, stored into
   * `int16_t` and clamped to `[-CORRHIST_MAX, CORRHIST_MAX]`.
   */
  function CorrBlend(entry: int, depth: int, diff: int): (r: int)
    ensures -CORRHIST_MAX <= r <= CORRHIST_MAX
  {
    var w := CorrWeight(depth);
    var blended := Quot(entry * (CORRHIST_WEIGHT_SCALE - w) + diff * CORRHIST_GRAIN * w, CORRHIST_WEIGHT_SCALE);
    Clamp(I16(blended), -CORRHIST_MAX, CORRHIST_MAX)
  }

  /**
   * For a non-negative depth and an in-range entry and sample, the update is
   * a true moving average: the new entry lies between the old entry and the
   * scaled difference, so neither the wrap nor the clamp changes it.
   */
  lemma {:induction false} CorrBlendBetween(entry: int, depth: int, diff: int)
    requires depth >= 0
    requires Abs(entry) <= CORRHIST_MAX && Abs(diff * CORRHIST_GRAIN) <= CORRHIST_MAX
    ensures var s := diff * CORRHIST_GRAIN;
      (if entry <= s then entry else s) <= CorrBlend(entry, depth, diff) <= (if entry <= s then s else entry)
  {
    var w := CorrWeight(depth);
    var s := diff * CORRHIST_GRAIN;
    assert diff * CORRHIST_GRAIN * w == s * w;
    WeightedAverageBetween(entry, s, w, CORRHIST_WEIGHT_SCALE);
  }

  /** A truncated weighted average of two values lies between them. */
  lemma {:induction false} WeightedAverageBetween(x: int, y: int, w: int, scale: int)
    requires 0 <= w <= scale && 0 < scale
    ensures var lo, hi := (if x <= y then x else y), (if x <= y then y else x);
      lo <= Quot(x * (scale - w) + y * w, scale) <= hi
  {
    var lo := if x <= y then x else y;
    var hi := if x <= y then y else x;
    var sum := x * (scale - w) + y * w;
    WeightedSumBetween(x, y, w, scale, lo, hi);
    QuotMonotone(lo * scale, sum, scale);
    QuotMonotone(sum, hi * scale, scale);
    QuotExact(lo, scale);
    QuotExact(hi, scale);
  }

  lemma {:induction false} WeightedSumBetween(x: int, y: int, w: int, scale: int, lo: int, hi: int)
    requires 0 <= w <= scale && lo <= x <= hi && lo <= y <= hi
    ensures lo * scale <= x * (scale - w) + y * w <= hi * scale
  {
    MulLe(lo, x, scale - w);
    MulLe(x, hi, scale - w);
    MulLe(lo, y, w);
    MulLe(y, hi, w);
    assert lo * (scale - w) + lo * w == lo * scale;
    assert hi * (scale - w) + hi * w == hi * scale;
  }

  lemma {:induction false} MulLe(a: int, b: int, c: int)
    requires a <= b && 0 <= c
    ensures a * c <= b * c
  {
    MulNonNegative(b - a, c);
    assert b * c - a * c == (b - a) * c;
  }

  /** The correction-history bucket of a key: `key % CORRHIST_SIZE`. */
  function Bucket(key: nat): (i: int)
    ensures 0 <= i < CORRHIST_SIZE
  {
    key % CORRHIST_SIZE
  }

  /** The `PAWN_`, `NONPAWN_` and `MINOR_CORRHIST_MULTIPLIER` tuneables. */
  datatype CorrMultipliers = CorrMultipliers(pawn: int, nonPawn: int, minor: int)

  /**
   * `AdjustEvalWithCorrHist` given the four entries: the weighted sum of the
   * corrections, divided by 128 and by the grain (both truncating), added to
   * the raw evaluation and clamped strictly inside the mate bounds.
   */
  function AdjustEval(rawEval: int, pawnEntry: int, whiteNPEntry: int, blackNPEntry: int, minorEntry: int,
                      mult: CorrMultipliers): (r: int)
    ensures -MATE_FOUND + 1 <= r <= MATE_FOUND - 1
  {
    var adjust := pawnEntry * mult.pawn + (whiteNPEntry + blackNPEntry) * mult.nonPawn + minorEntry * mult.minor;
    var scaled := Quot(adjust, 128);
    Clamp(rawEval + Quot(scaled, CORRHIST_GRAIN), -MATE_FOUND + 1, MATE_FOUND - 1)
  }

  /** With empty correction entries a non-mate evaluation passes through unchanged. */
  lemma {:induction false} AdjustEvalNoCorrection(rawEval: int, mult: CorrMultipliers)
    requires -MATE_FOUND < rawEval < MATE_FOUND
    ensures AdjustEval(rawEval, 0, 0, 0, 0, mult) == rawEval
  {
    assert Quot(0, 128) == 0;
    assert Quot(0, CORRHIST_GRAIN) == 0;
  }

  /** The correction is the same for every raw evaluation, so the adjusted evaluation is monotone in it. */
  lemma {:induction false} AdjustEvalMonotone(raw1: int, raw2: int, pawnEntry: int, whiteNPEntry: int,
                                              blackNPEntry: int, minorEntry: int, mult: CorrMultipliers)
    requires raw1 <= raw2
    ensures AdjustEval(raw1, pawnEntry, whiteNPEntry, blackNPEntry, minorEntry, mult)
         <= AdjustEval(raw2, pawnEntry, whiteNPEntry, blackNPEntry, minorEntry, mult)
  {
  }

  /** The integer products of a correction-history update fit in `int`. */
  predicate DiffFits(diff: int)
  {
    IsI32(Abs(diff) * CORRHIST_GRAIN * 16 + 32768 * CORRHIST_WEIGHT_SCALE)
  }

  /** `ThreadData::histories`: all tables start zeroed. */
  class Histories {
    var mainHist: array5<int>
    var captureHistory: array5<int>
    var contHist: array4<int>
    var pawnCorrHist: array2<int>
    var nonPawnCorrHist: array3<int>
    var minorCorrHist: array2<int>

    /** The tables have their declared shapes, and the two two-dimensional ones are distinct. */
    ghost predicate Valid()
      reads this
    {
      && mainHist.Length0 == 2 && mainHist.Length1 == 64 && mainHist.Length2 == 64
      && mainHist.Length3 == 2 && mainHist.Length4 == 2
      && captureHistory.Length0 == 2 && captureHistory.Length1 == 64 && captureHistory.Length2 == 13
      && captureHistory.Length3 == 2 && captureHistory.Length4 == 2
      && contHist.Length0 == 12 && contHist.Length1 == 64 && contHist.Length2 == 12 && contHist.Length3 == 64
      && pawnCorrHist.Length0 == 2 && pawnCorrHist.Length1 == CORRHIST_SIZE
      && nonPawnCorrHist.Length0 == 2 && nonPawnCorrHist.Length1 == 2 && nonPawnCorrHist.Length2 == CORRHIST_SIZE
      && minorCorrHist.Length0 == 2 && minorCorrHist.Length1 == CORRHIST_SIZE
      && pawnCorrHist != minorCorrHist
    }

    /** Every entry of the move histories lies within `[-MAX, MAX]` of its table. */
    ghost predicate Bounded()
      reads this, mainHist, captureHistory, contHist
      requires Valid()
    {
      && (forall a, b, c, d, e :: 0 <= a < 2 && 0 <= b < 64 && 0 <= c < 64 && 0 <= d < 2 && 0 <= e < 2 ==>
            Abs(mainHist[a, b, c, d, e]) <= MAX_HISTORY)
      && (forall a, b, c, d, e :: 0 <= a < 2 && 0 <= b < 64 && 0 <= c < 13 && 0 <= d < 2 && 0 <= e < 2 ==>
            Abs(captureHistory[a, b, c, d, e]) <= MAX_HISTORY)
      && (forall a, b, c, d :: 0 <= a < 12 && 0 <= b < 64 && 0 <= c < 12 && 0 <= d < 64 ==>
            Abs(contHist[a, b, c, d]) <= MAX_CONTHIST)
    }

    constructor ()
      ensures Valid() && Bounded()
      ensures forall a, b, c, d, e :: 0 <= a < 2 && 0 <= b < 64 && 0 <= c < 64 && 0 <= d < 2 && 0 <= e < 2 ==>
        mainHist[a, b, c, d, e] == 0
      ensures forall a, b, c, d :: 0 <= a < 12 && 0 <= b < 64 && 0 <= c < 12 && 0 <= d < 64 ==>
        contHist[a, b, c, d] == 0
      ensures forall a, b, c, d, e :: 0 <= a < 2 && 0 <= b < 64 && 0 <= c < 13 && 0 <= d < 2 && 0 <= e < 2 ==>
        captureHistory[a, b, c, d, e] == 0
      ensures forall a, b :: 0 <= a < 2 && 0 <= b < CORRHIST_SIZE ==> pawnCorrHist[a, b] == 0 && minorCorrHist[a, b] == 0
      ensures forall a, b, c :: 0 <= a < 2 && 0 <= b < 2 && 0 <= c < CORRHIST_SIZE ==> nonPawnCorrHist[a, b, c] == 0
    {
      mainHist := new int[2, 64, 64, 2, 2]((_, _, _, _, _) => 0);
      captureHistory := new int[2, 64, 13, 2, 2]((_, _, _, _, _) => 0);
      contHist := new int[12, 64, 12, 64]((_, _, _, _) => 0);
      pawnCorrHist := new int[2, CORRHIST_SIZE]((_, _) => 0);
      nonPawnCorrHist := new int[2, 2, CORRHIST_SIZE]((_, _, _) => 0);
      minorCorrHist := new int[2, CORRHIST_SIZE]((_, _) => 0);
    }

    /** `UpdateMainHist`: the entry of the move's squares and threat bits gets the update law; nothing else changes. */
    method UpdateMainHist(stm: int, from: int, to: int, bonus: int, threat: Bitboard)
      requires Valid() && IsColour(stm) && 0 <= from < 64 && 0 <= to < 64 && IsI16(bonus)
      modifies mainHist
      ensures old(Bounded()) ==> Bounded()
      ensures var k := MainKey(stm, from, to, threat);
        mainHist[k.0, k.1, k.2, k.3, k.4] == HistoryUpdate(old(mainHist[k.0, k.1, k.2, k.3, k.4]), bonus)
      ensures forall a, b, c, d, e ::
        (0 <= a < 2 && 0 <= b < 64 && 0 <= c < 64 && 0 <= d < 2 && 0 <= e < 2 &&
         (a, b, c, d, e) != MainKey(stm, from, to, threat)) ==>
        mainHist[a, b, c, d, e] == old(mainHist[a, b, c, d, e])
    {
      var fromThreat := BoolIndex(from in threat);
      var toThreat := BoolIndex(to in threat);
      mainHist[stm, from, to, fromThreat, toThreat] := HistoryUpdate(mainHist[stm, from, to, fromThreat, toThreat], bonus);
    }

    /** `UpdateCaptHist`: the entry of (attacker != 0, to, victim, threat bits) gets the update law; nothing else changes. */
    method UpdateCaptHist(attacker: int, from: int, to: int, victim: int, bonus: int, threat: Bitboard)
      requires Valid() && 0 <= from < 64 && 0 <= to < 64 && 0 <= victim < 13 && IsI16(bonus)
      modifies captureHistory
      ensures old(Bounded()) ==> Bounded()
      ensures var k := CaptKey(attacker, from, to, victim, threat);
        captureHistory[k.0, k.1, k.2, k.3, k.4] == HistoryUpdate(old(captureHistory[k.0, k.1, k.2, k.3, k.4]), bonus)
      ensures forall a, b, c, d, e ::
        (0 <= a < 2 && 0 <= b < 64 && 0 <= c < 13 && 0 <= d < 2 && 0 <= e < 2 &&
         (a, b, c, d, e) != CaptKey(attacker, from, to, victim, threat)) ==>
        captureHistory[a, b, c, d, e] == old(captureHistory[a, b, c, d, e])
    {
      var attackerIndex := BoolIndex(attacker != 0);
      var fromThreat := BoolIndex(from in threat);
      var toThreat := BoolIndex(to in threat);
      captureHistory[attackerIndex, to, victim, fromThreat, toThreat] :=
        HistoryUpdate(captureHistory[attackerIndex, to, victim, fromThreat, toThreat], bonus);
    }

    /**
     * `MalusMainHist`: every searched quiet move other than the bonus move
     * gets the update with bonus `-malus` (stored as `int16_t`), charged to
     * the bonus move's colour; so each entry has been updated once per such
     * move that maps to it.
     */
    method MalusMainHist(searched: MoveList, bonusMove: Move, malus: int, threat: Bitboard)
      requires Valid() && searched.Valid() && IsI16(malus)
      requires AllValid(searched.Contents())
      modifies mainHist
      ensures old(Bounded()) ==> Bounded()
      ensures forall a, b, c, d, e :: 0 <= a < 2 && 0 <= b < 64 && 0 <= c < 64 && 0 <= d < 2 && 0 <= e < 2 ==>
        mainHist[a, b, c, d, e] == DecayTimes(old(mainHist[a, b, c, d, e]), I16(-malus), MAX_HISTORY,
          MainHits(searched.Contents(), searched.count, bonusMove, threat, (a, b, c, d, e)))
    {
      ghost var moves := searched.Contents();
      var stm := MoverColour(bonusMove);
      for i := 0 to searched.count
        invariant forall a, b, c, d, e :: 0 <= a < 2 && 0 <= b < 64 && 0 <= c < 64 && 0 <= d < 2 && 0 <= e < 2 ==>
          mainHist[a, b, c, d, e] == DecayTimes(old(mainHist[a, b, c, d, e]), I16(-malus), MAX_HISTORY,
            MainHits(moves, i, bonusMove, threat, (a, b, c, d, e)))
      {
        var searchedMove := searched.moves[i];
        assert searchedMove == moves[i];
        if DifferentMove(searchedMove, bonusMove) {
          label before:
          UpdateMainHist(stm, searchedMove.From, searchedMove.To, I16(-malus), threat);
          forall a, b, c, d, e | 0 <= a < 2 && 0 <= b < 64 && 0 <= c < 64 && 0 <= d < 2 && 0 <= e < 2
            ensures mainHist[a, b, c, d, e] == DecayTimes(old(mainHist[a, b, c, d, e]), I16(-malus), MAX_HISTORY,
              MainHits(moves, i + 1, bonusMove, threat, (a, b, c, d, e)))
          {
            MainMalusStep(moves, i, bonusMove, threat, I16(-malus), (a, b, c, d, e),
              old(mainHist[a, b, c, d, e]), old@before(mainHist[a, b, c, d, e]), mainHist[a, b, c, d, e]);
          }
        }
      }
      if old(Bounded()) {
        forall a, b, c, d, e | 0 <= a < 2 && 0 <= b < 64 && 0 <= c < 64 && 0 <= d < 2 && 0 <= e < 2
          ensures Abs(mainHist[a, b, c, d, e]) <= MAX_HISTORY
        {
          DecayTimesBounded(old(mainHist[a, b, c, d, e]), I16(-malus), MAX_HISTORY,
            MainHits(moves, searched.count, bonusMove, threat, (a, b, c, d, e)));
        }
      }
    }

    /**
     * `MalusCaptHist`: every searched noisy move other than the bonus move
     * gets the update with bonus `-malus`, keyed by its piece (as a `bool`),
     * its destination and the piece standing there.
     */
    method MalusCaptHist(searched: MoveList, bonusMove: Move, malus: int, mailbox: seq<int>, threat: Bitboard)
      requires Valid() && searched.Valid() && IsI16(malus)
      requires AllValid(searched.Contents())
      requires |mailbox| == 64 && forall sq :: 0 <= sq < 64 ==> 0 <= mailbox[sq] < 13
      modifies captureHistory
      ensures old(Bounded()) ==> Bounded()
      ensures forall a, b, c, d, e :: 0 <= a < 2 && 0 <= b < 64 && 0 <= c < 13 && 0 <= d < 2 && 0 <= e < 2 ==>
        captureHistory[a, b, c, d, e] == DecayTimes(old(captureHistory[a, b, c, d, e]), I16(-malus), MAX_HISTORY,
          CaptHits(searched.Contents(), searched.count, bonusMove, mailbox, threat, (a, b, c, d, e)))
    {
      ghost var moves := searched.Contents();
      for i := 0 to searched.count
        invariant forall a, b, c, d, e :: 0 <= a < 2 && 0 <= b < 64 && 0 <= c < 13 && 0 <= d < 2 && 0 <= e < 2 ==>
          captureHistory[a, b, c, d, e] == DecayTimes(old(captureHistory[a, b, c, d, e]), I16(-malus), MAX_HISTORY,
            CaptHits(moves, i, bonusMove, mailbox, threat, (a, b, c, d, e)))
      {
        var searchedMove := searched.moves[i];
        assert searchedMove == moves[i];
        if DifferentMove(searchedMove, bonusMove) {
          UpdateCaptHist(searchedMove.Piece, searchedMove.From, searchedMove.To, mailbox[searchedMove.To],
            I16(-malus), threat);
        }
      }
      if old(Bounded()) {
        forall a, b, c, d, e | 0 <= a < 2 && 0 <= b < 64 && 0 <= c < 13 && 0 <= d < 2 && 0 <= e < 2
          ensures Abs(captureHistory[a, b, c, d, e]) <= MAX_HISTORY
        {
          DecayTimesBounded(old(captureHistory[a, b, c, d, e]), I16(-malus), MAX_HISTORY,
            CaptHits(moves, searched.count, bonusMove, mailbox, threat, (a, b, c, d, e)));
        }
      }
    }

    /** `GetSingleContHistScore`: the entry keyed by the move `offset` plies back, or 0 near the root. */
    function SingleContHistScore(move: Move, offset: int, ply: int, stack: seq<Move>): (r: int)
      reads this, contHist
      requires Valid() && ValidMove(move) && 0 < offset && 0 <= ply <= |stack|
      requires AllValid(stack)
      ensures ply < offset ==> r == 0
      ensures ply >= offset ==> r == contHist[stack[ply - offset].Piece, stack[ply - offset].To, move.Piece, move.To]
    {
      if ply >= offset then
        var prevMove := stack[ply - offset];
        contHist[prevMove.Piece, prevMove.To, move.Piece, move.To]
      else 0
    }

    /** `GetContHistScore`: the one-ply and two-ply scores added, within twice the table bound. */
    function ContHistScore(move: Move, ply: int, stack: seq<Move>): (r: int)
      reads this, contHist, mainHist, captureHistory
      requires Valid() && ValidMove(move) && 0 <= ply <= |stack|
      requires AllValid(stack)
      ensures ply == 0 ==> r == 0
      ensures Bounded() ==> Abs(r) <= 2 * MAX_CONTHIST
    {
      SingleContHistScore(move, 1, ply, stack) + SingleContHistScore(move, 2, ply, stack)
    }

    /** `UpdateSingleContHist`: near the root nothing changes; otherwise the keyed entry gets the update law. */
    method UpdateSingleContHist(move: Move, bonus: int, offset: int, ply: int, stack: seq<Move>)
      requires Valid() && ValidMove(move) && 0 < offset && 0 <= ply <= |stack|
      requires AllValid(stack)
      modifies contHist
      ensures old(Bounded()) ==> Bounded()
      ensures forall a, b, c, d :: 0 <= a < 12 && 0 <= b < 64 && 0 <= c < 12 && 0 <= d < 64 ==>
        contHist[a, b, c, d] ==
          DecayTimes(old(contHist[a, b, c, d]), bonus, MAX_CONTHIST, SingleHit(move, offset, ply, stack, (a, b, c, d)))
    {
      if ply >= offset {
        var prevMove := stack[ply - offset];
        var entry := SingleContHistScore(move, offset, ply, stack);
        contHist[prevMove.Piece, prevMove.To, move.Piece, move.To] := Decay(entry, bonus, MAX_CONTHIST);
      }
    }

    /** `UpdateContHist`: the updates for one and for two plies back. */
    method UpdateContHist(move: Move, bonus: int, ply: int, stack: seq<Move>)
      requires Valid() && ValidMove(move) && 0 <= ply <= |stack|
      requires AllValid(stack)
      modifies contHist
      ensures forall a, b, c, d :: 0 <= a < 12 && 0 <= b < 64 && 0 <= c < 12 && 0 <= d < 64 ==>
        contHist[a, b, c, d] ==
          DecayTimes(old(contHist[a, b, c, d]), bonus, MAX_CONTHIST, ContHitsOf(move, ply, stack, (a, b, c, d)))
    {
      UpdateSingleContHist(move, bonus, 1, ply, stack);
      label oneBack:
      UpdateSingleContHist(move, bonus, 2, ply, stack);
      forall a, b, c, d | 0 <= a < 12 && 0 <= b < 64 && 0 <= c < 12 && 0 <= d < 64
        ensures contHist[a, b, c, d] ==
          DecayTimes(old(contHist[a, b, c, d]), bonus, MAX_CONTHIST, ContHitsOf(move, ply, stack, (a, b, c, d)))
      {
        DecayTimesAdd(old(contHist[a, b, c, d]), bonus, MAX_CONTHIST,
          SingleHit(move, 1, ply, stack, (a, b, c, d)), SingleHit(move, 2, ply, stack, (a, b, c, d)));
      }
    }

    /** `MalusContHist`: `UpdateContHist` with bonus `-malus` for every searched quiet move but the bonus move. */
    method MalusContHist(searched: MoveList, bonusMove: Move, malus: int, ply: int, stack: seq<Move>)
      requires Valid() && searched.Valid() && IsI16(malus) && 0 <= ply <= |stack|
      requires AllValid(searched.Contents())
      requires AllValid(stack)
      modifies contHist
      ensures forall a, b, c, d :: 0 <= a < 12 && 0 <= b < 64 && 0 <= c < 12 && 0 <= d < 64 ==>
        contHist[a, b, c, d] == DecayTimes(old(contHist[a, b, c, d]), -malus, MAX_CONTHIST,
          ContHits(searched.Contents(), searched.count, bonusMove, ply, stack, (a, b, c, d)))
    {
      ghost var moves := searched.Contents();
      for i := 0 to searched.count
        invariant forall a, b, c, d :: 0 <= a < 12 && 0 <= b < 64 && 0 <= c < 12 && 0 <= d < 64 ==>
          contHist[a, b, c, d] == DecayTimes(old(contHist[a, b, c, d]), -malus, MAX_CONTHIST,
            ContHits(moves, i, bonusMove, ply, stack, (a, b, c, d)))
      {
        var searchedMove := searched.moves[i];
        assert searchedMove == moves[i];
        if DifferentMove(searchedMove, bonusMove) {
          label before:
          UpdateContHist(searchedMove, -malus, ply, stack);
          forall a, b, c, d | 0 <= a < 12 && 0 <= b < 64 && 0 <= c < 12 && 0 <= d < 64
            ensures contHist[a, b, c, d] == DecayTimes(old(contHist[a, b, c, d]), -malus, MAX_CONTHIST,
              ContHits(moves, i + 1, bonusMove, ply, stack, (a, b, c, d)))
          {
            ContMalusStep(moves, i, bonusMove, ply, stack, -malus, (a, b, c, d),
              old(contHist[a, b, c, d]), old@before(contHist[a, b, c, d]), contHist[a, b, c, d]);
          }
        }
      }
    }

    /** `GetPawnCorrHistValue` */
    function PawnCorrValue(s: BoardState): int
      reads this, pawnCorrHist
      requires Valid() && IsColour(s.side)
    {
      pawnCorrHist[s.side, Bucket(s.pawnKey)]
    }

    /** `GetWhiteNonPawnCorrHistValue` */
    function WhiteNonPawnCorrValue(s: BoardState): int
      reads this, nonPawnCorrHist
      requires Valid() && IsColour(s.side)
    {
      nonPawnCorrHist[White, s.side, Bucket(s.whiteNonPawnKey)]
    }

    /** `GetBlackNonPawnCorrHistValue` */
    function BlackNonPawnCorrValue(s: BoardState): int
      reads this, nonPawnCorrHist
      requires Valid() && IsColour(s.side)
    {
      nonPawnCorrHist[Black, s.side, Bucket(s.blackNonPawnKey)]
    }

    /** `GetMinorCorrHistValue` */
    function MinorCorrValue(s: BoardState): int
      reads this, minorCorrHist
      requires Valid() && IsColour(s.side)
    {
      minorCorrHist[s.side, Bucket(s.minorKey)]
    }

    /** `AdjustEvalWithCorrHist`: the raw evaluation corrected by the position's four entries. */
    function AdjustEvalWithCorrHist(s: BoardState, rawEval: int, mult: CorrMultipliers): (r: int)
      reads this, pawnCorrHist, nonPawnCorrHist, minorCorrHist
      requires Valid() && IsColour(s.side)
      ensures -MATE_FOUND + 1 <= r <= MATE_FOUND - 1
      ensures r == AdjustEval(rawEval, PawnCorrValue(s), WhiteNonPawnCorrValue(s), BlackNonPawnCorrValue(s),
                              MinorCorrValue(s), mult)
    {
      AdjustEval(rawEval, PawnCorrValue(s), WhiteNonPawnCorrValue(s), BlackNonPawnCorrValue(s), MinorCorrValue(s), mult)
    }

    /**
     * `UpdateCorrhists`: for the side to move, the pawn, white non-pawn,
     * black non-pawn and minor buckets of the position's keys are blended
     * with the difference, and every other entry of the three tables is kept.
     */
    method UpdateCorrhists(s: BoardState, depth: int, diff: int)
      requires Valid() && IsColour(s.side) && DiffFits(diff)
      modifies pawnCorrHist, nonPawnCorrHist, minorCorrHist
      ensures pawnCorrHist[s.side, Bucket(s.pawnKey)] == CorrBlend(old(PawnCorrValue(s)), depth, diff)
      ensures nonPawnCorrHist[White, s.side, Bucket(s.whiteNonPawnKey)] ==
        CorrBlend(old(WhiteNonPawnCorrValue(s)), depth, diff)
      ensures nonPawnCorrHist[Black, s.side, Bucket(s.blackNonPawnKey)] ==
        CorrBlend(old(BlackNonPawnCorrValue(s)), depth, diff)
      ensures minorCorrHist[s.side, Bucket(s.minorKey)] == CorrBlend(old(MinorCorrValue(s)), depth, diff)
      ensures forall a, b :: 0 <= a < 2 && 0 <= b < CORRHIST_SIZE && (a, b) != (s.side, Bucket(s.pawnKey)) ==>
        pawnCorrHist[a, b] == old(pawnCorrHist[a, b])
      ensures forall a, b :: 0 <= a < 2 && 0 <= b < CORRHIST_SIZE && (a, b) != (s.side, Bucket(s.minorKey)) ==>
        minorCorrHist[a, b] == old(minorCorrHist[a, b])
      ensures forall c, a, b ::
        (0 <= c < 2 && 0 <= a < 2 && 0 <= b < CORRHIST_SIZE &&
         (c, a, b) != (White, s.side, Bucket(s.whiteNonPawnKey)) &&
         (c, a, b) != (Black, s.side, Bucket(s.blackNonPawnKey))) ==>
        nonPawnCorrHist[c, a, b] == old(nonPawnCorrHist[c, a, b])
    {
      var bucket := Bucket(s.pawnKey);
      pawnCorrHist[s.side, bucket] := CorrBlend(pawnCorrHist[s.side, bucket], depth, diff);
      bucket := Bucket(s.whiteNonPawnKey);
      nonPawnCorrHist[White, s.side, bucket] := CorrBlend(nonPawnCorrHist[White, s.side, bucket], depth, diff);
      bucket := Bucket(s.blackNonPawnKey);
      nonPawnCorrHist[Black, s.side, bucket] := CorrBlend(nonPawnCorrHist[Black, s.side, bucket], depth, diff);
      bucket := Bucket(s.minorKey);
      minorCorrHist[s.side, bucket] := CorrBlend(minorCorrHist[s.side, bucket], depth, diff);
    }
  }

  /** One malus step of the main history: the entry moves once more exactly when the move maps to its key. */
  lemma {:induction false} MainMalusStep(moves: seq<Move>, i: nat, bonusMove: Move, threat: Bitboard,
                                         bonus: int, key: (int, int, int, int, int), start: int, before: int, after: int)
    requires i < |moves| && moves[i] != bonusMove && IsI16(bonus)
    requires before == DecayTimes(start, bonus, MAX_HISTORY, MainHits(moves, i, bonusMove, threat, key))
    requires after == if MainKey(MoverColour(bonusMove), moves[i].From, moves[i].To, threat) == key
      then HistoryUpdate(before, bonus) else before
    ensures after == DecayTimes(start, bonus, MAX_HISTORY, MainHits(moves, i + 1, bonusMove, threat, key))
  {
  }

  /** One searched move of the continuation-history malus: the entry's updates so far, then this move's. */
  lemma {:induction false} ContMalusStep(moves: seq<Move>, i: nat, bonusMove: Move, ply: int, stack: seq<Move>,
                                         bonus: int, key: (int, int, int, int), start: int, before: int, after: int)
    requires i < |moves| && 0 <= ply <= |stack| && moves[i] != bonusMove
    requires before == DecayTimes(start, bonus, MAX_CONTHIST, ContHits(moves, i, bonusMove, ply, stack, key))
    requires after == DecayTimes(before, bonus, MAX_CONTHIST, ContHitsOf(moves[i], ply, stack, key))
    ensures after == DecayTimes(start, bonus, MAX_CONTHIST, ContHits(moves, i + 1, bonusMove, ply, stack, key))
  {
    DecayTimesAdd(start, bonus, MAX_CONTHIST, ContHits(moves, i, bonusMove, ply, stack, key),
      ContHitsOf(moves[i], ply, stack, key));
  }

  lemma {:induction false} DecayTimesAdd(entry: int, bonus: int, max: int, n: nat, k: nat)
    requires 0 < max < 32768
    ensures DecayTimes(DecayTimes(entry, bonus, max, n), bonus, max, k) == DecayTimes(entry, bonus, max, n + k)
  {
    if k > 0 {
      var start := DecayTimes(entry, bonus, max, n);
      DecayTimesAdd(entry, bonus, max, n, k - 1);
      assert DecayTimes(start, bonus, max, k - 1) == DecayTimes(entry, bonus, max, n + k - 1);
      assert DecayTimes(start, bonus, max, k) == Decay(DecayTimes(start, bonus, max, k - 1), bonus, max);
    }
  }
}
