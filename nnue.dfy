// The network's output layer (NNUE.cpp): the clipped-squared activation,
// the weighted sum over both perspectives and the integer-only scaling,
// plus the byte assembly of the weight reader.

module Nnue {
  import opened CppInt
  import opened NetDefs

  /** `SCReLU`: the value clamped to `[min, max]`, squared. */
  function SCReLU(value: int, min: int, max: int): (r: int)
    requires min <= max
    ensures r >= 0
    ensures min <= value <= max ==> r == value * value
    ensures value < min ==> r == min * min
    ensures value > max ==> r == max * max
  {
    var clamped := Clamp(value, min, max);
    clamped * clamped
  }

  /** `activation`: `SCReLU(value, 0, QA)`, between 0 and QA squared. */
  function Activation(value: int): (r: int)
    ensures 0 <= r <= QA * QA
    ensures value <= 0 ==> r == 0
    ensures value >= QA ==> r == QA * QA
    ensures 0 <= value <= QA ==> r == value * value
  {
    var r := SCReLU(value, 0, QA);
    assert 0 <= value <= QA ==> value * value <= QA * QA by {
      if 0 <= value <= QA {
        SquareMonotone(value, QA);
      }
    }
    r
  }

  lemma {:induction false} SquareMonotone(x: int, y: int)
    requires 0 <= x <= y
    ensures x * x <= y * y
  {
    assert x * x <= x * y;
    assert x * y <= y * y;
  }

  /** The activation never decreases as its input grows. */
  lemma {:induction false} ActivationMonotone(a: int, b: int)
    requires a <= b
    ensures Activation(a) <= Activation(b)
  {
    if 0 <= a && b <= QA {
      SquareMonotone(a, b);
    } else if 0 <= a <= QA {
      SquareMonotone(a, QA);
    } else if 0 <= b <= QA {
      assert a < 0;
    }
  }

  /**
   * The output sum over the first `n` neurons: the activated side-to-move
   * value times its output weight plus the activated other-side value times
   * the weight `HL_SIZE` further on.
   */
  function OutputSum(net: Net, stm: seq<int>, nstm: seq<int>, n: nat): int
    requires n <= HL_SIZE && |stm| == HL_SIZE && |nstm| == HL_SIZE
  {
    if n == 0 then 0
    else
      OutputSum(net, stm, nstm, n - 1)
      + Activation(stm[n - 1]) * net.outputWeights[n - 1]
      + Activation(nstm[n - 1]) * net.outputWeights[n - 1 + HL_SIZE]
  }

  /** With every hidden value at or below zero, nothing is activated and the sum is 0. */
  lemma {:induction false} InactiveSumIsZero(net: Net, stm: seq<int>, nstm: seq<int>, n: nat)
    requires n <= HL_SIZE && |stm| == HL_SIZE && |nstm| == HL_SIZE
    requires forall i :: 0 <= i < HL_SIZE ==> stm[i] <= 0 && nstm[i] <= 0
    ensures OutputSum(net, stm, nstm, n) == 0
  {
    if n > 0 {
      InactiveSumIsZero(net, stm, nstm, n - 1);
    }
  }

  /**
   * The running sums of `autovec_screlu` fit in `int32_t`, after each of the
   * two additions of every step, so the unbounded sums below are the engine's.
   */
  predicate SumFitsI32(net: Net, stm: seq<int>, nstm: seq<int>)
    requires |stm| == HL_SIZE && |nstm| == HL_SIZE
  {
    forall n :: 0 <= n < HL_SIZE ==> StepFitsI32(net, stm, nstm, n)
  }

  predicate StepFitsI32(net: Net, stm: seq<int>, nstm: seq<int>, n: int)
    requires |stm| == HL_SIZE && |nstm| == HL_SIZE && 0 <= n < HL_SIZE
  {
    IsI32(OutputSum(net, stm, nstm, n) + Activation(stm[n]) * net.outputWeights[n])
    && IsI32(OutputSum(net, stm, nstm, n + 1))
  }

  /** `autovec_screlu`: the output sum over all hidden neurons. */
  method AutovecScrelu(net: Net, stm: seq<int>, nstm: seq<int>) returns (accumulator: int)
    requires ValidValues(stm) && ValidValues(nstm) && SumFitsI32(net, stm, nstm)
    ensures accumulator == OutputSum(net, stm, nstm, HL_SIZE)
    ensures IsI32(accumulator)
  {
    accumulator := 0;
    for i := 0 to HL_SIZE
      invariant accumulator == OutputSum(net, stm, nstm, i)
    {
      var own := Activation(stm[i]) * net.outputWeights[i];
      var other := Activation(nstm[i]) * net.outputWeights[i + HL_SIZE];
      accumulator := accumulator + own;
      accumulator := accumulator + other;
    }
    assert StepFitsI32(net, stm, nstm, HL_SIZE - 1);
  }

  /** The scaling of `forward`: divide by QA, add the bias, multiply by SCALE, divide by QA * QB, truncating. */
  function Scaled(sum: int, outputBias: int): int
  {
    Quot((Quot(sum, QA) + outputBias) * SCALE, QA * QB)
  }

  /** The scaling is monotone in the output sum. */
  lemma {:induction false} ScaledMonotone(s1: int, s2: int, outputBias: int)
    requires s1 <= s2
    ensures Scaled(s1, outputBias) <= Scaled(s2, outputBias)
  {
    QuotMonotone(s1, s2, QA);
    QuotMonotone((Quot(s1, QA) + outputBias) * SCALE, (Quot(s2, QA) + outputBias) * SCALE, QA * QB);
  }

  /** The evaluation `forward` computes from two accumulators. */
  function ForwardValue(net: Net, stm: seq<int>, nstm: seq<int>): int
    requires |stm| == HL_SIZE && |nstm| == HL_SIZE
  {
    Scaled(OutputSum(net, stm, nstm, HL_SIZE), net.outputBias)
  }

  /** With no neuron active, `forward` is the output bias alone, scaled. */
  lemma {:induction false} InactiveForward(net: Net, stm: seq<int>, nstm: seq<int>)
    requires |stm| == HL_SIZE && |nstm| == HL_SIZE
    requires forall i :: 0 <= i < HL_SIZE ==> stm[i] <= 0 && nstm[i] <= 0
    ensures ForwardValue(net, stm, nstm) == Quot(net.outputBias * SCALE, QA * QB)
  {
    InactiveSumIsZero(net, stm, nstm, HL_SIZE);
    assert Quot(0, QA) == 0;
  }

  /** The intermediate values of `forward` fit in `int32_t`. */
  predicate ForwardFitsI32(net: Net, stm: seq<int>, nstm: seq<int>)
    requires |stm| == HL_SIZE && |nstm| == HL_SIZE
  {
    SumFitsI32(net, stm, nstm)
    && IsI32((Quot(OutputSum(net, stm, nstm, HL_SIZE), QA) + net.outputBias) * SCALE)
  }

  /** `forward`: the output sum, scaled to centipawns. */
  method Forward(net: Net, stm: seq<int>, nstm: seq<int>) returns (eval: int)
    requires ValidValues(stm) && ValidValues(nstm) && ForwardFitsI32(net, stm, nstm)
    ensures eval == ForwardValue(net, stm, nstm)
  {
    eval := AutovecScrelu(net, stm, nstm);
    eval := Quot(eval, QA);
    eval := eval + net.outputBias;
    eval := eval * SCALE;
    eval := Quot(eval, QA * QB);
  }

  /** The number whose little-endian bytes are `u`: byte `i` has weight 256^i. */
  function LittleEndianValue(u: seq<int>): (v: nat)
    requires forall i :: 0 <= i < |u| ==> 0 <= u[i] < 256
    decreases |u|
  {
    if u == [] then 0 else u[0] + 256 * LittleEndianValue(u[1..])
  }

  /** `memcpy` of an unsigned `bytes`-byte value into the signed type of the same size. */
  function ToSigned(v: nat, bytes: nat): (r: int)
  {
    var half := Pow2(8 * bytes) / 2;
    if v < half then v else v - 2 * half
  }

  /** The little-endian bytes of an integer, `LittleEndianValue`'s inverse. */
  function LittleEndianBytes(v: nat, n: nat): (u: seq<int>)
    ensures |u| == n
    ensures forall i :: 0 <= i < n ==> 0 <= u[i] < 256
  {
    if n == 0 then [] else [v % 256] + LittleEndianBytes(v / 256, n - 1)
  }

  /** Reading back the bytes of a value that fits in them gives the value. */
  lemma {:induction false} LittleEndianRoundTrip(v: nat, n: nat)
    requires v < Pow2(8 * n)
    ensures LittleEndianValue(LittleEndianBytes(v, n)) == v
  {
    if n > 0 {
      var u := LittleEndianBytes(v, n);
      assert u[1..] == LittleEndianBytes(v / 256, n - 1);
      PowEight(n - 1);
      DivBelow(v, 256, Pow2(8 * (n - 1)));
      LittleEndianRoundTrip(v / 256, n - 1);
    } else {
      assert v == 0;
    }
  }

  lemma {:induction false} PowEight(n: nat)
    ensures Pow2(8 * (n + 1)) == 256 * Pow2(8 * n)
  {
    var k := 8 * n;
    assert Pow2(k + 8) == 2 * Pow2(k + 7) == 4 * Pow2(k + 6) == 8 * Pow2(k + 5) == 16 * Pow2(k + 4);
    assert Pow2(k + 4) == 2 * Pow2(k + 3) == 4 * Pow2(k + 2) == 8 * Pow2(k + 1) == 16 * Pow2(k);
  }

  lemma {:induction false} DivBelow(v: nat, d: nat, m: nat)
    requires d > 0 && v < d * m
    ensures v / d < m
  {
    if v / d >= m {
      assert d * (v / d) >= d * m by {
        MulMonotone(d, m, v / d);
      }
    }
  }

  lemma {:induction false} MulMonotone(d: nat, x: nat, y: nat)
    requires x <= y
    ensures d * x <= d * y
  {
    assert d * y == d * x + d * (y - x);
  }

  /** Every value of `n` bytes is below 256^n. */
  lemma {:induction false} LittleEndianBound(u: seq<int>)
    requires forall i :: 0 <= i < |u| ==> 0 <= u[i] < 256
    ensures LittleEndianValue(u) < Pow2(8 * |u|)
    decreases |u|
  {
    if u != [] {
      LittleEndianBound(u[1..]);
      PowEight(|u| - 1);
    }
  }

  /**
   * The byte loop of `readLittleEndian` on a big-endian host: starting from
   * the last byte, shift the value left by 8 and OR in the next byte. The
   * result is the little-endian value of the bytes, which a little-endian
   * host reads directly.
   */
  method AssembleBytes(u: seq<int>) returns (v: nat)
    requires forall i :: 0 <= i < |u| ==> 0 <= u[i] < 256
    ensures v == LittleEndianValue(u)
  {
    v := 0;
    for i := 0 to |u|
      invariant v == LittleEndianValue(u[|u| - i..])
    {
      var b := u[|u| - i - 1];
      assert Pow2(8) == 256;
      ShiftedDisjoint(v, b, 8);
      OrDisjointIsSum(256 * v, b);
      assert u[|u| - i - 1..][1..] == u[|u| - i..];
      v := BitOr(256 * v, b);
    }
    assert u[0..] == u;
  }

  /** `readLittleEndian<IntType>`: the bytes assembled, then reinterpreted as the signed type. */
  method ReadLittleEndian(u: seq<int>) returns (result: int)
    requires 0 < |u| && forall i :: 0 <= i < |u| ==> 0 <= u[i] < 256
    ensures result == ToSigned(LittleEndianValue(u), |u|)
    ensures 0 <= result + Pow2(8 * |u|) / 2 < Pow2(8 * |u|)
  {
    var v := AssembleBytes(u);
    LittleEndianBound(u);
    result := ToSigned(v, |u|);
    assert Pow2(8 * |u|) == 2 * Pow2(8 * |u| - 1);
  }
}
