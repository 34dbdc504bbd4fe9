// Material count and the network evaluation of a position (Evaluation.cpp).

module Evaluation {
  import opened CppInt
  import opened Consts
  import opened NetDefs
  import opened Chessboard
  import opened Nnue

  /** The material of both colours in centipawns, kings excluded. */
  function Material(s: BoardState): (m: int)
    requires |s.bitboards| == 12
    ensures m >= 0
  {
    (|s.bitboards[P]| + |s.bitboards[BP]|) * 100
    + (|s.bitboards[B]| + |s.bitboards[BB]|) * 300
    + (|s.bitboards[N]| + |s.bitboards[BN]|) * 300
    + (|s.bitboards[R]| + |s.bitboards[BR]|) * 500
    + (|s.bitboards[Q]| + |s.bitboards[BQ]|) * 900
  }

  /** The number of pieces other than kings. */
  function NonKingCount(s: BoardState): nat
    requires |s.bitboards| == 12
  {
    |s.bitboards[P]| + |s.bitboards[BP]| + |s.bitboards[B]| + |s.bitboards[BB]|
    + |s.bitboards[N]| + |s.bitboards[BN]| + |s.bitboards[R]| + |s.bitboards[BR]|
    + |s.bitboards[Q]| + |s.bitboards[BQ]|
  }

  /** `total_mat`: the material, returned as `int16_t`. */
  function TotalMat(s: BoardState): (r: int)
    requires |s.bitboards| == 12
    ensures IsI16(r)
    ensures Material(s) < 32768 ==> r == Material(s)
  {
    I16(Material(s))
  }

  /** With at most 36 pieces besides the kings (a legal game has at most 30) the material fits and is not negative. */
  lemma {:induction false} TotalMatNonNegative(s: BoardState)
    requires |s.bitboards| == 12 && NonKingCount(s) <= 36
    ensures 0 <= TotalMat(s) <= 900 * NonKingCount(s)
  {
    assert Material(s) <= 900 * NonKingCount(s);
  }

  /** The position with every piece's colour exchanged (White's bitboards become Black's and back). */
  function SwapColours(s: BoardState): (t: BoardState)
    requires |s.bitboards| == 12
    ensures |t.bitboards| == 12
    ensures forall p :: 0 <= p < 6 ==> t.bitboards[p] == s.bitboards[p + 6] && t.bitboards[p + 6] == s.bitboards[p]
  {
    s.(bitboards := s.bitboards[6..] + s.bitboards[..6])
  }

  /** The material count does not depend on which colour owns what. */
  lemma {:induction false} TotalMatColourBlind(s: BoardState)
    requires |s.bitboards| == 12
    ensures TotalMat(SwapColours(s)) == TotalMat(s)
  {
    var t := SwapColours(s);
    assert t.bitboards[P] == s.bitboards[BP] && t.bitboards[BP] == s.bitboards[P];
    assert t.bitboards[N] == s.bitboards[BN] && t.bitboards[BN] == s.bitboards[N];
    assert t.bitboards[B] == s.bitboards[BB] && t.bitboards[BB] == s.bitboards[B];
    assert t.bitboards[R] == s.bitboards[BR] && t.bitboards[BR] == s.bitboards[R];
    assert t.bitboards[Q] == s.bitboards[BQ] && t.bitboards[BQ] == s.bitboards[Q];
  }

  /** The accumulators `Evaluate` hands to `forward`: the side to move's first. */
  function Perspectives(s: BoardState): (pair: (seq<int>, seq<int>))
    ensures s.side == White ==> pair == (s.accumulator.white, s.accumulator.black)
    ensures s.side != White ==> pair == (s.accumulator.black, s.accumulator.white)
  {
    if s.side == White then (s.accumulator.white, s.accumulator.black)
    else (s.accumulator.black, s.accumulator.white)
  }

  /** `Evaluate`: the network output from the side to move's point of view, unscaled. */
  method Evaluate(net: Net, s: BoardState) returns (score: int)
    requires ValidValues(s.accumulator.white) && ValidValues(s.accumulator.black)
    requires ForwardFitsI32(net, Perspectives(s).0, Perspectives(s).1)
    ensures s.side == White ==> score == ForwardValue(net, s.accumulator.white, s.accumulator.black)
    ensures s.side != White ==> score == ForwardValue(net, s.accumulator.black, s.accumulator.white)
  {
    var nnScore: int;
    if s.side == White {
      nnScore := Forward(net, s.accumulator.white, s.accumulator.black);
    } else {
      nnScore := Forward(net, s.accumulator.black, s.accumulator.white);
    }
    return nnScore;
  }
}
