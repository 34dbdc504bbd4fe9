// Network and accumulator types (Accumulator.h). The network's weights are
// whatever the weight file held; the model keeps them as abstract 16-bit
// integers.

module NetDefs {
  import opened CppInt

  const INPUT_SIZE: int := 768
  const HL_SIZE: int := 1024
  const SCALE: int := 400
  const QA: int := 255
  const QB: int := 64

  predicate AllI16(s: seq<int>)
  {
    forall i :: 0 <= i < |s| ==> IsI16(s[i])
  }

  /** `Network`: input-to-hidden weights and biases, hidden-to-output weights and the output bias. */
  datatype Network = Network(
    accumulatorWeights: seq<seq<int>>,
    accumulatorBiases: seq<int>,
    outputWeights: seq<int>,
    outputBias: int)

  predicate ValidNetwork(net: Network)
  {
    && |net.accumulatorWeights| == INPUT_SIZE
    && (forall f :: 0 <= f < INPUT_SIZE ==>
          |net.accumulatorWeights[f]| == HL_SIZE && AllI16(net.accumulatorWeights[f]))
    && |net.accumulatorBiases| == HL_SIZE && AllI16(net.accumulatorBiases)
    && |net.outputWeights| == 2 * HL_SIZE && AllI16(net.outputWeights)
    && IsI16(net.outputBias)
  }

  /** A network whose arrays have the sizes `Network` declares. */
  type Net = net: Network | ValidNetwork(net)
    witness Network(seq(768, _ => seq(1024, _ => 0)), seq(1024, _ => 0), seq(2048, _ => 0), 0)

  /** The hidden-layer values of one perspective (`Accumulator::values`). */
  predicate ValidValues(v: seq<int>)
  {
    |v| == HL_SIZE && AllI16(v)
  }

  /** `AccumulatorPair`: the white-perspective and black-perspective accumulators. */
  datatype AccumulatorPair = AccumulatorPair(white: seq<int>, black: seq<int>)
}
