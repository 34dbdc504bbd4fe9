// Feature indices and the incremental accumulators of the network
// (Accumulator.cpp). An accumulator holds one 16-bit value per hidden
// neuron; adding a feature adds that feature's weight row, with the
// wrap-around of `int16_t` stores.

module Accumulator {
  import opened CppInt
  import opened Bitboards
  import opened Consts
  import opened NetDefs
  import opened Chessboard

  /** `flipHorizontal`: `square ^ 7`, the same rank seen in a mirror (file a <-> h). */
  function FlipHorizontal(square: nat): (r: nat)
    ensures r / 8 == square / 8 && r % 8 == 7 - square % 8
  {
    XorSeven(square);
    BitXor(square, 7)
  }

  /** `flipSquare`: `square ^ 56`, the same file on the opposite rank. */
  function FlipSquare(square: nat): (r: nat)
    requires square < 64
    ensures r < 64
    ensures r / 8 == 7 - square / 8 && r % 8 == square % 8
  {
    XorFiftySix(square);
    XorSeven(square / 8);
    assert square / 8 / 8 == 0 && (square / 8) % 8 == square / 8;
    DivUnique(BitXor(square, 56), 8, 7 - square / 8, square % 8);
    BitXor(square, 56)
  }

  /** Both flips undo themselves. */
  lemma {:induction false} FlipsAreInvolutions(square: nat)
    requires square < 64
    ensures FlipHorizontal(FlipHorizontal(square)) == square
    ensures FlipSquare(FlipSquare(square)) == square
  {
    XorInvolutive(square, 7);
    XorInvolutive(square, 56);
  }

  /**
   * `calculateIndex`: the input feature of a piece of kind `pieceType` and
   * colour `side` on `square`, seen by `perspective`. The first 384 features
   * are the perspective's own pieces, then 64 per piece kind; the square is
   * counted from the perspective's own first rank, with the files mirrored
   * when `mirror` is set.
   */
  function CalculateIndex(perspective: int, square: nat, pieceType: int, side: int, mirror: bool): (r: int)
    requires square < 64
    ensures 0 <= pieceType < 6 ==> 0 <= r < INPUT_SIZE
    ensures 0 <= pieceType < 6 ==> r / 64 == 6 * (if side != perspective then 1 else 0) + pieceType
    ensures r % 64 / 8 == (if perspective == 1 then square / 8 else 7 - square / 8)
    ensures r % 64 % 8 == (if mirror then 7 - square % 8 else square % 8)
  {
    var s0 := FlipSquare(square);
    var s1 := if perspective == 1 then FlipSquare(s0) else s0;
    var s2 := if mirror then FlipHorizontal(s1) else s1;
    assert s2 < 64;
    var r := 6 * 64 * (if side != perspective then 1 else 0) + 64 * pieceType + s2;
    assert r == 64 * (6 * (if side != perspective then 1 else 0) + pieceType) + s2;
    DivUnique(r, 64, 6 * (if side != perspective then 1 else 0) + pieceType, s2);
    r
  }

  /** Seen by Black, the board is White's view with the ranks exchanged and the colours swapped. */
  lemma {:induction false} IndexColourSymmetry(square: nat, pieceType: int, side: int, mirror: bool)
    requires square < 64 && 0 <= pieceType < 6 && IsColour(side)
    ensures CalculateIndex(White, square, pieceType, side, mirror)
         == CalculateIndex(Black, FlipSquare(square), pieceType, 1 - side, mirror)
  {
    var a := CalculateIndex(White, square, pieceType, side, mirror);
    var b := CalculateIndex(Black, FlipSquare(square), pieceType, 1 - side, mirror);
    assert a / 64 == b / 64;
    assert a % 64 == 8 * (a % 64 / 8) + a % 64 % 8;
    assert b % 64 == 8 * (b % 64 / 8) + b % 64 % 8;
  }

  /** Mirroring changes only the three file bits of the index: it is the unmirrored index `^ 7`. */
  lemma {:induction false} IndexMirror(perspective: int, square: nat, pieceType: int, side: int)
    requires square < 64 && 0 <= pieceType < 6
    ensures CalculateIndex(perspective, square, pieceType, side, true)
         == BitXor(CalculateIndex(perspective, square, pieceType, side, false), 7)
  {
    var m := CalculateIndex(perspective, square, pieceType, side, true);
    var u := CalculateIndex(perspective, square, pieceType, side, false);
    XorSeven(u);
    assert m / 64 == u / 64;
    assert m == 64 * (m / 64) + 8 * (m % 64 / 8) + m % 64 % 8;
    assert u == 64 * (u / 64) + 8 * (u % 64 / 8) + u % 64 % 8;
    DivUnique(u, 8, 8 * (u / 64) + u % 64 / 8, u % 64 % 8);
  }

  /** Adding weight row `w` to every neuron, each result stored as `int16_t`. */
  function AddRow(v: seq<int>, w: seq<int>): (r: seq<int>)
    requires |v| == |w|
    ensures |r| == |v| && AllI16(r)
    ensures forall i :: 0 <= i < |v| && IsI16(v[i] + w[i]) ==> r[i] == v[i] + w[i]
  {
    seq(|v|, i requires 0 <= i < |v| => I16(v[i] + w[i]))
  }

  /** Subtracting weight row `w` from every neuron, each result stored as `int16_t`. */
  function SubRow(v: seq<int>, w: seq<int>): (r: seq<int>)
    requires |v| == |w|
    ensures |r| == |v| && AllI16(r)
    ensures forall i :: 0 <= i < |v| && IsI16(v[i] - w[i]) ==> r[i] == v[i] - w[i]
  {
    seq(|v|, i requires 0 <= i < |v| => I16(v[i] - w[i]))
  }

  /** Subtracting a row undoes adding it, and adding undoes subtracting, despite the wrap-around. */
  lemma {:induction false} SubUndoesAdd(v: seq<int>, w: seq<int>)
    requires |v| == |w| && AllI16(v)
    ensures SubRow(AddRow(v, w), w) == v
    ensures AddRow(SubRow(v, w), w) == v
  {
    forall i | 0 <= i < |v|
      ensures SubRow(AddRow(v, w), w)[i] == v[i] && AddRow(SubRow(v, w), w)[i] == v[i]
    {
      I16AddSub(v[i], w[i]);
      I16AddSub(v[i], -w[i]);
    }
  }

  /** `accumulatorAdd`: adds row `index` of the weights to the accumulator in place. */
  method AccumulatorAdd(net: Net, values: array<int>, index: int)
    requires 0 <= index < INPUT_SIZE && values.Length == HL_SIZE
    modifies values
    ensures values[..] == AddRow(old(values[..]), net.accumulatorWeights[index])
  {
    var w := net.accumulatorWeights[index];
    for i := 0 to HL_SIZE
      invariant forall j :: 0 <= j < i ==> values[j] == I16(old(values[j]) + w[j])
      invariant forall j :: i <= j < HL_SIZE ==> values[j] == old(values[j])
    {
      values[i] := I16(values[i] + w[i]);
    }
  }

  /** `accumulatorSub`: subtracts row `index` of the weights from the accumulator in place. */
  method AccumulatorSub(net: Net, values: array<int>, index: int)
    requires 0 <= index < INPUT_SIZE && values.Length == HL_SIZE
    modifies values
    ensures values[..] == SubRow(old(values[..]), net.accumulatorWeights[index])
  {
    var w := net.accumulatorWeights[index];
    for i := 0 to HL_SIZE
      invariant forall j :: 0 <= j < i ==> values[j] == I16(old(values[j]) - w[j])
      invariant forall j :: i <= j < HL_SIZE ==> values[j] == old(values[j])
    {
      values[i] := I16(values[i] - w[i]);
    }
  }

  /** What the rebuild needs of a board: every occupied square names a piece in the mailbox. */
  predicate PiecesOnOccupied(s: BoardState)
  {
    |s.occupancies| == 3 && PiecesIn(s, s.occupancies[White]) && PiecesIn(s, s.occupancies[Black])
  }

  predicate PiecesIn(s: BoardState, pieces: Bitboard)
  {
    |s.mailbox| == 64 && forall sq :: sq in pieces ==> 0 <= sq < 64 && IsPiece(s.mailbox[sq])
  }

  /** A consistent board meets it. */
  lemma {:induction false} ConsistentHasPieces(s: BoardState)
    requires WellFormed(s) && Consistent(s)
    ensures PiecesOnOccupied(s)
  {
    forall sq | sq in s.occupancies[White]
      ensures 0 <= sq < 64 && IsPiece(s.mailbox[sq])
    {
      var p :| 0 <= p < 6 && sq in s.bitboards[p];
    }
    forall sq | sq in s.occupancies[Black]
      ensures 0 <= sq < 64 && IsPiece(s.mailbox[sq])
    {
      var p :| 6 <= p < 12 && sq in s.bitboards[p];
    }
  }

  /** The feature of the piece on `sq`, whose colour is `side`, for `perspective`. */
  function Feature(s: BoardState, perspective: int, sq: int, side: int, flip: bool): (f: int)
    requires 0 <= sq < 64 && |s.mailbox| == 64 && IsPiece(s.mailbox[sq])
    ensures 0 <= f < INPUT_SIZE
  {
    CalculateIndex(perspective, sq, GetPiece(s.mailbox[sq], White), side, flip)
  }

  /** The features of the pieces on `squares`, in order. */
  function Features(s: BoardState, squares: seq<int>, perspective: int, side: int, flip: bool): (fs: seq<int>)
    requires |s.mailbox| == 64
    requires forall k :: 0 <= k < |squares| ==> 0 <= squares[k] < 64 && IsPiece(s.mailbox[squares[k]])
    ensures |fs| == |squares|
    ensures forall k :: 0 <= k < |fs| ==> 0 <= fs[k] < INPUT_SIZE
    decreases |squares|
  {
    if squares == [] then []
    else [Feature(s, perspective, squares[0], side, flip)] + Features(s, squares[1..], perspective, side, flip)
  }

  lemma {:induction false} FeaturesCons(s: BoardState, sq: int, tail: seq<int>, perspective: int, side: int, flip: bool)
    requires |s.mailbox| == 64 && 0 <= sq < 64 && IsPiece(s.mailbox[sq])
    requires forall k :: 0 <= k < |tail| ==> 0 <= tail[k] < 64 && IsPiece(s.mailbox[tail[k]])
    ensures Features(s, [sq] + tail, perspective, side, flip)
         == [Feature(s, perspective, sq, side, flip)] + Features(s, tail, perspective, side, flip)
  {
    assert ([sq] + tail)[1..] == tail;
  }

  /** Weight `i` of feature row `f` (0 outside the network). */
  function Weight(net: Net, f: int, i: int): int
  {
    if 0 <= f < |net.accumulatorWeights| && 0 <= i < |net.accumulatorWeights[f]| then net.accumulatorWeights[f][i] else 0
  }

  /** The sum of weight `i` over the rows of `features`. */
  function ColumnSum(net: Net, features: seq<int>, i: int): int
    decreases |features|
  {
    if features == [] then 0 else Weight(net, features[0], i) + ColumnSum(net, features[1..], i)
  }

  /** The accumulator `v` after adding the rows of `features` in order. */
  function AddFeatures(net: Net, v: seq<int>, features: seq<int>): (r: seq<int>)
    requires |v| == HL_SIZE
    requires forall k :: 0 <= k < |features| ==> 0 <= features[k] < INPUT_SIZE
    ensures |r| == HL_SIZE
    decreases |features|
  {
    if features == [] then v
    else AddFeatures(net, AddRow(v, net.accumulatorWeights[features[0]]), features[1..])
  }

  /** Adding rows one after another adds their sum, wrapped once. */
  lemma {:induction false} AddFeaturesIsSum(net: Net, v: seq<int>, features: seq<int>, i: int)
    requires |v| == HL_SIZE && AllI16(v) && 0 <= i < HL_SIZE
    requires forall k :: 0 <= k < |features| ==> 0 <= features[k] < INPUT_SIZE
    ensures AddFeatures(net, v, features)[i] == I16(v[i] + ColumnSum(net, features, i))
    decreases |features|
  {
    if features != [] {
      var w := net.accumulatorWeights[features[0]];
      var v' := AddRow(v, w);
      AddFeaturesIsSum(net, v', features[1..], i);
      WrappedStep(v[i], w[i], v'[i], ColumnSum(net, features[1..], i));
    } else {
      assert IsI16(v[i]);
    }
  }

  /** The features of the pieces of `pieces`, in the order a loop popping the lowest square visits them. */
  function PieceFeatures(s: BoardState, pieces: Bitboard, perspective: int, side: int, flip: bool): (fs: seq<int>)
    requires PiecesIn(s, pieces)
    ensures |fs| == |pieces|
    ensures forall k :: 0 <= k < |fs| ==> 0 <= fs[k] < INPUT_SIZE
  {
    Features(s, Squares(pieces), perspective, side, flip)
  }

  /** Popping the lowest square takes the first feature off the list. */
  lemma {:induction false} PieceFeaturesPop(s: BoardState, pieces: Bitboard, perspective: int, side: int, flip: bool)
    requires PiecesIn(s, pieces) && pieces != {}
    ensures OnBoard(pieces)
    ensures PieceFeatures(s, pieces, perspective, side, flip)
         == [Feature(s, perspective, Ls1b(pieces), side, flip)] + PieceFeatures(s, pieces - {Ls1b(pieces)}, perspective, side, flip)
  {
    var sq := Ls1b(pieces);
    FeaturesCons(s, sq, Squares(pieces - {sq}), perspective, side, flip);
  }

  /**
   * The accumulator of `perspective` rebuilt from the biases, white pieces
   * first, then black: neuron by neuron, the bias plus the weights of every
   * occupied square's feature, stored as `int16_t`.
   */
  function Rebuilt(net: Net, s: BoardState, perspective: int, flip: bool): (r: seq<int>)
    requires PiecesOnOccupied(s)
    ensures |r| == HL_SIZE
  {
    AddFeatures(net, AddFeatures(net, net.accumulatorBiases, PieceFeatures(s, s.occupancies[White], perspective, White, flip)),
                PieceFeatures(s, s.occupancies[Black], perspective, Black, flip))
  }

  /** The features of a list of squares depend on the mailbox alone. */
  lemma {:induction false} FeaturesFrame(s: BoardState, t: BoardState, squares: seq<int>, perspective: int, side: int, flip: bool)
    requires |s.mailbox| == 64 && s.mailbox == t.mailbox
    requires forall k :: 0 <= k < |squares| ==> 0 <= squares[k] < 64 && IsPiece(s.mailbox[squares[k]])
    ensures Features(s, squares, perspective, side, flip) == Features(t, squares, perspective, side, flip)
    decreases |squares|
  {
    if squares != [] {
      FeaturesFrame(s, t, squares[1..], perspective, side, flip);
    }
  }

  /** A rebuilt accumulator depends on the mailbox and the occupancies alone, not on the keys or the accumulators. */
  lemma RebuiltFrame(net: Net, s: BoardState, t: BoardState, perspective: int, flip: bool)
    requires PiecesOnOccupied(s) && s.mailbox == t.mailbox && s.occupancies == t.occupancies
    ensures PiecesOnOccupied(t)
    ensures Rebuilt(net, s, perspective, flip) == Rebuilt(net, t, perspective, flip)
  {
    FeaturesFrame(s, t, Squares(s.occupancies[White]), perspective, White, flip);
    FeaturesFrame(s, t, Squares(s.occupancies[Black]), perspective, Black, flip);
  }

  /**
   * Each neuron of a rebuilt accumulator is its bias plus the weights of
   * both colours' features, wrapped to `int16_t` once: the order in which
   * the rows were added does not matter.
   */
  lemma RebuiltSums(net: Net, s: BoardState, perspective: int, flip: bool)
    requires PiecesOnOccupied(s)
    ensures var r := Rebuilt(net, s, perspective, flip);
      forall i :: 0 <= i < HL_SIZE ==>
        r[i] == I16(net.accumulatorBiases[i]
                    + ColumnSum(net, PieceFeatures(s, s.occupancies[White], perspective, White, flip), i)
                    + ColumnSum(net, PieceFeatures(s, s.occupancies[Black], perspective, Black, flip), i))
  {
    var fw := PieceFeatures(s, s.occupancies[White], perspective, White, flip);
    var fb := PieceFeatures(s, s.occupancies[Black], perspective, Black, flip);
    TwoBatchesSum(net, net.accumulatorBiases, fw, fb);
  }

  lemma {:induction false} WrappedStep(a: int, b: int, x: int, rest: int)
    requires x == I16(a + b)
    ensures I16(x + rest) == I16(a + (b + rest))
  {
    I16AddWrapped(a + b, rest);
  }

  /** Two batches of rows add the sum of both batches, wrapped once. */
  lemma {:induction false} TwoBatchesSum(net: Net, v: seq<int>, first: seq<int>, second: seq<int>)
    requires |v| == HL_SIZE && AllI16(v)
    requires forall k :: 0 <= k < |first| ==> 0 <= first[k] < INPUT_SIZE
    requires forall k :: 0 <= k < |second| ==> 0 <= second[k] < INPUT_SIZE
    ensures forall i :: 0 <= i < HL_SIZE ==>
      AddFeatures(net, AddFeatures(net, v, first), second)[i] == I16(v[i] + ColumnSum(net, first, i) + ColumnSum(net, second, i))
  {
    var mid := AddFeatures(net, v, first);
    AddFeaturesAllI16(net, v, first);
    forall i | 0 <= i < HL_SIZE
      ensures AddFeatures(net, mid, second)[i] == I16(v[i] + ColumnSum(net, first, i) + ColumnSum(net, second, i))
    {
      AddFeaturesIsSum(net, v, first, i);
      AddFeaturesIsSum(net, mid, second, i);
      WrappedStep(v[i], ColumnSum(net, first, i), mid[i], ColumnSum(net, second, i));
    }
  }

  lemma {:induction false} AddFeaturesAllI16(net: Net, v: seq<int>, features: seq<int>)
    requires |v| == HL_SIZE && AllI16(v)
    requires forall k :: 0 <= k < |features| ==> 0 <= features[k] < INPUT_SIZE
    ensures AllI16(AddFeatures(net, v, features))
    decreases |features|
  {
    if features != [] {
      AddFeaturesAllI16(net, AddRow(v, net.accumulatorWeights[features[0]]), features[1..]);
    }
  }

  /** The loop over one colour's pieces: pop the lowest square, add its feature. */
  method AddPiecesInPlace(net: Net, values: array<int>, s: BoardState, pieces: Bitboard, perspective: int, side: int, flip: bool)
    requires values.Length == HL_SIZE && PiecesIn(s, pieces)
    modifies values
    ensures values[..] == AddFeatures(net, old(values[..]), PieceFeatures(s, pieces, perspective, side, flip))
  {
    var remaining := pieces;
    while remaining != {}
      invariant remaining <= pieces
      invariant AddFeatures(net, values[..], PieceFeatures(s, remaining, perspective, side, flip))
             == AddFeatures(net, old(values[..]), PieceFeatures(s, pieces, perspective, side, flip))
      decreases |remaining|
    {
      var sq := Ls1b(remaining);
      PieceFeaturesPop(s, remaining, perspective, side, flip);
      AccumulatorAdd(net, values, Feature(s, perspective, sq, side, flip));
      remaining := remaining - {sq};
    }
  }

  /** Overwrites the accumulator with the biases (the `memcpy`). */
  method CopyBiases(net: Net, values: array<int>)
    requires values.Length == HL_SIZE
    modifies values
    ensures values[..] == net.accumulatorBiases
  {
    for i := 0 to HL_SIZE
      invariant values[..i] == net.accumulatorBiases[..i]
    {
      values[i] := net.accumulatorBiases[i];
    }
  }

  /** `resetAccumulators`: rebuilds both perspectives from scratch, without mirroring. */
  method ResetAccumulators(net: Net, s: BoardState, white: array<int>, black: array<int>)
    requires PiecesOnOccupied(s)
    requires white.Length == HL_SIZE && black.Length == HL_SIZE && white != black
    modifies white, black
    ensures white[..] == Rebuilt(net, s, White, false)
    ensures black[..] == Rebuilt(net, s, Black, false)
  {
    CopyBiases(net, white);
    CopyBiases(net, black);
    AddPiecesInPlace(net, white, s, s.occupancies[White], White, White, false);
    AddPiecesInPlace(net, black, s, s.occupancies[White], Black, White, false);
    AddPiecesInPlace(net, white, s, s.occupancies[Black], White, Black, false);
    AddPiecesInPlace(net, black, s, s.occupancies[Black], Black, Black, false);
  }

  /** `resetWhiteAccumulator`: rebuilds White's perspective only; Black's accumulator is not touched. */
  method ResetWhiteAccumulator(net: Net, s: BoardState, white: array<int>, flipFile: bool)
    requires PiecesOnOccupied(s) && white.Length == HL_SIZE
    modifies white
    ensures white[..] == Rebuilt(net, s, White, flipFile)
  {
    CopyBiases(net, white);
    AddPiecesInPlace(net, white, s, s.occupancies[White], White, White, flipFile);
    AddPiecesInPlace(net, white, s, s.occupancies[Black], White, Black, flipFile);
  }

  /** `resetBlackAccumulator`: rebuilds Black's perspective only; White's accumulator is not touched. */
  method ResetBlackAccumulator(net: Net, s: BoardState, black: array<int>, flipFile: bool)
    requires PiecesOnOccupied(s) && black.Length == HL_SIZE
    modifies black
    ensures black[..] == Rebuilt(net, s, Black, flipFile)
  {
    CopyBiases(net, black);
    AddPiecesInPlace(net, black, s, s.occupancies[White], Black, White, flipFile);
    AddPiecesInPlace(net, black, s, s.occupancies[Black], Black, Black, flipFile);
  }
}
