# Laminar core, modelled in Dafny

Laminar is a UCI chess engine written in C++. This project models its core in Dafny and proves
properties of the model:

- the board (twelve piece bitboards, three occupancy sets, a 64-square mailbox, side to move,
  en-passant square, castling rights, the half-move clock, four Zobrist keys and the NNUE
  accumulator pair);
- FEN parsing and printing;
- the leaper and slider attack sets;
- pseudo-legal move generation and the legality filter;
- making and unmaking moves, with the incremental Zobrist keys and the null move;
- the static exchange evaluator (SEE);
- the history and correction-history tables;
- move ordering;
- the transposition-table entry packing and the mate-score adjustment;
- the NNUE accumulator and forward pass;
- the rule-based parts of the search: threefold repetition, insufficient material, copy-make
  restore, the transposition-table cutoff, the score when no move is legal, the
  principal-variation splice and the aspiration window;
- the UCI text helpers (trimming, splitting into words, labelled values) and the hard time
  limit;
- `perft`.

Conventions of the model:

- A bitboard is a `set<int>` of squares 0..63, with a8 = 0 and h1 = 63, as in `Const.h`.
  The operators `&`, `|`, `^` and `~` become set operations, a shift becomes a translation that
  drops squares falling off the board, `get_ls1b` becomes the minimum and `count_bits` the
  cardinality.
- Zobrist keys are naturals below 2^64, combined with a bitwise XOR on naturals (`BitXor`); the
  xorshift generator that draws them works on 32-bit vectors.
- C++ integer semantics are written out in `CppInt`: truncating division (`Quot`), `int16_t`
  and `uint8_t` wrap-around (`I16`, `U8`) and bit operations on non-negative integers.
- The `Board` object, the `MoveList` buffer, the history tables and the transposition table are
  classes whose methods update their fields in place. Each of these methods is proved against a
  function of the old state (`Board.State()` returns the whole position as a value).
- Pure helpers are functions, and loops are methods with invariants.
- Tuning constants from `Tuneables.h` are parameters or named constants.
- The network weights are parameters, and I/O is left out.

## Model

| member | source | states |
|---|---|---|
| CppInt.Clamp | Laminar/History.cpp:11 | `std::clamp` yields a value in `[lo, hi]`: the input itself when it is in range, otherwise the bound it crossed |
| CppInt.Quot | Laminar/History.cpp:12 | C++ `/` truncates toward zero: the remainder is zero or has the dividend's sign, and it is smaller than the divisor in magnitude |
| CppInt.QuotMonotone | Laminar/History.cpp:12 | truncating division by a positive divisor is monotone in the dividend |
| CppInt.I16 | Laminar/History.cpp:12 | storing into `int16_t` gives an `int16_t` value congruent to the input modulo 2^16, and the input itself when it fits |
| CppInt.U8 | Laminar/Movegen.cpp:718 | `static_cast<uint8_t>` gives a value in 0..255, and the input itself when it fits |
| CppInt.I16AddSub | Laminar/Accumulator.cpp:121-131 | adding a weight to an `int16_t` value and subtracting it again, both with wrap-around, gives the start value back |
| CppInt.I16AddWrapped | Laminar/Accumulator.cpp:121-131 | wrapping after every `+=` or only once at the end gives the same `int16_t` |
| CppInt.XorInvolutive | Laminar/Movegen.cpp:1206-1209 | `(a ^ b) ^ b == a`, so XOR-ing a key in twice removes it |
| CppInt.XorAssoc | Laminar/Movegen.cpp:1206-1209 | XOR is associative |
| CppInt.XorComm | Laminar/Movegen.cpp:1206-1209 | XOR is commutative |
| CppInt.XorSelf | Laminar/Movegen.cpp:1206-1209 | `a ^ a == 0` |
| CppInt.XorSeven | Laminar/Accumulator.cpp:100-103 | `flipHorizontal` (`^ 7`) maps file `f` to `7 - f` and keeps the rank |
| CppInt.XorFiftySix | Laminar/Accumulator.cpp:104-107 | `flipSquare` (`^ 56`) keeps the file and applies `^ 7` to the rank |
| CppInt.OrDisjointIsSum | Laminar/Transpositions.h:19 | `a \| b` is `a + b` when the operands share no bit, as the packed fields of a `Move16` do |
| CppInt.ShiftedDisjoint | Laminar/Transpositions.h:19 | a value shifted left by `k` shares no bit with a value below `2^k` |
| CppInt.BitAndBit | Laminar/Const.h:37-55 | bit `k` of `a & b` is set exactly when it is set in both |
| CppInt.BitOrBit | Laminar/Board.cpp:99-114 | bit `k` of `a \| b` is set exactly when it is set in either |
| CppInt.BitXorBit | Laminar/Movegen.cpp:1206-1209 | bit `k` of `a ^ b` is set exactly when it is set in exactly one |
| CppInt.BitsEqual | Laminar/Movegen.cpp:1206-1209 | two non-negative numbers with the same bits are equal |
| Limits.LimitsOrdered | Laminar/Search.cpp:935 | the assumed limits are ordered: `0 < MAXPLY < MATESCORE < MAXSCORE`, mate scores lie above 0, and the correction-history sizes are positive and fit `int16_t` |
| Consts.GetPiece | Laminar/Const.h:67-70 | `get_piece(piece, col)` is a piece of the same kind (the same value modulo 6), white for colour 0 and six higher for colour 1 |
| Consts.GetPieceIdempotent | Laminar/Const.h:67-70 | recolouring a piece into the colour it already has changes nothing |
| Consts.ColourOf | Laminar/History.cpp:33 | the colour the engine reads from `Piece <= 5` is the colour that `get_piece` maps the piece back to itself under |
| Consts.PromotionCodes | Laminar/Const.h:37-55 | the promotion codes are exactly the move types with the promotion flag, and each promotion-capture code is its promotion code plus the capture flag |
| Consts.MoveTypeCodesDistinct | Laminar/Const.h:42-55 | the fourteen move-type codes are pairwise distinct and fit in four bits |
| Consts.CastleFlagsAreBits | Laminar/Const.h:28-31 | the four castling flags are the bits 1, 2, 4 and 8, and together they make 15 |
| Consts.TypeFlagBits | Laminar/Ordering.cpp:13-28 | on a four-bit type: the promotion flag test holds from code 8 on, the capture flag test holds for codes 4-7 and 12-15, the noisy test holds from code 4 on, and the `ep_capture` mask test holds for odd codes and capture codes |
| Bitboards.Complement | Laminar/Movegen.cpp:2735-2788 | `~b` on the board holds exactly the squares that are not in `b` |
| Bitboards.Xor | Laminar/Movegen.cpp:1528-2299 | `a ^ b` holds exactly the squares in one of the two |
| Bitboards.Ls1b | Laminar/Bit.cpp:9 | `get_ls1b` of a non-empty bitboard is one of its squares, and no square of it is lower |
| Bitboards.Squares | Laminar/Bit.cpp:7-16 | the squares a pop-the-lowest loop visits: each square of `b` once, in increasing order |
| Bitboards.SquaresComplete | Laminar/Bit.cpp:7-16 | every square of `b` is visited by that loop |
| Moves.SameMove | Laminar/Movegen.h:62-65 | `operator==` holds exactly when the four fields agree, which is equality of the move values |
| Moves.DifferentMove | Laminar/Movegen.h:66-69 | `operator!=` is the negation of `operator==`: some field differs |
| Moves.MoveList.constructor | Laminar/Movegen.h:71-75 | a new list has a 256-slot buffer and holds no moves |
| Moves.MoveList.Clear | Laminar/Movegen.h:76-79 | the list becomes empty, and the buffer keeps its old moves |
| Moves.MoveList.Add | Laminar/Movegen.h:80-84 | below 256 moves the list grows by exactly the new move at its end; a full list, and every slot past the count, is left untouched |
| Moves.GetFile | Laminar/Movegen.h:86-89 | the file is `square % 8`, in 0..7, and the square decomposes as `8 * row + file` |
| Moves.GetRank | Laminar/Movegen.h:91-94 | the rank is `7 - square / 8` (a8, which the source special-cases, has rank 7 by either formula) and is in 0..7 on the board |
| Text.NatToString | Laminar/Board.cpp:97 | `std::to_string` of a non-negative number is a non-empty string of digits without a leading zero |
| Text.DigitsOfNatToString | Laminar/Board.cpp:97 | reading back the digits `std::to_string` wrote gives the number |
| Chessboard.GetPieceFromChar | Laminar/Board.cpp:9-40 | the twelve FEN letters map to their pieces, and every other character maps to -1 |
| Chessboard.GetCharFromPiece | Laminar/Board.cpp:42-73 | every piece maps to its FEN letter, which `getPieceFromChar` maps back, and any other value to the character -1 |
| Chessboard.CharPieceRoundTrip | Laminar/Board.cpp:9-73 | letter to piece to letter is the identity on the twelve piece letters |
| Chessboard.CoordinatesToChessNotation | Laminar/Board.cpp:90-98 | a square's name is its file letter followed by its rank digit `8 - square / 8` |
| Chessboard.FileIndex | Laminar/Movegen.cpp:284-348 | `GetSquare`'s file switch maps 'a'..'h' to 0..7 and anything else to -1 |
| Chessboard.RankIndex | Laminar/Movegen.cpp:284-348 | `GetSquare`'s rank switch maps '1'..'8' to rows 7..0 and anything else to -1 |
| Chessboard.GetSquare | Laminar/Movegen.cpp:284-348 | a well-formed name gives the square on its file and row, and a missing or bad rank digit gives a negative result |
| Chessboard.SquareNameRoundTrip | Laminar/Movegen.cpp:284-348 | `GetSquare` reads back every name that `CoordinatesToChessNotation` writes |
| Chessboard.SquareNameUnique | Laminar/Board.cpp:90-98 | every well-formed square name is the name of the square read from it |
| Chessboard.GetCastle | Laminar/Board.cpp:99-114 | `get_castle` collects the four castling bits, which is the rights value modulo 16 |
| Chessboard.CastleIndex | Laminar/Board.cpp:99-114 | the four flag tests, weighted 1, 2, 4 and 8, add up to the low nibble of the rights |
| Chessboard.Board.constructor | Laminar/Board.cpp:74-89 | the new board has empty bitboards and occupancies, White to move, no en-passant square, no rights, zero clocks and keys (the minor key included) and an empty history; the `memset` mailbox holds code 0, the white pawn, on every square, so the fresh board is not `Consistent` until a position is loaded |
| Chessboard.PiecesUnion | Laminar/Movegen.cpp:1528-2299 | a square is in the union exactly when one of the selected piece bitboards holds it |
| Evaluation.TotalMat | Laminar/Evaluation.cpp:18-27 | `total_mat` returns an `int16_t`, which is the material count (100, 300, 300, 500 and 900 per piece kind) whenever that fits |
| Evaluation.TotalMatNonNegative | Laminar/Evaluation.cpp:18-27 | with at most 36 non-king pieces the material fits `int16_t`, is non-negative and is at most 900 per piece |
| Evaluation.TotalMatColourBlind | Laminar/Evaluation.cpp:18-27 | exchanging the colours of all pieces leaves the material unchanged |
| Evaluation.Perspectives | Laminar/Evaluation.cpp:36-39 | the side to move's accumulator is passed first, and the other side's second |
| Evaluation.Evaluate | Laminar/Evaluation.cpp:33-41 | the score is the network output with the side to move's accumulator as `stm` |
| CopyMakeState.SaveCopyMakeInfo | Laminar/Search.cpp:159-172 | the record holds the captured piece on the target square and the board's en-passant square, rights, side, keys, clock and last irreversible ply |
| CopyMakeState.ApplyCopyMake | Laminar/Search.cpp:173-186 | every saved scalar field and the saved accumulator are restored, and the pieces, mailbox and history are left as they are |
| Accumulator.FlipHorizontal | Laminar/Accumulator.cpp:100-103 | `square ^ 7` keeps the row and mirrors the file (`7 - file`) |
| Accumulator.FlipSquare | Laminar/Accumulator.cpp:104-107 | `square ^ 56` keeps the file and mirrors the row (`7 - row`), staying on the board |
| Accumulator.FlipsAreInvolutions | Laminar/Accumulator.cpp:100-107 | each flip applied twice gives the square back |
| Accumulator.CalculateIndex | Laminar/Accumulator.cpp:108-120 | the feature index is below 768; its block of 64 is `6 * (side != perspective) + pieceType`; within the block the row is mirrored for White's perspective only and the file is mirrored exactly when `mirror` is set |
| Accumulator.IndexColourSymmetry | Laminar/Accumulator.cpp:108-120 | a piece seen from White is the same feature as the colour-swapped piece on the vertically flipped square seen from Black |
| Accumulator.IndexMirror | Laminar/Accumulator.cpp:108-120 | mirroring the file changes the index by `^ 7` |
| Accumulator.AddRow | Laminar/Accumulator.cpp:121-125 | each `int16_t` value gains its weight, with wrap-around, and is the plain sum whenever that fits |
| Accumulator.SubRow | Laminar/Accumulator.cpp:127-131 | each `int16_t` value loses its weight, with wrap-around, and is the plain difference whenever that fits |
| Accumulator.SubUndoesAdd | Laminar/Accumulator.cpp:121-131 | `accumulatorSub` undoes `accumulatorAdd` and the other way round, wrap-around included |
| Accumulator.AccumulatorAdd | Laminar/Accumulator.cpp:121-125 | the array afterwards is `AddRow` of its old contents and the feature's weight row |
| Accumulator.AccumulatorSub | Laminar/Accumulator.cpp:127-131 | the array afterwards is `SubRow` of its old contents and the feature's weight row |
| Accumulator.ConsistentHasPieces | Laminar/Accumulator.cpp:8-9 | on a consistent board every occupied square holds a piece in the mailbox, so each feature index is defined |
| Accumulator.AddFeaturesIsSum | Laminar/Accumulator.cpp:14-40 | adding a list of features one after the other gives, per neuron, the start value plus the column sum of the weights, wrapped once into `int16_t` |
| Accumulator.TwoBatchesSum | Laminar/Accumulator.cpp:14-40 | the white-pieces loop followed by the black-pieces loop adds both column sums |
| Accumulator.PieceFeaturesPop | Laminar/Accumulator.cpp:14-27 | the loop's features are the lowest square's feature followed by the features of the rest |
| Accumulator.RebuiltSums | Laminar/Accumulator.cpp:6-41 | a rebuilt accumulator is, per neuron, the bias plus the weights of every white piece's and every black piece's feature, wrapped into `int16_t` |
| Accumulator.RebuiltFrame | Laminar/Accumulator.cpp:6-41 | the rebuild depends only on the mailbox and the occupancies |
| Accumulator.AddPiecesInPlace | Laminar/Accumulator.cpp:49-60 | the pop-the-lowest loop adds exactly the features of the given pieces to the array |
| Accumulator.CopyBiases | Laminar/Accumulator.cpp:11-12 | the `memcpy` leaves the array equal to the biases |
| Accumulator.ResetAccumulators | Laminar/Accumulator.cpp:6-41 | both accumulators become the rebuild of the board from their own perspective, unmirrored |
| Accumulator.ResetWhiteAccumulator | Laminar/Accumulator.cpp:42-72 | the white accumulator becomes the rebuild from White's perspective with the given file mirroring |
| Accumulator.ResetBlackAccumulator | Laminar/Accumulator.cpp:73-99 | the black accumulator becomes the rebuild from Black's perspective with the given file mirroring |
| Nnue.SCReLU | Laminar/NNUE.cpp:64-68 | the clamped value squared: `value^2` inside `[min, max]`, otherwise the square of the bound crossed |
| Nnue.Activation | Laminar/NNUE.cpp:70-73 | zero at or below 0, `QA^2` at or above `QA`, the square in between |
| Nnue.ActivationMonotone | Laminar/NNUE.cpp:64-73 | the activation is monotone |
| Nnue.InactiveSumIsZero | Laminar/NNUE.cpp:74-83 | with no positive neuron the weighted sum is zero |
| Nnue.AutovecScrelu | Laminar/NNUE.cpp:74-83 | the loop's `int32_t` total is the weighted sum of both accumulators' activations, provided every partial sum fits `int32_t` |
| Nnue.ScaledMonotone | Laminar/NNUE.cpp:93-97 | the output scaling (`/ QA`, `+ bias`, `* SCALE`, `/ (QA * QB)`, all truncating) is monotone in the sum |
| Nnue.InactiveForward | Laminar/NNUE.cpp:85-100 | with no positive neuron the evaluation is the scaled output bias alone |
| Nnue.Forward | Laminar/NNUE.cpp:85-100 | `forward` returns the specification value: the weighted activation sum, divided, biased and scaled with C++ truncation |
| Nnue.LittleEndianRoundTrip | Laminar/NNUE.cpp:16-35 | encoding a value into `n` little-endian bytes and reading them back gives the value |
| Nnue.LittleEndianBound | Laminar/NNUE.cpp:16-35 | `n` bytes read little-endian give a value below `2^(8n)` |
| Nnue.AssembleBytes | Laminar/NNUE.cpp:28-29 | the byte loop builds the little-endian value of the bytes |
| Nnue.ReadLittleEndian | Laminar/NNUE.cpp:16-35 | the result is the two's-complement reading of the bytes, within the signed range of their width |
| Attacks.RayWalk | Laminar/Movegen.cpp:403-444 | one direction of the ray loop: the squares from the first step on, stopping after the first blocker or at the edge of the box |
| Attacks.RayContains | Laminar/Movegen.cpp:403-487 | the `j`-th square of a ray is attacked exactly when every square up to it is inside the box and none before it is blocked |
| Attacks.RayInsideBox | Laminar/Movegen.cpp:403-487 | every square a ray reaches lies inside its box, and a horizontal or vertical ray keeps to its own rank or file |
| Attacks.CalculateRookAttack | Laminar/Movegen.cpp:403-444 | the four orthogonal rays on the whole board, each stopping at its first blocker, make up `RookAttacks` |
| Attacks.CalculateBishopAttack | Laminar/Movegen.cpp:446-487 | the four diagonal rays make up `BishopAttacks` |
| Attacks.MaskRookAttack | Laminar/Movegen.cpp:377-402 | the relevant-occupancy mask is the unblocked orthogonal rays without their edge squares |
| Attacks.MaskBishopAttack | Laminar/Movegen.cpp:350-375 | the relevant-occupancy mask is the unblocked diagonal rays inside the inner 6x6 square |
| Attacks.QueenAttacks | Laminar/Movegen.cpp:633-651 | queen attacks are the union of rook and bishop attacks from the same square |
| Attacks.SlidersExcludeOrigin | Laminar/Movegen.cpp:403-487 | no slider attacks its own square |
| Attacks.SlidersSymmetric | Laminar/Movegen.cpp:403-487 | for a fixed occupancy, `x` is in the rook (bishop) attacks from `sq` exactly when `sq` is in those from `x` |
| Attacks.RookReverse | Laminar/Movegen.cpp:403-444 | a rook ray from `sq` to `x` runs back from `x` to `sq` |
| Attacks.BishopReverse | Laminar/Movegen.cpp:446-487 | a bishop ray from `sq` to `x` runs back from `x` to `sq` |
| Attacks.BishopMaskInsideEdge | Laminar/Movegen.cpp:350-375 | every square of the bishop mask is off the board's edge |
| Attacks.RookMaskInsideEdge | Laminar/Movegen.cpp:377-402 | every square of the rook mask is off the edge along its own line, and is not the origin |
| Attacks.Leap | Laminar/Movegen.cpp:527-604 | a shifted bitboard masked against file wrap-around stays on the board |
| Attacks.LeapStep | Laminar/Movegen.cpp:527-604 | a shift by `8 * dr + df` with the source's wrap mask (`NotAFile`, `NotHFile`, `NotABFile`, `NotHGFile`) hits exactly the square `dr` rows and `df` files away |
| Attacks.KnightAttacksAreJumps | Laminar/Movegen.cpp:551-577 | the knight table of a square holds exactly the squares a (2,1) or (1,2) jump away |
| Attacks.KingAttacksAreNeighbours | Laminar/Movegen.cpp:578-604 | the king table of a square holds exactly its up to eight neighbours |
| Attacks.PawnAttacksAreDiagonal | Laminar/Movegen.cpp:527-549 | a pawn attacks the two squares one row ahead (up for White, down for Black) and one file aside |
| Attacks.PawnAttacksMirror | Laminar/Movegen.cpp:527-549 | a white pawn on `sq` attacks `x` exactly when a black pawn on `x` attacks `sq` |
| Attacks.LeapersSymmetric | Laminar/Movegen.cpp:551-604 | knight and king attacks are symmetric relations |
| Attacks.SliderLookups | Laminar/Movegen.cpp:616-632 | under `SlidersAgree`, the magic lookups `get_bishop_attacks` and `get_rook_attacks` return the ray-walk attacks |
| Attacks.InitializeLeaper | Laminar/Movegen.cpp:605-615 | the loop fills the pawn, knight and king tables with their defining attack sets for all 64 squares, and leaves the slider lookups alone |
| Occupancy.SetOccupancy | Laminar/Bit.cpp:3-18 | the loop pops the mask's squares lowest first and keeps square `k` exactly when bit `k` of `index` is set |
| Occupancy.PopLowest | Laminar/Bit.cpp:8-15 | popping the least significant bit of a mask removes the first of its squares in ascending order |
| Occupancy.SelectedWithin | Laminar/Bit.cpp:3-18 | an occupancy built from a square list holds only squares of that list |
| Occupancy.SelectedAt | Laminar/Bit.cpp:3-18 | with distinct squares, square `k` of the list is in the occupancy exactly when bit `k` of `index` is set |
| Occupancy.SetOccupancyWithinMask | Laminar/Bit.cpp:3-18 | every occupancy variation is a subset of its attack mask |
| Occupancy.IndexZeroIsEmpty | Laminar/Bit.cpp:3-18 | index 0 selects the empty occupancy |
| Occupancy.IndexAllOnesIsMask | Laminar/Bit.cpp:3-18 | index `2^n - 1` over all `n` bits of the mask selects the whole mask |
| Occupancy.IndexInjective | Laminar/Bit.cpp:3-18 | distinct indices below `2^n` select distinct occupancies, so the slider tables built from them have one entry per blocker pattern |
| Placement.ConsistentAgrees | Laminar/Board.h:14-16 | a well-formed board's bitboards, occupancies and mailbox are consistent exactly when they agree square by square |
| Placement.UnionsAgree | Laminar/Board.h:14-16 | when they agree, each colour's occupancy is the union of that colour's six piece bitboards |
| Placement.AgreesUnique | Laminar/Board.h:14-16 | the mailbox determines the bitboards and occupancies that agree with it |
| Placement.BitsUnique | Laminar/Board.h:14-16 | the mailbox determines the piece bitboards that agree with it |
| Placement.TakeAgrees | Laminar/Movegen.cpp:1711-1720 | clearing a square's bit in its piece's bitboard and in its colour's occupancies keeps agreement with the mailbox emptied there |
| Placement.PutAgrees | Laminar/Movegen.cpp:1711-1722 | setting a square's bit in a piece's bitboard and occupancies keeps agreement with the mailbox holding that piece there |
| Zobrist.XorShiftKeepsNonZero | Laminar/Movegen.cpp:160-176 | the xorshift step never reaches zero from a nonzero state |
| Zobrist.AdvanceAdd | Laminar/Movegen.cpp:160-176 | `a` steps followed by `b` steps are `a + b` steps |
| Zobrist.AdvanceNonZero | Laminar/Movegen.cpp:160-176 | the generator never gets stuck at zero from a nonzero seed |
| Zobrist.AssembleSlices | Laminar/Movegen.cpp:178-190 | the 64-bit number holds the low 16 bits of the four draws in its four 16-bit slices, first draw lowest |
| Zobrist.RandomState.constructor | Laminar/Movegen.cpp:20 | the generator state starts at the seed |
| Zobrist.RandomState.GetRandomU32 | Laminar/Movegen.cpp:160-176 | the state advances by one xorshift step and the new state is the number returned |
| Zobrist.RandomState.GetRandomU64 | Laminar/Movegen.cpp:178-190 | four 32-bit draws advance the state by four steps and are assembled into the 64-bit number |
| Zobrist.NextKeyNumber | Laminar/Movegen.cpp:192-215 | drawing key `i + 1` starts where key `i` left the generator |
| Zobrist.DrawKeys | Laminar/Movegen.cpp:196-212 | a run of `n` draws yields keys `start` to `start + n - 1` of the seed's key sequence and leaves the generator after them |
| Zobrist.DrawPieceKeys | Laminar/Movegen.cpp:196-202 | the piece keys are the first 768 keys of the sequence, piece-major |
| Zobrist.DrawAllKeys | Laminar/Movegen.cpp:196-214 | piece keys, then 64 en-passant keys, then 16 castling keys, then the side key, in that order of the sequence |
| Zobrist.InitRandomKeys | Laminar/Movegen.cpp:192-215 | the key tables are the fixed sequence drawn from seed 1804289383, so every run gets the same keys |
| Zobrist.XorSwapRight | Laminar/Movegen.cpp:1206-1209 | XORing keys in does not depend on the order |
| Zobrist.XorSwapLeft | Laminar/Movegen.cpp:1206-1209 | XORing keys in does not depend on the order |
| Zobrist.XorCancel | Laminar/Movegen.cpp:1206-1209 | XORing a key in and out again restores the hash |
| Zobrist.Flip | Laminar/Movegen.cpp:1206-1259 | toggling a square in a bitboard changes that square and no other |
| Zobrist.SquaresHashToggle | Laminar/Movegen.cpp:243-273 | the hash of a bitboard is the key of any one square XORed with the hash of the rest |
| Zobrist.LowestAfterRemoval | Laminar/Movegen.cpp:250-260 | removing a square other than the lowest keeps the lowest |
| Zobrist.PiecesHashToggle | Laminar/Movegen.cpp:243-273 | toggling one piece on one square XORs that piece-square key into the piece part of the hash |
| Zobrist.SquaresHashFlip | Laminar/Movegen.cpp:1206-1259 | toggling a square XORs its key into the bitboard's hash |
| Zobrist.HashOfFlip | Laminar/Movegen.cpp:1206-1259 | toggling a piece on a square XORs exactly that piece-square key into the full hash |
| Zobrist.HashOfEp | Laminar/Movegen.cpp:1351-1354 | XORing a key into the en-passant part XORs it into the hash |
| Zobrist.HashOfCastle | Laminar/Movegen.cpp:1300-1350 | XORing a key into the castling part XORs it into the hash |
| Zobrist.HashOfSide | Laminar/Movegen.cpp:1355 | XORing a key into the side part XORs it into the hash |
| Zobrist.PawnOfFlip | Laminar/Movegen.cpp:216-241 | toggling a pawn changes the pawn hash by its key, and toggling any other piece leaves the pawn hash alone |
| Zobrist.XorSquares | Laminar/Movegen.cpp:243-273 | the pop-lowest loop over a bitboard XORs together the keys of exactly its squares |
| Zobrist.GenerateHashKey | Laminar/Movegen.cpp:243-273 | the from-scratch hash is the XOR of the piece-square keys of every piece, the en-passant key when a square is set, the castling key of the rights and the side key when Black moves |
| Zobrist.GeneratePawnKey | Laminar/Movegen.cpp:216-241 | the from-scratch pawn hash is the XOR of the keys of the pawns of both colours |
| Zobrist.SideFlipHash | Laminar/Movegen.cpp:1513-1522 | switching the side to move changes the full hash by exactly the side key |
| Zobrist.EpClearHash | Laminar/Movegen.cpp:1513-1522 | clearing the en-passant square changes the full hash by exactly that square's key |
| HashUpdate.Toggle | Laminar/Movegen.cpp:1210-1259 | toggling a piece on a square changes that bit and no other bit of the twelve bitboards |
| HashUpdate.ToggleTake | Laminar/Movegen.cpp:1357-1358 | toggling the piece that stands on a square keeps the bitboards in agreement with the mailbox emptied there |
| HashUpdate.TogglePut | Laminar/Movegen.cpp:1359 | toggling a piece onto an empty square keeps agreement with the mailbox holding it there |
| HashUpdate.ToggleCommute | Laminar/Movegen.cpp:1357-1510 | toggles of different pieces commute |
| HashUpdate.ToggleTwice | Laminar/Movegen.cpp:1357-1510 | toggling twice undoes the toggle |
| HashUpdate.ZobristBoardsAgree | Laminar/Movegen.cpp:1357-1510 | the toggles the hash update makes, applied to the bitboards, give the bitboards of the position after the move |
| HashUpdate.CastleBoardsAgree | Laminar/Movegen.cpp:1445-1502 | for castling, the king and rook toggles give the bitboards after the move |
| HashUpdate.EnPassantBoardsAgree | Laminar/Movegen.cpp:1419-1429 | for en passant, removing the pawn behind the target square gives the bitboards after the move |
| HashUpdate.PromotionBoardsAgree | Laminar/Movegen.cpp:1503-1511 | for promotions, swapping the pawn on the target square for the promoted piece gives the bitboards after the move |
| HashUpdate.PlainBoardsAgree | Laminar/Movegen.cpp:1357-1443 | for every other move, the mover and capture toggles give the bitboards after the move |
| HashUpdate.TrackEp | Laminar/Movegen.cpp:1351-1354 | XORing a key into the hash keeps it tracking the trace with that key XORed into its en-passant part |
| HashUpdate.TrackCastle | Laminar/Movegen.cpp:1300-1350 | the same for the castling part |
| HashUpdate.TrackSide | Laminar/Movegen.cpp:1355 | the same for the side part |
| HashUpdate.XorPieceZobrist | Laminar/Movegen.cpp:1210-1259 | XORing a piece-square key into both keys (the pawn key only for pawns) is a toggle of that piece in the traced bitboards |
| HashUpdate.RekeyCastle | Laminar/Movegen.cpp:1300-1350 | swapping the old rights' key for the new rights' key moves the trace's castling part to the new rights |
| HashUpdate.ZobristOwnRights | Laminar/Movegen.cpp:1300-1350 | a king move or a rook move from its home corner takes away the mover's own rights, in the hash as in `OwnRightsAfter` |
| HashUpdate.ZobristCapturedRook | Laminar/Movegen.cpp:1373-1418 | capturing a rook on its home corner takes away the opponent's right on that side, in the hash as in `CapturedRightsAfter` |
| HashUpdate.ZobristCapture | Laminar/Movegen.cpp:1371-1443 | a capture updates the rights and removes the victim, from the target square or from behind it for en passant |
| HashUpdate.ZobristMovePiece | Laminar/Movegen.cpp:1357-1359 | the mover is toggled off its origin and onto its target |
| HashUpdate.ZobristPassed | Laminar/Movegen.cpp:1360-1370 | a double push sets the en-passant part to the square behind the pawn; other moves leave it empty |
| HashUpdate.ZobristTurn | Laminar/Movegen.cpp:1351-1355 | the old en-passant key is removed and the side key is toggled |
| HashUpdate.ZobristMover | Laminar/Movegen.cpp:1290-1370 | the mover's part of the update leaves the trace with the mover moved, the new en-passant square, the rights after the mover's own move and the other side to move |
| HashUpdate.ZobristRook | Laminar/Movegen.cpp:1445-1502 | castling moves its rook from the corner to the square beside the king |
| HashUpdate.ZobristPromotion | Laminar/Movegen.cpp:1503-1511 | a promotion replaces the pawn on the target square with the promoted piece |
| HashUpdate.ZobristMoveAndCapture | Laminar/Movegen.cpp:1290-1443 | the first half of the update leaves the trace at the moved, captured bitboards with the final en-passant, castling and side parts |
| HashUpdate.FittingSquares | Laminar/Movegen.cpp:1419-1502 | for a move that fits the mailbox, the rook of a castle and the victim of a capture are pieces on the board |
| HashUpdate.ZobristPieceChanges | Laminar/Movegen.cpp:1445-1511 | the second half applies the castling-rook and promotion toggles |
| HashUpdate.ZobristSections | Laminar/Movegen.cpp:1285-1512 | the whole update leaves the trace at the bitboards, en-passant square, rights and side of the position after the move |
| HashUpdate.UpdateZobrist | Laminar/Movegen.cpp:1285-1512 | the incremental update moves both keys from the hash of the position before the move to the hash of the position after it, keeping any offset a key had, and changes nothing else |
| MoveRules.TypeFlags | Laminar/Ordering.cpp:21-24 | a move type is a capture exactly when it has the capture flag, and a promotion exactly when it has the promotion flag; the codes 6 and 7 are unused |
| MoveRules.GetPromotingPiece | Laminar/Movegen.cpp:1260-1284 | a promotion type yields the promoted piece in the mover's colour; any other type yields no piece |
| MoveRules.CaptureSquare | Laminar/Movegen.cpp:2257-2265 | the victim stands on the target square, except for en passant, where it stands one row behind it (below for White, above for Black) |
| MoveRules.CastleRookSquare | Laminar/Movegen.cpp:1798-1893 | the castling rook starts in the mover's home-rank corner, on the h-file for the king side and the a-file for the queen side |
| MoveRules.CastleGeometry | Laminar/Movegen.cpp:1798-1893 | the king moves two files from its home square, the rook lands on the square it passes over, and all three squares lie on the home rank, in order |
| MoveRules.PlacedPiece | Laminar/Movegen.cpp:1894-2254 | the piece left on the target square is the mover, or for a promotion the promoted piece of the mover's colour |
| MoveRules.MailboxAfterFrame | Laminar/Movegen.cpp:1676-2299 | making a move empties the origin, puts the placed piece on the target, and leaves every square it does not touch as it was |
| MoveRules.MailboxAfterCaptures | Laminar/Movegen.cpp:1676-2299 | a move removes at most one opposing piece, the one on its capture square, and never one of the mover's own |
| MoveRules.CastleCapturesNothing | Laminar/Movegen.cpp:1798-1893 | castling removes no piece |
| MoveRules.EnPassantCapturesOne | Laminar/Movegen.cpp:2255-2296 | en passant removes exactly the pawn behind the target square |
| MoveRules.PlainCapturesAtMostOne | Laminar/Movegen.cpp:1676-1797 | any other move removes at most the piece on the target square |
| MoveRules.UnmoveFitsAfterMake | Laminar/Movegen.cpp:2301-2628 | after a move, the position and the captured piece meet what unmaking that move needs |
| MoveRules.UnmakeAfterMake | Laminar/Movegen.cpp:2301-2628 | unmaking a move with the piece it captured restores the mailbox exactly |
| MoveRules.UnmakeCastle | Laminar/Movegen.cpp:2301-2628 | the same for castling |
| MoveRules.UnmakeEnPassant | Laminar/Movegen.cpp:2301-2628 | the same for en passant |
| MoveRules.UnmakePlain | Laminar/Movegen.cpp:2301-2628 | the same for every other move |
| MoveRules.MaskBit | Laminar/Movegen.cpp:1642-1673 | the complement mask `~flag` within four bits has every castling bit except `flag` |
| MoveRules.ClearRightBit | Laminar/Movegen.cpp:1642-1673 | `castle &= ~flag` removes right `flag` and keeps every other right |
| MoveRules.ClearRight | Laminar/Movegen.cpp:1642-1673 | clearing a right stays a four-bit rights value and keeps exactly the other rights |
| MoveRules.OwnRightsAfter | Laminar/Movegen.cpp:1638-1675 | the mover's rights update stays a four-bit rights value |
| MoveRules.CapturedRightsAfter | Laminar/Movegen.cpp:1735-1766 | the captured-rook rights update stays a four-bit rights value |
| MoveRules.CastleAfterMeaning | Laminar/Movegen.cpp:1638-1766 | a right survives a move exactly when it was held and the move neither moves its king, nor moves its rook off its corner, nor captures a rook on its corner |
| MoveRules.EpAfter | Laminar/Movegen.cpp:1631-1634 | every move other than a double push clears the en-passant square |
| MoveRules.EpAfterIsPassedSquare | Laminar/Movegen.cpp:1679-1708 | after a double push, the en-passant square is the square the pawn passed over, on its file and between its origin and target |
| MoveRules.ClockAfter | Laminar/Movegen.cpp:1198-1205 | the halfmove clock resets on a capture or pawn move and otherwise counts up by one in eight bits |
| MoveRules.ClockAfterAsWritten | Laminar/Movegen.cpp:2122-2186 | the clock as the switch updates it agrees with `ClockAfter` on every move type except `bishop_promo_capture` |
| MoveRules.BishopPromoCaptureKeepsClock | Laminar/Movegen.cpp:2122-2186 | a pawn capturing into a bishop promotion with the clock at 5 leaves it at 6, where the rule says 0 |
| MoveRules.ClockCountsReversibleMoves | Laminar/Movegen.cpp:1676 | after a sequence of moves, the clock is the number of moves since the last capture or pawn move (added to the start value when there was none), modulo 256 |
| MakeMoves.MoveQuiet | Laminar/Movegen.cpp:1709-1722 | moving a piece to an empty square updates its bitboard, the occupancies and the mailbox together, so they still agree |
| MakeMoves.MoveCapture | Laminar/Movegen.cpp:1767-1785 | a capture also removes the victim from its bitboard and its colour's occupancy, keeping agreement |
| MakeMoves.MoveCastle | Laminar/Movegen.cpp:1798-1893 | castling moves king and rook in all three descriptions, keeping agreement |
| MakeMoves.CastleAgrees | Laminar/Movegen.cpp:1798-1893 | the four take/put steps of castling keep the descriptions in agreement |
| MakeMoves.MovePromote | Laminar/Movegen.cpp:1894-1988 | a promotion removes the pawn from its origin and puts the promoted piece on the target, keeping agreement |
| MakeMoves.MovePromoteCapture | Laminar/Movegen.cpp:1989-2254 | a promotion capture also removes the victim, keeping agreement |
| MakeMoves.MoveEnPassant | Laminar/Movegen.cpp:2255-2290 | en passant moves the pawn and removes the opposing pawn behind the target, keeping agreement |
| MakeMoves.ClearOwnRights | Laminar/Movegen.cpp:1638-1675 | the mover's rights become `OwnRightsAfter` |
| MakeMoves.ClearCapturedRookRight | Laminar/Movegen.cpp:1735-1766 | capturing a rook on its corner takes away that right, as `CapturedRightsAfter` says |
| MakeMoves.EndMove | Laminar/Movegen.cpp:1724-1730 | the side to move flips; an irreversible move resets the clock and records the ply; nothing else changes |
| MakeMoves.EndBishopPromoCapture | Laminar/Movegen.cpp:2176-2186 | the `bishop_promo_capture` arm flips the side and records the ply but leaves the clock as it was |
| MakeMoves.PlaceMove | Laminar/Movegen.cpp:1676-2299 | the move switch leaves the mailbox as `MailboxAfter`, the descriptions in agreement, the en-passant square and the captured-rook rights updated |
| MakeMoves.PlaceSimple | Laminar/Movegen.cpp:1679-1797 | the same for double pushes, quiet moves and captures |
| MakeMoves.PlaceCapture | Laminar/Movegen.cpp:1733-1797 | the same for a plain capture |
| MakeMoves.PlaceDoublePush | Laminar/Movegen.cpp:1679-1708 | the same for a double push, which also sets the en-passant square |
| MakeMoves.SimplePlaced | Laminar/Movegen.cpp:1679-1797 | the field-by-field result of the simple arms is the placement the rules describe |
| MakeMoves.PlaceCastle | Laminar/Movegen.cpp:1798-1893 | the same for castling |
| MakeMoves.PlaceEnPassant | Laminar/Movegen.cpp:2255-2299 | the same for en passant |
| MakeMoves.PlacePromotion | Laminar/Movegen.cpp:1894-2254 | the same for the eight promotion arms |
| MakeMoves.HashAfterMove | Laminar/Movegen.cpp:1285-1512 | the hash and pawn hash of the position after a move are the hashes of `ZobristBoards` with the new en-passant square, rights and side |
| MakeMoves.ApplyMove | Laminar/Movegen.cpp:1630-2299 | the board part of `MakeMove` gives the position the rules describe, with the as-written clock |
| MakeMoves.StartMove | Laminar/Movegen.cpp:1631-1676 | before the switch, the en-passant square is cleared, the mover's own rights are removed and the clock counts up |
| MakeMoves.AppliedByFields | Laminar/Movegen.cpp:1630-2299 | a state whose fields are the rules' results is the applied position |
| MakeMoves.MoveKeepsKeys | Laminar/Movegen.cpp:1528-2299 | when the keys were the true hashes before the move, they are the true hashes after it |
| MakeMoves.MadeMoveKeys | Laminar/Movegen.cpp:1628-2299 | rekeying first and then applying the move is the made move |
| MakeMoves.MakeMove | Laminar/Movegen.cpp:1528-2299 | making a legal-shaped move gives the mailbox, bitboards, occupancies, rights, en-passant square, side, clock and hashes of the position after it |
| MakeMoves.UnmoveQuiet | Laminar/Movegen.cpp:2306-2324 | moving the piece back to its origin keeps agreement |
| MakeMoves.UnmoveCapture | Laminar/Movegen.cpp:2325-2347 | restoring the captured piece on the target keeps agreement |
| MakeMoves.UnmoveEnPassant | Laminar/Movegen.cpp:2589-2626 | restoring the pawn behind the target square keeps agreement |
| MakeMoves.UnmakeMove | Laminar/Movegen.cpp:2301-2628 | unmaking puts the pieces back as `UnmakeMailbox` says, flips the side back and changes nothing else |
| MakeMoves.UnplaceMove | Laminar/Movegen.cpp:2306-2626 | the unmake switch leaves the mailbox as `UnmakeMailbox` with the descriptions in agreement |
| MakeMoves.UnplaceCastle | Laminar/Movegen.cpp:2348-2432 | the same for castling |
| MakeMoves.UnplacePromotion | Laminar/Movegen.cpp:2433-2588 | the same for promotions |
| MakeMoves.MakeNullMove | Laminar/Movegen.cpp:1513-1522 | a null move clears the en-passant square and flips the side, and the hash follows the position with any offset kept |
| MakeMoves.UnmakeNullmove | Laminar/Movegen.cpp:1523-1527 | undoing a null move flips the side back and the hash follows it |
| Generation.Appended | Laminar/Movegen.h:76-84 | adding moves to a list extends it with them, in order, until it holds 256 moves |
| Generation.AppendedTwice | Laminar/Movegen.h:76-84 | adding two batches one after the other is adding their concatenation |
| Generation.AppendedNothing | Laminar/Movegen.h:76-84 | adding no moves leaves the list as it was |
| Generation.Push | Laminar/Movegen.h:76-84 | pushing a move appends it to the list's contents |
| Generation.Expand | Laminar/Movegen.cpp:711-738 | one move per type code from the same origin to the same target, in the order of the codes |
| Generation.TargetMovesMean | Laminar/Movegen.cpp:883-1092 | a move is generated towards a target set exactly when it starts on the origin, lands on a target, and has a capture code when the target holds an enemy piece and a quiet code otherwise |
| Generation.AddCodes | Laminar/Movegen.cpp:711-738 | the promotion loop adds one move per type code |
| Generation.AddTargets | Laminar/Movegen.cpp:883-934 | the target loop adds the moves of `TargetMoves`, lowest target first |
| Generation.Reachable | Laminar/Movegen.cpp:883-1092 | the targets of a piece are on the board |
| Generation.PieceMovesMean | Laminar/Movegen.cpp:883-1092 | the moves generated for a set of pieces of one kind are exactly the moves from one of them to a square it attacks that the mover does not occupy, typed capture or quiet by whether an enemy stands there |
| Generation.LookupReach | Laminar/Movegen.cpp:616-651 | with the tables initialised, each kind's lookup is its attack set |
| Generation.KindMovesMean | Laminar/Movegen.cpp:883-1092 | the knight, bishop, rook, queen and king move lists hold exactly the moves a piece of that kind can make to a square not held by its own side |
| Generation.GeneratePieceMoves | Laminar/Movegen.cpp:883-1092 | the generator for one kind appends `KindMoves` to the list |
| Generation.AddPieces | Laminar/Movegen.cpp:883-934 | the loop over the pieces of one kind appends their moves, lowest square first |
| Generation.PieceStep | Laminar/Movegen.cpp:890-930 | handling the lowest piece then the rest appends the same as handling all of them |
| Generation.CastlePathBetween | Laminar/Const.h:61-66 | the squares that must be empty for castling are exactly those between the king and the rook |
| Generation.CastleMovesMean | Laminar/Movegen.cpp:1142-1196 | a castling move is generated exactly when the right is held and the squares between king and rook are empty; it moves the king two files from its home square |
| Generation.GenerateKingMoves | Laminar/Movegen.cpp:1093-1197 | king moves are the ordinary king steps followed by the castling moves, king side first |
| Generation.AddCastle | Laminar/Movegen.cpp:1142-1196 | one castling arm appends the castling move when its right is held and its path is empty |
| Generation.Ahead | Laminar/Movegen.cpp:694-702 | the push square lies on the board |
| Generation.OnePush | Laminar/Movegen.cpp:786-789 | the single-push target is on the board |
| Generation.TwoPush | Laminar/Movegen.cpp:810-816 | the double-push target is on the board |
| Generation.PawnCaptures | Laminar/Movegen.cpp:744-748 | the capture targets are on the board |
| Generation.EpTarget | Laminar/Movegen.cpp:855-860 | the en-passant target is on the board |
| Generation.AheadMean | Laminar/Movegen.cpp:694-702 | a push target is the square `rows` ahead of the pawn, when it is empty |
| Generation.PawnLookup | Laminar/Movegen.cpp:527-549 | the initialised pawn table is the pawn attack set |
| Generation.PawnMovesFromMean | Laminar/Movegen.cpp:668-882 | the moves generated for one pawn are exactly the pawn moves the rules allow it: a push to an empty square, a double push from the start rank over two empty squares, a diagonal capture of an enemy piece, en passant onto the en-passant square, and the four promotions of each push or capture from the last-but-one rank |
| Generation.PromotionMovesMean | Laminar/Movegen.cpp:705-783 | the same for a pawn about to promote |
| Generation.PlainPawnMovesMean | Laminar/Movegen.cpp:784-876 | the same for any other pawn |
| Generation.PawnMovesMean | Laminar/Movegen.cpp:668-882 | the moves generated for a set of pawns are exactly the moves `PawnRule` allows one of them |
| Generation.AddPawnMoves | Laminar/Movegen.cpp:689-877 | the body of the pawn loop appends one pawn's moves |
| Generation.AddPromotions | Laminar/Movegen.cpp:705-783 | promotions are added push first then captures, four type codes each |
| Generation.AddPawnSteps | Laminar/Movegen.cpp:784-876 | a pawn's other moves are added as single pushes, double push, captures, then en passant |
| Generation.GeneratePawnMoves | Laminar/Movegen.cpp:668-882 | the pawn generator appends `PawnMoves` for the side to move |
| Generation.GeneratePseudoLegalMoves | Laminar/Movegen.cpp:2630-2641 | the list is cleared and then holds the queen, rook, knight, bishop, pawn and king moves in that order |
| Generation.ReachExcludesOrigin | Laminar/Movegen.cpp:403-604 | no piece attacks its own square |
| Generation.BitboardMailbox | Laminar/Board.h:14-16 | a square in a piece's bitboard holds that piece in the mailbox |
| Generation.OccupancyMailbox | Laminar/Board.h:14-16 | a square in no occupancy is empty, and one in the enemy occupancy holds an enemy piece |
| Generation.KindMoveFits | Laminar/Movegen.cpp:883-1092 | every knight, bishop, rook, queen or king move generated fits the board `MakeMove` is given |
| Generation.KindLanding | Laminar/Movegen.cpp:883-1092 | such a move lands on a square the mover does not occupy and is typed by what stands there |
| Generation.PawnMoveFits | Laminar/Movegen.cpp:668-882 | every pawn move other than en passant fits the board |
| Generation.PawnRuleFits | Laminar/Movegen.cpp:668-882 | every move `PawnRule` allows, other than en passant, fits the board |
| Generation.CaptureFits | Laminar/Movegen.cpp:744-783 | a capture onto an enemy piece fits the board |
| Generation.StepFits | Laminar/Movegen.cpp:784-833 | a step onto an empty square fits the board |
| Generation.GeneratedMovesFit | Laminar/Movegen.cpp:2630-2641 | every generated move other than castling and en passant fits what `MakeMove` needs of it on a consistent board |
| Legality.PieceOf | Laminar/Const.h:67-70 | the piece code of a kind and colour is one of the twelve |
| Legality.FoundSetShape | Laminar/Movegen.cpp:2642-2667 | a square is reported attacked exactly when the set of attackers the lookups find is not empty |
| Legality.DiagonalFound | Laminar/Movegen.cpp:2642-2667 | the bishop lookup meets a bishop or queen exactly when one attacks the square along a diagonal |
| Legality.LineFound | Laminar/Movegen.cpp:2642-2667 | the rook lookup meets a rook or queen exactly when one attacks the square along a rank or file |
| Legality.KnightFound | Laminar/Movegen.cpp:2642-2667 | the knight lookup meets a knight exactly when one attacks the square |
| Legality.KingFound | Laminar/Movegen.cpp:2642-2667 | the king lookup meets a king exactly when one attacks the square |
| Legality.PawnFound | Laminar/Movegen.cpp:2642-2667 | the opposite colour's pawn table, looked up from the square, meets a pawn exactly when one attacks it |
| Legality.PawnSeen | Laminar/Movegen.cpp:2642-2667 | looking backwards with the other colour's pawn table finds the pawns that attack the square |
| Legality.PawnRowsSeen | Laminar/Movegen.cpp:527-549 | the black pawn table read backwards is the white pawn attacks, and the other way round |
| Legality.LeapersSeen | Laminar/Movegen.cpp:551-604 | the knight and king tables read backwards are the same tables |
| Legality.SlidersSeen | Laminar/Movegen.cpp:403-487 | the slider lookups read backwards are the same attacks |
| Legality.SquareAttackedMeans | Laminar/Movegen.cpp:2642-2667 | `IsSquareAttacked` holds exactly when some piece of the attacking side attacks the square under the given occupancy |
| Legality.SpreadMeans | Laminar/Movegen.cpp:2668-2733 | the attack map of a bitboard is the union of the attacks of its squares |
| Legality.AttackedSquaresAgree | Laminar/Movegen.cpp:2668-2733 | with at most one king, a square is in the attack map exactly when `IsSquareAttacked` holds for it |
| Legality.LookupMirror | Laminar/Movegen.cpp:2642-2733 | piece `kind` of one side on `x` attacks `square` exactly when the other side's lookup from `square` contains `x` |
| Legality.MappedFrom | Laminar/Movegen.cpp:2668-2733 | every square in the attack map has a found attacker |
| Legality.KindFound | Laminar/Movegen.cpp:2642-2667 | an attacker of any kind is found by the lookups |
| Legality.FoundIsMapped | Laminar/Movegen.cpp:2668-2733 | a square with a found attacker is in the attack map |
| Legality.FoundKind | Laminar/Movegen.cpp:2642-2667 | each found attacker is a piece of some kind whose lookup contains it |
| Legality.KindMapped | Laminar/Movegen.cpp:2668-2733 | a square attacked by a pawn, knight, bishop, rook or queen is in the attack map |
| Legality.AddAttacks | Laminar/Movegen.cpp:2668-2733 | each loop of the attack map adds the attacks of every piece of one kind |
| Legality.GetAttackedSquares | Laminar/Movegen.cpp:2668-2733 | the attack map is the union of the attacks of all the side's pieces |
| Legality.IsLegal | Laminar/Movegen.cpp:2735-2788 | the check after a move computes `LegalAfter` |
| Legality.LegalMeans | Laminar/Movegen.cpp:2735-2788 | an ordinary move is legal exactly when the mover's king is not attacked afterwards; castling is legal exactly when neither the king nor any square of its castling area is attacked |
| Legality.CastleLegalMeans | Laminar/Movegen.cpp:2748-2787 | the castling half of `LegalMeans` |
| Legality.CastleAreaOnBoard | Laminar/Const.h:61-66 | the castling areas lie on the board |
| Legality.InCheckMeans | Laminar/Movegen.cpp:2789-2801 | the side to move is in check exactly when some enemy piece attacks its king's square |
| Legality.OnlyKingPawnMeans | Laminar/Movegen.cpp:2819-2824 | the board has only kings and pawns exactly when every mailbox square holds a pawn, a king or nothing |
| See.KindIndex | Laminar/SEE.cpp:30 | a piece code maps to its colourless kind, and the empty square to the seventh slot of the value table |
| See.GetPiecePromoting | Laminar/SEE.cpp:6-26 | a promotion type yields its promoted piece; any other type yields a pawn of the given colour |
| See.MoveEstimatedValue | Laminar/SEE.cpp:27-48 | the optimistic gain is the victim's value, plus promoted piece minus pawn for a promotion, a pawn for en passant, and zero for castling |
| See.Bishops | Laminar/SEE.cpp:85 | the diagonal sliders of both colours are pieces on the board |
| See.Rooks | Laminar/SEE.cpp:86 | the straight sliders of both colours are pieces on the board |
| See.Masked | Laminar/SEE.cpp:127-131 | ANDing attacks with a set of pieces keeps exactly the squares in both |
| See.AllAttackersToSquare | Laminar/Movegen.cpp:2802-2818 | the attackers of a square are pieces on the board |
| See.AttackersAttack | Laminar/Movegen.cpp:2802-2818 | a square holds an attacker exactly when a pawn, knight, bishop or queen, rook or queen, or king of either colour there attacks the target under the given occupancy |
| See.Weakest | Laminar/SEE.cpp:113-120 | the search for the weakest attacker returns a kind from `nv` up to the king, and below the king only a kind some attacker has |
| See.WeakestIsLightest | Laminar/SEE.cpp:113-120 | no attacker is of a kind lighter than the one found |
| See.WeakestFinds | Laminar/SEE.cpp:113-123 | when there are attackers, some attacker is of the kind found, so the bit the loop removes is a real piece |
| See.WeakestFindsFrom | Laminar/SEE.cpp:113-123 | the same, searching from any starting kind below an attacker's |
| See.Revealed | Laminar/SEE.cpp:125-131 | revealing sliders behind a removed attacker only adds pieces to the attacker set |
| See.SeeRound | Laminar/SEE.cpp:104-153 | one round of the swap either settles the loser or removes one piece from the occupancy and hands the turn to the other colour |
| See.SeeLoop | Laminar/SEE.cpp:104-156 | the swap ends with one of the two colours as loser |
| See.InitialSwap | Laminar/SEE.cpp:84-102 | the swap starts with the opponent to recapture and the attackers within the occupancy the move leaves |
| See.SeeWith | Laminar/SEE.cpp:53-157 | the exchange answers 0 or 1 |
| See.SeeFrom | Laminar/SEE.cpp:72-157 | the exchange after the optimistic gain answers 0 or 1 |
| See.Exchange | Laminar/SEE.cpp:84-157 | the exchange loop answers 0 or 1 |
| See.FirstVictim | Laminar/SEE.cpp:61-66 | as written, the first piece at risk is a knight for every promotion (the promotion test is a boolean 1) and the mover's kind otherwise |
| See.SeeValue | Laminar/SEE.cpp:53-157 | SEE as written answers 0 or 1 |
| See.IntendedFirstVictim | Laminar/SEE.cpp:64 | the piece at risk after a promotion is the promoted piece, and otherwise as written |
| See.SeeValueIntended | Laminar/SEE.cpp:53-157 | the corrected SEE answers 0 or 1 |
| See.SeeBelowThreshold | Laminar/SEE.cpp:72-74 | when even the optimistic gain misses the threshold the answer is 0 |
| See.SeeSafeGain | Laminar/SEE.cpp:76-82 | when the gain minus the piece at risk still meets the threshold the answer is 1 |
| See.SeeUndefended | Laminar/SEE.cpp:97-111 | when the opponent has no attacker, the answer is 1 exactly when the optimistic gain meets the threshold |
| See.SeeOutOfAttackers | Laminar/SEE.cpp:106-111 | the colour with no attacker left loses |
| See.SeeKingRecapture | Laminar/SEE.cpp:143-152 | a king that recaptures into a defended square makes its own colour lose |
| See.StaticExchange | Laminar/SEE.cpp:53-157 | the method computes `SeeValue` |
| See.FirstVictimOf | Laminar/SEE.cpp:61-66 | the method computes `FirstVictim` |
| See.EarlyExits | Laminar/SEE.cpp:68-82 | the early returns compute `SeeFrom` |
| See.ExitsPassToExchange | Laminar/SEE.cpp:81-84 | when neither early return fires, the answer is the exchange loop's |
| See.ExchangeFrom | Laminar/SEE.cpp:84-157 | the method computes `Exchange` |
| See.SwapLoop | Laminar/SEE.cpp:104-156 | the loop computes `SeeLoop` |
| See.SwapRound | Laminar/SEE.cpp:106-152 | one pass of the loop body computes `SeeRound` |
| See.Reveal | Laminar/SEE.cpp:125-134 | the revealed sliders, restricted to the occupancy, are `Revealed` |
| See.LeastValuable | Laminar/SEE.cpp:113-120 | the loop computes `Weakest` |
| See.PromotionRisksKnight | Laminar/SEE.cpp:62-82 | a quiet queen promotion passes SEE at threshold 0 by the early exit, because the piece counted at risk is a knight, even though the queen's value exceeds the gain |
| See.IntendedEarlyPassIsSafe | Laminar/SEE.cpp:76-82 | with the promoted piece at risk, the early exit fires only when the gain covers losing it, and otherwise the exchange decides |
| See.PromotionRisksQueen | Laminar/SEE.cpp:62-82 | with the correction, a quiet queen promotion goes to the exchange, and passes when nobody can recapture |
| History.BoolIndex | Laminar/History.cpp:17-18 | a threat flag indexes 1 exactly when it is set |
| History.Decay | Laminar/History.cpp:9-13 | the gravity update keeps an entry within `±max`, moves it towards the sign of the bonus, and leaves it alone for a zero bonus |
| History.QuotExact | Laminar/History.cpp:12 | truncating division undoes multiplication |
| History.QuotNegate | Laminar/History.cpp:12 | truncating division commutes with negation |
| History.DecayTowardsPositive | Laminar/History.cpp:12 | a non-negative bonus moves the entry up but not past `max` |
| History.DecayAtMostBonus | Laminar/History.cpp:12 | the decay term is at most the bonus |
| History.DecayAtLeastExcess | Laminar/History.cpp:12 | the decay term is at least the overshoot of entry plus bonus over `max` |
| History.DecayTowardsNegative | Laminar/History.cpp:12 | a non-positive bonus moves the entry down but not past `-max` |
| History.DecayTimesBounded | Laminar/History.cpp:9-13 | applying the update any number of times keeps an entry within `±max`, and never moves it against the bonus |
| History.DecayTimesAdd | Laminar/History.cpp:9-13 | `n` updates followed by `k` updates are `n + k` updates |
| History.HistoryUpdate | Laminar/History.cpp:9-13 | the clamped-bonus update keeps an entry within `±MAX_HISTORY`, moves it towards the bonus, and leaves it alone for a zero bonus |
| History.MoverColour | Laminar/History.cpp:33 | the side is White exactly when the mover's piece code is at most 5 |
| History.MainHits | Laminar/History.cpp:31-43 | the number of main-history updates an entry gets from the first `n` searched moves is at most `n` |
| History.CaptHits | Laminar/History.cpp:45-72 | the same for the capture history |
| History.SingleHit | Laminar/History.cpp:74-82 | a continuation entry is touched at most once per offset, and not at all before enough plies |
| History.ContHitsOf | Laminar/History.cpp:103-107 | one continuation update touches an entry at most twice, and never at the root |
| History.ContHits | Laminar/History.cpp:109-120 | the malus of `n` moves touches an entry at most `2n` times, and never at the root |
| History.MainMalusSparesBonusMove | Laminar/History.cpp:31-43 | when no other searched move shares the best move's squares, the malus leaves the best move's entry alone |
| History.MainMalusReachesSearched | Laminar/History.cpp:31-43 | every searched move other than the best one gets the malus at least once |
| History.MainMalusStep | Laminar/History.cpp:35-42 | one more iteration of the malus loop is one more update for the entry it hits |
| History.ContMalusStep | Laminar/History.cpp:113-119 | the same for the continuation malus |
| History.CorrWeight | Laminar/History.cpp:127 | the weight is `depth + 1` capped at 16 |
| History.CorrBlend | Laminar/History.cpp:125-129 | the blended correction stays within `±CORRHIST_MAX` |
| History.CorrBlendBetween | Laminar/History.cpp:125-129 | the new correction lies between the old entry and the scaled difference |
| History.WeightedAverageBetween | Laminar/History.cpp:128 | a weighted average with truncating division lies between its two inputs |
| History.WeightedSumBetween | Laminar/History.cpp:128 | a weighted sum lies between the bounds scaled |
| History.MulLe | Laminar/History.cpp:128 | multiplying by a non-negative number keeps order |
| History.Bucket | Laminar/History.cpp:125 | a key modulo the table size indexes the table |
| History.AdjustEval | Laminar/History.cpp:192-209 | the corrected evaluation is clamped strictly inside the mate-found bound |
| History.AdjustEvalNoCorrection | Laminar/History.cpp:192-209 | with empty corrections the evaluation is unchanged |
| History.AdjustEvalMonotone | Laminar/History.cpp:192-209 | for fixed corrections, a higher raw evaluation never gives a lower corrected one |
| History.Histories.constructor | Laminar/Search.cpp:46 | every table starts zeroed, as the `memset` of the whole `histories` block gives it: the main, capture and continuation histories and the pawn, non-pawn and minor correction histories; so the move histories start within their bounds |
| History.Histories.UpdateMainHist | Laminar/History.cpp:15-21 | only the entry for the side, squares and threat flags changes, by `HistoryUpdate`, and the tables stay bounded |
| History.Histories.UpdateCaptHist | Laminar/History.cpp:23-29 | only the entry for the attacker, target, victim and threat flags changes, by `HistoryUpdate`, and the tables stay bounded |
| History.Histories.MalusMainHist | Laminar/History.cpp:31-43 | every main-history entry takes the negated malus once for each searched move other than the best one that maps to it, and the tables stay bounded |
| History.Histories.MalusCaptHist | Laminar/History.cpp:45-72 | the same for the capture history, keyed by the attacker, target and victim of each searched capture |
| History.Histories.SingleContHistScore | Laminar/History.cpp:74-82 | the score is the entry for the move `offset` plies back and this move, or 0 when there are fewer plies |
| History.Histories.ContHistScore | Laminar/History.cpp:84-89 | the sum of the one- and two-ply scores is 0 at the root and within twice the entry bound |
| History.Histories.UpdateSingleContHist | Laminar/History.cpp:91-101 | only the entry keyed by the move `offset` plies back changes, by one update, and the tables stay bounded |
| History.Histories.UpdateContHist | Laminar/History.cpp:103-107 | each entry takes the bonus once for each of the one- and two-ply keys it matches |
| History.Histories.MalusContHist | Laminar/History.cpp:109-120 | each entry takes the negated malus once for each key of each searched move other than the best one |
| History.Histories.AdjustEvalWithCorrHist | Laminar/History.cpp:168-209 | the corrected evaluation combines the four entries for the position's keys and stays strictly inside the mate-found bound |
| History.Histories.UpdateCorrhists | Laminar/History.cpp:122-166 | the pawn, the two non-pawn and the minor entries for the position's keys and side take the blended correction, and no other entry changes |
| Ordering.IsMoveNoisy | Laminar/Ordering.cpp:13-16 | a move is noisy exactly when its type code is a capture or a promotion code, that is at least `capture` |
| Ordering.IsMoveCapture | Laminar/Ordering.cpp:21-24 | a move is a capture exactly when bit 2 of its type is set |
| Ordering.IsMoveQuiet | Laminar/Ordering.cpp:17-20 | quiet means not a capture |
| Ordering.NoisyIsCaptureOrPromotion | Laminar/Ordering.cpp:13-24 | noisy is capture or promotion, so a non-capturing promotion is both noisy and quiet |
| Ordering.IsEpCaptureAsWritten | Laminar/Ordering.cpp:25-28 | as written, the test `Type & ep_capture` holds for every odd type code and every capture |
| Ordering.EveryCaptureLooksEnPassant | Laminar/Ordering.cpp:25-28 | every capture passes the as-written en-passant test |
| Ordering.IsEpCapture | Laminar/Ordering.cpp:25-28 | the corrected test holds for a real move type exactly when it is `ep_capture`, and implies the as-written test |
| Ordering.CompareMovesPacked | Laminar/Search.cpp:339-342 | a move matches its own packed form whatever its piece, and no move with a different origin, target or type matches it |
| Ordering.VictimAsWritten | Laminar/Ordering.cpp:39 | as written, the victim is a colourless kind |
| Ordering.VictimAlwaysPawn | Laminar/Ordering.cpp:39 | as written, the victim of every capture is scored as a pawn |
| Ordering.Victim | Laminar/Ordering.cpp:39 | the intended victim is the kind on the target square, or a pawn for en passant |
| Ordering.QueenCaptureRankedAsPawnCapture | Laminar/Ordering.cpp:39-44 | a knight taking a queen and a knight taking a pawn get the same MVV-LVA term as written (9700), where the intended victim gives the queen capture 89700 |
| Ordering.CaptureScore | Laminar/Ordering.cpp:35-51 | a capture scores MVV-LVA with a pawn victim, plus the pass score or the bad-capture penalty by SEE, plus the capture history of the attacker, target and pawn victim |
| Ordering.CaptureScoresAgreeOnPawns | Laminar/Ordering.cpp:35-51 | for a pawn victim, the as-written and corrected capture scores agree |
| Ordering.SeeAgreesWithoutPromotion | Laminar/SEE.cpp:61-66 | the as-written and corrected SEE agree on every move that is not a promotion |
| Ordering.QuietScore | Laminar/Ordering.cpp:56-68 | a quiet move scores its main and continuation history offset by the two maxima, which lies in a fixed band when the tables are bounded |
| Ordering.Tier | Laminar/Ordering.cpp:29-69 | every move falls into one of five tiers: TT move, good capture, killer, quiet, bad capture |
| Ordering.ScoreBands | Laminar/Ordering.cpp:29-69 | each tier's score lies in its own band: the TT move 900000000, good captures 182616 to 316384, the killer 20000, quiets -81920 to 16384, bad captures at most -883616 |
| Ordering.CaptureBounds | Laminar/Ordering.cpp:35-51 | a capture's score lies within the MVV-LVA and history range around its SEE term |
| Ordering.TiersOrderScores | Laminar/Ordering.cpp:29-69 | a move in a higher tier always scores more than one in a lower tier |
| Ordering.QsearchBands | Laminar/Ordering.cpp:70-93 | in quiescence, non-captures score -90000, captures passing SEE score more and captures failing it score less |
| Ordering.Insert | Laminar/Ordering.cpp:104-108 | inserting into a run makes it one longer |
| Ordering.SortDescending | Laminar/Ordering.cpp:104-108 | the reference stable sort keeps the length |
| Ordering.InsertPermutes | Laminar/Ordering.cpp:104-108 | insertion adds exactly the inserted element |
| Ordering.SortedPermutes | Laminar/Ordering.cpp:104-108 | the sort is a permutation |
| Ordering.InsertAbove | Laminar/Ordering.cpp:104-108 | insertion keeps a lower bound on the scores |
| Ordering.InsertDescending | Laminar/Ordering.cpp:104-108 | inserting into a descending run keeps it descending |
| Ordering.WithScoreAppend | Laminar/Ordering.cpp:104-108 | the moves of one score in an extended run are those of the run plus the new one if it has that score |
| Ordering.InsertKeepsEqualScores | Laminar/Ordering.cpp:104-108 | insertion puts a move after every move of the same score |
| Ordering.SortedDescending | Laminar/Ordering.cpp:104-108 | the sort's output is in descending order of score |
| Ordering.SortedStable | Laminar/Ordering.cpp:104-108 | moves with equal scores keep their relative order, as `std::stable_sort` promises |
| Ordering.InsertAt | Laminar/Ordering.cpp:104-108 | shifting element `i` into the sorted prefix in place gives `Insert` and leaves the rest of the array alone |
| Ordering.InsertSplit | Laminar/Ordering.cpp:104-108 | insertion puts the element after the last one scoring at least as much |
| Ordering.InsertStops | Laminar/Ordering.cpp:104-108 | an element scoring no more than the last stays at the end |
| Ordering.StableSortDescending | Laminar/Ordering.cpp:104-108 | the in-place insertion sort leaves the first `n` elements as `SortDescending` of them and the rest alone |
| Ordering.MovesOf | Laminar/Ordering.cpp:110-113 | the moves of a scored list, in order |
| Ordering.ScoreMoves | Laminar/Ordering.cpp:98-102 | one scored entry per move |
| Ordering.QsearchScoreMoves | Laminar/Ordering.cpp:119-123 | one scored entry per move |
| Ordering.SortMoves | Laminar/Ordering.cpp:94-114 | the list's moves become the moves of the stable descending sort of their scores, and the slots past `count` are untouched |
| Ordering.SortScored | Laminar/Ordering.cpp:104-113 | sorting the scored buffer and writing it back gives the sorted moves |
| Ordering.ScoreList | Laminar/Ordering.cpp:98-102 | the scoring loop fills the buffer with each move's `GetMoveScore` |
| Ordering.ScoreMovesElementwise | Laminar/Ordering.cpp:98-102 | a buffer scored entry by entry is `ScoreMoves` |
| Ordering.SortNoisyMoves | Laminar/Ordering.cpp:115-135 | the same as `SortMoves` with the quiescence scores |
| Ordering.QsearchScoreList | Laminar/Ordering.cpp:119-123 | the scoring loop fills the buffer with each move's `QsearchGetMoveScore` |
| Ordering.QsearchScoreMovesElementwise | Laminar/Ordering.cpp:119-123 | a buffer scored entry by entry is `QsearchScoreMoves` |
| Ordering.ScoreMovesAt | Laminar/Ordering.cpp:98-102 | entry `i` holds move `i` and its score |
| Ordering.QsearchScoreMovesAt | Laminar/Ordering.cpp:119-123 | entry `i` holds move `i` and its quiescence score |
| Ordering.MovesOfAppend | Laminar/Ordering.cpp:110-113 | the moves of an extended list are the moves plus the new one |
| Ordering.MovesOfAppendCount | Laminar/Ordering.cpp:110-113 | the same, counted as a multiset |
| Ordering.InsertPastLast | Laminar/Ordering.cpp:104-108 | an element scoring more than the last goes before it |
| Ordering.InsertMovesPermute | Laminar/Ordering.cpp:104-108 | insertion adds exactly the inserted move |
| Ordering.SortedScoredMovesPermute | Laminar/Ordering.cpp:104-108 | the sorted moves are a permutation of the scored moves |
| Ordering.SortedEntryScored | Laminar/Ordering.cpp:94-114 | every sorted entry carries its own move's score |
| Ordering.SortedMovesPermute | Laminar/Ordering.cpp:94-114 | `SortMoves` permutes the list |
| Ordering.SortedPairByTier | Laminar/Ordering.cpp:94-114 | of two sorted moves, the earlier is in a tier at least as high |
| Ordering.SortedMovesByTier | Laminar/Ordering.cpp:94-114 | after `SortMoves` the TT move comes first, then good captures, the killer, quiets and bad captures |
| Ordering.QsearchTier | Laminar/Ordering.cpp:70-93 | quiescence moves fall into three tiers: good capture, non-capture, bad capture |
| Ordering.QsearchSortedEntryScored | Laminar/Ordering.cpp:115-135 | every sorted entry carries its own move's quiescence score |
| Ordering.QsearchSortedPairByTier | Laminar/Ordering.cpp:115-135 | of two sorted moves, the earlier is in a quiescence tier at least as high |
| Ordering.QsearchSortedMovesPermute | Laminar/Ordering.cpp:115-135 | `SortNoisyMoves` permutes the list |
| Ordering.QsearchSortedByTier | Laminar/Ordering.cpp:115-135 | after `SortNoisyMoves` good captures come first, then non-captures, then bad captures |
| Ordering.ScoredKeepMoves | Laminar/Ordering.cpp:98-102 | scoring keeps the moves in their order |
| Ordering.WriteBack | Laminar/Ordering.cpp:110-113 | the write-back loop copies the scored moves into the list and leaves the slots past `count` alone |
| TTEntry.BoundTagsDistinct | Laminar/Transpositions.h:4-7 | the four bound tags are distinct and fit in the two bits the packed word gives them |
| TTEntry.From | Laminar/Transpositions.h:22-25 | the packed origin is a square |
| TTEntry.To | Laminar/Transpositions.h:26-29 | the packed target is a square |
| TTEntry.Type | Laminar/Transpositions.h:30-33 | the packed type is a four-bit code |
| TTEntry.EncodeMove16 | Laminar/Transpositions.h:17-20 | packing fits in 16 bits and unpacks to origin, target and type modulo 64, 64 and 16, so every real move survives the round trip |
| TTEntry.PackData | Laminar/Transpositions.h:36-39 | the packed word fits in 11 bits and unpacks to the depth in eight bits, the bound in two and the PV flag |
| TTEntry.UnpackDepth | Laminar/Transpositions.h:41-44 | the depth is an eight-bit value |
| TTEntry.UnpackBound | Laminar/Transpositions.h:46-49 | the bound is a two-bit value |
| TTEntry.DefaultEntry | Laminar/Transpositions.h:56-67 | a fresh entry has key 0, score 0, the null move, depth 0, bound `HFNONE` and no PV flag |
| TTable.SlotCount | Laminar/Transpositions.cpp:8-19 | the table has `size` megabytes over 16-byte entries, an even number, and at least 1000 slots for any size |
| TTable.AdjustMateStore | Laminar/Transpositions.cpp:54-69 | scores inside the mate bound are stored unchanged, and probing undoes storing at the same ply |
| TTable.AdjustMateProbe | Laminar/Transpositions.cpp:70-84 | scores inside the mate bound are read unchanged, and a stored mate score stays a mate score when read back |
| TTable.UsedCount | Laminar/Transpositions.cpp:42-53 | the number of used slots among the first `n` is at most `n` |
| TTable.UsedCountAllDefault | Laminar/Transpositions.cpp:42-53 | slots all holding the default entry count as unused |
| TTable.TranspositionTable.constructor | Laminar/Transpositions.cpp:6-7 | before initialisation the size is 1 and there is no table |
| TTable.TranspositionTable.Slot | Laminar/Transpositions.cpp:35 | a key indexes a slot of the table |
| TTable.TranspositionTable.Initialize | Laminar/Transpositions.cpp:8-25 | initialising allocates `SlotCount` default entries, and the table is usable exactly when the size asked for is positive |
| TTable.TranspositionTable.Clear | Laminar/Transpositions.cpp:26-32 | clearing resets every slot to the default entry |
| TTable.TranspositionTable.Store | Laminar/Transpositions.cpp:38-41 | after storing, looking up the same key returns the stored entry, and every other slot is unchanged |
| TTable.TranspositionTable.Hashfull | Laminar/Transpositions.cpp:42-53 | the count is the number of used slots among the first 1000, so between 0 and 1000 |
| TTable.ClearedTableIsEmpty | Laminar/Transpositions.cpp:26-53 | a cleared table reports 0 |
| SearchRules.IsThreefold | Laminar/Search.cpp:56-77 | the backwards scan answers true exactly when the current position's key occurs again after the last irreversible ply (one earlier occurrence is enough to call the draw) |
| SearchRules.RepetitionWindowShrinks | Laminar/Search.cpp:61 | moving the last irreversible ply later can only remove repetitions, never create them |
| SearchRules.ImmediateRepetition | Laminar/Search.cpp:61-72 | a key equal to the one just before it is a repetition whenever that slot lies after the last irreversible ply |
| SearchRules.InsufficientMaterialMeans | Laminar/Search.cpp:79-121 | the six-branch test holds exactly when no queen, rook or pawn is left, each side has at most one minor piece, and a knight is never paired with any other minor piece |
| SearchRules.SwapColours | Laminar/Search.cpp:79-121 | exchanging the white and black bitboards swaps piece `p` with piece `p+6` and keeps twelve tables |
| SearchRules.InsufficientMaterialColourBlind | Laminar/Search.cpp:79-121 | the draw test gives the same answer after the colours are exchanged |
| SearchRules.CopyMakeRoundTrip | Laminar/Search.cpp:159-186 | restoring the saved copy-make information (and the saved accumulator) over a board whose pieces were not moved gives back the exact saved board |
| SearchRules.MakeUnmakeRestores | Laminar/Search.cpp:159-186 | saving, making a move, unmaking it and restoring the saved fields gives back the whole original board: pieces, mailbox, occupancies, history, clocks, rights and every key |
| SearchRules.PerftRestoresPartly | Laminar/UCI.cpp:125-157 | after `MakeMove`, `UnmakeMove` and the five restores of `Perft`, the board is the one before the move except for the pawn key, the half-move clock (as `MakeMove` set it) and `lastIrreversiblePly` |
| SearchRules.TTCutoffSound | Laminar/Search.cpp:425-436 | a table cutoff happens only off the PV, outside the root and singular searches, with a stored depth at least the current one, and a lower (upper) bound only cuts when it is at least beta (at most alpha); an empty slot never cuts |
| SearchRules.StoredEntryCuts | Laminar/Search.cpp:425-436 | for an entry just stored at sufficient depth under the probed key, the cutoff fires exactly for an exact score, a lower bound at or above beta, or an upper bound at or below alpha |
| SearchRules.MatedScoreIsMate | Laminar/Search.cpp:879-897 | with no legal move a checked side scores at or below the mate-found threshold, a nearer mate scores lower, and the score normalised for storing is `-MATESCORE`; without check the score is a draw |
| SearchRules.PvLine | Laminar/Search.cpp:815-832 | the principal variation of a ply is the first `len` moves of that ply's row of the table |
| SearchRules.PvSplice | Laminar/Search.cpp:815-832 | after a new best move the ply's line is that move followed by the child's line, its length is one more than the child's, and every other row and length is unchanged |
| SearchRules.PvLineSpliced | Laminar/Search.cpp:820-828 | a row holding the move followed by the child's moves reads back as that move prepended to the child's line |
| SearchRules.WidthGrows | Laminar/Search.cpp:1043-1066 | after `n` failed searches the window width is at least `2^n` unless it has already been opened to the full range |
| SearchRules.WindowOpensFully | Laminar/Search.cpp:1043-1066 | from any positive start width, nine failed searches open the window to the full score range |
| SearchRules.NarrowAfterEight | Laminar/Search.cpp:1043-1066 | from width 1, eight failed searches still leave a 256-wide window, so nine is the least number that always opens it |
| SearchRules.InitialWindow | Laminar/Search.cpp:1015-1018 | the first window lies inside `[-MAXSCORE, MAXSCORE]`, keeps the initial delta and searches at the current depth |
| SearchRules.NextWindow | Laminar/Search.cpp:1041-1066 | a failed search doubles the width (capped to the full range); a fail-low keeps beta and resets the depth; a score inside the window leaves it unchanged |
| SearchRules.AllFailedEach | Laminar/Search.cpp:1043-1061 | a run of failed searches means each search in it failed against the window it was given |
| SearchRules.WindowWidth | Laminar/Search.cpp:1043-1066 | after a run of failed searches the window's width is the doubled-and-capped start width |
| SearchRules.WindowDepth | Laminar/Search.cpp:1047-1054 | the search depth never exceeds the iteration depth and never falls more than five plies below it |
| SearchRules.WindowBounds | Laminar/Search.cpp:1046-1053 | every window stays inside `[-MAXSCORE, MAXSCORE]` |
| SearchRules.AspirationWindow | Laminar/Search.cpp:1015-1067 | the loop stops either on the first score inside its window, after which every earlier search failed, or when the search results run out, after which every search failed and the width is the doubled-and-capped start width; the final bounds are those of the window sequence |
| Fen.EmptyRun | Laminar/Movegen.cpp:2856-2868 | a pending run of empty squares is written as its single digit, and no run writes nothing |
| Fen.Rows | Laminar/Movegen.cpp:2842-2848 | the placement is written row by row from the eighth rank, each row being the next eight mailbox squares |
| Fen.RankText | Laminar/Movegen.cpp:2844-2868 | the loop over one row writes the same text as the row's reference description: piece letters, and digits for runs of empty squares |
| Fen.PlacementText | Laminar/Movegen.cpp:2840-2874 | the loop over all rows writes the placement field: the rows from the eighth rank down, separated by `/` |
| Fen.CastlingRightsAreBits | Laminar/Movegen.cpp:2825-2837 | the castling field lists `KQkq` in that order for exactly the rights whose bits are set, and `-` when none is |
| Fen.SideText | Laminar/Movegen.cpp:2877 | the side field is one letter, `w` exactly when White is to move |
| Fen.BoardToFen | Laminar/Movegen.cpp:2838-2889 | the written record is placement, side, castling rights, en-passant square (`-` when none), halfmove clock and move number separated by single spaces |
| Fen.FenTextSplit | Laminar/Movegen.cpp:2885-2886 | the record splits into the placement field, a space and the remaining fields |
| Fen.CastleLetterFlag | Laminar/Movegen.cpp:75-82 | each castling letter contributes at most one right bit |
| Fen.ScanPlacement | Laminar/Movegen.cpp:41-64 | a scan that succeeds yields a 64-square mailbox, twelve bitboards and the index of the separating space |
| Fen.ScanMatches | Laminar/Movegen.cpp:53-63 | reading the placement field keeps the mailbox and the bitboards in agreement: every square holds exactly the piece whose bitboard contains it |
| Fen.ReadPlacement | Laminar/Movegen.cpp:24-64 | the index loop clears the board and reads the placement field exactly as the reference scan does, ending just after the first space |
| Fen.PlacementRoundTrip | Laminar/Movegen.cpp:41-64 | reading back a written placement field gives the same mailbox, with matching bitboards, and stops at the following space |
| Fen.ScanCastle | Laminar/Movegen.cpp:72-92 | the castling scan reads at most four characters and yields rights below 16 |
| Fen.ReadCastling | Laminar/Movegen.cpp:72-92 | the four-step loop computes the reference castling scan: it ORs in the letters seen, stops at a space and clears everything on `-` |
| Fen.CastleRoundTrip | Laminar/Movegen.cpp:72-92 | reading back a written castling field gives the same four right bits |
| Fen.ClockText | Laminar/Movegen.cpp:114-120 | the clock is read from one or two characters, the first being the character at the read position |
| Fen.EpStart | Laminar/Movegen.cpp:93-95 | the en-passant field starts one or two characters after the castling field ends |
| Fen.ReadEpAndClock | Laminar/Movegen.cpp:96-124 | the en-passant square and the halfmove clock are read as the reference reading describes, the clock absent when the text ends early |
| Fen.ClockDigits | Laminar/Movegen.cpp:108-123 | at most two clock characters are taken |
| Fen.EpClockRoundTrip | Laminar/Movegen.cpp:96-124 | reading back written en-passant and clock fields gives the same square and the value of the first one or two clock digits |
| Fen.NoSquareClock | Laminar/Movegen.cpp:105-123 | after `-` the clock read back is the value of up to two digits |
| Fen.SquareClock | Laminar/Movegen.cpp:98-123 | after an en-passant square only the first clock digit is read back |
| Fen.LongClockTruncated | Laminar/Movegen.cpp:114-122 | a three-digit clock after `-` reads back as the clock divided by ten |
| Fen.ShortClockReadBack | Laminar/Movegen.cpp:114-122 | a clock below 100 after `-` reads back unchanged |
| Fen.WordFrom | Laminar/Movegen.cpp:114-121 | the first word of a text is a prefix of it and holds no space |
| Fen.ClockIntended | Laminar/Movegen.cpp:108-123 | the corrected clock reading takes the whole word one space after the en-passant field, and yields a `uint8_t` value |
| Fen.ClockIntendedReadBack | Laminar/Movegen.cpp:108-123 | the corrected reading gives back every clock below 256 that `boardToFEN` writes, after `-` and after a square alike |
| Fen.ReadFields | Laminar/Movegen.cpp:65-124 | the loop reading side, castling, en-passant and clock computes the reference reading of those fields |
| Fen.FieldsReadBack | Laminar/Movegen.cpp:65-124 | reading back the written side, castling, en-passant and clock fields gives the side, the rights, the square and the leading clock digits |
| Fen.ParsedFen | Laminar/Movegen.cpp:22-124 | a successfully read record has agreeing mailbox and bitboards, a valid side, castling rights below 16, and an en-passant square and clock that fit their byte-sized fields |
| Fen.ReadFen | Laminar/Movegen.cpp:22-124 | the reading loops produce exactly the reference reading of the record |
| Fen.UnionOf | Laminar/Movegen.cpp:125-134 | OR-ing a range of bitboards gives their union |
| Fen.SetOccupancies | Laminar/Movegen.cpp:125-134 | after the occupancy loops the board is well formed and its occupancies are the unions of the white, black and all pieces |
| Fen.LoadKeys | Laminar/Movegen.cpp:135-136 | the position key and the pawn key are the full hashes of the board just read |
| Fen.KingFlip | Laminar/Movegen.cpp:140-158 | a side's accumulator is mirrored exactly when its king stands on files e to h |
| Fen.RebuildAccumulators | Laminar/Movegen.cpp:138-158 | each side's accumulator is rebuilt from scratch with the mirroring its king's file calls for |
| Fen.LoadAccumulators | Laminar/Movegen.cpp:138-158 | loading the accumulators leaves the board fully loaded: the read position, consistent occupancies, correct keys and rebuilt accumulators |
| Fen.StoredFrame | Laminar/Movegen.cpp:135-158 | writing keys and accumulators keeps the board well formed and its hashes unchanged |
| Fen.LoadPosition | Laminar/Movegen.cpp:24-158 | placing a read position on the board leaves it fully loaded |
| Fen.ParseFen | Laminar/Movegen.cpp:22-159 | a readable record leaves the board fully loaded with the reference reading of that record |
| Fen.BitboardsDetermined | Laminar/Movegen.cpp:53-63 | the mailbox determines the bitboards that agree with it |
| Fen.FenRoundTrip | Laminar/Movegen.cpp:22-159 | reading back a written board gives the same mailbox, bitboards, side, castling rights and en-passant square, and the leading clock digits; the clock itself when there is no en-passant square and it is below 100 |
| Uci.FirstNonSpace | Laminar/UCI.cpp:27 | `find_first_not_of` gives the first non-whitespace index at or after the start, or -1 when everything from there is whitespace |
| Uci.LastNonSpace | Laminar/UCI.cpp:28 | `find_last_not_of` gives the last non-whitespace index, or -1 when everything is whitespace |
| Uci.Trim | Laminar/UCI.cpp:24-36 | the result is empty exactly when the input is all whitespace, and otherwise starts and ends with a non-whitespace character |
| Uci.TrimStripsWhitespace | Laminar/UCI.cpp:24-36 | the input is the result surrounded by whitespace only, on both sides |
| Uci.TrimmedIsFixed | Laminar/UCI.cpp:24-36 | a string without whitespace at either end is its own trim |
| Uci.TrimIdempotent | Laminar/UCI.cpp:24-36 | trimming twice gives the same as trimming once |
| Uci.FindFrom | Laminar/UCI.cpp:48-60 | `std::string::find` gives the first occurrence at or after the start, or -1 when there is none |
| Uci.FindSpace | Laminar/UCI.cpp:166-175 | searching for a space gives the first space at or after the start, or -1 when there is none |
| Uci.TokenLength | Laminar/UCI.cpp:166-175 | a token runs up to the first space |
| Uci.WordsShape | Laminar/UCI.cpp:160-181 | the tokens are non-empty, contain no space, and concatenated give the input with every space removed |
| Uci.SplitStringBySpace | Laminar/UCI.cpp:160-181 | the loop collects exactly the space-separated non-empty tokens, in order |
| Uci.TryGetLabelledValue | Laminar/UCI.cpp:37-74 | an absent label gives the default; otherwise the value is the trimmed text from the end of the label's first occurrence up to the nearest later occurrence of any other label, or the end |
| Uci.ValueEndUnique | Laminar/UCI.cpp:53-66 | the end of a labelled value is uniquely determined |
| Uci.DigitRun | Laminar/UCI.cpp:93 | the digits `std::stoll` reads are the longest run of leading digits |
| Uci.ParseLeadingInt | Laminar/UCI.cpp:93-99 | `std::stoll` fails exactly when no digit follows the optional sign |
| Uci.FirstToken | Laminar/UCI.cpp:86-88 | extracting the first word with `>>` gives text without whitespace |
| Uci.NonSpaceRun | Laminar/UCI.cpp:86-88 | the first word runs up to the first whitespace character |
| Uci.IntOrDefault | Laminar/UCI.cpp:91-99 | a first word that is not a number gives the default |
| Uci.TryGetLabelledValueInt | Laminar/UCI.cpp:75-100 | an absent label gives the default; otherwise the result is the number leading the labelled value's first word, or the default when that word does not start with one |
| Uci.DigitsReadBack | Laminar/UCI.cpp:93 | a string of digits is read in full |
| Uci.IntToStringReadsBack | Laminar/UCI.cpp:83-98 | when the label is absent, the default written with `std::to_string` and read back with `std::stoll` gives the default again |
| Uci.IntToStringIsOneWord | Laminar/UCI.cpp:83-88 | a written integer is a single word |
| Uci.IntToStringParses | Laminar/UCI.cpp:83-93 | a written integer parses back to itself |
| Uci.CalculateHardLimit | Laminar/UCI.cpp:182-185 | the hard limit is half the remaining time truncated toward zero, whatever the increment |
| Perft.Nodes | Laminar/UCI.cpp:115-118 | at depth 0 the count is 1 |
| Perft.Perft | Laminar/UCI.cpp:113-159 | the loop over the generated moves computes the recursive count of legal move sequences of the given length, and 1 at depth 0 |
| Perft.LegalMoves | Laminar/UCI.cpp:124-148 | the moves that survive the legality test are at most the generated ones |
| Perft.SumOneDeep | Laminar/UCI.cpp:137-140 | one ply from the leaves each legal move counts one |
| Perft.PerftOne | Laminar/UCI.cpp:113-159 | perft at depth 1 is the number of generated moves that pass the legality test |
| Perft.SumBound | Laminar/UCI.cpp:126-157 | the count over a list of moves is at most the list's length times the width raised to the depth |
| Perft.NodesBound | Laminar/UCI.cpp:113-159 | with at most `width` moves per position, perft at depth `d` is at most `width^d` |
| Perft.PerftFitsUint64 | Laminar/UCI.cpp:113-122 | with at most the move list's capacity of moves per position, perft up to depth 7 fits in the `uint64_t` it is returned in |

## Left out

- Limits: `MATESCORE`, `MAXPLY`, `MAXSCORE` and the `CORRHIST_*` sizes are declared in a header that is not part of this model. Their values in `limits.dfy` are assumptions, and the proofs use only the orderings stated in `Limits.LimitsOrdered`.
- See.CommonValues: the SEE piece values are tuneables whose defaults are defined outside the files of this model. The SEE and ordering members take the seven-entry table as a parameter. `CommonValues` (100, 300, 300, 500, 900, 0, 0) is an assumed table, used only to give the findings below concrete numbers.
- Ordering.GetMoveScore: reads the capture history through an abstract reader `captHist`. The reader takes the four indices that Ordering.cpp:47 and Ordering.cpp:84 use (piece, target, coloured victim, target threatened). History.cpp writes that table with different indices, and the struct declaration that would reconcile the two is not part of this model. The same holds for Ordering.QsearchGetMoveScore.
- Attacks.SliderLookups: the magic-bitboard tables behind `get_bishop_attacks`, `get_rook_attacks` and `get_queen_attacks` (`init_sliders_attacks` and the magic constants of Movegen.h) are not modelled. The predicate `Attacks.SlidersAgree` assumes that the lookups return the ray walks `CalculateRookAttack` and `CalculateBishopAttack`. Every fact about slider attacks in `Generation`, `Legality` and `See` rests on that assumption.
- Nnue.AutovecScrelu, Nnue.Forward, Evaluation.Evaluate: the 32-bit sums of the output layer are not checked for overflow. `SumFitsI32`, `StepFitsI32` and `ForwardFitsI32` are preconditions saying that they fit. The accumulator's `int16_t` values wrap explicitly (`CppInt.I16`).
- History.Histories.UpdateCorrhists: the `DiffFits` precondition says that the products of History.cpp:122-166 fit in a 32-bit `int`. Overflow there is not modelled.
- History.Histories.UpdateContHist, History.Histories.MalusContHist: do not state that the tables stay within `[-MAX_CONTHIST, MAX_CONTHIST]` (`Bounded()`). Their `ensures` state each entry as the gravity update applied a counted number of times (`DecayTimes`), and `History.DecayTimesBounded` proves that this keeps the bound. Stating `Bounded()` for the whole table in these two methods costs more proof effort than the verifier is given here. The other update methods do state it.
- MakeMoves.MakeMove, MakeMoves.UnmakeMove, HashUpdate.UpdateZobrist: the NNUE accumulator updates inside `XORPieceZobrist` (Movegen.cpp:1210-1258) are not modelled. Neither are the king-mirror flags (`flipWhite`/`flipBlack`) that `MakeMove` computes for them (Movegen.cpp:1530-1627), nor `refresh_if_cross` (Search.cpp:123-158). The modelled move leaves the accumulator pair as it was; the search restores it from its stack either way. The accumulator arithmetic itself is modelled in `Accumulator`.
- The non-pawn keys and the minor key are never updated by the engine's move code: only the copy-make scheme saves and restores them. The model keeps them unchanged. Board.h declares no `minorKey`. The model adds the field, because History.cpp and Search.cpp read it, and its constructor sets it to 0. `lastIrreversiblePly` starts at 0, as Board.h:28 declares it.
- Uci.TryGetLabelledValueInt: `std::stoll` throws `out_of_range` for a number that does not fit in 64 bits, and the engine does not catch that exception. The model's integers are unbounded, so that path (the engine terminating) is not modelled.
- Uci: `CalculateSoftLimit` (UCI.cpp:186-191) is floating-point arithmetic and is not modelled. Neither is `PlayMoves` (UCI.cpp:192-271), which matches move text against generated moves for the console loop.
- TTable: `adjustMateStore` and `adjustMateProbe` (Transpositions.cpp:54-84) are modelled, but the engine never calls them. `AlphaBeta` and `QuiescentSearch` store `bestValue` as it is (Search.cpp:323 and Search.cpp:917), so a stored mate score is relative to the ply it was found at. The model states the adjustment's properties but does not claim that stored scores are root-independent.
- SearchRules: the recursion of `AlphaBeta`, `QuiescentSearch` and `IterativeDeepening` is not modelled. This includes pruning, extensions, singular search, late-move reductions, and the late-move-reduction table of `InitializeLMRTable` (Search.cpp:32-42, floating-point `log`). The model covers the decision rules listed in the table above.
- SearchRules.AspirationWindow: the time and stop checks at the head of the loop (Search.cpp:1024-1039) are modelled as the sequence of search results running out. `results[i]` stands for the score the `i`-th re-search returns.
- Perft.Perft: generation, making a move and the legality test are parameters (`Rules`), and each branch starts from a value of the position. `Perft` does not use the search's copy-make restore: after `UnmakeMove` it puts back only the key, the en-passant square, the rights, the side and the accumulator, so the pawn key, the half-move clock and `lastIrreversiblePly` keep the values the move gave them for the rest of the loop (`SearchRules.PerftRestoresPartly`). The counts do not depend on this, because generation and `isLegal` read none of those three fields. The per-move printing at the root is output and is left out.
- Fen.ParseFen: `parse_fen` reads past the end of a short line and does not check the letters it indexes with. In the model, a read past the end gives the terminating NUL. A line is rejected (`None`) when it has a letter that is not a piece, a piece beyond the last square, or a clock that `std::stoi` refuses: those are where the engine writes outside its arrays or throws. `Fen.Loadable` further requires both kings and an en-passant value that is a square or `NO_SQ`, because the hash and accumulator code index with them.
- Evaluation: `ScaleEval` (Evaluation.cpp:28-32) and the node-based time scaling (Search.cpp:1077-1080) are floating-point arithmetic and are not modelled.
- Tuneables.h values (margins, bonuses, history divisors) are parameters of the members that use them, apart from the few bounds in `Limits` that the proofs need.
- Left out because they are I/O, threads or clocks:
  - `LoadNetwork` (NNUE.cpp:36-63) reads a file; the weights are a parameter `Net`.
  - Threading.cpp is the thread pool.
  - PrettyPrinting.cpp, `print_UCI` (Search.cpp:927-958) and `ProcessUCI`/`main` (UCI.cpp:272-562) are the console.
  - `prefetchTT` (Transpositions.cpp:85-88) is a compiler builtin.
  - The polling of `std::chrono` and `stopSearch` is a clock and an atomic.

## Findings

| source | as written | input that shows it | evidently intended | confidence | as-written member | corrected member |
|---|---|---|---|---|---|---|
| Laminar/SEE.cpp:62-65 | `promotion` holds the 0/1 result of `(Type & promotionFlag) != 0`, so `promotion ? promotion : mailbox[from]` makes piece kind 1, a knight, the first piece at risk for every promotion | a queen promotion onto an empty square, with the values 100, 300, 300, 500, 900: the estimated gain is 800, and less a knight that leaves 500 ≥ 0, so `SEE(pos, move, 0)` passes at once on any board, even where the new queen is simply lost | the promoted piece is the first piece at risk, and the exchange decides whenever losing it would cost more than the threshold allows | high; not executed | See.FirstVictim, See.PromotionRisksKnight | See.IntendedFirstVictim, See.SeeValueIntended, See.IntendedEarlyPassIsSafe, See.PromotionRisksQueen |
| Laminar/Ordering.cpp:25-28 | `IsEpCapture` tests `Type & ep_capture` (0b0101) for non-zero, which holds for every odd type and every capture type | any ordinary capture (type `capture`, 0b0100): `IsEpCapture` is true, so `GetMoveScore` and `QsearchGetMoveScore` take the victim to be a pawn. A knight taking a queen scores the same MVV-LVA value as a knight taking a pawn (9700 with the values above) | only the en-passant capture counts as en passant, and the victim is otherwise the piece on the target square (89700 for the queen capture) | high; not executed | Ordering.IsEpCaptureAsWritten, Ordering.EveryCaptureLooksEnPassant, Ordering.VictimAsWritten, Ordering.VictimAlwaysPawn, Ordering.QueenCaptureRankedAsPawnCapture | Ordering.IsEpCapture, Ordering.Victim, Ordering.CaptureScoresAgreeOnPawns |
| Laminar/Movegen.cpp:2122-2186 | the `bishop_promo_capture` arm of `MakeMove` increments the half-move clock where every other capture and promotion arm sets it to 0 | a pawn capturing onto the last rank and promoting to a bishop with the clock at 5: the clock becomes 6 | the clock resets after every capture and every pawn move | high; not executed | MoveRules.ClockAfterAsWritten, MoveRules.BishopPromoCaptureKeepsClock | MoveRules.ClockAfter, MoveRules.ClockCountsReversibleMoves |
| Laminar/Movegen.cpp:108-123 | the clock is read from the two characters two places after the start of the en-passant field. After a square such as `e3` these are a space and the first clock digit, so only that digit is read. After `-` at most two digits are read | `boardToFEN` writes `... e3 12 1`, which `parse_fen` reads back with clock 1; `... - 123 70` reads back with clock 12 | the whole half-move field is read | medium; not executed | Fen.SquareClock, Fen.LongClockTruncated | Fen.ClockIntended, Fen.ClockIntendedReadBack |

`MakeMoves.MakeMove`, `Ordering.GetMoveScore`, `Ordering.QsearchGetMoveScore`, `See.StaticExchange` and `Fen.ParseFen` model the code as written, because they describe what the engine does. The corrected definitions stand beside them, and the lemmas named above relate the two.
