// `Perft` (UCI.cpp): the number of legal move sequences of a given length,
// counted by generating the pseudo-legal moves, making each, keeping the
// ones `isLegal` accepts and recursing one ply shallower.

module Perft {
  import opened Moves

  /**
   * The three engine operations `Perft` is built from: the pseudo-legal
   * moves of a position, the position after a move, and the legality test
   * that runs on the position after the move.
   */
  datatype Rules<!S, !M> = Rules(generate: S -> seq<M>, make: (S, M) -> S, legal: (S, M) -> bool)

  /** What the move `m` adds to the count one ply below `s`: nothing when it leaves its own king attacked. */
  function Branch<S, M>(r: Rules<S, M>, s: S, m: M, depth: nat): (n: nat)
    decreases depth, 1, 0
  {
    var child := r.make(s, m);
    if r.legal(child, m) then Nodes(r, child, depth) else 0
  }

  /** The leaves `depth` plies below `s`: one at depth 0, otherwise the sum over the moves of the branches. */
  function Nodes<S, M>(r: Rules<S, M>, s: S, depth: nat): (n: nat)
    ensures depth == 0 ==> n == 1
    decreases depth, 0, 0
  {
    if depth == 0 then 1 else Sum(r, s, r.generate(s), depth - 1)
  }

  /** The branches of `moves` from `s`, each counted `depth` plies further down. */
  function Sum<S, M>(r: Rules<S, M>, s: S, moves: seq<M>, depth: nat): (n: nat)
    decreases depth, 1, |moves|
  {
    if moves == [] then 0
    else Sum(r, s, moves[..|moves| - 1], depth) + Branch(r, s, moves[|moves| - 1], depth)
  }

  /**
   * `Perft`: 1 at depth 0; otherwise every generated move is made, and when
   * `isLegal` accepts it the count below it is added. `perftDepth` only
   * selects the depth whose per-move counts the engine prints.
   */
  method Perft<S, M>(r: Rules<S, M>, s: S, depth: nat, perftDepth: int) returns (nodes: nat)
    ensures nodes == Nodes(r, s, depth)
    ensures depth == 0 ==> nodes == 1
    decreases depth
  {
    if depth == 0 {
      return 1;
    }
    var moves := r.generate(s);
    nodes := 0;
    for i := 0 to |moves|
      invariant nodes == Sum(r, s, moves[..i], depth - 1)
    {
      var move := moves[i];
      var child := r.make(s, move);
      assert moves[..i + 1][..i] == moves[..i];
      if r.legal(child, move) {
        var added := Perft(r, child, depth - 1, perftDepth);
        nodes := nodes + added;
      }
    }
    assert moves[..|moves|] == moves;
  }

  // ------------------------------------------------------------ properties

  /** The moves of `moves` that `isLegal` accepts after they are made. */
  function LegalMoves<S, M>(r: Rules<S, M>, s: S, moves: seq<M>): (legal: seq<M>)
    ensures |legal| <= |moves|
  {
    if moves == [] then []
    else
      var m := moves[|moves| - 1];
      LegalMoves(r, s, moves[..|moves| - 1]) + (if r.legal(r.make(s, m), m) then [m] else [])
  }

  /** At depth 1 every legal move is one leaf. */
  lemma {:induction false} SumOneDeep<S, M>(r: Rules<S, M>, s: S, moves: seq<M>)
    ensures Sum(r, s, moves, 0) == |LegalMoves(r, s, moves)|
    decreases |moves|
  {
    if moves != [] {
      SumOneDeep(r, s, moves[..|moves| - 1]);
    }
  }

  /** `Perft` to depth 1 counts the legal moves. */
  lemma PerftOne<S, M>(r: Rules<S, M>, s: S)
    ensures Nodes(r, s, 1) == |LegalMoves(r, s, r.generate(s))|
  {
    SumOneDeep(r, s, r.generate(s));
  }

  function Power(b: nat, e: nat): (p: nat)
    ensures b >= 1 ==> p >= 1
  {
    if e == 0 then 1 else b * Power(b, e - 1)
  }

  /** No position has more than `width` pseudo-legal moves. */
  ghost predicate AtMost<S(!new), M>(r: Rules<S, M>, width: nat)
  {
    forall s :: |r.generate(s)| <= width
  }

  /** Every branch below a list of moves counts at most `width ^ depth` leaves. */
  lemma {:induction false} SumBound<S(!new), M>(r: Rules<S, M>, s: S, moves: seq<M>, depth: nat, width: nat)
    requires AtMost(r, width)
    ensures Sum(r, s, moves, depth) <= |moves| * Power(width, depth)
    decreases depth, 1, |moves|
  {
    if moves != [] {
      var m := moves[|moves| - 1];
      SumBound(r, s, moves[..|moves| - 1], depth, width);
      NodesBound(r, r.make(s, m), depth, width);
      assert Branch(r, s, m, depth) <= Power(width, depth);
      assert (|moves| - 1) * Power(width, depth) + Power(width, depth) == |moves| * Power(width, depth);
    }
  }

  /** With at most `width` moves a position, `depth` plies hold at most `width ^ depth` leaves. */
  lemma {:induction false} NodesBound<S(!new), M>(r: Rules<S, M>, s: S, depth: nat, width: nat)
    requires AtMost(r, width)
    ensures Nodes(r, s, depth) <= Power(width, depth)
    decreases depth, 0, 0
  {
    if depth > 0 {
      SumBound(r, s, r.generate(s), depth - 1, width);
      var k := |r.generate(s)|;
      assert k * Power(width, depth - 1) <= width * Power(width, depth - 1) by {
        MulMonotone(k, width, Power(width, depth - 1));
      }
    }
  }

  lemma MulMonotone(a: nat, b: nat, c: nat)
    requires a <= b
    ensures a * c <= b * c
  {
  }

  /**
   * A move list holds at most 256 moves, so up to depth 7 the count fits the
   * `uint64_t` the engine returns it in: there it never wraps around.
   */
  lemma {:induction false} PerftFitsUint64<S(!new), M>(r: Rules<S, M>, s: S, depth: nat)
    requires AtMost(r, MAX_MOVES) && depth <= 7
    ensures Nodes(r, s, depth) < 0x1_0000_0000_0000_0000
  {
    NodesBound(r, s, depth, MAX_MOVES);
    PowerMonotone(MAX_MOVES, depth, 7);
    assert Power(256, 7) == 0x100_0000_0000_0000;
  }

  lemma {:induction false} PowerMonotone(b: nat, e: nat, f: nat)
    requires b >= 1 && e <= f
    ensures Power(b, e) <= Power(b, f)
    decreases f
  {
    if e < f {
      PowerMonotone(b, e, f - 1);
      MulMonotone(1, b, Power(b, f - 1));
    }
  }
}
