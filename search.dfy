// The decision rules of the search (Search.cpp): draw detection, the
// copy-make save and restore around a move, the transposition-table cutoff,
// the score of a node without legal moves, the principal-variation splice
// and the aspiration-window loop. The recursive search itself is not
// modelled; where a rule needs its result, the result is a parameter.

module SearchRules {
  import opened CppInt
  import opened Limits
  import opened Bitboards
  import opened Consts
  import opened Moves
  import opened NetDefs
  import opened Chessboard
  import opened TTEntry
  import opened TTable
  import opened CopyMakeState
  import opened Placement
  import opened Zobrist
  import opened MoveRules
  import opened MakeMoves

  // ---------------------------------------------------------------- draws

  /**
   * The position last added to `history` occurred before, at an index above
   * the last irreversible move and below the last entry.
   */
  predicate RepeatsSince(history: seq<nat>, lastIrreversible: int)
    requires |history| >= 1
  {
    exists i :: 0 <= i <= |history| - 2 && lastIrreversible < i && history[i] == history[|history| - 1]
  }

  /**
   * `IsThreefold`: walk back from the entry before the last one down to just
   * above the last irreversible ply, and report a repetition as soon as one
   * earlier occurrence is found: two occurrences already count.
   */
  method IsThreefold(history: seq<nat>, lastIrreversible: int) returns (r: bool)
    requires |history| >= 1
    ensures r <==> RepeatsSince(history, lastIrreversible)
  {
    var lastMove := history[|history| - 1];
    var repetitionCount := 1;
    var i := |history| - 2;
    while i > lastIrreversible
      invariant i <= |history| - 2 && repetitionCount == 1
      invariant forall j :: i < j <= |history| - 2 && lastIrreversible < j && 0 <= j ==> history[j] != lastMove
      decreases i
    {
      if i < 0 {
        break;
      }
      if history[i] == lastMove {
        repetitionCount := repetitionCount + 1;
      }
      if repetitionCount >= 2 {
        return true;
      }
      i := i - 1;
    }
    return false;
  }

  /** Forgetting older history can only remove repetitions: a later irreversible ply finds fewer. */
  lemma RepetitionWindowShrinks(history: seq<nat>, l1: int, l2: int)
    requires |history| >= 1 && l1 <= l2
    ensures RepeatsSince(history, l2) ==> RepeatsSince(history, l1)
  {
  }

  /** A position that was reached twice in a row, with nothing irreversible between, repeats. */
  lemma ImmediateRepetition(history: seq<nat>, lastIrreversible: int)
    requires |history| >= 2 && lastIrreversible < |history| - 2
    requires history[|history| - 2] == history[|history| - 1]
    ensures RepeatsSince(history, lastIrreversible)
  {
    assert 0 <= |history| - 2;
  }

  /** The numbers of white and black bishops, knights, rooks, queens and pawns. */
  function Count(bitboards: seq<Bitboard>, piece: int): (c: nat)
    requires |bitboards| == 12 && 0 <= piece < 12
  {
    |bitboards[piece]|
  }

  /**
   * `isInsufficientMaterial`: no pawns, rooks or queens, and at most a lone
   * bishop or a lone knight on the board, or one bishop on each side.
   */
  function IsInsufficientMaterial(bitboards: seq<Bitboard>): (r: bool)
    requires |bitboards| == 12
  {
    var wb, bb, wn, bn := Count(bitboards, B), Count(bitboards, BB), Count(bitboards, N), Count(bitboards, BN);
    if Count(bitboards, Q) == 0 && Count(bitboards, BQ) == 0 && Count(bitboards, R) == 0
      && Count(bitboards, BR) == 0 && Count(bitboards, P) == 0 && Count(bitboards, BP) == 0
    then
      (wb == 0 && bb == 0 && wn == 0 && bn == 0)
      || (wb == 1 && bb == 0 && wn == 0 && bn == 0)
      || (wb == 0 && bb == 1 && wn == 0 && bn == 0)
      || (wb == 0 && bb == 0 && wn == 1 && bn == 0)
      || (wb == 0 && bb == 0 && wn == 0 && bn == 1)
      || (wb == 1 && bb == 1 && wn == 0 && bn == 0)
    else false
  }

  /**
   * The draw rule in other words: only kings and minor pieces, at most one
   * minor piece per side, and a knight only when it is the sole minor piece.
   */
  lemma InsufficientMaterialMeans(bitboards: seq<Bitboard>)
    requires |bitboards| == 12
    ensures var wb, bb, wn, bn := Count(bitboards, B), Count(bitboards, BB), Count(bitboards, N), Count(bitboards, BN);
      IsInsufficientMaterial(bitboards) <==>
        && Count(bitboards, Q) + Count(bitboards, BQ) + Count(bitboards, R) + Count(bitboards, BR) == 0
        && Count(bitboards, P) + Count(bitboards, BP) == 0
        && wb + wn <= 1 && bb + bn <= 1
        && (wn + bn > 0 ==> wb + bb + wn + bn == 1)
  {
  }

  /** The same pieces with the colours exchanged. */
  function SwapColours(bitboards: seq<Bitboard>): (r: seq<Bitboard>)
    requires |bitboards| == 12
    ensures |r| == 12 && forall p :: 0 <= p < 12 ==> r[p] == bitboards[(p + 6) % 12]
  {
    bitboards[6..] + bitboards[..6]
  }

  /** The rule does not depend on which side owns which pieces. */
  lemma InsufficientMaterialColourBlind(bitboards: seq<Bitboard>)
    requires |bitboards| == 12
    ensures IsInsufficientMaterial(SwapColours(bitboards)) == IsInsufficientMaterial(bitboards)
  {
    var s := SwapColours(bitboards);
    assert s[B] == bitboards[BB] && s[BB] == bitboards[B] && s[N] == bitboards[BN] && s[BN] == bitboards[N];
    assert s[R] == bitboards[BR] && s[BR] == bitboards[R] && s[Q] == bitboards[BQ] && s[BQ] == bitboards[Q];
    assert s[P] == bitboards[BP] && s[BP] == bitboards[P];
  }

  // ------------------------------------------------------------ copy-make

  /** The board `ApplyCopyMake` leaves behind, as a value. */
  function Restored(s: BoardState, info: CopyMake, savedAccumulator: AccumulatorPair): (r: BoardState)
  {
    s.(enpassent := info.lastEp, castle := info.lastCastle, side := info.lastSide,
       zobristKey := info.lastZobrist, accumulator := savedAccumulator, pawnKey := info.lastPawnKey,
       whiteNonPawnKey := info.lastWhiteNp, blackNonPawnKey := info.lastBlackNp, minorKey := info.lastMinor,
       lastIrreversiblePly := info.lastIrreversible, halfmove := info.lastHalfmove)
  }

  /**
   * Save, play, undo the pieces, restore: once the pieces, the mailbox and
   * the history are back, restoring what was saved before the move gives
   * back the board exactly, whatever the move did to the other fields.
   */
  lemma CopyMakeRoundTrip(before: BoardState, after: BoardState, move: Move)
    requires |before.mailbox| == 64 && 0 <= move.To < 64
    requires after.bitboards == before.bitboards && after.occupancies == before.occupancies
    requires after.mailbox == before.mailbox && after.history == before.history
    ensures Restored(after, SaveCopyMakeInfo(before, move), before.accumulator) == before
  {
  }

  /**
   * A move of the search on the board: save, `MakeMove`, `UnmakeMove` with
   * the saved captured piece, restore. The board comes back exactly, keys,
   * rights, clock and accumulator included.
   */
  lemma MakeUnmakeRestores(s0: BoardState, s1: BoardState, s2: BoardState, move: Move, keys: ZobristKeys)
    requires KeysShape(keys) && WellFormed(s0) && Agrees(s0.bitboards, s0.occupancies, s0.mailbox)
    requires MoveFits(s0.mailbox, move, s0.side) && MoveMade(s0, s1, move, keys)
    requires UnmoveFits(s1.mailbox, move, 1 - s1.side, SaveCopyMakeInfo(s0, move).capturedPiece)
    requires Unmade(s1, s2, move, SaveCopyMakeInfo(s0, move).capturedPiece)
    ensures Restored(s2, SaveCopyMakeInfo(s0, move), s0.accumulator) == s0
  {
    UnmakeAfterMake(s0.mailbox, move, s0.side);
    AgreesUnique(s2.bitboards, s2.occupancies, s0.bitboards, s0.occupancies, s0.mailbox);
    CopyMakeRoundTrip(s0, s2, move);
  }

  /**
   * What `Perft` puts back after `UnmakeMove`: the key, the en-passant
   * square, the rights, the side and the accumulator it saved.
   */
  function PerftRestored(s: BoardState, saved: BoardState): BoardState
  {
    s.(zobristKey := saved.zobristKey, enpassent := saved.enpassent, castle := saved.castle,
       side := saved.side, accumulator := saved.accumulator)
  }

  /**
   * A move of `Perft` on the board: `MakeMove`, `UnmakeMove` with the
   * captured piece, then the five saved fields put back. Everything comes
   * back except the pawn key, the clock and the last irreversible ply,
   * which keep the values the move gave them.
   */
  lemma PerftRestoresPartly(s0: BoardState, s1: BoardState, s2: BoardState, move: Move, keys: ZobristKeys)
    requires KeysShape(keys) && WellFormed(s0) && Agrees(s0.bitboards, s0.occupancies, s0.mailbox)
    requires MoveFits(s0.mailbox, move, s0.side) && MoveMade(s0, s1, move, keys)
    requires UnmoveFits(s1.mailbox, move, 1 - s1.side, s0.mailbox[move.To])
    requires Unmade(s1, s2, move, s0.mailbox[move.To])
    ensures PerftRestored(s2, s0)
         == s0.(pawnKey := s1.pawnKey, halfmove := s1.halfmove, lastIrreversiblePly := s1.lastIrreversiblePly)
    ensures s1.halfmove == ClockAfterAsWritten(s0.halfmove, move)
  {
    UnmakeAfterMake(s0.mailbox, move, s0.side);
    AgreesUnique(s2.bitboards, s2.occupancies, s0.bitboards, s0.occupancies, s0.mailbox);
  }

  // ------------------------------------------------------------ TT cutoff

  /**
   * The transposition-table cutoff of `AlphaBeta`: the entry belongs to this
   * position, carries a bound, was searched at least as deep, the node is
   * neither the root nor a PV node nor a singular probe, and the bound
   * decides the window: exact, a lower bound at or above `beta`, or an upper
   * bound at or below `alpha`.
   */
  predicate TTCutoff(entry: Entry, key: nat, depth: int, alpha: int, beta: int,
                     isSingularSearch: bool, isPvNode: bool, root: bool)
  {
    var bound := UnpackBound(entry.packedInfo);
    var ttDepth := UnpackDepth(entry.packedInfo);
    && entry.zobristKey == key && bound != HFNONE
    && !isSingularSearch && !isPvNode && !root && ttDepth >= depth
    && (bound == HFEXACT || (bound == HFLOWER && entry.score >= beta) || (bound == HFUPPER && entry.score <= alpha))
  }

  /**
   * What a cutoff guarantees: a non-exact bound only cuts on its side of the
   * window, a PV node, the root or a singular probe never cuts, and an empty
   * slot (the default entry of a cleared table) never cuts.
   */
  lemma TTCutoffSound(entry: Entry, key: nat, depth: int, alpha: int, beta: int,
                      isSingularSearch: bool, isPvNode: bool, root: bool)
    ensures TTCutoff(entry, key, depth, alpha, beta, isSingularSearch, isPvNode, root) ==>
      && UnpackDepth(entry.packedInfo) >= depth && !isPvNode && !root && !isSingularSearch
      && (UnpackBound(entry.packedInfo) == HFLOWER ==> entry.score >= beta)
      && (UnpackBound(entry.packedInfo) == HFUPPER ==> entry.score <= alpha)
    ensures !TTCutoff(DefaultEntry(), key, depth, alpha, beta, isSingularSearch, isPvNode, root)
  {
  }

  /**
   * An entry stored by `ttStore` with depth `d` and bound `b` cuts a later
   * search of the same position at depth at most `d` exactly when its bound
   * decides the window.
   */
  lemma StoredEntryCuts(key: nat, score: int, move: Move16, d: int, b: int, pv: bool, depth: int,
                        alpha: int, beta: int)
    requires 0 <= d <= 255 && b in {HFLOWER, HFEXACT, HFUPPER} && depth <= d
    ensures TTCutoff(Entry(key, score, move, PackData(d, b, pv)), key, depth, alpha, beta, false, false, false) <==>
      (b == HFEXACT || (b == HFLOWER && score >= beta) || (b == HFUPPER && score <= alpha))
  {
  }

  // ------------------------------------------------- no legal move searched

  /**
   * The value of a node where no move was searched: a singular probe fails
   * low at `alpha`; otherwise checkmate, `-MATESCORE + ply`, or stalemate, 0.
   */
  function NoMoveScore(isSingularSearch: bool, isInCheck: bool, alpha: int, ply: int): (r: int)
  {
    if isSingularSearch then alpha
    else if isInCheck then -MATESCORE + ply
    else 0
  }

  /**
   * A checkmate within the ply limit is recognised as a mate score, a mate
   * found nearer the root scores lower for the mated side, and
   * `adjustMateStore` would map it to the root-independent `-MATESCORE`
   * (the search itself stores `bestValue` in the table without calling it).
   */
  lemma MatedScoreIsMate(alpha: int, ply: int, laterPly: int)
    requires 0 <= ply < laterPly < MAXPLY
    ensures NoMoveScore(false, true, alpha, ply) <= -MATE_FOUND
    ensures NoMoveScore(false, true, alpha, ply) < NoMoveScore(false, true, alpha, laterPly)
    ensures AdjustMateStore(NoMoveScore(false, true, alpha, ply), ply) == -MATESCORE
    ensures NoMoveScore(false, false, alpha, ply) == 0
  {
  }

  // ------------------------------------------------------------- PV splice

  /** Row `ply` of the PV table, `len` moves long. */
  function PvLine(pvTable: array2<Move>, ply: int, len: int): (line: seq<Move>)
    reads pvTable
    requires 0 <= ply < pvTable.Length0 && 0 <= len <= pvTable.Length1
    ensures |line| == len && forall k :: 0 <= k < len ==> line[k] == pvTable[ply, k]
  {
    if len == 0 then [] else PvLine(pvTable, ply, len - 1) + [pvTable[ply, len - 1]]
  }

  /**
   * The PV update when `alpha` improves at a PV node: row `ply` becomes the
   * move followed by the child's line, one move longer than the child's.
   */
  method PvSplice(pvTable: array2<Move>, pvLengths: array<int>, ply: int, move: Move)
    requires pvTable.Length0 == MAXPLY && pvTable.Length1 == MAXPLY && pvLengths.Length == MAXPLY
    requires 0 <= ply && ply + 1 < MAXPLY && 0 <= pvLengths[ply + 1] < MAXPLY
    modifies pvTable, pvLengths
    ensures pvLengths[ply] == old(pvLengths[ply + 1]) + 1
    ensures PvLine(pvTable, ply, pvLengths[ply]) == [move] + old(PvLine(pvTable, ply + 1, pvLengths[ply + 1]))
    ensures forall i, k :: 0 <= i < MAXPLY && i != ply && 0 <= k < MAXPLY ==> pvTable[i, k] == old(pvTable[i, k])
    ensures forall i :: 0 <= i < MAXPLY && i != ply ==> pvLengths[i] == old(pvLengths[i])
  {
    var childLength := pvLengths[ply + 1];
    ghost var child := PvLine(pvTable, ply + 1, childLength);
    pvTable[ply, 0] := move;
    var k := 0;
    while k < childLength
      modifies pvTable
      invariant 0 <= k <= childLength
      invariant pvTable[ply, 0] == move
      invariant forall j :: 0 <= j < k ==> pvTable[ply, j + 1] == child[j]
      invariant forall i, j :: 0 <= i < MAXPLY && i != ply && 0 <= j < MAXPLY ==> pvTable[i, j] == old(pvTable[i, j])
    {
      pvTable[ply, k + 1] := pvTable[ply + 1, k];
      k := k + 1;
    }
    PvLineSpliced(pvTable, ply, move, child);
    pvLengths[ply] := childLength + 1;
  }

  /** A row holding `move` and then `child` reads back as `[move] + child`. */
  lemma PvLineSpliced(pvTable: array2<Move>, ply: int, move: Move, child: seq<Move>)
    requires 0 <= ply < pvTable.Length0 && |child| < pvTable.Length1
    requires pvTable[ply, 0] == move && forall j :: 0 <= j < |child| ==> pvTable[ply, j + 1] == child[j]
    ensures PvLine(pvTable, ply, |child| + 1) == [move] + child
  {
    var line, spliced := PvLine(pvTable, ply, |child| + 1), [move] + child;
    forall k | 0 <= k <= |child|
      ensures line[k] == spliced[k]
    {
      if k > 0 {
        assert spliced[k] == child[k - 1];
      }
    }
    assert line == spliced;
  }

  // ------------------------------------------------------ aspiration window

  /** The widening step: double, and open fully once the doubled width reaches ASP_WINDOW_MAX. */
  function Widen(delta: int): (r: int)
  {
    if delta + delta >= ASP_WINDOW_MAX then MAXSCORE else delta + delta
  }

  /** The width after `n` failed searches. */
  function WidthAfter(delta: int, n: nat): int
  {
    if n == 0 then delta else Widen(WidthAfter(delta, n - 1))
  }

  /** Until it opens fully, the width after `n` failures is at least `2^n`. */
  lemma {:induction false} WidthGrows(delta: int, n: nat)
    requires 1 <= delta
    ensures WidthAfter(delta, n) == MAXSCORE || WidthAfter(delta, n) >= Pow2(n)
  {
    if n > 0 {
      WidthGrows(delta, n - 1);
    }
  }

  /** From any positive starting width, nine failures open the window fully, and it stays open. */
  lemma {:induction false} WindowOpensFully(delta: int, n: nat)
    requires 1 <= delta && n >= 9
    ensures WidthAfter(delta, n) == MAXSCORE
  {
    if n == 9 {
      WidthGrows(delta, 8);
      assert Pow2(8) == 256;
    } else {
      WindowOpensFully(delta, n - 1);
    }
  }

  /** Nine is the least such count: from width 1 the window is still narrow after eight failures. */
  lemma NarrowAfterEight()
    ensures WidthAfter(1, 8) == 256
  {
  }

  /** The window of one aspiration search: its bounds, the current width and the depth it searches to. */
  datatype Window = Window(alpha: int, beta: int, delta: int, depth: int)

  /** The first window: `score` plus or minus the initial width, clamped to the score range, at the full depth. */
  function InitialWindow(score: int, delta: int, currDepth: int): (w: Window)
    ensures -MAXSCORE <= w.alpha && w.beta <= MAXSCORE && w.delta == delta && w.depth == currDepth
  {
    Window(Max(-MAXSCORE, score - delta), Min(MAXSCORE, score + delta), delta, currDepth)
  }

  /** The result of a search lies outside its window (on a bound counts as outside). */
  predicate Failed(w: Window, score: int)
  {
    score <= w.alpha || score >= w.beta
  }

  /**
   * The window after a search that scored `score`: a fail low moves `alpha`
   * to the score less the doubled width and restores the full depth; a fail
   * high moves `beta` to the score plus the doubled width and searches one
   * ply shallower, down to `currDepth - 5`; the width doubles and opens
   * fully once it reaches ASP_WINDOW_MAX. A score inside the window leaves
   * it as it is.
   */
  function NextWindow(w: Window, score: int, currDepth: int): (next: Window)
    ensures Failed(w, score) ==> next.delta == Widen(w.delta)
    ensures score <= w.alpha ==> next.beta == w.beta && next.depth == currDepth
    ensures w.alpha < score < w.beta ==> next == w
  {
    var d := w.delta + w.delta;
    var widened := if d >= ASP_WINDOW_MAX then MAXSCORE else d;
    if score <= w.alpha then Window(Max(-MAXSCORE, score - d), w.beta, widened, currDepth)
    else if score >= w.beta then Window(w.alpha, Min(MAXSCORE, score + d), widened, Max(w.depth - 1, currDepth - 5))
    else w
  }

  /** The window after the first `n` results. */
  function WindowAfter(score0: int, delta0: int, currDepth: int, results: seq<int>, n: nat): Window
    requires n <= |results|
  {
    if n == 0 then InitialWindow(score0, delta0, currDepth)
    else NextWindow(WindowAfter(score0, delta0, currDepth, results, n - 1), results[n - 1], currDepth)
  }

  /** Each of the first `n` results fell outside its window. */
  predicate AllFailed(score0: int, delta0: int, currDepth: int, results: seq<int>, n: nat)
    requires n <= |results|
  {
    n == 0 || (AllFailed(score0, delta0, currDepth, results, n - 1)
               && Failed(WindowAfter(score0, delta0, currDepth, results, n - 1), results[n - 1]))
  }

  /** `AllFailed` spelt out: every one of the first `n` results failed low or high against its window. */
  lemma {:induction false} AllFailedEach(score0: int, delta0: int, currDepth: int, results: seq<int>, n: nat)
    requires n <= |results| && AllFailed(score0, delta0, currDepth, results, n)
    ensures forall i :: 0 <= i < n ==> Failed(WindowAfter(score0, delta0, currDepth, results, i), results[i])
  {
    if n > 0 {
      AllFailedEach(score0, delta0, currDepth, results, n - 1);
    }
  }

  /** After `n` failed searches the width is `WidthAfter(delta0, n)`. */
  lemma {:induction false} WindowWidth(score0: int, delta0: int, currDepth: int, results: seq<int>, n: nat)
    requires n <= |results| && AllFailed(score0, delta0, currDepth, results, n)
    ensures WindowAfter(score0, delta0, currDepth, results, n).delta == WidthAfter(delta0, n)
  {
    if n > 0 {
      WindowWidth(score0, delta0, currDepth, results, n - 1);
    }
  }

  /** Every search runs between five plies short of the iteration's depth and the full depth. */
  lemma {:induction false} WindowDepth(score0: int, delta0: int, currDepth: int, results: seq<int>, n: nat)
    requires n <= |results|
    ensures currDepth - 5 <= WindowAfter(score0, delta0, currDepth, results, n).depth <= currDepth
  {
    if n > 0 {
      WindowDepth(score0, delta0, currDepth, results, n - 1);
    }
  }

  /** Both bounds stay within the score range. */
  lemma {:induction false} WindowBounds(score0: int, delta0: int, currDepth: int, results: seq<int>, n: nat)
    requires n <= |results|
    ensures var w := WindowAfter(score0, delta0, currDepth, results, n);
      -MAXSCORE <= w.alpha && w.beta <= MAXSCORE
  {
    if n > 0 {
      WindowBounds(score0, delta0, currDepth, results, n - 1);
    }
  }

  /**
   * The aspiration loop of `IterativeDeepening`. `results[i]` is the value of
   * the `i`-th search, `AlphaBeta` with the window `WindowAfter(.., i)` to
   * depth `max(depth, 1)`; running out of results stands for the time or stop
   * check that breaks the loop. The loop ends after the first result inside
   * its window, every earlier result having failed low or high.
   */
  method AspirationWindow(score0: int, delta0: int, currDepth: int, results: seq<int>)
    returns (score: int, alpha: int, beta: int, delta: int, searches: nat, inside: bool)
    requires -MAXSCORE <= score0 <= MAXSCORE && 1 <= delta0 && 1 <= currDepth
    ensures searches <= |results|
    ensures var w := WindowAfter(score0, delta0, currDepth, results, searches);
      alpha == w.alpha && beta == w.beta && (!inside ==> delta == w.delta)
    ensures inside ==>
      (1 <= searches && score == results[searches - 1]
       && !Failed(WindowAfter(score0, delta0, currDepth, results, searches - 1), score))
    ensures !inside ==> searches == |results|
    ensures inside ==> AllFailed(score0, delta0, currDepth, results, searches - 1)
    ensures !inside ==> AllFailed(score0, delta0, currDepth, results, searches)
    ensures !inside ==> delta == WidthAfter(delta0, searches)
  {
    score := score0;
    delta := delta0;
    alpha := Max(-MAXSCORE, score - delta);
    beta := Min(MAXSCORE, score + delta);
    var aspWindowDepth := currDepth;
    searches := 0;
    inside := false;
    while searches < |results|
      invariant searches <= |results|
      invariant WindowAfter(score0, delta0, currDepth, results, searches) == Window(alpha, beta, delta, aspWindowDepth)
      invariant AllFailed(score0, delta0, currDepth, results, searches)
      decreases |results| - searches
    {
      ghost var w, n := Window(alpha, beta, delta, aspWindowDepth), searches;
      score := results[searches];
      ghost var next := NextWindow(w, score, currDepth);
      searches := searches + 1;
      assert WindowAfter(score0, delta0, currDepth, results, searches) == next;
      delta := delta + delta;
      if score <= alpha {
        alpha := Max(-MAXSCORE, score - delta);
        aspWindowDepth := currDepth;
      } else if score >= beta {
        beta := Min(MAXSCORE, score + delta);
        aspWindowDepth := Max(aspWindowDepth - 1, currDepth - 5);
      } else {
        inside := true;
        return;
      }
      if delta >= ASP_WINDOW_MAX {
        delta := MAXSCORE;
      }
      assert Window(alpha, beta, delta, aspWindowDepth) == next;
      assert AllFailed(score0, delta0, currDepth, results, searches);
    }
    WindowWidth(score0, delta0, currDepth, results, searches);
  }

  function Max(a: int, b: int): int { if a >= b then a else b }
  function Min(a: int, b: int): int { if a <= b then a else b }
}
