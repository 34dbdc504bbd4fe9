// Move ordering (Ordering.cpp): the move-type predicates, the tiered move
// scores of the main search and of quiescence, and the stable descending
// sort of a move list by score.
//
// The scores read the search's tables: the main and continuation histories
// of `History.Histories`, and the capture history through `captHist`, a
// reader indexed `[piece][to][coloured victim][to threatened]` as
// Ordering.cpp indexes it (History.cpp writes that table with five indices,
// and the declaration that would reconcile the two is not part of this
// model). The SEE piece values and the two SEE margins are tunable
// parameters.

module Ordering {
  import opened CppInt
  import opened Limits
  import opened Bitboards
  import opened Consts
  import opened Moves
  import opened Chessboard
  import opened Attacks
  import opened See
  import opened History
  import TTEntry

  /** `IsMoveNoisy`: the type has the capture or the promotion bit, i.e. it is a code from 4 on. */
  function IsMoveNoisy(m: Move): (r: bool)
    requires 0 <= m.Type < 16
    ensures r <==> m.Type >= capture
  {
    NoisyBits(m.Type);
    FlagUnion();
    BitAnd(m.Type, BitOr(captureFlag, promotionFlag)) != 0
  }

  /** `IsMoveCapture`: the type has the capture bit: captures, en passant and the promotion captures. */
  function IsMoveCapture(m: Move): (r: bool)
    requires 0 <= m.Type < 16
    ensures r <==> m.Type % 8 >= capture
  {
    CaptureBit(m.Type);
    BitAnd(m.Type, captureFlag) != 0
  }

  /** `IsMoveQuiet`: not a capture, so a promotion without capture counts as quiet. */
  function IsMoveQuiet(m: Move): (r: bool)
    requires 0 <= m.Type < 16
    ensures r <==> !IsMoveCapture(m)
  {
    !IsMoveCapture(m)
  }

  /** Noisy is capture or promotion; the quiet promotions are noisy yet quiet. */
  lemma {:induction false} NoisyIsCaptureOrPromotion(m: Move)
    requires 0 <= m.Type < 16
    ensures IsMoveNoisy(m) <==> IsMoveCapture(m) || m.Type >= knight_promo
    ensures knight_promo <= m.Type <= queen_promo ==> IsMoveNoisy(m) && IsMoveQuiet(m)
  {
  }

  /**
   * `IsEpCapture` as written: the type shares a bit with `ep_capture`
   * (0b0101), which every odd code and every capture code does.
   */
  function IsEpCaptureAsWritten(m: Move): (r: bool)
    requires 0 <= m.Type < 16
    ensures r <==> m.Type % 2 == 1 || m.Type % 8 >= capture
  {
    EpBits(m.Type);
    BitAnd(m.Type, ep_capture) != 0
  }

  /** As written, every capture passes the en-passant test. */
  lemma {:induction false} EveryCaptureLooksEnPassant(m: Move)
    requires 0 <= m.Type < 16 && IsMoveCapture(m)
    ensures IsEpCaptureAsWritten(m)
  {
  }

  /** `IsEpCapture` as intended: the en-passant capture, among the generated codes the one odd capture that is no promotion. */
  function IsEpCapture(m: Move): (r: bool)
    requires 0 <= m.Type < 16
    ensures r ==> IsMoveCapture(m) && IsEpCaptureAsWritten(m)
    ensures m.Type in MoveTypes ==> (r <==> IsMoveCapture(m) && m.Type < knight_promo && m.Type % 2 == 1)
  {
    m.Type == ep_capture
  }

  /** `compareMoves(move, ttMove)`: origin, destination and type agree; the moving piece is not compared. */
  function CompareMoves(m: Move, packed: TTEntry.Move16): (r: bool)
    ensures r ==> 0 <= m.From < 64 && 0 <= m.To < 64 && 0 <= m.Type < 16
  {
    m.From == TTEntry.From(packed) && m.To == TTEntry.To(packed) && m.Type == TTEntry.Type(packed)
  }

  /** A move matches its own 16-bit packing, whatever piece it names; another origin, target or type does not match. */
  lemma {:induction false} CompareMovesPacked(m: Move, piece: int, other: Move)
    requires 0 <= m.From < 64 && 0 <= m.To < 64 && 0 <= m.Type < 16
    ensures CompareMoves(m, TTEntry.EncodeMove16(m.From, m.To, m.Type))
    ensures CompareMoves(m.(Piece := piece), TTEntry.EncodeMove16(m.From, m.To, m.Type))
    ensures (other.From, other.To, other.Type) != (m.From, m.To, m.Type) ==>
      !CompareMoves(other, TTEntry.EncodeMove16(m.From, m.To, m.Type))
  {
  }

  // Score constants of Ordering.cpp.
  const TT_MOVE_SCORE: int := 900000000
  const GOOD_CAPTURE_BONUS: int := 200000
  const BAD_CAPTURE_SCORE: int := -1000000
  const KILLER_SCORE: int := 20000
  const QS_QUIET_SCORE: int := -90000

  /**
   * What the scores read besides the board and the histories: the attack
   * tables and SEE piece values `SEE` uses, the capture-history reader, the
   * killer move of the current ply, the ply and the moves played on the
   * search stack, the transposition entry, the squares the opponent
   * threatens, and the SEE margins `PVS_SEE_ORDERING` and `QS_SEE_ORDERING`.
   */
  datatype ScoringContext = ScoringContext(
    tables: AttackTables,
    values: seq<int>,
    captHist: (int, int, int, bool) -> int,
    killer: Move,
    ply: int,
    stack: seq<Move>,
    entry: TTEntry.Entry,
    threat: Bitboard,
    pvsSeeOrdering: int,
    qsSeeOrdering: int)

  /** The shapes the scoring relies on. */
  predicate ContextReady(s: BoardState, ctx: ScoringContext)
  {
    TableShape(ctx.tables) && ValueTable(ctx.values) && SeeBoard(s)
    && 0 <= ctx.ply <= |ctx.stack| && AllValid(ctx.stack)
  }

  /**
   * What scoring a move needs: the fields `SEE` and the tables index are in
   * range, and a capture other than en passant has a piece on its target.
   */
  predicate MoveReady(s: BoardState, m: Move)
  {
    && 0 <= m.From < 64 && 0 <= m.To < 64 && 0 <= m.Type < 16 && 0 <= m.Piece < 12
    && |s.mailbox| == 64 && 0 <= s.mailbox[m.From] <= NO_PIECE && 0 <= s.mailbox[m.To] <= NO_PIECE
    && (m.Type % 8 >= capture && m.Type != ep_capture ==> s.mailbox[m.To] < NO_PIECE)
  }

  /**
   * The victim as written: `IsEpCapture(move) ? P : get_piece(mailbox[to], White)`
   * with the test as written, so a pawn for every capture.
   */
  function VictimAsWritten(s: BoardState, m: Move): (v: int)
    requires MoveReady(s, m) && (!IsEpCaptureAsWritten(m) ==> s.mailbox[m.To] < NO_PIECE)
    ensures 0 <= v < 6
  {
    if IsEpCaptureAsWritten(m) then P else GetPiece(s.mailbox[m.To], White)
  }

  /** As written, the victim of every capture is a pawn, whatever stands on the target square. */
  lemma {:induction false} VictimAlwaysPawn(s: BoardState, m: Move)
    requires MoveReady(s, m) && IsMoveCapture(m)
    ensures VictimAsWritten(s, m) == P
  {
    EveryCaptureLooksEnPassant(m);
  }

  /** The victim: a pawn for en passant, else the kind of the piece on the target square. */
  function Victim(s: BoardState, m: Move): (v: int)
    requires MoveReady(s, m) && IsMoveCapture(m)
    ensures 0 <= v < 6
    ensures m.Type != ep_capture ==> v == s.mailbox[m.To] % 6
    ensures m.Type == ep_capture ==> v == P
  {
    if IsEpCapture(m) then P else GetPiece(s.mailbox[m.To], White)
  }

  /** MVV-LVA: a hundred times the victim's value less the attacker's. */
  function MvvLva(values: seq<int>, victim: int, attacker: int): int
    requires ValueTable(values) && 0 <= victim < 6 && 0 <= attacker < 6
  {
    values[victim] * 100 - values[attacker]
  }

  /**
   * As written, a knight taking a queen and a knight taking a pawn get the
   * same MVV-LVA value, 9700 with the usual piece values; with the victim
   * on the target square, the queen capture gets 89700.
   */
  lemma {:induction false} QueenCaptureRankedAsPawnCapture(s: BoardState, takesQueen: Move, takesPawn: Move)
    requires MoveReady(s, takesQueen) && MoveReady(s, takesPawn)
    requires takesQueen.Type == capture && takesPawn.Type == capture
    requires s.mailbox[takesQueen.To] == BQ && s.mailbox[takesPawn.To] == BP
    requires takesQueen.Piece == N && takesPawn.Piece == N
    ensures MvvLva(CommonValues, VictimAsWritten(s, takesQueen), N) == 9700
    ensures MvvLva(CommonValues, VictimAsWritten(s, takesPawn), N) == 9700
    ensures MvvLva(CommonValues, Victim(s, takesQueen), N) == 89700
    ensures MvvLva(CommonValues, Victim(s, takesPawn), N) == 9700
  {
    VictimAlwaysPawn(s, takesQueen);
    VictimAlwaysPawn(s, takesPawn);
  }

  /**
   * The capture branch shared by both scores: MVV-LVA plus the SEE term plus
   * the capture history, with the victim chosen by `IsEpCapture` as written
   * (so a pawn) and `SEE` as written.
   */
  function CaptureScore(m: Move, s: BoardState, ctx: ScoringContext, margin: int, passScore: int): (r: int)
    requires ContextReady(s, ctx) && MoveReady(s, m) && IsMoveCapture(m)
    ensures r == MvvLva(ctx.values, P, GetPiece(m.Piece, White))
      + (if SeeValue(ctx.tables, s, ctx.values, m, margin) == 1 then passScore else BAD_CAPTURE_SCORE)
      + ctx.captHist(m.Piece, m.To, GetPiece(P, 1 - s.side), m.To in ctx.threat)
  {
    EveryCaptureLooksEnPassant(m);
    var attacker := GetPiece(m.Piece, White);
    var victim := VictimAsWritten(s, m);
    var coloredVictim := GetPiece(victim, 1 - s.side);
    var histScore := ctx.captHist(m.Piece, m.To, coloredVictim, m.To in ctx.threat);
    var seeValue := if SeeValue(ctx.tables, s, ctx.values, m, margin) == 1 then passScore else BAD_CAPTURE_SCORE;
    MvvLva(ctx.values, victim, attacker) + seeValue + histScore
  }

  /**
   * The capture branch as intended: the victim is the piece on the target
   * square (a pawn only for en passant) and `SEE` risks the promoted piece.
   */
  function CaptureScoreIntended(m: Move, s: BoardState, ctx: ScoringContext, margin: int, passScore: int): (r: int)
    requires ContextReady(s, ctx) && MoveReady(s, m) && IsMoveCapture(m)
  {
    var attacker := GetPiece(m.Piece, White);
    var victim := Victim(s, m);
    var coloredVictim := GetPiece(victim, 1 - s.side);
    var histScore := ctx.captHist(m.Piece, m.To, coloredVictim, m.To in ctx.threat);
    var seeValue := if SeeValueIntended(ctx.tables, s, ctx.values, m, margin) == 1 then passScore else BAD_CAPTURE_SCORE;
    MvvLva(ctx.values, victim, attacker) + seeValue + histScore
  }

  /**
   * The two capture scores agree on the captures the as-written tests get
   * right: en passant, and a capture of a pawn that is no promotion.
   */
  lemma {:induction false} CaptureScoresAgreeOnPawns(m: Move, s: BoardState, ctx: ScoringContext, margin: int, passScore: int)
    requires ContextReady(s, ctx) && MoveReady(s, m) && IsMoveCapture(m) && m.Type < knight_promo
    ensures Victim(s, m) == P ==>
      CaptureScoreIntended(m, s, ctx, margin, passScore) == CaptureScore(m, s, ctx, margin, passScore)
  {
    SeeAgreesWithoutPromotion(ctx, s, m, margin);
  }

  /** Without a promotion both SEE variants risk the moving piece first, so they agree. */
  lemma SeeAgreesWithoutPromotion(ctx: ScoringContext, s: BoardState, m: Move, margin: int)
    requires ContextReady(s, ctx) && MoveReady(s, m) && m.Type < knight_promo
    ensures SeeValue(ctx.tables, s, ctx.values, m, margin) == SeeValueIntended(ctx.tables, s, ctx.values, m, margin)
  {
    assert IntendedFirstVictim(s, m) == FirstVictim(s, m);
  }

  /** The quiet branch: main plus continuation history, shifted down by both table bounds. */
  function QuietScore(m: Move, s: BoardState, h: Histories, ctx: ScoringContext): (r: int)
    reads h, h.mainHist, h.contHist, h.captureHistory
    requires ContextReady(s, ctx) && MoveReady(s, m) && h.Valid()
    ensures h.Bounded() ==> -(2 * MAX_HISTORY + 3 * MAX_CONTHIST) <= r <= MAX_CONTHIST
  {
    var fromThreat := BoolIndex(m.From in ctx.threat);
    var toThreat := BoolIndex(m.To in ctx.threat);
    var mainHistValue := h.mainHist[s.side, m.From, m.To, fromThreat, toThreat];
    var contHistValue := h.ContHistScore(m, ctx.ply, ctx.stack);
    mainHistValue + contHistValue - MAX_HISTORY - MAX_CONTHIST
  }

  /** The move is the transposition entry's move of this very position. */
  predicate TTHit(m: Move, s: BoardState, ctx: ScoringContext)
  {
    s.zobristKey == ctx.entry.zobristKey && CompareMoves(m, ctx.entry.bestMove)
  }

  /** `GetMoveScore`: TT move, then captures, then the killer, then quiets by history. */
  function GetMoveScore(m: Move, s: BoardState, h: Histories, ctx: ScoringContext): int
    reads h, h.mainHist, h.contHist, h.captureHistory
    requires ContextReady(s, ctx) && MoveReady(s, m) && h.Valid()
  {
    if TTHit(m, s, ctx) then TT_MOVE_SCORE
    else if IsMoveCapture(m) then CaptureScore(m, s, ctx, ctx.pvsSeeOrdering, GOOD_CAPTURE_BONUS)
    else if SameMove(ctx.killer, m) then KILLER_SCORE
    else QuietScore(m, s, h, ctx)
  }

  /** `QsearchGetMoveScore`: captures as in the main search with a neutral SEE pass; anything else last but one. */
  function QsearchGetMoveScore(m: Move, s: BoardState, ctx: ScoringContext): int
    requires ContextReady(s, ctx) && MoveReady(s, m)
  {
    if IsMoveCapture(m) then CaptureScore(m, s, ctx, ctx.qsSeeOrdering, 0)
    else QS_QUIET_SCORE
  }

  /** The SEE values lie in `[0, 1000]` and the capture-history entries within `MAX_HISTORY`. */
  ghost predicate ScoresBounded(ctx: ScoringContext)
    requires ValueTable(ctx.values)
  {
    (forall i :: 0 <= i < 7 ==> 0 <= ctx.values[i] <= 1000)
    && forall a, b, c, d :: Abs(ctx.captHist(a, b, c, d)) <= MAX_HISTORY
  }

  /**
   * The ordering tiers of `GetMoveScore`, best first: 4 the TT move, 3 a
   * capture that passes SEE, 2 the killer, 1 another quiet move, 0 a
   * capture that fails SEE.
   */
  function Tier(m: Move, s: BoardState, ctx: ScoringContext): (tier: int)
    requires ContextReady(s, ctx) && MoveReady(s, m)
    ensures 0 <= tier <= 4
  {
    if TTHit(m, s, ctx) then 4
    else if IsMoveCapture(m) then
      (if SeeValue(ctx.tables, s, ctx.values, m, ctx.pvsSeeOrdering) == 1 then 3 else 0)
    else if SameMove(ctx.killer, m) then 2
    else 1
  }

  /** The score band of each tier. */
  lemma {:induction false} ScoreBands(m: Move, s: BoardState, h: Histories, ctx: ScoringContext)
    requires ContextReady(s, ctx) && MoveReady(s, m) && h.Valid() && h.Bounded() && ScoresBounded(ctx)
    ensures var r, tier := GetMoveScore(m, s, h, ctx), Tier(m, s, ctx);
      && (tier == 4 ==> r == TT_MOVE_SCORE)
      && (tier == 3 ==> 182616 <= r <= 316384)
      && (tier == 2 ==> r == KILLER_SCORE)
      && (tier == 1 ==> -81920 <= r <= MAX_CONTHIST)
      && (tier == 0 ==> r <= -883616)
  {
    if !TTHit(m, s, ctx) && IsMoveCapture(m) {
      CaptureBounds(m, s, ctx, ctx.pvsSeeOrdering, GOOD_CAPTURE_BONUS);
    }
  }

  /** A capture's score lies within the MVV-LVA and history spread around its SEE term. */
  lemma {:induction false} CaptureBounds(m: Move, s: BoardState, ctx: ScoringContext, margin: int, passScore: int)
    requires ContextReady(s, ctx) && MoveReady(s, m) && IsMoveCapture(m) && ScoresBounded(ctx)
    ensures var r, see := CaptureScore(m, s, ctx, margin, passScore), SeeValue(ctx.tables, s, ctx.values, m, margin);
      && (see == 1 ==> passScore - 1000 - MAX_HISTORY <= r <= passScore + 100000 + MAX_HISTORY)
      && (see != 1 ==> r <= BAD_CAPTURE_SCORE + 100000 + MAX_HISTORY)
  {
    var attacker := GetPiece(m.Piece, White);
    assert Abs(ctx.captHist(m.Piece, m.To, GetPiece(P, 1 - s.side), m.To in ctx.threat)) <= MAX_HISTORY;
    assert 0 <= ctx.values[P] <= 1000 && 0 <= ctx.values[attacker] <= 1000;
  }

  /** A move of a higher tier always scores higher: the sort puts the tiers in order. */
  lemma {:induction false} TiersOrderScores(m1: Move, m2: Move, s: BoardState, h: Histories, ctx: ScoringContext)
    requires ContextReady(s, ctx) && MoveReady(s, m1) && MoveReady(s, m2)
    requires h.Valid() && h.Bounded() && ScoresBounded(ctx)
    requires Tier(m1, s, ctx) > Tier(m2, s, ctx)
    ensures GetMoveScore(m1, s, h, ctx) > GetMoveScore(m2, s, h, ctx)
  {
    ScoreBands(m1, s, h, ctx);
    ScoreBands(m2, s, h, ctx);
  }

  /**
   * In quiescence the non-captures, which there are the quiet promotions,
   * score below every capture that passes SEE and above every one that fails.
   */
  lemma {:induction false} QsearchBands(m: Move, s: BoardState, ctx: ScoringContext)
    requires ContextReady(s, ctx) && MoveReady(s, m) && ScoresBounded(ctx)
    ensures var r := QsearchGetMoveScore(m, s, ctx);
      && (!IsMoveCapture(m) ==> r == QS_QUIET_SCORE)
      && (IsMoveCapture(m) && SeeValue(ctx.tables, s, ctx.values, m, ctx.qsSeeOrdering) == 1 ==> r > QS_QUIET_SCORE)
      && (IsMoveCapture(m) && SeeValue(ctx.tables, s, ctx.values, m, ctx.qsSeeOrdering) != 1 ==> r < QS_QUIET_SCORE)
  {
    if IsMoveCapture(m) {
      CaptureBounds(m, s, ctx, ctx.qsSeeOrdering, 0);
    }
  }

  /** `ScoredMove`: a move with its score. */
  datatype ScoredMove = ScoredMove(score: int, move: Move)

  /** Scores never increase along the sequence. */
  predicate Descending(s: seq<ScoredMove>)
  {
    forall i, j :: 0 <= i < j < |s| ==> s[i].score >= s[j].score
  }

  /** The entries scoring exactly `k`, in their order. */
  function WithScore(s: seq<ScoredMove>, k: int): (r: seq<ScoredMove>)
  {
    if s == [] then []
    else WithScore(s[..|s| - 1], k) + (if s[|s| - 1].score == k then [s[|s| - 1]] else [])
  }

  /** `x` placed into a descending run after every entry that scores at least as much. */
  function Insert(x: ScoredMove, run: seq<ScoredMove>): (r: seq<ScoredMove>)
    ensures |r| == |run| + 1
  {
    if run == [] || run[|run| - 1].score >= x.score then run + [x]
    else Insert(x, run[..|run| - 1]) + [run[|run| - 1]]
  }

  /** The outcome of `std::stable_sort` with `a.score > b.score`: each entry inserted in turn. */
  function SortDescending(s: seq<ScoredMove>): (r: seq<ScoredMove>)
    ensures |r| == |s|
  {
    if s == [] then [] else Insert(s[|s| - 1], SortDescending(s[..|s| - 1]))
  }

  /** Inserting adds `x` and keeps everything else. */
  lemma {:induction false} InsertPermutes(x: ScoredMove, run: seq<ScoredMove>)
    ensures multiset(Insert(x, run)) == multiset(run) + multiset{x}
  {
    if run != [] && run[|run| - 1].score < x.score {
      var init := run[..|run| - 1];
      InsertPermutes(x, init);
      assert run == init + [run[|run| - 1]];
    }
  }

  /** The sort's outcome is a permutation of its input. */
  lemma {:induction false} SortedPermutes(s: seq<ScoredMove>)
    ensures multiset(SortDescending(s)) == multiset(s)
  {
    if s != [] {
      var init := s[..|s| - 1];
      SortedPermutes(init);
      InsertPermutes(s[|s| - 1], SortDescending(init));
      assert s == init + [s[|s| - 1]];
    }
  }

  /** A lower bound on the scores of `x` and of the run bounds the scores after insertion. */
  lemma {:induction false} InsertAbove(x: ScoredMove, run: seq<ScoredMove>, bound: int)
    requires x.score >= bound
    requires forall i :: 0 <= i < |run| ==> run[i].score >= bound
    ensures forall i :: 0 <= i < |Insert(x, run)| ==> Insert(x, run)[i].score >= bound
  {
    if run != [] && run[|run| - 1].score < x.score {
      InsertAbove(x, run[..|run| - 1], bound);
    }
  }

  lemma {:induction false} InsertDescending(x: ScoredMove, run: seq<ScoredMove>)
    requires Descending(run)
    ensures Descending(Insert(x, run))
  {
    if run != [] && run[|run| - 1].score < x.score {
      var init, last := run[..|run| - 1], run[|run| - 1];
      InsertDescending(x, init);
      InsertAbove(x, init, last.score);
    }
  }

  lemma {:induction false} WithScoreAppend(s: seq<ScoredMove>, y: ScoredMove, k: int)
    ensures WithScore(s + [y], k) == WithScore(s, k) + (if y.score == k then [y] else [])
  {
    assert (s + [y])[..|s|] == s;
  }

  lemma {:induction false} InsertKeepsEqualScores(x: ScoredMove, run: seq<ScoredMove>, k: int)
    requires Descending(run)
    ensures WithScore(Insert(x, run), k) == WithScore(run, k) + (if x.score == k then [x] else [])
  {
    if run == [] || run[|run| - 1].score >= x.score {
      WithScoreAppend(run, x, k);
    } else {
      var init, last := run[..|run| - 1], run[|run| - 1];
      InsertKeepsEqualScores(x, init, k);
      WithScoreAppend(Insert(x, init), last, k);
      assert WithScore(run, k) == WithScore(init, k) + (if last.score == k then [last] else []);
      assert x.score == k ==> last.score != k;
    }
  }

  /** The sort's outcome is descending. */
  lemma {:induction false} SortedDescending(s: seq<ScoredMove>)
    ensures Descending(SortDescending(s))
  {
    if s != [] {
      SortedDescending(s[..|s| - 1]);
      InsertDescending(s[|s| - 1], SortDescending(s[..|s| - 1]));
    }
  }

  /** The sort is stable: the entries of each score keep their relative order. */
  lemma {:induction false} SortedStable(s: seq<ScoredMove>, k: int)
    ensures WithScore(SortDescending(s), k) == WithScore(s, k)
  {
    if s != [] {
      var init := s[..|s| - 1];
      SortedStable(init, k);
      SortedDescending(init);
      InsertKeepsEqualScores(s[|s| - 1], SortDescending(init), k);
    }
  }

  /**
   * Insertion of `a[i]` into the descending prefix `a[..i]`: the entries
   * scoring less move one place right, and the entry lands after them.
   */
  method InsertAt(a: array<ScoredMove>, i: int)
    requires 0 <= i < a.Length
    modifies a
    ensures a[..i + 1] == Insert(old(a[i]), old(a[..i]))
    ensures forall k :: i < k < a.Length ==> a[k] == old(a[k])
  {
    var x := a[i];
    ghost var run := a[..i];
    var j := i;
    while j > 0 && a[j - 1].score < x.score
      invariant 0 <= j <= i
      invariant forall k :: 0 <= k < j ==> a[k] == run[k]
      invariant forall k :: j < k <= i ==> a[k] == run[k - 1]
      invariant forall k :: i < k < a.Length ==> a[k] == old(a[k])
      invariant forall k :: j <= k < i ==> run[k].score < x.score
      decreases j
    {
      a[j] := a[j - 1];
      j := j - 1;
    }
    a[j] := x;
    InsertSplit(x, run, j);
    assert a[..i + 1] == run[..j] + [x] + run[j..] by {
      forall k | 0 <= k <= i
        ensures a[k] == (run[..j] + [x] + run[j..])[k]
      {
      }
    }
  }

  /**
   * Where `Insert` puts the new entry: after every entry scoring at least as
   * much, before the trailing entries that score less.
   */
  lemma {:induction false} InsertSplit(x: ScoredMove, run: seq<ScoredMove>, p: int)
    requires 0 <= p <= |run| && (p == 0 || run[p - 1].score >= x.score)
    requires forall k :: p <= k < |run| ==> run[k].score < x.score
    ensures Insert(x, run) == run[..p] + [x] + run[p..]
  {
    if run != [] && run[|run| - 1].score < x.score {
      var init, last := run[..|run| - 1], run[|run| - 1];
      assert p < |run|;
      InsertSplit(x, init, p);
      assert run[p..] == init[p..] + [last];
      assert run[..p] == init[..p];
    }
  }

  /** `Insert` stops at the end of a run whose last score is at least the new one. */
  lemma {:induction false} InsertStops(x: ScoredMove, run: seq<ScoredMove>)
    requires run == [] || run[|run| - 1].score >= x.score
    ensures Insert(x, run) == run + [x]
  {
  }

  /** The stable sort of `scored[..n]`, descending by score; the rest of the buffer is untouched. */
  method StableSortDescending(a: array<ScoredMove>, n: int)
    requires 0 <= n <= a.Length
    modifies a
    ensures a[..n] == SortDescending(old(a[..n]))
    ensures forall k :: n <= k < a.Length ==> a[k] == old(a[k])
  {
    ghost var original := a[..];
    for i := 0 to n
      invariant a[..i] == SortDescending(original[..i])
      invariant forall k :: i <= k < a.Length ==> a[k] == original[k]
    {
      assert original[..i + 1][..i] == original[..i];
      InsertAt(a, i);
    }
    assert original[..n] == old(a[..n]);
  }

  /** The moves of a scored list, in order. */
  function MovesOf(sc: seq<ScoredMove>): (r: seq<Move>)
    ensures |r| == |sc| && forall i :: 0 <= i < |sc| ==> r[i] == sc[i].move
  {
    if sc == [] then [] else MovesOf(sc[..|sc| - 1]) + [sc[|sc| - 1].move]
  }

  /** Every move of `moves` can be scored. */
  predicate AllReady(s: BoardState, moves: seq<Move>)
  {
    forall i :: 0 <= i < |moves| ==> MoveReady(s, moves[i])
  }

  /** Each move paired with its `GetMoveScore`. */
  function ScoreMoves(moves: seq<Move>, s: BoardState, h: Histories, ctx: ScoringContext): (r: seq<ScoredMove>)
    reads h, h.mainHist, h.contHist, h.captureHistory
    requires ContextReady(s, ctx) && h.Valid() && AllReady(s, moves)
    ensures |r| == |moves|
  {
    if moves == [] then []
    else
      var m := moves[|moves| - 1];
      ScoreMoves(moves[..|moves| - 1], s, h, ctx) + [ScoredMove(GetMoveScore(m, s, h, ctx), m)]
  }

  /** Each move paired with its `QsearchGetMoveScore`. */
  function QsearchScoreMoves(moves: seq<Move>, s: BoardState, ctx: ScoringContext): (r: seq<ScoredMove>)
    requires ContextReady(s, ctx) && AllReady(s, moves)
    ensures |r| == |moves|
  {
    if moves == [] then []
    else
      var m := moves[|moves| - 1];
      QsearchScoreMoves(moves[..|moves| - 1], s, ctx) + [ScoredMove(QsearchGetMoveScore(m, s, ctx), m)]
  }

  /**
   * `SortMoves`: the moves of the list scored by `GetMoveScore`, stably
   * sorted by descending score and written back; the count and the unused
   * part of the buffer stay as they were.
   */
  method SortMoves(ml: MoveList, s: BoardState, h: Histories, ctx: ScoringContext)
    requires ml.Valid() && ContextReady(s, ctx) && h.Valid() && AllReady(s, ml.Contents())
    modifies ml.moves
    ensures ml.Valid()
    ensures ml.Contents() == MovesOf(SortDescending(old(ScoreMoves(ml.Contents(), s, h, ctx))))
    ensures forall k :: ml.count <= k < MAX_MOVES ==> ml.moves[k] == old(ml.moves[k])
  {
    var scored := ScoreList(ml, s, h, ctx);
    SortScored(ml, scored);
  }

  /** The second and third loops of both sorts: sort the scored entries of the list, then copy their moves back. */
  method SortScored(ml: MoveList, scored: array<ScoredMove>)
    requires ml.Valid() && scored.Length == MAX_MOVES
    modifies ml.moves, scored
    ensures ml.Valid()
    ensures ml.Contents() == MovesOf(SortDescending(old(scored[..ml.count])))
    ensures forall k :: ml.count <= k < MAX_MOVES ==> ml.moves[k] == old(ml.moves[k])
  {
    StableSortDescending(scored, ml.count);
    WriteBack(ml, scored);
  }

  /** The first loop of `SortMoves`: `scored[i]` holds move `i` and its score. */
  method ScoreList(ml: MoveList, s: BoardState, h: Histories, ctx: ScoringContext) returns (scored: array<ScoredMove>)
    requires ml.Valid() && ContextReady(s, ctx) && h.Valid() && AllReady(s, ml.Contents())
    ensures fresh(scored) && scored.Length == MAX_MOVES
    ensures scored[..ml.count] == ScoreMoves(ml.Contents(), s, h, ctx)
  {
    scored := new ScoredMove[MAX_MOVES](_ => ScoredMove(0, NullMove));
    for i := 0 to ml.count
      invariant forall k :: 0 <= k < i ==> scored[k] == ScoredMove(GetMoveScore(ml.moves[k], s, h, ctx), ml.moves[k])
    {
      assert MoveReady(s, ml.Contents()[i]);
      scored[i] := ScoredMove(GetMoveScore(ml.moves[i], s, h, ctx), ml.moves[i]);
    }
    ScoreMovesElementwise(ml.Contents(), scored[..ml.count], s, h, ctx);
  }

  /** A list that pairs each move with its `GetMoveScore`, in order, is `ScoreMoves`. */
  lemma {:induction false} ScoreMovesElementwise(moves: seq<Move>, sc: seq<ScoredMove>, s: BoardState, h: Histories,
                                                 ctx: ScoringContext)
    requires ContextReady(s, ctx) && h.Valid() && AllReady(s, moves) && |sc| == |moves|
    requires forall k :: 0 <= k < |moves| ==> sc[k] == ScoredMove(GetMoveScore(moves[k], s, h, ctx), moves[k])
    ensures sc == ScoreMoves(moves, s, h, ctx)
  {
    if moves != [] {
      ScoreMovesElementwise(moves[..|moves| - 1], sc[..|sc| - 1], s, h, ctx);
      assert sc == sc[..|sc| - 1] + [sc[|sc| - 1]];
    }
  }

  /** `SortNoisyMoves`: the same with `QsearchGetMoveScore`. */
  method SortNoisyMoves(ml: MoveList, s: BoardState, ctx: ScoringContext)
    requires ml.Valid() && ContextReady(s, ctx) && AllReady(s, ml.Contents())
    modifies ml.moves
    ensures ml.Valid()
    ensures ml.Contents() == MovesOf(SortDescending(QsearchScoreMoves(old(ml.Contents()), s, ctx)))
    ensures forall k :: ml.count <= k < MAX_MOVES ==> ml.moves[k] == old(ml.moves[k])
  {
    var scored := QsearchScoreList(ml, s, ctx);
    SortScored(ml, scored);
  }

  /** The first loop of `SortNoisyMoves`. */
  method QsearchScoreList(ml: MoveList, s: BoardState, ctx: ScoringContext) returns (scored: array<ScoredMove>)
    requires ml.Valid() && ContextReady(s, ctx) && AllReady(s, ml.Contents())
    ensures fresh(scored) && scored.Length == MAX_MOVES
    ensures scored[..ml.count] == QsearchScoreMoves(ml.Contents(), s, ctx)
  {
    scored := new ScoredMove[MAX_MOVES](_ => ScoredMove(0, NullMove));
    for i := 0 to ml.count
      invariant forall k :: 0 <= k < i ==> scored[k] == ScoredMove(QsearchGetMoveScore(ml.moves[k], s, ctx), ml.moves[k])
    {
      assert MoveReady(s, ml.Contents()[i]);
      scored[i] := ScoredMove(QsearchGetMoveScore(ml.moves[i], s, ctx), ml.moves[i]);
    }
    QsearchScoreMovesElementwise(ml.Contents(), scored[..ml.count], s, ctx);
  }

  /** A list that pairs each move with its `QsearchGetMoveScore`, in order, is `QsearchScoreMoves`. */
  lemma {:induction false} QsearchScoreMovesElementwise(moves: seq<Move>, sc: seq<ScoredMove>, s: BoardState,
                                                        ctx: ScoringContext)
    requires ContextReady(s, ctx) && AllReady(s, moves) && |sc| == |moves|
    requires forall k :: 0 <= k < |moves| ==> sc[k] == ScoredMove(QsearchGetMoveScore(moves[k], s, ctx), moves[k])
    ensures sc == QsearchScoreMoves(moves, s, ctx)
  {
    if moves != [] {
      QsearchScoreMovesElementwise(moves[..|moves| - 1], sc[..|sc| - 1], s, ctx);
      assert sc == sc[..|sc| - 1] + [sc[|sc| - 1]];
    }
  }

  /** Entry `i` of `ScoreMoves` is move `i` with its score. */
  lemma {:induction false} ScoreMovesAt(moves: seq<Move>, s: BoardState, h: Histories, ctx: ScoringContext, i: int)
    requires ContextReady(s, ctx) && h.Valid() && AllReady(s, moves) && 0 <= i < |moves|
    ensures ScoreMoves(moves, s, h, ctx)[i] == ScoredMove(GetMoveScore(moves[i], s, h, ctx), moves[i])
  {
    if i < |moves| - 1 {
      ScoreMovesAt(moves[..|moves| - 1], s, h, ctx, i);
    }
  }

  /** Entry `i` of `QsearchScoreMoves` is move `i` with its score. */
  lemma {:induction false} QsearchScoreMovesAt(moves: seq<Move>, s: BoardState, ctx: ScoringContext, i: int)
    requires ContextReady(s, ctx) && AllReady(s, moves) && 0 <= i < |moves|
    ensures QsearchScoreMoves(moves, s, ctx)[i] == ScoredMove(QsearchGetMoveScore(moves[i], s, ctx), moves[i])
  {
    if i < |moves| - 1 {
      QsearchScoreMovesAt(moves[..|moves| - 1], s, ctx, i);
    }
  }

  lemma {:induction false} MovesOfAppend(sc: seq<ScoredMove>, y: ScoredMove)
    ensures MovesOf(sc + [y]) == MovesOf(sc) + [y.move]
  {
    assert (sc + [y])[..|sc|] == sc;
  }

  /** Appending an entry adds its move to the multiset of moves. */
  lemma {:induction false} MovesOfAppendCount(sc: seq<ScoredMove>, y: ScoredMove)
    ensures multiset(MovesOf(sc + [y])) == multiset(MovesOf(sc)) + multiset{y.move}
  {
    MovesOfAppend(sc, y);
  }

  /** One step of `Insert` past the last entry `last` of `init + [last]`. */
  lemma {:induction false} InsertPastLast(x: ScoredMove, init: seq<ScoredMove>, last: ScoredMove)
    requires last.score < x.score
    ensures Insert(x, init + [last]) == Insert(x, init) + [last]
  {
    assert (init + [last])[..|init|] == init;
  }

  /** Inserting an entry adds its move to the moves of the run. */
  lemma {:induction false} InsertMovesPermute(x: ScoredMove, run: seq<ScoredMove>)
    ensures multiset(MovesOf(Insert(x, run))) == multiset(MovesOf(run)) + multiset{x.move}
  {
    if run == [] || run[|run| - 1].score >= x.score {
      InsertStops(x, run);
      MovesOfAppendCount(run, x);
    } else {
      var init, last := run[..|run| - 1], run[|run| - 1];
      assert run == init + [last];
      InsertPastLast(x, init, last);
      InsertMovesPermute(x, init);
      MovesOfAppendCount(Insert(x, init), last);
      MovesOfAppendCount(init, last);
    }
  }

  /** Sorting permutes the moves. */
  lemma {:induction false} SortedScoredMovesPermute(sc: seq<ScoredMove>)
    ensures multiset(MovesOf(SortDescending(sc))) == multiset(MovesOf(sc))
  {
    if sc != [] {
      var init := sc[..|sc| - 1];
      SortedScoredMovesPermute(init);
      InsertMovesPermute(sc[|sc| - 1], SortDescending(init));
    }
  }

  /** An entry of the sorted list is one of the scored moves, so it carries its own score. */
  lemma SortedEntryScored(moves: seq<Move>, s: BoardState, h: Histories, ctx: ScoringContext, e: ScoredMove)
    requires ContextReady(s, ctx) && h.Valid() && AllReady(s, moves)
    requires e in SortDescending(ScoreMoves(moves, s, h, ctx))
    ensures MoveReady(s, e.move) && e.score == GetMoveScore(e.move, s, h, ctx)
  {
    var sc := ScoreMoves(moves, s, h, ctx);
    SortedPermutes(sc);
    assert e in multiset(sc);
    var k :| 0 <= k < |sc| && sc[k] == e;
    ScoreMovesAt(moves, s, h, ctx, k);
  }

  /** `SortMoves` keeps the moves of the list, each still ready to be scored. */
  lemma SortedMovesPermute(moves: seq<Move>, s: BoardState, h: Histories, ctx: ScoringContext)
    requires ContextReady(s, ctx) && h.Valid() && AllReady(s, moves)
    ensures var sorted := MovesOf(SortDescending(ScoreMoves(moves, s, h, ctx)));
      multiset(sorted) == multiset(moves) && AllReady(s, sorted)
  {
    var sc := ScoreMoves(moves, s, h, ctx);
    var out := SortDescending(sc);
    SortedScoredMovesPermute(sc);
    ScoredKeepMoves(moves, s, h, ctx);
    forall i | 0 <= i < |out|
      ensures MoveReady(s, out[i].move)
    {
      SortedEntryScored(moves, s, h, ctx, out[i]);
    }
  }

  /** Two entries of the sorted list, the first before the second, are in tier order. */
  lemma SortedPairByTier(moves: seq<Move>, s: BoardState, h: Histories, ctx: ScoringContext, i: int, j: int)
    requires ContextReady(s, ctx) && h.Valid() && AllReady(s, moves) && h.Bounded() && ScoresBounded(ctx)
    requires 0 <= i < j < |moves|
    ensures var out := SortDescending(ScoreMoves(moves, s, h, ctx));
      MoveReady(s, out[i].move) && MoveReady(s, out[j].move)
      && Tier(out[i].move, s, ctx) >= Tier(out[j].move, s, ctx)
  {
    var sc := ScoreMoves(moves, s, h, ctx);
    var out := SortDescending(sc);
    SortedDescending(sc);
    SortedEntryScored(moves, s, h, ctx, out[i]);
    SortedEntryScored(moves, s, h, ctx, out[j]);
    if Tier(out[j].move, s, ctx) > Tier(out[i].move, s, ctx) {
      TiersOrderScores(out[j].move, out[i].move, s, h, ctx);
    }
  }

  /**
   * The order `SortMoves` leaves behind: with the score bounds in force,
   * the TT move first, then the captures that pass SEE, the killer, the
   * other quiet moves and last the captures that fail.
   */
  lemma SortedMovesByTier(moves: seq<Move>, s: BoardState, h: Histories, ctx: ScoringContext)
    requires ContextReady(s, ctx) && h.Valid() && AllReady(s, moves) && h.Bounded() && ScoresBounded(ctx)
    ensures var sorted := MovesOf(SortDescending(ScoreMoves(moves, s, h, ctx)));
      AllReady(s, sorted) && forall i, j :: 0 <= i < j < |sorted| ==> Tier(sorted[i], s, ctx) >= Tier(sorted[j], s, ctx)
  {
    SortedMovesPermute(moves, s, h, ctx);
    var sorted := MovesOf(SortDescending(ScoreMoves(moves, s, h, ctx)));
    forall i, j | 0 <= i < j < |sorted|
      ensures Tier(sorted[i], s, ctx) >= Tier(sorted[j], s, ctx)
    {
      SortedPairByTier(moves, s, h, ctx, i, j);
    }
  }

  /** The quiescence tiers: 2 a capture that passes SEE, 1 a non-capture, 0 a capture that fails. */
  function QsearchTier(m: Move, s: BoardState, ctx: ScoringContext): (tier: int)
    requires ContextReady(s, ctx) && MoveReady(s, m)
    ensures 0 <= tier <= 2
  {
    if !IsMoveCapture(m) then 1
    else if SeeValue(ctx.tables, s, ctx.values, m, ctx.qsSeeOrdering) == 1 then 2
    else 0
  }

  /** An entry of the sorted quiescence list is one of the scored moves. */
  lemma QsearchSortedEntryScored(moves: seq<Move>, s: BoardState, ctx: ScoringContext, e: ScoredMove)
    requires ContextReady(s, ctx) && AllReady(s, moves)
    requires e in SortDescending(QsearchScoreMoves(moves, s, ctx))
    ensures MoveReady(s, e.move) && e.score == QsearchGetMoveScore(e.move, s, ctx)
  {
    var sc := QsearchScoreMoves(moves, s, ctx);
    SortedPermutes(sc);
    assert e in multiset(sc);
    var k :| 0 <= k < |sc| && sc[k] == e;
    QsearchScoreMovesAt(moves, s, ctx, k);
  }

  /** Two entries of the sorted quiescence list, the first before the second, are in tier order. */
  lemma QsearchSortedPairByTier(moves: seq<Move>, s: BoardState, ctx: ScoringContext, i: int, j: int)
    requires ContextReady(s, ctx) && AllReady(s, moves) && ScoresBounded(ctx)
    requires 0 <= i < j < |moves|
    ensures var out := SortDescending(QsearchScoreMoves(moves, s, ctx));
      MoveReady(s, out[i].move) && MoveReady(s, out[j].move)
      && QsearchTier(out[i].move, s, ctx) >= QsearchTier(out[j].move, s, ctx)
  {
    var sc := QsearchScoreMoves(moves, s, ctx);
    var out := SortDescending(sc);
    SortedDescending(sc);
    QsearchSortedEntryScored(moves, s, ctx, out[i]);
    QsearchSortedEntryScored(moves, s, ctx, out[j]);
    QsearchBands(out[i].move, s, ctx);
    QsearchBands(out[j].move, s, ctx);
  }

  /** `SortNoisyMoves` keeps the moves of the list, each still ready to be scored. */
  lemma QsearchSortedMovesPermute(moves: seq<Move>, s: BoardState, ctx: ScoringContext)
    requires ContextReady(s, ctx) && AllReady(s, moves)
    ensures var sorted := MovesOf(SortDescending(QsearchScoreMoves(moves, s, ctx)));
      multiset(sorted) == multiset(moves) && AllReady(s, sorted)
  {
    var sc := QsearchScoreMoves(moves, s, ctx);
    var out := SortDescending(sc);
    SortedScoredMovesPermute(sc);
    forall i | 0 <= i < |moves|
      ensures MovesOf(sc)[i] == moves[i]
    {
      QsearchScoreMovesAt(moves, s, ctx, i);
    }
    assert MovesOf(sc) == moves;
    forall i | 0 <= i < |out|
      ensures MoveReady(s, out[i].move)
    {
      QsearchSortedEntryScored(moves, s, ctx, out[i]);
    }
  }

  /**
   * The order `SortNoisyMoves` leaves behind: the captures that pass SEE
   * first, then the quiet promotions, then the captures that fail.
   */
  lemma QsearchSortedByTier(moves: seq<Move>, s: BoardState, ctx: ScoringContext)
    requires ContextReady(s, ctx) && AllReady(s, moves) && ScoresBounded(ctx)
    ensures var sorted := MovesOf(SortDescending(QsearchScoreMoves(moves, s, ctx)));
      AllReady(s, sorted)
      && forall i, j :: 0 <= i < j < |sorted| ==> QsearchTier(sorted[i], s, ctx) >= QsearchTier(sorted[j], s, ctx)
  {
    QsearchSortedMovesPermute(moves, s, ctx);
    var sorted := MovesOf(SortDescending(QsearchScoreMoves(moves, s, ctx)));
    forall i, j | 0 <= i < j < |sorted|
      ensures QsearchTier(sorted[i], s, ctx) >= QsearchTier(sorted[j], s, ctx)
    {
      QsearchSortedPairByTier(moves, s, ctx, i, j);
    }
  }

  /** Scoring keeps the moves in their order. */
  lemma ScoredKeepMoves(moves: seq<Move>, s: BoardState, h: Histories, ctx: ScoringContext)
    requires ContextReady(s, ctx) && h.Valid() && AllReady(s, moves)
    ensures MovesOf(ScoreMoves(moves, s, h, ctx)) == moves
  {
    forall i | 0 <= i < |moves|
      ensures MovesOf(ScoreMoves(moves, s, h, ctx))[i] == moves[i]
    {
      ScoreMovesAt(moves, s, h, ctx, i);
    }
  }

  /** The closing loop of both sorts: `ml.moves[i] = scored[i].move` for the list's entries. */
  method WriteBack(ml: MoveList, scored: array<ScoredMove>)
    requires ml.Valid() && scored.Length == MAX_MOVES
    modifies ml.moves
    ensures ml.Valid()
    ensures ml.Contents() == MovesOf(scored[..ml.count])
    ensures forall k :: ml.count <= k < MAX_MOVES ==> ml.moves[k] == old(ml.moves[k])
  {
    for i := 0 to ml.count
      invariant forall k :: 0 <= k < i ==> ml.moves[k] == scored[k].move
      invariant forall k :: i <= k < MAX_MOVES ==> ml.moves[k] == old(ml.moves[k])
    {
      ml.moves[i] := scored[i].move;
    }
  }
}
