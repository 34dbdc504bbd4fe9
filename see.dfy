// Static exchange evaluation (SEE.cpp) and the attacker set it starts from
// (`all_attackers_to_square`, Movegen.cpp).
//
// `SEEPieceValues` is a table of tuneable values; it is a parameter here, a
// sequence of seven entries: pawn, knight, bishop, rook, queen, king and the
// entry index 6 that an empty square's code (12, less 6) selects.

module See {
  import opened CppInt
  import opened Bitboards
  import opened Consts
  import opened Moves
  import opened Chessboard
  import opened Attacks

  /** The seven-entry value table. */
  predicate ValueTable(values: seq<int>)
  {
    |values| == 7
  }

  /** `x > 5 ? x - 6 : x`: a mailbox code's piece kind, the empty square (12) giving 6. */
  function KindIndex(code: int): (k: int)
    requires 0 <= code <= NO_PIECE
    ensures 0 <= k <= 6
    ensures code < NO_PIECE ==> k == code % 6
    ensures code == NO_PIECE ==> k == 6
  {
    if code > 5 then code - 6 else code
  }

  /** `getPiecePromoting`: the piece a promotion code creates, in colour `side`; a pawn for any other code. */
  function GetPiecePromoting(moveType: int, side: int): (r: int)
    requires 0 <= moveType < 16 && IsColour(side)
    ensures moveType >= knight_promo ==> r == GetPiece(moveType % 4 + N, side)
    ensures moveType < knight_promo ==> r == GetPiece(P, side)
  {
    var returnPiece :=
      if moveType == queen_promo || moveType == queen_promo_capture then Q
      else if moveType == rook_promo || moveType == rook_promo_capture then R
      else if moveType == bishop_promo || moveType == bishop_promo_capture then B
      else if moveType == knight_promo || moveType == knight_promo_capture then N
      else 0;
    GetPiece(returnPiece, side)
  }

  /**
   * `(Type & promotionFlag) != 0`; for a four-bit type this is `Type >= 8`
   * (`PromotionBit`), the form the specification functions below use.
   */
  predicate IsPromotion(moveType: int)
    requires moveType >= 0
  {
    BitAnd(moveType, promotionFlag) != 0
  }

  /** The board fields SEE reads, with the shapes their types give them. */
  predicate SeeBoard(s: BoardState)
  {
    |s.bitboards| == 12 && OnBoard(AllPieces(s))
    && |s.occupancies| == 3 && |s.mailbox| == 64 && IsColour(s.side)
  }

  /** What `SEE` needs of its arguments: the move's squares on the board, a four-bit type, mailbox codes at both ends. */
  predicate SeeInput(s: BoardState, values: seq<int>, move: Move)
  {
    MoveInput(s, move) && ValueTable(values)
  }

  predicate MoveInput(s: BoardState, move: Move)
  {
    SeeBoard(s)
    && 0 <= move.From < 64 && 0 <= move.To < 64 && 0 <= move.Type < 16
    && 0 <= s.mailbox[move.From] <= NO_PIECE && 0 <= s.mailbox[move.To] <= NO_PIECE
  }

  /**
   * `move_estimated_value`: the value of what stands on the target square;
   * a promotion adds the promoted piece's value less a pawn's, an en-passant
   * capture is worth a pawn, and castling (encoded as king takes rook) nothing.
   */
  function MoveEstimatedValue(s: BoardState, values: seq<int>, move: Move): (v: int)
    requires SeeInput(s, values, move)
    ensures move.Type >= knight_promo ==>
      v == values[KindIndex(s.mailbox[move.To])] + values[move.Type % 4 + N] - values[P]
    ensures move.Type == ep_capture ==> v == values[P]
    ensures move.Type == king_castle || move.Type == queen_castle ==> v == 0
    ensures move.Type < knight_promo && move.Type !in {ep_capture, king_castle, queen_castle} ==>
      v == values[KindIndex(s.mailbox[move.To])]
  {
    var targetPiece := KindIndex(s.mailbox[move.To]);
    var promotedPiece := GetPiecePromoting(move.Type, White);
    var value := values[targetPiece];
    if move.Type >= knight_promo then value + values[promotedPiece] - values[P]
    else if move.Type == ep_capture then values[P]
    else if move.Type == king_castle || move.Type == queen_castle then 0
    else value
  }

  /** Every square holding some piece. */
  function AllPieces(s: BoardState): Bitboard
    requires |s.bitboards| == 12
  {
    var b := s.bitboards;
    (b[P] + b[BP]) + (b[N] + b[BN]) + (b[B] + b[BB]) + (b[R] + b[BR]) + (b[Q] + b[BQ]) + (b[K] + b[BK])
  }

  /** The diagonal sliders of both colours, and the orthogonal ones. */
  function Bishops(s: BoardState): (b: Bitboard)
    requires |s.bitboards| == 12
    ensures b <= AllPieces(s)
  {
    s.bitboards[BB] + s.bitboards[B] + s.bitboards[BQ] + s.bitboards[Q]
  }

  function Rooks(s: BoardState): (b: Bitboard)
    requires |s.bitboards| == 12
    ensures b <= AllPieces(s)
  {
    s.bitboards[BR] + s.bitboards[R] + s.bitboards[BQ] + s.bitboards[Q]
  }

  /** The attacked squares that hold one of `pieces`. */
  function Masked(attacks: Bitboard, pieces: Bitboard): (r: Bitboard)
    ensures forall x :: x in r <==> x in attacks && x in pieces
  {
    attacks * pieces
  }

  /**
   * `all_attackers_to_square`: the pieces of either colour that attack `sq`
   * when the occupied squares are `occupied`. A black pawn attacks `sq` from
   * the squares a white pawn on `sq` would attack, and the reverse.
   */
  function AllAttackersToSquare(t: AttackTables, s: BoardState, occupied: Bitboard, sq: int): (a: Bitboard)
    requires TableShape(t) && |s.bitboards| == 12 && 0 <= sq < 64
    ensures a <= AllPieces(s)
  {
    Masked(t.pawn[White][sq], s.bitboards[BP]) + Masked(t.pawn[Black][sq], s.bitboards[P])
    + Masked(t.knight[sq], s.bitboards[BN] + s.bitboards[N])
    + Masked(t.bishop(sq, occupied), Bishops(s))
    + Masked(t.rook(sq, occupied), Rooks(s))
    + Masked(t.king[sq], s.bitboards[BK] + s.bitboards[K])
  }

  /**
   * With the tables filled, the attackers are exactly the pawns, knights and
   * kings that attack `sq` from where they stand and the sliders whose lines
   * from `sq` reach them.
   */
  lemma {:induction false} AttackersAttack(t: AttackTables, s: BoardState, occupied: Bitboard, sq: int, x: int)
    requires TableShape(t) && LeapersReady(t) && SlidersAgree(t) && |s.bitboards| == 12 && 0 <= sq < 64 && 0 <= x < 64
    ensures x in AllAttackersToSquare(t, s, occupied, sq) <==>
      (|| (x in s.bitboards[BP] && sq in PawnAttacks(Black, x))
       || (x in s.bitboards[P] && sq in PawnAttacks(White, x))
       || (x in s.bitboards[BN] + s.bitboards[N] && sq in KnightAttacks(x))
       || (x in Bishops(s) && x in BishopAttacks(sq, occupied))
       || (x in Rooks(s) && x in RookAttacks(sq, occupied))
       || (x in s.bitboards[BK] + s.bitboards[K] && sq in KingAttacks(x)))
  {
    assert t.pawn[White][sq] == WhitePawnAt(sq) && t.pawn[Black][sq] == BlackPawnAt(sq);
    assert t.knight[sq] == KnightAt(sq) && t.king[sq] == KingAt(sq);
    SliderLookups(t, sq, occupied);
    PawnAttacksMirror(sq, x);
    LeapersSymmetric(sq, x);
  }

  /** The first of `nv..K` whose pieces of either colour are among `my`; the king when no other is. */
  function Weakest(bitboards: seq<Bitboard>, my: Bitboard, nv: int): (w: int)
    requires |bitboards| == 12 && P <= nv <= K
    ensures nv <= w <= K
    ensures w < K ==> my * (bitboards[w] + bitboards[w + 6]) != {}
    decreases K - nv
  {
    if nv == K || my * (bitboards[nv] + bitboards[nv + 6]) != {} then nv
    else Weakest(bitboards, my, nv + 1)
  }

  /** No kind lighter than the one `Weakest` finds has a piece in `my`. */
  lemma {:induction false} WeakestIsLightest(bitboards: seq<Bitboard>, my: Bitboard, nv: int, q: int)
    requires |bitboards| == 12 && P <= nv <= K && nv <= q < Weakest(bitboards, my, nv)
    ensures my * (bitboards[q] + bitboards[q + 6]) == {}
    decreases K - nv
  {
    if nv < q {
      WeakestIsLightest(bitboards, my, nv + 1, q);
    }
  }

  /** When `my` holds some piece, the weakest kind found has one of its pieces in `my`. */
  lemma {:induction false} WeakestFinds(s: BoardState, my: Bitboard)
    requires |s.bitboards| == 12 && my != {} && my <= AllPieces(s)
    ensures var w := Weakest(s.bitboards, my, P); my * (s.bitboards[w] + s.bitboards[w + 6]) != {}
  {
    if forall y :: y !in my {
      assert false;
    }
    var x :| x in my;
    var b := s.bitboards;
    var q := if x in b[0] + b[6] then 0 else if x in b[1] + b[7] then 1 else if x in b[2] + b[8] then 2
      else if x in b[3] + b[9] then 3 else if x in b[4] + b[10] then 4 else 5;
    WeakestFindsFrom(b, my, P, x, q);
  }

  lemma {:induction false} WeakestFindsFrom(b: seq<Bitboard>, my: Bitboard, nv: int, x: int, q: int)
    requires |b| == 12 && P <= nv <= q <= K && x in my && x in b[q] + b[q + 6]
    ensures var w := Weakest(b, my, nv); my * (b[w] + b[w + 6]) != {}
    decreases K - nv
  {
    if nv < K && my * (b[nv] + b[nv + 6]) == {} {
      assert x !in my * (b[nv] + b[nv + 6]);
      WeakestFindsFrom(b, my, nv + 1, x, q);
    } else if nv == K {
      assert x in my * (b[nv] + b[nv + 6]);
    }
  }

  /** The attackers once the square just vacated lets the sliders behind it through. */
  function Revealed(t: AttackTables, s: BoardState, to: int, occupied: Bitboard, attackers: Bitboard, nv: int): (a: Bitboard)
    requires |s.bitboards| == 12 && 0 <= to < 64
    ensures attackers <= a <= attackers + AllPieces(s)
  {
    var diagonal := if nv == P || nv == B || nv == Q then attackers + (t.bishop(to, occupied) * Bishops(s)) else attackers;
    if nv == R || nv == Q then diagonal + (t.rook(to, occupied) * Rooks(s)) else diagonal
  }

  /**
   * The state of the swap loop: the occupied squares, the remaining
   * attackers, the balance and the side to recapture. A negative balance
   * means the side that just captured is behind.
   */
  datatype Swap = Swap(occupied: Bitboard, attackers: Bitboard, balance: int, colour: int)

  predicate SwapInv(s: BoardState, st: Swap)
    requires |s.bitboards| == 12
  {
    IsColour(st.colour) && st.attackers <= st.occupied && st.attackers <= AllPieces(s)
  }

  /** The outcome of one round: the loop stops with a losing side, or goes on from a new state. */
  datatype Round = Settled(loser: int) | Next(state: Swap)

  /**
   * One round of the swap loop: the side to move recaptures with its least
   * valuable attacker. Without an attacker it loses; once the balance turns
   * non-negative the other side loses, unless the capture was made by a king
   * that the other side still attacks.
   */
  function SeeRound(t: AttackTables, s: BoardState, values: seq<int>, to: int, st: Swap): (r: Round)
    requires SeeBoard(s) && ValueTable(values) && 0 <= to < 64 && SwapInv(s, st)
    ensures r.Settled? ==> IsColour(r.loser)
    ensures r.Next? ==> SwapInv(s, r.state) && |r.state.occupied| < |st.occupied| && r.state.colour == 1 - st.colour
  {
    var my := st.attackers * s.occupancies[st.colour];
    if my == {} then Settled(st.colour)
    else
      var nv := Weakest(s.bitboards, my, P);
      var movers := my * (s.bitboards[nv] + s.bitboards[nv + 6]);
      assert movers != {} && OnBoard(movers) by {
        WeakestFinds(s, my);
      }
      var sq := Ls1b(movers);
      var occ := Xor(st.occupied, {sq});
      assert occ == st.occupied - {sq};
      var att := Revealed(t, s, to, occ, st.attackers, nv) * occ;
      var next := 1 - st.colour;
      var bal := -st.balance - 1 - values[nv];
      if bal >= 0 then Settled(if nv == K && att * s.occupancies[next] != {} then 1 - next else next)
      else Next(Swap(occ, att, bal, next))
  }

  /** The swap loop of `SEE`, round after round until one settles; the result is the losing side. */
  function SeeLoop(t: AttackTables, s: BoardState, values: seq<int>, to: int, st: Swap): (loser: int)
    requires SeeBoard(s) && ValueTable(values) && 0 <= to < 64 && SwapInv(s, st)
    ensures IsColour(loser)
    decreases |st.occupied|
  {
    match SeeRound(t, s, values, to, st)
    case Settled(loser) => loser
    case Next(next) => SeeLoop(t, s, values, to, next)
  }

  /** `occupied` as if the move were made: origin cleared, target set, an en-passant victim toggled off. */
  function InitialOccupied(s: BoardState, move: Move): Bitboard
    requires |s.occupancies| == 3
  {
    var occ := Xor(s.occupancies[Both], {move.From}) + {move.To};
    if move.Type == ep_capture then Xor(occ, {if s.side == White then move.To + 8 else move.To - 8})
    else occ
  }

  /** The loop's starting state: the attackers on the board as if the move were made, the opponent to recapture. */
  function InitialSwap(t: AttackTables, s: BoardState, values: seq<int>, move: Move, balance: int): (st: Swap)
    requires TableShape(t) && SeeInput(s, values, move)
    ensures SwapInv(s, st) && st.colour == 1 - s.side
  {
    var occupied := InitialOccupied(s, move);
    Swap(occupied, AllAttackersToSquare(t, s, occupied, move.To) * occupied, balance, 1 - s.side)
  }

  /** `SEE` with `firstVictim` the value index of the piece first put at risk on the target square. */
  function SeeWith(t: AttackTables, s: BoardState, values: seq<int>, move: Move, threshold: int, firstVictim: int): (r: int)
    requires TableShape(t) && SeeInput(s, values, move) && 0 <= firstVictim <= 6
    ensures r == 0 || r == 1
  {
    SeeFrom(t, s, values, move, MoveEstimatedValue(s, values, move) - threshold, firstVictim)
  }

  /** The early exits of `SEE` on the estimated gain over the threshold: below it, safe even if the mover is lost, or the swap loop. */
  function SeeFrom(t: AttackTables, s: BoardState, values: seq<int>, move: Move, gain: int, firstVictim: int): (r: int)
    requires TableShape(t) && SeeInput(s, values, move) && 0 <= firstVictim <= 6
    ensures r == 0 || r == 1
  {
    if gain < 0 then 0
    else if gain - values[firstVictim] >= 0 then 1
    else Exchange(t, s, values, move, gain - values[firstVictim])
  }

  /** The swap loop from the starting state: 1 when the side that made the move does not lose. */
  function Exchange(t: AttackTables, s: BoardState, values: seq<int>, move: Move, balance: int): (r: int)
    requires TableShape(t) && SeeInput(s, values, move)
    ensures r == 0 || r == 1
  {
    var loser := SeeLoop(t, s, values, move.To, InitialSwap(t, s, values, move, balance));
    if s.side != loser then 1 else 0
  }

  /**
   * The first victim as written: `promotion ? promotion : mailbox[from]`
   * with `promotion` a 0/1 flag, so every promotion risks a knight.
   */
  function FirstVictim(s: BoardState, move: Move): (v: int)
    requires MoveInput(s, move)
    ensures 0 <= v <= 6
    ensures move.Type >= knight_promo ==> v == N
    ensures move.Type < knight_promo ==> v == KindIndex(s.mailbox[move.From])
  {
    var nextVictim := if move.Type >= knight_promo then 1 else s.mailbox[move.From];
    KindIndex(nextVictim)
  }

  /** `SEE`: whether the move wins at least `threshold`, as 1 or 0. */
  function SeeValue(t: AttackTables, s: BoardState, values: seq<int>, move: Move, threshold: int): (r: int)
    requires TableShape(t) && SeeInput(s, values, move)
    ensures r == 0 || r == 1
  {
    SeeWith(t, s, values, move, threshold, FirstVictim(s, move))
  }

  /**
   * The first victim as the exchange means it: the piece that stands on the
   * target square after the move, the promoted piece for a promotion.
   */
  function IntendedFirstVictim(s: BoardState, move: Move): (v: int)
    requires MoveInput(s, move)
    ensures 0 <= v <= 6
    ensures move.Type >= knight_promo ==> v == move.Type % 4 + N
    ensures move.Type < knight_promo ==> v == FirstVictim(s, move)
  {
    if move.Type >= knight_promo then GetPiecePromoting(move.Type, White) else FirstVictim(s, move)
  }

  /** `SEE` with the promoted piece as the first piece at risk. */
  function SeeValueIntended(t: AttackTables, s: BoardState, values: seq<int>, move: Move, threshold: int): (r: int)
    requires TableShape(t) && SeeInput(s, values, move)
    ensures r == 0 || r == 1
  {
    SeeWith(t, s, values, move, threshold, IntendedFirstVictim(s, move))
  }

  /** When even the whole estimated gain falls short of the threshold, `SEE` fails at once. */
  lemma {:induction false} SeeBelowThreshold(t: AttackTables, s: BoardState, values: seq<int>, move: Move, threshold: int, firstVictim: int)
    requires TableShape(t) && SeeInput(s, values, move) && 0 <= firstVictim <= 6
    requires MoveEstimatedValue(s, values, move) < threshold
    ensures SeeWith(t, s, values, move, threshold, firstVictim) == 0
  {
  }

  /** When the gain still meets the threshold after losing the first piece, `SEE` passes at once. */
  lemma {:induction false} SeeSafeGain(t: AttackTables, s: BoardState, values: seq<int>, move: Move, threshold: int, firstVictim: int)
    requires TableShape(t) && SeeInput(s, values, move) && 0 <= firstVictim <= 6
    requires MoveEstimatedValue(s, values, move) >= threshold
    requires MoveEstimatedValue(s, values, move) - threshold - values[firstVictim] >= 0
    ensures SeeWith(t, s, values, move, threshold, firstVictim) == 1
  {
  }

  /** With no opponent piece able to recapture, the move passes exactly when its estimated gain meets the threshold. */
  lemma {:induction false} SeeUndefended(t: AttackTables, s: BoardState, values: seq<int>, move: Move, threshold: int, firstVictim: int)
    requires TableShape(t) && SeeInput(s, values, move) && 0 <= firstVictim <= 6
    requires AllAttackersToSquare(t, s, InitialOccupied(s, move), move.To) * InitialOccupied(s, move)
      * s.occupancies[1 - s.side] == {}
    ensures SeeWith(t, s, values, move, threshold, firstVictim) == 1 <==> MoveEstimatedValue(s, values, move) >= threshold
  {
    var balance := MoveEstimatedValue(s, values, move) - threshold - values[firstVictim];
    var st := InitialSwap(t, s, values, move, balance);
    assert st.attackers * s.occupancies[st.colour] == {};
    assert SeeRound(t, s, values, move.To, st) == Settled(1 - s.side);
  }

  /** A side that has no attacker left on the square loses the exchange. */
  lemma {:induction false} SeeOutOfAttackers(t: AttackTables, s: BoardState, values: seq<int>, to: int, st: Swap)
    requires SeeBoard(s) && ValueTable(values) && 0 <= to < 64 && SwapInv(s, st)
    requires st.attackers * s.occupancies[st.colour] == {}
    ensures SeeLoop(t, s, values, to, st) == st.colour
  {
  }

  /**
   * The king rule: when the recapture that settles the balance is made by a
   * king while the other side still attacks the square, the king's side loses.
   */
  lemma {:induction false} SeeKingRecapture(t: AttackTables, s: BoardState, values: seq<int>, to: int, st: Swap)
    requires SeeBoard(s) && ValueTable(values) && 0 <= to < 64 && SwapInv(s, st)
    requires var my := st.attackers * s.occupancies[st.colour];
      my != {} && Weakest(s.bitboards, my, P) == K && -st.balance - 1 - values[K] >= 0
    requires var my := st.attackers * s.occupancies[st.colour];
      var sq := Ls1b(my * (s.bitboards[K] + s.bitboards[BK]));
      var occ := st.occupied - {sq};
      Revealed(t, s, to, occ, st.attackers, K) * occ * s.occupancies[1 - st.colour] != {}
    ensures SeeLoop(t, s, values, to, st) == st.colour
  {
    var my := st.attackers * s.occupancies[st.colour];
    WeakestFinds(s, my);
    var sq := Ls1b(my * (s.bitboards[K] + s.bitboards[BK]));
    assert Xor(st.occupied, {sq}) == st.occupied - {sq};
  }

  /**
   * `SEE`: the early exits, then the swap loop over the attackers of the
   * target square.
   */
  method StaticExchange(t: AttackTables, s: BoardState, values: seq<int>, move: Move, threshold: int) returns (result: int)
    requires TableShape(t) && SeeInput(s, values, move)
    ensures result == SeeValue(t, s, values, move, threshold)
  {
    var nextVictim := FirstVictimOf(s, move);
    var balance := MoveEstimatedValue(s, values, move) - threshold;
    result := EarlyExits(t, s, values, move, balance, nextVictim);
  }

  /** The first piece at risk, computed as `SEE` does with the flag test on the move type. */
  method FirstVictimOf(s: BoardState, move: Move) returns (nextVictim: int)
    requires MoveInput(s, move)
    ensures nextVictim == FirstVictim(s, move)
  {
    var promotion := IsPromotion(move.Type);
    PromotionBit(move.Type);
    nextVictim := if promotion then 1 else s.mailbox[move.From];
    nextVictim := if nextVictim > 5 then nextVictim - 6 else nextVictim;
  }

  /** The two early returns of `SEE`, then the exchange. */
  method EarlyExits(t: AttackTables, s: BoardState, values: seq<int>, move: Move, gain: int, nextVictim: int) returns (result: int)
    requires TableShape(t) && SeeInput(s, values, move) && 0 <= nextVictim <= 6
    ensures result == SeeFrom(t, s, values, move, gain, nextVictim)
  {
    var balance := gain;
    if balance < 0 {
      return 0;
    }
    balance := balance - values[nextVictim];
    if balance >= 0 {
      return 1;
    }
    result := ExchangeFrom(t, s, values, move, balance);
    ExitsPassToExchange(t, s, values, move, gain, nextVictim, balance);
  }

  /** Past both early exits, `SEE` is the exchange from the balance after losing the first piece. */
  lemma ExitsPassToExchange(t: AttackTables, s: BoardState, values: seq<int>, move: Move, gain: int, v: int, balance: int)
    requires TableShape(t) && SeeInput(s, values, move) && 0 <= v <= 6
    requires gain >= 0 && balance == gain - values[v] && balance < 0
    ensures SeeFrom(t, s, values, move, gain, v) == Exchange(t, s, values, move, balance)
  {
  }

  /** The part of `SEE` after the early exits: the occupancy as if the move were made, its attackers, and the swap loop. */
  method ExchangeFrom(t: AttackTables, s: BoardState, values: seq<int>, move: Move, balance: int) returns (result: int)
    requires TableShape(t) && SeeInput(s, values, move)
    ensures result == Exchange(t, s, values, move, balance)
  {
    var from, to := move.From, move.To;
    var occupied := s.occupancies[Both];
    occupied := Xor(occupied, {from}) + {to};
    if move.Type == ep_capture {
      var epSquare := if s.side == White then move.To + 8 else move.To - 8;
      occupied := Xor(occupied, {epSquare});
    }
    assert occupied == InitialOccupied(s, move);
    var attackers := AllAttackersToSquare(t, s, occupied, to) * occupied;
    // `pos.side ^ 1` with the side 0 or 1
    var start := Swap(occupied, attackers, balance, 1 - s.side);
    assert start == InitialSwap(t, s, values, move, balance);
    var colour := SwapLoop(t, s, values, to, start);
    result := if s.side != colour then 1 else 0;
  }

  /** The `while (1)` loop of `SEE`, one round per iteration; the result is the losing side. */
  method SwapLoop(t: AttackTables, s: BoardState, values: seq<int>, to: int, start: Swap) returns (loser: int)
    requires SeeBoard(s) && ValueTable(values) && 0 <= to < 64 && SwapInv(s, start)
    ensures loser == SeeLoop(t, s, values, to, start)
  {
    var bishops := Bishops(s);
    var rooks := Rooks(s);
    var st := start;
    while true
      invariant SwapInv(s, st)
      invariant SeeLoop(t, s, values, to, st) == SeeLoop(t, s, values, to, start)
      decreases |st.occupied|
    {
      var round := SwapRound(t, s, values, to, st, bishops, rooks);
      if round.Settled? {
        return round.loser;
      }
      st := round.state;
    }
  }

  /** One iteration of the loop: pick the least valuable attacker, remove it, reveal, swap the turn, negamax the balance. */
  method SwapRound(t: AttackTables, s: BoardState, values: seq<int>, to: int, st: Swap, bishops: Bitboard, rooks: Bitboard)
    returns (round: Round)
    requires SeeBoard(s) && ValueTable(values) && 0 <= to < 64 && SwapInv(s, st)
    requires bishops == Bishops(s) && rooks == Rooks(s)
    ensures round == SeeRound(t, s, values, to, st)
  {
    var myAttackers := st.attackers * s.occupancies[st.colour];
    if myAttackers == {} {
      return Settled(st.colour);
    }
    var nextVictim := LeastValuable(s.bitboards, myAttackers);
    ghost var movers := myAttackers * (s.bitboards[nextVictim] + s.bitboards[nextVictim + 6]);
    assert movers != {} && OnBoard(movers) by {
      WeakestFinds(s, myAttackers);
    }
    var sq := Ls1b(myAttackers * (s.bitboards[nextVictim] + s.bitboards[nextVictim + 6]));
    var occupied := Xor(st.occupied, {sq});
    assert occupied == st.occupied - {sq};
    var attackers := Reveal(t, s, to, occupied, st.attackers, nextVictim, bishops, rooks);
    var colour := 1 - st.colour;
    var balance := -st.balance - 1 - values[nextVictim];
    if balance >= 0 {
      if nextVictim == K && attackers * s.occupancies[colour] != {} {
        colour := 1 - colour;
      }
      return Settled(colour);
    }
    return Next(Swap(occupied, attackers, balance, colour));
  }

  /** The x-ray update of `SEE`: sliders behind a moved pawn, bishop, rook or queen join the attackers; only occupied squares remain. */
  method Reveal(t: AttackTables, s: BoardState, to: int, occupied: Bitboard, attackers: Bitboard, nextVictim: int,
                bishops: Bitboard, rooks: Bitboard) returns (a: Bitboard)
    requires |s.bitboards| == 12 && 0 <= to < 64 && bishops == Bishops(s) && rooks == Rooks(s)
    ensures a == Revealed(t, s, to, occupied, attackers, nextVictim) * occupied
  {
    a := attackers;
    if nextVictim == P || nextVictim == B || nextVictim == Q {
      a := a + (t.bishop(to, occupied) * bishops);
    }
    if nextVictim == R || nextVictim == Q {
      a := a + (t.rook(to, occupied) * rooks);
    }
    a := a * occupied;
  }

  /** The inner `for` loop of `SEE`: the first kind, pawn to queen, with a piece in `my`; the king when none is. */
  method LeastValuable(bitboards: seq<Bitboard>, my: Bitboard) returns (nextVictim: int)
    requires |bitboards| == 12
    ensures nextVictim == Weakest(bitboards, my, P)
  {
    nextVictim := P;
    while nextVictim <= Q
      invariant P <= nextVictim <= K
      invariant Weakest(bitboards, my, nextVictim) == Weakest(bitboards, my, P)
      decreases K - nextVictim
    {
      if my * (bitboards[nextVictim] + bitboards[nextVictim + 6]) != {} {
        break;
      }
      nextVictim := nextVictim + 1;
    }
  }

  /** The table `SEEPieceValues` commonly holds: pawn 100, minor pieces 300, rook 500, queen 900, king and empty 0. */
  const CommonValues: seq<int> := [100, 300, 300, 500, 900, 0, 0]

  /**
   * As written, a queen promotion onto an empty square passes `SEE` at
   * threshold 0 on any board, by the early exit that assumes the mover can
   * at worst lose the piece it put at risk, although losing the new queen
   * would leave it 100 short.
   */
  lemma {:induction false} PromotionRisksKnight(t: AttackTables, s: BoardState, move: Move)
    requires TableShape(t) && SeeInput(s, CommonValues, move) && move.Type == queen_promo && s.mailbox[move.To] == NO_PIECE
    ensures SeeValue(t, s, CommonValues, move, 0) == 1
    ensures MoveEstimatedValue(s, CommonValues, move) - 0 - CommonValues[Q] < 0
  {
    SeeSafeGain(t, s, CommonValues, move, 0, N);
  }

  /**
   * With the promoted piece first at risk, the early pass is sound: it is
   * taken only when the gain meets the threshold even after the piece that
   * now stands on the target square is lost, and otherwise the exchange
   * decides.
   */
  lemma {:induction false} IntendedEarlyPassIsSafe(t: AttackTables, s: BoardState, values: seq<int>, move: Move, threshold: int, balance: int)
    requires TableShape(t) && SeeInput(s, values, move)
    requires MoveEstimatedValue(s, values, move) >= threshold
    requires balance == MoveEstimatedValue(s, values, move) - threshold - values[IntendedFirstVictim(s, move)]
    ensures SeeValueIntended(t, s, values, move, threshold) == if balance >= 0 then 1 else Exchange(t, s, values, move, balance)
  {
    var victim := IntendedFirstVictim(s, move);
    if balance < 0 {
      ExitsPassToExchange(t, s, values, move, MoveEstimatedValue(s, values, move) - threshold, victim, balance);
    } else {
      SeeSafeGain(t, s, values, move, threshold, victim);
    }
  }

  /** The corrected `SEE` sends the same queen promotion to the exchange, which it passes when no opponent piece can recapture. */
  lemma {:induction false} PromotionRisksQueen(t: AttackTables, s: BoardState, move: Move)
    requires TableShape(t) && SeeInput(s, CommonValues, move) && move.Type == queen_promo && s.mailbox[move.To] == NO_PIECE
    ensures SeeValueIntended(t, s, CommonValues, move, 0) == Exchange(t, s, CommonValues, move, -100)
    ensures (AllAttackersToSquare(t, s, InitialOccupied(s, move), move.To) * InitialOccupied(s, move)
      * s.occupancies[1 - s.side] == {}) ==> SeeValueIntended(t, s, CommonValues, move, 0) == 1
  {
    IntendedEarlyPassIsSafe(t, s, CommonValues, move, 0, -100);
    if AllAttackersToSquare(t, s, InitialOccupied(s, move), move.To) * InitialOccupied(s, move)
      * s.occupancies[1 - s.side] == {} {
      SeeUndefended(t, s, CommonValues, move, 0, Q);
    }
  }
}
