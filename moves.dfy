// Moves, the fixed-capacity move list and square coordinates (Movegen.h).

module Moves {

  /** A move: origin, destination, move-type code and moving piece (each a `uint8_t`). */
  datatype Move = Move(From: int, To: int, Type: int, Piece: int)

  /** `Move()`: every field zero. */
  const NullMove: Move := Move(0, 0, 0, 0)

  /** `operator==`: all four fields agree, which is exactly equality of the values. */
  function SameMove(a: Move, b: Move): (r: bool)
    ensures r <==> a == b
  {
    a.From == b.From && a.To == b.To && a.Type == b.Type && a.Piece == b.Piece
  }

  /** `operator!=` is the negation of `operator==`. */
  function DifferentMove(a: Move, b: Move): (r: bool)
    ensures r <==> !SameMove(a, b)
    ensures r <==> a.From != b.From || a.To != b.To || a.Type != b.Type || a.Piece != b.Piece
  {
    !SameMove(a, b)
  }

  const MAX_MOVES: int := 256

  /** `MoveList`: a buffer of 256 moves of which the first `count` are in use. */
  class MoveList {
    var moves: array<Move>
    var count: int

    ghost predicate Valid()
      reads this
    {
      moves.Length == MAX_MOVES && 0 <= count <= MAX_MOVES
    }

    /** The moves currently stored. */
    function Contents(): seq<Move>
      reads this, moves
      requires Valid()
    {
      moves[..count]
    }

    constructor ()
      ensures Valid() && fresh(moves) && count == 0
      ensures forall i :: 0 <= i < MAX_MOVES ==> moves[i] == NullMove
    {
      moves := new Move[MAX_MOVES](_ => NullMove);
      count := 0;
    }

    /** `clear`: the list becomes empty; the buffer keeps its old moves. */
    method Clear()
      requires Valid()
      modifies this`count
      ensures Valid() && count == 0 && Contents() == []
      ensures moves[..] == old(moves[..])
    {
      count := 0;
    }

    /** `add`: appends when there is room and does nothing on a full list. */
    method Add(m: Move)
      requires Valid()
      modifies this`count, moves
      ensures Valid()
      ensures old(count) < MAX_MOVES ==> Contents() == old(Contents()) + [m]
      ensures old(count) == MAX_MOVES ==> count == old(count) && moves[..] == old(moves[..])
      ensures forall i :: count <= i < MAX_MOVES ==> moves[i] == old(moves[i])
    {
      if count < MAX_MOVES {
        moves[count] := m;
        count := count + 1;
      }
    }
  }

  /** `getFile`: 0 for the a-file up to 7 for the h-file. */
  function GetFile(square: nat): (f: int)
    ensures 0 <= f < 8
    ensures f == square % 8
    ensures square < 64 ==> square == 8 * (square / 8) + f
  {
    square % 8
  }

  /** `getRank`: 0 for the first rank up to 7 for the eighth; square 0 (a8) is special-cased to 7. */
  function GetRank(square: nat): (r: int)
    ensures r == 7 - square / 8
    ensures square < 64 ==> 0 <= r < 8 && square == 8 * (7 - r) + GetFile(square)
  {
    if square != 0 then 7 - square / 8 else 7
  }
}
