/**
 * The mutable N-Queens board of N-Queens_Solver.c: a queen counter, a
 * per-rank placement array (1-based files, 0 = empty) and four occupancy
 * bitsets, updated in place by `AddQueen` and `RemoveLastQueen`. Each method
 * is proved to leave the board in the state the matching function of
 * `BoardModel` computes from the state before the call.
 */
module Boards {
  import opened Placement
  import opened BoardModel

  /** FLIP_BIT: toggles entry i of a bitset in place. */
  method FlipBit(bits: array<bool>, i: int)
    requires 0 <= i < bits.Length
    modifies bits
    ensures bits[..] == Flip(old(bits[..]), i)
  {
    bits[i] := !bits[i];
  }

  /** CHECK_BIT: tests entry i of a bitset, i.e. whether i is in the set it marks. */
  function CheckBit(bits: array<bool>, i: int): (isSet: bool)
    requires 0 <= i < bits.Length
    reads bits
    ensures forall s :: Marks(bits[..], s) ==> (isSet <==> i in s)
  {
    bits[i]
  }

  class Board {
    var numberOfQueens: int
    const locations: array<int>
    const occupiedRank: array<bool>
    const occupiedFile: array<bool>
    const occupiedDiag1: array<bool>
    const occupiedDiag2: array<bool>

    ghost function Repr(): set<object>
    {
      {this, locations, occupiedRank, occupiedFile, occupiedDiag1, occupiedDiag2}
    }

    /** The array sizes of the C struct, and five distinct arrays. */
    ghost predicate Shape()
    {
      locations.Length == Capacity &&
      occupiedRank.Length == LineBits && occupiedFile.Length == LineBits &&
      occupiedDiag1.Length == DiagonalBits && occupiedDiag2.Length == DiagonalBits &&
      occupiedRank != occupiedFile && occupiedRank != occupiedDiag1 && occupiedRank != occupiedDiag2 &&
      occupiedFile != occupiedDiag1 && occupiedFile != occupiedDiag2 && occupiedDiag1 != occupiedDiag2
    }

    /** The contents of the board as a value. */
    ghost function State(): BoardState
      reads Repr()
    {
      BoardState(numberOfQueens, locations[..], occupiedRank[..], occupiedFile[..],
                 occupiedDiag1[..], occupiedDiag2[..])
    }

    ghost predicate Valid(n: int)
      reads Repr()
    {
      Shape() && Inv(State(), n)
    }

    /** `Board board = {0};`: no queens, every entry zero. */
    constructor ()
      ensures fresh(Repr()) && Shape()
      ensures State() == Empty()
    {
      numberOfQueens := 0;
      locations := new int[Capacity](_ => 0);
      occupiedRank := new bool[LineBits](_ => false);
      occupiedFile := new bool[LineBits](_ => false);
      occupiedDiag1 := new bool[DiagonalBits](_ => false);
      occupiedDiag2 := new bool[DiagonalBits](_ => false);
    }

    /**
     * add_queen: refuses the square (returning false, changing nothing) when
     * its rank, file, diag1 or diag2 bit is set, and otherwise records the
     * queen and flips all four bits. Its rank must index `occupied_rank`,
     * and an accepted square must index `locations`.
     */
    method AddQueen(square: int, n: int) returns (added: bool)
      requires Shape() && SquareInBounds(square, n)
      requires square / n < Capacity || !Free(State(), square / n, square % n, n)
      modifies Repr()
      ensures Shape()
      ensures added == Free(old(State()), square / n, square % n, n)
      ensures State() == BoardModel.AddQueen(old(State()), square, n)
    {
      var rank := square / n;
      if CheckBit(occupiedRank, rank) { return false; }
      var file := square % n;
      if CheckBit(occupiedFile, file) { return false; }
      var diag1 := rank + file;
      if CheckBit(occupiedDiag1, diag1) { return false; }
      var diag2 := rank + (n - 1 - file);
      if CheckBit(occupiedDiag2, diag2) { return false; }
      locations[rank] := file + 1;
      numberOfQueens := numberOfQueens + 1;
      FlipBit(occupiedRank, rank);
      FlipBit(occupiedFile, file);
      FlipBit(occupiedDiag1, diag1);
      FlipBit(occupiedDiag2, diag2);
      return true;
    }

    /**
     * remove_last_queen: pops the queen on rank numberOfQueens-1, flipping
     * its four occupancy bits back and clearing its placement entry.
     */
    method RemoveLastQueen(n: int)
      requires Shape() && 1 <= numberOfQueens <= Capacity && 1 <= n <= Capacity
      requires 1 <= locations[numberOfQueens - 1] <= n
      modifies Repr()
      ensures Shape()
      ensures State() == BoardModel.RemoveLastQueen(old(State()), n)
    {
      numberOfQueens := numberOfQueens - 1;
      var rank := numberOfQueens;
      var file := locations[rank] - 1;
      var diag1 := rank + file;
      var diag2 := rank + (n - 1 - file);
      FlipBit(occupiedRank, rank);
      FlipBit(occupiedFile, file);
      FlipBit(occupiedDiag1, diag1);
      FlipBit(occupiedDiag2, diag2);
      locations[rank] := 0;
    }
  }
}
