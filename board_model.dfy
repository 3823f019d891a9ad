/**
 * The N-Queens board of N-Queens_Solver.c as a value, with add_queen and
 * remove_last_queen as functions on it. The class `Boards.Board` updates the
 * same fields in place and is proved to agree with these functions.
 *
 * The bitsets are `int occupied_rank[4]`, `occupied_file[4]`,
 * `occupied_diag1[8]` and `occupied_diag2[8]` in the source, i.e. 128, 128,
 * 256 and 256 bits, here sequences of booleans of those lengths; `Flip` is
 * FLIP_BIT and indexing is CHECK_BIT.
 */
module BoardModel {
  import opened Placement

  /** Entries of `locations[100]`: the largest supported board size. */
  const Capacity := 100
  /** Bits of `occupied_rank` and of `occupied_file`. */
  const LineBits := 128
  /** Bits of `occupied_diag1` and of `occupied_diag2`. */
  const DiagonalBits := 256

  /** The fields of the C `Board` struct; `locations` holds 1-based files, 0 for an empty rank. */
  datatype BoardState = BoardState(
    numberOfQueens: int,
    locations: seq<int>,
    occupiedRank: seq<bool>,
    occupiedFile: seq<bool>,
    occupiedDiag1: seq<bool>,
    occupiedDiag2: seq<bool>)

  /** The array sizes of the C struct. */
  ghost predicate Sized(b: BoardState)
  {
    |b.locations| == Capacity &&
    |b.occupiedRank| == LineBits && |b.occupiedFile| == LineBits &&
    |b.occupiedDiag1| == DiagonalBits && |b.occupiedDiag2| == DiagonalBits
  }

  /** `Board board = {0};` */
  function Empty(): BoardState
  {
    BoardState(0, seq(Capacity, _ => 0), seq(LineBits, _ => false), seq(LineBits, _ => false),
               seq(DiagonalBits, _ => false), seq(DiagonalBits, _ => false))
  }

  /** FLIP_BIT: toggles bit i. */
  function Flip(bits: seq<bool>, i: int): seq<bool>
    requires 0 <= i < |bits|
  {
    bits[i := !bits[i]]
  }

  /** The 0-based files of the queens on ranks 0 .. numberOfQueens-1. */
  ghost function Queens(b: BoardState): seq<int>
    requires 0 <= b.numberOfQueens <= |b.locations|
  {
    Decode(b.locations, b.numberOfQueens)
  }

  /**
   * The board invariant for an n x n board: queens fill ranks
   * 0 .. numberOfQueens-1 with files 1 .. n and later ranks hold 0; each
   * occupancy bitset holds exactly the indices of the placed queens; and no
   * two placed queens attack each other.
   */
  ghost predicate Inv(b: BoardState, n: int)
  {
    Sized(b) && 1 <= n <= Capacity && 0 <= b.numberOfQueens <= n &&
    (forall r :: 0 <= r < b.numberOfQueens ==> 1 <= b.locations[r] <= n) &&
    (forall r :: b.numberOfQueens <= r < Capacity ==> b.locations[r] == 0) &&
    Marks(b.occupiedRank, Ranks(b.numberOfQueens)) &&
    Marks(b.occupiedFile, Files(Queens(b))) &&
    Marks(b.occupiedDiag1, Diag1s(Queens(b))) &&
    Marks(b.occupiedDiag2, Diag2s(Queens(b), n)) &&
    NonAttacking(Queens(b))
  }

  /** The index range add_queen may touch: rank within occupied_rank, file below n. */
  ghost predicate SquareInBounds(square: int, n: int)
  {
    1 <= n <= Capacity && 0 <= square && square / n < LineBits
  }

  /** The four tests of add_queen for the queen at (rank, file): its rank, file, diag1 and diag2 bits are clear. */
  ghost predicate Free(b: BoardState, rank: int, file: int, n: int)
    requires Sized(b) && 0 <= rank < LineBits && 0 <= file < n <= Capacity
  {
    !b.occupiedRank[rank] && !b.occupiedFile[file] &&
    !b.occupiedDiag1[rank + file] && !b.occupiedDiag2[rank + (n - 1 - file)]
  }

  /** The marking half of add_queen: records the queen at (rank, file) and flips its four bits. */
  ghost function Place(b: BoardState, rank: int, file: int, n: int): BoardState
    requires Sized(b) && 0 <= rank < Capacity && 0 <= file < n <= Capacity
  {
    BoardState(b.numberOfQueens + 1, b.locations[rank := file + 1],
               Flip(b.occupiedRank, rank), Flip(b.occupiedFile, file),
               Flip(b.occupiedDiag1, rank + file), Flip(b.occupiedDiag2, rank + (n - 1 - file)))
  }

  /** add_queen: the board after the call (unchanged when the square is refused). */
  ghost function AddQueen(b: BoardState, square: int, n: int): BoardState
    requires Sized(b) && SquareInBounds(square, n)
    requires square / n < Capacity || !Free(b, square / n, square % n, n)
  {
    var rank, file := square / n, square % n;
    if Free(b, rank, file, n) then Place(b, rank, file, n) else b
  }

  /** remove_last_queen: clears the queen on rank numberOfQueens-1 and its four bits. */
  ghost function RemoveLastQueen(b: BoardState, n: int): BoardState
    requires Sized(b) && 1 <= b.numberOfQueens <= Capacity && 1 <= n <= Capacity
    requires 1 <= b.locations[b.numberOfQueens - 1] <= n
  {
    var rank := b.numberOfQueens - 1;
    var file := b.locations[rank] - 1;
    BoardState(rank, b.locations[rank := 0],
               Flip(b.occupiedRank, rank), Flip(b.occupiedFile, file),
               Flip(b.occupiedDiag1, rank + file), Flip(b.occupiedDiag2, rank + (n - 1 - file)))
  }

  // ---------------------------------------------------------------------------
  // Lemmas

  /** Flipping a bit of a bitset toggles membership in the set it holds. */
  lemma FlipBits(bits: seq<bool>, s: set<int>, i: int)
    requires Marks(bits, s) && 0 <= i < |bits|
    ensures Marks(Flip(bits, i), if i in s then s - {i} else s + {i})
  {
  }

  /** The square index rank * n + file decomposes back into rank and file. */
  lemma SquareParts(rank: int, file: int, n: int)
    requires 0 <= rank && 0 <= file < n
    ensures (rank * n + file) / n == rank && (rank * n + file) % n == file
  {
    var x := rank * n + file;
    var d, m := x / n, x % n;
    assert x == d * n + m;
    if d > rank {
      MulMonotone(d - rank, n);
    } else if d < rank {
      MulMonotone(rank - d, n);
    }
  }

  lemma MulMonotone(a: int, n: int)
    requires 1 <= a && 0 < n
    ensures a * n >= n
  {
  }

  lemma EmptyInv(n: int)
    requires 1 <= n <= Capacity
    ensures Inv(Empty(), n) && Queens(Empty()) == []
  {
    assert Queens(Empty()) == [];
  }

  /** The placed queens stand on files 0 .. n-1. */
  lemma QueensInRange(b: BoardState, n: int)
    requires Inv(b, n)
    ensures InRange(Queens(b), n)
  {
  }

  /** Under the invariant the four bits add_queen tests are membership in the four occupancy sets. */
  lemma FreeIsVacant(b: BoardState, rank: int, file: int, n: int)
    requires Inv(b, n) && 0 <= rank <= n && 0 <= file < n
    ensures Free(b, rank, file, n) <==> Vacant(rank, file, Queens(b), n)
  {
    var q := Queens(b);
    assert b.occupiedRank[rank] == (rank in Ranks(|q|));
    assert b.occupiedFile[file] == (file in Files(q));
    assert b.occupiedDiag1[rank + file] == (rank + file in Diag1s(q));
    assert b.occupiedDiag2[rank + (n - 1 - file)] == (rank + (n - 1 - file) in Diag2s(q, n));
  }

  /** A full board refuses every square of rank n: all n files are taken (pigeonhole). */
  lemma FullBoardRefuses(b: BoardState, file: int, n: int)
    requires Inv(b, n) && b.numberOfQueens == n && 0 <= file < n
    ensures !Free(b, n, file, n)
  {
    FullPlacementFiles(Queens(b), n);
    assert file in Ranks(n);
  }

  /** A queen on the next rank is accepted exactly when it attacks none already placed. */
  lemma FreeIffNonAttacking(b: BoardState, file: int, n: int)
    requires Inv(b, n) && 0 <= file < n
    ensures Free(b, b.numberOfQueens, file, n) <==> NonAttacking(Queens(b) + [file])
    ensures Free(b, b.numberOfQueens, file, n) ==> b.numberOfQueens < n
  {
    FreeIsVacant(b, b.numberOfQueens, file, n);
    ExtendNonAttacking(Queens(b), file, n);
    if b.numberOfQueens == n {
      FullBoardRefuses(b, file, n);
    }
  }

  /** The square add_queen is given for (rank, file) names that rank and file, so the call tests and marks them. */
  lemma AddQueenAt(b: BoardState, rank: int, file: int, n: int)
    requires Sized(b) && 0 <= rank < LineBits && 0 <= file < n <= Capacity
    requires rank < Capacity || !Free(b, rank, file, n)
    ensures (rank * n + file) / n == rank && (rank * n + file) % n == file
    ensures SquareInBounds(rank * n + file, n)
    ensures AddQueen(b, rank * n + file, n) == if Free(b, rank, file, n) then Place(b, rank, file, n) else b
  {
    SquareParts(rank, file, n);
  }

  /** Placing a non-attacking queen on the next rank keeps the invariant and appends the queen. */
  lemma PlaceKeepsInv(b: BoardState, file: int, n: int)
    requires Inv(b, n) && 0 <= file < n && Free(b, b.numberOfQueens, file, n)
    ensures b.numberOfQueens < n
    ensures var b' := Place(b, b.numberOfQueens, file, n);
      Inv(b', n) && b'.numberOfQueens == b.numberOfQueens + 1 && Queens(b') == Queens(b) + [file]
  {
    var k, q := b.numberOfQueens, Queens(b);
    FreeIffNonAttacking(b, file, n);
    var b' := Place(b, k, file, n);
    assert Queens(b') == q + [file];
    OccupancyPush(q, file, n);
    FreeIsVacant(b, k, file, n);
    FlipBits(b.occupiedRank, Ranks(k), k);
    FlipBits(b.occupiedFile, Files(q), file);
    FlipBits(b.occupiedDiag1, Diag1s(q), k + file);
    FlipBits(b.occupiedDiag2, Diag2s(q, n), k + (n - 1 - file));
  }

  /** remove_last_queen keeps the invariant and drops the last queen. */
  lemma PopKeepsInv(b: BoardState, n: int)
    requires Inv(b, n) && b.numberOfQueens > 0
    ensures var b' := RemoveLastQueen(b, n);
      Inv(b', n) && b'.numberOfQueens == b.numberOfQueens - 1 && Queens(b') == Queens(b)[..b'.numberOfQueens]
  {
    var k, q := b.numberOfQueens - 1, Queens(b);
    var file := q[k];
    var p := q[..k];
    assert q == p + [file];
    var b' := RemoveLastQueen(b, n);
    assert Queens(b') == p;
    PopSets(p, file, n);
    PrefixNonAttacking(q, k);
    FlipBits(b.occupiedRank, Ranks(k + 1), k);
    FlipBits(b.occupiedFile, Files(q), file);
    FlipBits(b.occupiedDiag1, Diag1s(q), k + file);
    FlipBits(b.occupiedDiag2, Diag2s(q, n), k + (n - 1 - file));
  }

  /** Popping the last queen of a non-attacking placement removes exactly its four indices. */
  lemma PopSets(p: seq<int>, file: int, n: int)
    requires NonAttacking(p + [file])
    ensures |p| in Ranks(|p| + 1) && Ranks(|p| + 1) - {|p|} == Ranks(|p|)
    ensures file in Files(p + [file]) && Files(p + [file]) - {file} == Files(p)
    ensures |p| + file in Diag1s(p + [file]) && Diag1s(p + [file]) - {|p| + file} == Diag1s(p)
    ensures |p| + (n - 1 - file) in Diag2s(p + [file], n) && Diag2s(p + [file], n) - {|p| + (n - 1 - file)} == Diag2s(p, n)
  {
    OccupancyPush(p, file, n);
    AttackedSquareBlocks(p, file, n);
  }

  /** An accepted add_queen on the next rank followed by remove_last_queen restores the board exactly. */
  lemma AddRemoveRoundTrip(b: BoardState, file: int, n: int)
    requires Inv(b, n) && 0 <= file < n && Free(b, b.numberOfQueens, file, n)
    ensures b.numberOfQueens < n && SquareInBounds(b.numberOfQueens * n + file, n)
    ensures (b.numberOfQueens * n + file) / n == b.numberOfQueens
    ensures RemoveLastQueen(AddQueen(b, b.numberOfQueens * n + file, n), n) == b
  {
    PlaceKeepsInv(b, file, n);
    AddQueenAt(b, b.numberOfQueens, file, n);
    var b'' := RemoveLastQueen(Place(b, b.numberOfQueens, file, n), n);
    assert b''.locations == b.locations;
    assert b''.occupiedRank == b.occupiedRank;
    assert b''.occupiedFile == b.occupiedFile;
    assert b''.occupiedDiag1 == b.occupiedDiag1;
    assert b''.occupiedDiag2 == b.occupiedDiag2;
  }
}
