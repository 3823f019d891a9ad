/**
 * The three clients of the board in N-Queens_Solver.c: is_legal_position,
 * which replays a placement through add_queen, and the depth-first
 * searches find_first_solution and count_solutions.
 *
 * Both searches keep the C control flow: one pass of the `while (1)` body
 * is `SearchStep`, whose `for` over the files of the next rank is
 * `TryFiles`; `goto start` ends the pass early, and running out of files
 * backtracks with remove_last_queen. `Advance` states each pass in the
 * terms of `SearchSpec`: the count of solutions ahead drops by the solution
 * just completed, if any, and the potential of the search point drops, so
 * the loop ends.
 */
module Solver {
  import opened Placement
  import opened BoardModel
  import opened SearchSpec
  import opened Boards

  /**
   * is_legal_position: places the first n entries of a 1-based placement
   * array, rank by rank, on an empty board; legal exactly when every
   * add_queen succeeds, i.e. no two of the queens attack each other.
   */
  method IsLegalPosition(locations: array<int>, n: int) returns (legal: bool)
    requires 1 <= n <= Capacity && n <= locations.Length
    requires forall r :: 0 <= r < n ==> 1 <= locations[r] <= n
    ensures legal == NonAttacking(Decode(locations[..], n))
  {
    var board := new Board();
    EmptyInv(n);
    var i := 0;
    while i < n
      invariant 0 <= i <= n
      invariant board.Valid(n)
      invariant board.numberOfQueens == i && Queens(board.State()) == Decode(locations[..], i)
    {
      var added := PlaceFrom(board, locations, i, n);
      if !added {
        return false;
      }
      i := i + 1;
    }
    return true;
  }

  /**
   * One round of the loop of is_legal_position: adds the queen of rank i
   * read from the placement array. When add_queen refuses it, the first
   * i + 1 entries already attack each other, hence the whole placement does.
   */
  method PlaceFrom(board: Board, locations: array<int>, i: int, n: int) returns (added: bool)
    requires 0 <= i < n <= locations.Length && 1 <= locations[i] <= n
    requires board.Valid(n) && board.numberOfQueens == i && Queens(board.State()) == Decode(locations[..], i)
    requires locations !in board.Repr()
    modifies board.Repr()
    ensures board.Valid(n)
    ensures added ==> board.numberOfQueens == i + 1 && Queens(board.State()) == Decode(locations[..], i + 1)
    ensures !added ==> !NonAttacking(Decode(locations[..], n))
  {
    ghost var q := Decode(locations[..], i);
    DecodeNext(locations[..], i);
    added := AddOnNextRank(board, locations[i] - 1, n, q);
    if !added && NonAttacking(Decode(locations[..], n)) {
      assert Decode(locations[..], n)[..i + 1] == Decode(locations[..], i + 1);
      PrefixNonAttacking(Decode(locations[..], n), i + 1);
    }
  }

  /**
   * find_first_solution: the board of the first solution in search order
   * (files compared rank by rank), or the empty board when the n-queens
   * problem has no solution.
   */
  method FindFirstSolution(n: int) returns (board: Board)
    requires 1 <= n <= Capacity
    ensures fresh(board.Repr()) && board.Valid(n)
    ensures board.numberOfQueens == n || board.numberOfQueens == 0
    ensures board.numberOfQueens == n ==> IsFirstSolution(Queens(board.State()), n)
    ensures board.numberOfQueens == 0 ==> Solutions(n) == {}
  {
    board := new Board();
    EmptyInv(n);
    ghost var q: seq<int> := [];
    var lastQueenFile := 0;
    while true
      invariant board.Valid(n)
      invariant Queens(board.State()) == q && board.numberOfQueens == |q| < n
      invariant 0 <= lastQueenFile <= n && (q == [] ==> lastQueenFile < n)
      invariant Ahead(q, lastQueenFile, n) == Ahead([], 0, n)
      decreases Potential(q, lastQueenFile, n)
    {
      var added, file, finished;
      added, file, finished, q := Advance(board, n, q, lastQueenFile);
      if added {
        if board.numberOfQueens == n {
          QueensInRange(board.State(), n);
          FirstFound(q, n);
          return;
        }
        lastQueenFile := 0;
      } else {
        lastQueenFile := file;
        if finished {
          AheadInit(n);
          return;
        }
      }
    }
  }

  /** count_solutions: the number of solutions of the n-queens problem. */
  method CountSolutions(n: int) returns (count: int)
    requires 1 <= n <= Capacity
    ensures count == |Solutions(n)|
  {
    var board := new Board();
    EmptyInv(n);
    ghost var q: seq<int> := [];
    var lastQueenFile := 0;
    count := 0;
    while true
      invariant board.Valid(n)
      invariant Queens(board.State()) == q && board.numberOfQueens == |q|
      invariant 0 <= lastQueenFile <= n && (q == [] ==> lastQueenFile < n)
      invariant count + Ahead(q, lastQueenFile, n) == Ahead([], 0, n)
      decreases Potential(q, lastQueenFile, n)
    {
      var added, file, finished;
      added, file, finished, q := Advance(board, n, q, lastQueenFile);
      if added {
        if board.numberOfQueens == n {
          count := count + 1;
        }
        lastQueenFile := 0;
      } else {
        lastQueenFile := file;
        if finished {
          AheadInit(n);
          return;
        }
      }
    }
  }

  /**
   * One pass of the search loop, seen from `SearchSpec`: the search point
   * (q, lastQueenFile) moves to (next, 0) after placing a queen on `file`,
   * or to (next, file) after backtracking. The number of solutions ahead
   * falls by one exactly when the placed queen completes the board, and the
   * potential falls on every pass.
   */
  method Advance(board: Board, n: int, ghost q: seq<int>, lastQueenFile: int)
    returns (added: bool, file: int, finished: bool, ghost next: seq<int>)
    requires board.Valid(n) && Queens(board.State()) == q && board.numberOfQueens == |q| <= n
    requires 0 <= lastQueenFile <= n && (q == [] ==> lastQueenFile < n)
    modifies board.Repr()
    ensures board.Valid(n) && Queens(board.State()) == next && board.numberOfQueens == |next|
    ensures added ==> next == q + [file] && 0 <= file < n
    ensures !added ==> q != [] && next == q[..|q| - 1] && file == q[|q| - 1] + 1 && 1 <= file <= n
    ensures finished <==> !added && next == [] && file == n
    ensures added ==> Ahead(q, lastQueenFile, n) == Ahead(next, 0, n) + (if |next| == n then 1 else 0)
    ensures added ==> Potential(next, 0, n) < Potential(q, lastQueenFile, n)
    ensures !added ==> Ahead(q, lastQueenFile, n) == Ahead(next, file, n)
    ensures !added ==> Potential(next, file, n) < Potential(q, lastQueenFile, n)
  {
    added, file, finished := SearchStep(board, n, q, lastQueenFile);
    if added {
      StepForward(q, lastQueenFile, file, n);
      next := q + [file];
    } else {
      StepBack(q, lastQueenFile, n);
      next := q[..|q| - 1];
      QueensInRange(board.State(), n);
    }
  }

  /**
   * One pass through the body of the `while (1)` loop of both searches, up
   * to its exits: the `for` loop over the files of the next rank, and when
   * that runs off the end, the backtracking step. With `added` a queen was
   * placed on `file`, the first file from `lastQueenFile` on whose queen is
   * not attacked (the code then jumps back with `goto start`). Without it
   * every file from `lastQueenFile` on is attacked, the last queen was
   * removed and `file` is the new `last_queen_file`; `finished` is the
   * test that ends both searches after backtracking: rank 0 is empty and its
   * queen was on the last file.
   */
  method SearchStep(board: Board, n: int, ghost q: seq<int>, lastQueenFile: int) returns (added: bool, file: int, finished: bool)
    requires board.Valid(n) && Queens(board.State()) == q && board.numberOfQueens == |q| <= n
    requires 0 <= lastQueenFile <= n && (q == [] ==> lastQueenFile < n)
    modifies board.Repr()
    ensures board.Valid(n)
    ensures added ==> |q| < n && lastQueenFile <= file < n
    ensures added ==> forall f :: lastQueenFile <= f < file ==> !Fits(q, f)
    ensures added ==> Fits(q, file)
    ensures added ==> Queens(board.State()) == q + [file] && board.numberOfQueens == |q| + 1
    ensures !added ==> forall f :: lastQueenFile <= f < n ==> !Fits(q, f)
    ensures !added ==> q != [] && file == q[|q| - 1] + 1
    ensures !added ==> Queens(board.State()) == q[..|q| - 1] && board.numberOfQueens == |q| - 1
    ensures finished <==> !added && |q| == 1 && file == n
  {
    added, file := TryFiles(board, n, q, lastQueenFile);
    forall f | lastQueenFile <= f <= file && f < n
      ensures NonAttacking(q + [f]) <==> Fits(q, f)
    {
      FitsIff(q, f);
    }
    finished := false;
    if !added {
      file := Backtrack(board, n, q);
      finished := board.locations[0] == 0 && file == n;
    }
  }

  /**
   * The `for` loop both searches run on the next rank: tries files start,
   * start + 1, ... with add_queen and stops at the first one accepted
   * (`goto start`), or runs off the end at file n. The files it skips are
   * exactly those whose queen would be attacked, so no pending solution is
   * passed, and on an empty board the first file is always accepted.
   */
  method TryFiles(board: Board, n: int, ghost q: seq<int>, start: int) returns (added: bool, file: int)
    requires board.Valid(n) && Queens(board.State()) == q && board.numberOfQueens == |q| <= n
    requires 0 <= start <= n
    modifies board.Repr()
    ensures board.Valid(n)
    ensures start <= file <= n && (added <==> file < n)
    ensures forall f :: start <= f < file ==> !NonAttacking(q + [f])
    ensures added ==> NonAttacking(q + [file]) && |q| < n
    ensures added ==> Queens(board.State()) == q + [file] && board.numberOfQueens == |q| + 1
    ensures !added ==> Queens(board.State()) == q && board.numberOfQueens == |q|
    ensures q == [] && start < n ==> added && file == start
  {
    file := start;
    while file < n
      invariant start <= file <= n
      invariant board.Valid(n) && Queens(board.State()) == q && board.numberOfQueens == |q|
      invariant forall f :: start <= f < file ==> !NonAttacking(q + [f])
      invariant q == [] ==> file == start
      decreases n - file
    {
      added := AddOnNextRank(board, file, n, q);
      if added {
        return;
      }
      file := file + 1;
    }
    return false, file;
  }

  /**
   * The add_queen call all three clients make (N-Queens_Solver.c:97, 130
   * and 155): the square of file `file` on the rank after the placed queens.
   * It succeeds exactly when that queen attacks none of the placed queens,
   * and then appends it to the placement.
   */
  method AddOnNextRank(board: Board, file: int, n: int, ghost q: seq<int>) returns (added: bool)
    requires board.Valid(n) && Queens(board.State()) == q && board.numberOfQueens == |q|
    requires 0 <= file < n
    modifies board.Repr()
    ensures board.Valid(n)
    ensures added == NonAttacking(q + [file])
    ensures added ==> |q| < n && Queens(board.State()) == q + [file] && board.numberOfQueens == |q| + 1
    ensures !added ==> Queens(board.State()) == q && board.numberOfQueens == |q|
  {
    ghost var b := board.State();
    var square := (board.numberOfQueens * n) + file;
    FreeIffNonAttacking(b, file, n);
    AddQueenAt(b, board.numberOfQueens, file, n);
    added := board.AddQueen(square, n);
    if added {
      PlaceKeepsInv(b, file, n);
    }
  }

  /**
   * The backtracking step of both searches (N-Queens_Solver.c:136-137 and
   * 161-162): reads the location of the queen on the highest occupied rank,
   * then removes that queen with remove_last_queen. It returns the 1-based
   * file of the last queen and drops that queen from the placement; rank 0
   * is then empty exactly when it was the only queen.
   */
  method Backtrack(board: Board, n: int, ghost q: seq<int>) returns (lastQueenFile: int)
    requires board.Valid(n) && Queens(board.State()) == q && board.numberOfQueens == |q| > 0
    modifies board.Repr()
    ensures board.Valid(n)
    ensures lastQueenFile == q[|q| - 1] + 1
    ensures Queens(board.State()) == q[..|q| - 1] && board.numberOfQueens == |q| - 1
    ensures board.locations[0] == 0 <==> |q| == 1
  {
    ghost var b := board.State();
    lastQueenFile := board.locations[board.numberOfQueens - 1];
    board.RemoveLastQueen(n);
    PopKeepsInv(b, n);
  }
}
