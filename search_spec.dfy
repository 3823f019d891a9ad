/**
 * What find_first_solution and count_solutions compute, stated on
 * placements: the set of solutions of the n-queens problem, the
 * lexicographic order in which the depth-first search meets them, the set
 * of solutions the search has not yet passed at a given point, and the
 * number of solutions the search itself goes on to meet from that point.
 *
 * A point of the search is a placement `q` of the lower ranks and the next
 * file `start` to try on rank |q|. The solutions still ahead of it
 * (`Pending`) are those that extend `q` with a file of at least `start` on
 * rank |q|, together with those still ahead of the parent point, which
 * resumes at the file after q's last queen. `Ahead` follows the steps of
 * the search instead; `AheadPending` proves the two agree.
 */
module SearchSpec {
  import opened Placement

  /** All placements of `len` queens on files 0 .. n-1. */
  ghost function Placements(n: int, len: nat): set<seq<int>>
  {
    if len == 0 then {[]}
    else set q, f | q in Placements(n, len - 1) && 0 <= f < n :: q + [f]
  }

  /** The solutions of the n-queens problem: n non-attacking queens, one per rank. */
  ghost function Solutions(n: nat): set<seq<int>>
  {
    set q | q in Placements(n, n) && NonAttacking(q)
  }

  /** `a` comes before `b` in the order of the search: lexicographically, by file. */
  ghost predicate LexLess(a: seq<int>, b: seq<int>)
  {
    exists k :: 0 <= k < |a| && k < |b| && a[..k] == b[..k] && a[k] < b[k]
  }

  /** `q` is the first solution in search order. */
  ghost predicate IsFirstSolution(q: seq<int>, n: nat)
  {
    q in Solutions(n) && forall s :: s in Solutions(n) && s != q ==> LexLess(q, s)
  }

  /** Solutions extending `q` whose queen on rank |q| stands on file `start` or later. */
  ghost function Later(q: seq<int>, start: int, n: nat): set<seq<int>>
  {
    set s | s in Solutions(n) && |q| < |s| && s[..|q|] == q && s[|q|] >= start
  }

  /** The solutions the search has not yet passed at point (q, start). */
  ghost function Pending(q: seq<int>, start: int, n: nat): set<seq<int>>
    decreases |q|
  {
    Later(q, start, n) +
    if q == [] then {} else Pending(q[..|q| - 1], q[|q| - 1] + 1, n)
  }

  /**
   * Search steps left from trying file f on rank d: one per file tried, plus
   * the whole subtree below each file, plus one for the exhausted rank.
   */
  ghost function Steps(n: nat, d: nat, f: int): nat
    requires d <= n
    decreases n - d, n - f
  {
    if f >= n then 1
    else 1 + (if d < n then Steps(n, d + 1, 0) else 0) + Steps(n, d, f + 1)
  }

  /** Steps left to the end of the search from point (q, start). */
  ghost function Potential(q: seq<int>, start: int, n: nat): nat
    requires |q| <= n
    decreases |q|
  {
    Steps(n, |q|, start) +
    if q == [] then 0 else Potential(q[..|q| - 1], q[|q| - 1] + 1, n)
  }

  /**
   * The number of solutions the search meets from point (q, start) to its
   * end, step by step: on an exhausted rank (no file left, or no rank left)
   * it resumes at the parent point after q's last queen; a file whose queen
   * would be attacked is skipped; a queen that fits is placed, counted when
   * it completes the board, and the search goes on at file 0 of the next rank.
   */
  ghost function Ahead(q: seq<int>, start: int, n: nat): nat
    requires |q| <= n
    decreases Potential(q, start, n)
  {
    if start >= n || |q| == n then
      if q == [] then 0 else Ahead(q[..|q| - 1], q[|q| - 1] + 1, n)
    else if !Fits(q, start) then
      PotentialSkip(q, start, n);
      Ahead(q, start + 1, n)
    else
      PotentialDescend(q, start, n);
      (if |q| + 1 == n then 1 else 0) + Ahead(q + [start], 0, n)
  }

  // ---------------------------------------------------------------------------
  // The solution set

  lemma {:induction false} PlacementsMembers(n: int, len: nat)
    ensures forall q :: q in Placements(n, len) <==> |q| == len && InRange(q, n)
  {
    if len > 0 {
      PlacementsMembers(n, len - 1);
      forall q | |q| == len && InRange(q, n)
        ensures q in Placements(n, len)
      {
        assert q == q[..len - 1] + [q[len - 1]];
      }
    }
  }

  /** A solution is exactly a complete, in-range, non-attacking placement. */
  lemma SolutionsMembers(n: nat)
    ensures forall q :: q in Solutions(n) <==> |q| == n && InRange(q, n) && NonAttacking(q)
  {
    PlacementsMembers(n, n);
  }

  /** The 4 x 4 board has a solution: queens on files 1, 3, 0, 2 of ranks 0 .. 3. */
  lemma FourQueensSolvable()
    ensures [1, 3, 0, 2] in Solutions(4)
  {
    var q := [1, 3, 0, 2];
    SolutionsMembers(4);
    forall i, j | 0 <= i < j < 4 ensures Apart(q, i, j) {
    }
  }

  /** On the 2 x 2 board the two queens always attack each other. */
  lemma TwoQueensAttack(q: seq<int>)
    requires |q| == 2 && InRange(q, 2)
    ensures !NonAttacking(q)
  {
    assert !Apart(q, 0, 1);
  }

  /** The 2 x 2 board has no solution. */
  lemma TwoQueensUnsolvable()
    ensures Solutions(2) == {}
  {
    SolutionsMembers(2);
    forall q | |q| == 2 && InRange(q, 2) ensures !NonAttacking(q) {
      TwoQueensAttack(q);
    }
  }

  /** On the 3 x 3 board some two of the three queens attack each other. */
  lemma ThreeQueensAttack(q: seq<int>)
    requires |q| == 3 && InRange(q, 3)
    ensures !NonAttacking(q)
  {
    assert !(Apart(q, 0, 1) && Apart(q, 0, 2) && Apart(q, 1, 2));
  }

  /** The 3 x 3 board has no solution. */
  lemma ThreeQueensUnsolvable()
    ensures Solutions(3) == {}
  {
    SolutionsMembers(3);
    forall q | |q| == 3 && InRange(q, 3) ensures !NonAttacking(q) {
      ThreeQueensAttack(q);
    }
  }

  /** The search order is irreflexive. */
  lemma LexLessIrreflexive(a: seq<int>)
    ensures !LexLess(a, a)
  {
  }

  /** The search order is total on distinct placements of equal length. */
  lemma LexLessTotal(a: seq<int>, b: seq<int>)
    requires |a| == |b| && a != b
    ensures LexLess(a, b) || LexLess(b, a)
  {
    var k :| 0 <= k < |a| && a[k] != b[k] && forall i :: 0 <= i < k ==> a[i] == b[i] by {
      FirstDifference(a, b, |a|);
    }
    assert a[..k] == b[..k];
  }

  lemma {:induction false} FirstDifference(a: seq<int>, b: seq<int>, m: nat)
    requires |a| == |b| && m <= |a| && a[..m] != b[..m]
    ensures exists k :: 0 <= k < m && a[k] != b[k] && forall i :: 0 <= i < k ==> a[i] == b[i]
  {
    if a[..m - 1] == b[..m - 1] {
      assert forall i :: 0 <= i < m - 1 ==> a[i] == a[..m - 1][i] == b[..m - 1][i] == b[i];
      assert a[m - 1] != b[m - 1] by {
        assert a[..m] == a[..m - 1] + [a[m - 1]] && b[..m] == b[..m - 1] + [b[m - 1]];
      }
    } else {
      FirstDifference(a, b, m - 1);
    }
  }

  /** The search order is asymmetric. */
  lemma LexLessAsymmetric(a: seq<int>, b: seq<int>)
    ensures !(LexLess(a, b) && LexLess(b, a))
  {
    if LexLess(a, b) && LexLess(b, a) {
      var k :| 0 <= k < |a| && k < |b| && a[..k] == b[..k] && a[k] < b[k];
      var j :| 0 <= j < |b| && j < |a| && b[..j] == a[..j] && b[j] < a[j];
    }
  }

  /** The first solution in search order is unique. */
  lemma FirstSolutionUnique(q: seq<int>, r: seq<int>, n: nat)
    requires IsFirstSolution(q, n) && IsFirstSolution(r, n)
    ensures q == r
  {
    if q != r {
      assert LexLess(q, r) && LexLess(r, q);
      LexLessAsymmetric(q, r);
    }
  }

  // ---------------------------------------------------------------------------
  // The pending set along the search

  /** Before the first step every solution is pending. */
  lemma PendingInit(n: nat)
    requires n >= 1
    ensures Pending([], 0, n) == Solutions(n)
  {
    SolutionsMembers(n);
  }
  /** All pending solutions are solutions. */
  lemma {:induction false} PendingSolutions(q: seq<int>, start: int, n: nat)
    ensures Pending(q, start, n) <= Solutions(n)
    decreases |q|
  {
    if q != [] {
      PendingSolutions(q[..|q| - 1], q[|q| - 1] + 1, n);
    }
  }

  /** An exhausted rank has no solution ahead: what is pending is what the parent point has pending. */
  lemma PendingExhausted(q: seq<int>, start: int, n: nat)
    requires InRange(q, n) && (start >= n || |q| >= n)
    ensures Pending(q, start, n) == if q == [] then {} else Pending(q[..|q| - 1], q[|q| - 1] + 1, n)
  {
    SolutionsMembers(n);
    assert Later(q, start, n) == {};
  }

  /** Skipping a file whose queen would be attacked passes no solution. */
  lemma PendingSkip(q: seq<int>, f: int, n: nat)
    requires !NonAttacking(q + [f])
    ensures Pending(q, f, n) == Pending(q, f + 1, n)
  {
    SolutionsMembers(n);
    forall s | s in Later(q, f, n) ensures s[|q|] != f {
      if s[|q|] == f {
        assert s[..|q| + 1] == q + [f];
        PrefixNonAttacking(s, |q| + 1);
      }
    }
  }

  /**
   * Placing a non-attacking queen on file f of rank |q| moves the search to
   * the next rank; when that completes the board, the placement is a
   * solution, passed at this step and nowhere else.
   */
  lemma PendingDescend(q: seq<int>, f: int, n: nat)
    requires |q| < n && 0 <= f < n && InRange(q, n) && NonAttacking(q + [f])
    ensures Pending(q, f, n) == Pending(q + [f], 0, n) + (if |q| + 1 == n then {q + [f]} else {})
    ensures q + [f] !in Pending(q + [f], 0, n)
  {
    var x := q + [f];
    assert x[..|q|] == q;
    assert Pending(x, 0, n) == Later(x, 0, n) + Pending(q, f + 1, n);
    LaterSplit(q, f, n);
    PendingAfterFile(q, f + 1, n, x);
    LexLessIrreflexive(x);
  }

  /** The same step counted: one solution fewer is pending exactly when the queen completes the board. */
  lemma PendingDescendSize(q: seq<int>, f: int, n: nat)
    requires |q| < n && 0 <= f < n && InRange(q, n) && NonAttacking(q + [f])
    ensures |Pending(q, f, n)| == |Pending(q + [f], 0, n)| + (if |q| + 1 == n then 1 else 0)
  {
    PendingDescend(q, f, n);
    if |q| + 1 == n {
      CountStep(Pending(q + [f], 0, n), q + [f]);
    }
  }

  /** Adding a new member raises the cardinality by one. */
  lemma CountStep<T>(a: set<T>, x: T)
    requires x !in a
    ensures |a + {x}| == |a| + 1
  {
    DisjointUnionSize(a, {x});
  }

  lemma DisjointUnionSize<T>(a: set<T>, b: set<T>)
    requires a !! b
    ensures |a + b| == |a| + |b|
  {
    assert a * b == {};
  }

  lemma SubsetSameSize<T>(a: set<T>, b: set<T>)
    requires a <= b && |a| == |b|
    ensures a == b
  {
    assert b == a + (b - a);
    DisjointUnionSize(a, b - a);
  }

  /**
   * The solutions extending q from file f on are those from file f + 1 on,
   * those extending q + [f] further, and q + [f] itself when that is one.
   */
  lemma LaterSplit(q: seq<int>, f: int, n: nat)
    requires |q| < n && 0 <= f < n && InRange(q, n)
    ensures Later(q, f, n) ==
      Later(q, f + 1, n) + Later(q + [f], 0, n) + (if |q| + 1 == n && NonAttacking(q + [f]) then {q + [f]} else {})
  {
    var x := q + [f];
    assert x[..|q|] == q;
    SolutionsMembers(n);
    forall s | s in Later(q, f, n) && s[|q|] == f
      ensures s in Later(x, 0, n) || (|q| + 1 == n && s == x)
    {
      assert s[..|q| + 1] == x;
      if |q| + 1 == n {
        assert s == x;
      }
    }
    forall s | s in Later(x, 0, n) ensures s in Later(q, f, n) && s[|q|] == f {
      assert s[..|q|] == s[..|q| + 1][..|q|];
    }
    if |q| + 1 == n && NonAttacking(x) {
      assert InRange(x, n);
      assert x in Later(q, f, n);
    }
  }
  /**
   * Every solution pending at (q, start) comes after any placement that
   * extends q with a file below start.
   */
  lemma {:induction false} PendingAfterFile(q: seq<int>, start: int, n: nat, x: seq<int>)
    requires |q| < |x| && x[..|q|] == q && x[|q|] < start
    ensures forall s :: s in Pending(q, start, n) ==> LexLess(x, s)
    decreases |q|
  {
    forall s | s in Later(q, start, n) ensures LexLess(x, s) {
      assert x[..|q|] == s[..|q|];
    }
    if q != [] {
      var p := q[..|q| - 1];
      assert x[..|p|] == p;
      PendingAfterFile(p, q[|q| - 1] + 1, n, x);
    }
  }
  /** A complete placement found at (q, f) comes before every other pending solution. */
  lemma PendingFirst(q: seq<int>, f: int, n: nat)
    requires |q| + 1 == n
    ensures forall s :: s in Pending(q, f, n) ==> s == q + [f] || LexLess(q + [f], s)
  {
    var x := q + [f];
    assert x[..|q|] == q;
    SolutionsMembers(n);
    forall s | s in Later(q, f, n) ensures s == x || LexLess(x, s) {
      if s[|q|] == f {
        assert s == s[..|q|] + [s[|q|]];
      } else {
        assert x[..|q|] == s[..|q|];
      }
    }
    if q != [] {
      var p := q[..|q| - 1];
      assert x[..|p|] == p;
      PendingAfterFile(p, q[|q| - 1] + 1, n, x);
    }
  }
  // ---------------------------------------------------------------------------
  // The count along the search

  /**
   * The search counts exactly the solutions pending: `Ahead` and `Pending`
   * agree at every point whose placement is non-attacking and in range.
   */
  lemma {:induction false} AheadPending(q: seq<int>, start: int, n: nat)
    requires |q| <= n && InRange(q, n) && NonAttacking(q) && 0 <= start
    ensures Ahead(q, start, n) == |Pending(q, start, n)|
    decreases Potential(q, start, n)
  {
    if start >= n || |q| == n {
      if q != [] {
        ExhaustedSize(q, start, n);
        AheadPending(q[..|q| - 1], q[|q| - 1] + 1, n);
        assert Ahead(q, start, n) == Ahead(q[..|q| - 1], q[|q| - 1] + 1, n);
      } else {
        PendingExhausted(q, start, n);
      }
    } else if !Fits(q, start) {
      SkipSize(q, start, n);
      PotentialSkip(q, start, n);
      AheadPending(q, start + 1, n);
      assert Ahead(q, start, n) == Ahead(q, start + 1, n);
    } else {
      DescendSize(q, start, n);
      PotentialDescend(q, start, n);
      AheadPending(q + [start], 0, n);
      assert Ahead(q, start, n) == Ahead(q + [start], 0, n) + (if |q| + 1 == n then 1 else 0);
    }
  }

  /** The exhausted case of `AheadPending`, counted, with what the parent point inherits. */
  lemma ExhaustedSize(q: seq<int>, start: int, n: nat)
    requires 0 < |q| <= n && InRange(q, n) && NonAttacking(q) && (start >= n || |q| == n)
    ensures |Pending(q, start, n)| == |Pending(q[..|q| - 1], q[|q| - 1] + 1, n)|
    ensures InRange(q[..|q| - 1], n) && NonAttacking(q[..|q| - 1])
  {
    PendingExhausted(q, start, n);
    PrefixNonAttacking(q, |q| - 1);
  }

  /** The skipping case of `AheadPending`, counted. */
  lemma SkipSize(q: seq<int>, f: int, n: nat)
    requires NonAttacking(q) && !Fits(q, f)
    ensures |Pending(q, f, n)| == |Pending(q, f + 1, n)|
  {
    FitsIff(q, f);
    PendingSkip(q, f, n);
  }

  /** The placing case of `AheadPending`, counted, with what the next rank inherits. */
  lemma DescendSize(q: seq<int>, f: int, n: nat)
    requires |q| < n && 0 <= f < n && InRange(q, n) && NonAttacking(q) && Fits(q, f)
    ensures |Pending(q, f, n)| == |Pending(q + [f], 0, n)| + (if |q| + 1 == n then 1 else 0)
    ensures InRange(q + [f], n) && NonAttacking(q + [f])
  {
    FitsIff(q, f);
    PendingDescendSize(q, f, n);
  }

  /** From the start the search meets every solution once. */
  lemma AheadInit(n: nat)
    requires n >= 1
    ensures Ahead([], 0, n) == |Solutions(n)|
  {
    AheadPending([], 0, n);
    PendingInit(n);
  }

  /** Skipping files whose queens would be attacked changes neither the count ahead nor raises the potential. */
  lemma {:induction false} AheadSkip(q: seq<int>, start: int, stop: int, n: nat)
    requires |q| <= n && start <= stop <= n
    requires forall g :: start <= g < stop ==> !Fits(q, g)
    ensures Ahead(q, start, n) == Ahead(q, stop, n)
    ensures Potential(q, stop, n) <= Potential(q, start, n)
    decreases stop - start
  {
    if start < stop {
      assert !Fits(q, start);
      PotentialSkip(q, start, n);
      AheadSkip(q, start + 1, stop, n);
    }
  }

  /**
   * A search step that places a queen: the files start .. f-1 of rank |q|
   * are all attacked and the queen goes on file f. The count ahead loses
   * exactly the solution the queen completes, if any, and the potential drops.
   */
  lemma StepForward(q: seq<int>, start: int, f: int, n: nat)
    requires |q| < n && 0 <= start <= f < n
    requires forall g :: start <= g < f ==> !Fits(q, g)
    requires Fits(q, f)
    ensures Ahead(q, start, n) == Ahead(q, f, n)
    ensures Ahead(q, f, n) == Ahead(q + [f], 0, n) + (if |q| + 1 == n then 1 else 0)
    ensures Potential(q + [f], 0, n) < Potential(q, start, n)
  {
    AheadSkip(q, start, f, n);
    PotentialDescend(q, f, n);
  }

  /**
   * A search step that backtracks: every file from start on is attacked, so
   * the search resumes on the previous rank after its last queen, with the
   * same count ahead and a lower potential.
   */
  lemma StepBack(q: seq<int>, start: int, n: nat)
    requires 0 < |q| <= n && 0 <= start <= n
    requires forall g :: start <= g < n ==> !Fits(q, g)
    ensures Ahead(q[..|q| - 1], q[|q| - 1] + 1, n) == Ahead(q, start, n)
    ensures Potential(q[..|q| - 1], q[|q| - 1] + 1, n) < Potential(q, start, n)
  {
    AheadSkip(q, start, n, n);
    PotentialBacktrack(q, n);
  }

  /**
   * A search that completes the board with placement s while one solution
   * fewer is ahead of it than at the start has found the first solution.
   */
  lemma FirstFound(s: seq<int>, n: nat)
    requires |s| == n >= 1 && InRange(s, n) && NonAttacking(s)
    requires Ahead(s, 0, n) + 1 == Ahead([], 0, n)
    ensures IsFirstSolution(s, n)
  {
    var p, f := s[..n - 1], s[n - 1];
    assert s == p + [f];
    PrefixNonAttacking(s, n - 1);
    assert InRange(p, n);
    FitsIff(p, f);
    FoundCount(p, f, n);
    PendingSolutions(p, f, n);
    SubsetSameSize(Pending(p, f, n), Solutions(n));
    SolutionsMembers(n);
    forall t | t in Solutions(n) && t != s ensures LexLess(s, t) {
      PendingFirst(p, f, n);
    }
  }

  /**
   * When the last queen of the first completed board goes on file f after
   * placement p, every solution is still pending at (p, f).
   */
  lemma FoundCount(p: seq<int>, f: int, n: nat)
    requires |p| + 1 == n && 0 <= f < n && InRange(p, n) && NonAttacking(p) && Fits(p, f)
    requires Ahead(p + [f], 0, n) + 1 == Ahead([], 0, n)
    ensures |Pending(p, f, n)| == |Solutions(n)|
  {
    assert Ahead(p, f, n) == Ahead(p + [f], 0, n) + 1;
    AheadPending(p, f, n);
    AheadInit(n);
  }

  // ---------------------------------------------------------------------------
  // Termination


  /** Every move of the search lowers the potential. */
  lemma PotentialSkip(q: seq<int>, f: int, n: nat)
    requires |q| <= n && f < n
    ensures Potential(q, f + 1, n) < Potential(q, f, n)
  {
  }

  lemma PotentialDescend(q: seq<int>, f: int, n: nat)
    requires |q| < n && f < n
    ensures Potential(q + [f], 0, n) < Potential(q, f, n)
  {
    assert (q + [f])[..|q|] == q;
  }

  lemma PotentialBacktrack(q: seq<int>, n: nat)
    requires 0 < |q| <= n
    ensures Potential(q[..|q| - 1], q[|q| - 1] + 1, n) < Potential(q, n, n)
  {
  }
}
