/**
 * Queen placements as values.
 *
 * A placement `q` lists, for the ranks 0 .. |q|-1 in order, the 0-based file
 * of the queen on that rank. The board keeps the same information 1-based
 * (0 meaning "no queen"); `Decode` converts. The four occupancy sets of the
 * board are the rank, file, diag1 (rank + file) and diag2
 * (rank + (n - 1 - file)) indices of the placed queens.
 */
module Placement {

  /** Every file of `q` lies on an n-wide board. */
  ghost predicate InRange(q: seq<int>, n: int)
  {
    forall r :: 0 <= r < |q| ==> 0 <= q[r] < n
  }

  /** The queens on ranks i and j share no file, rank+file diagonal or rank-file diagonal. */
  ghost predicate Apart(q: seq<int>, i: int, j: int)
    requires 0 <= i < |q| && 0 <= j < |q|
  {
    q[i] != q[j] && i + q[i] != j + q[j] && i - q[i] != j - q[j]
  }

  /** No two queens attack each other. */
  ghost predicate NonAttacking(q: seq<int>)
  {
    forall i, j :: 0 <= i < j < |q| ==> Apart(q, i, j)
  }

  /** The 0-based placement held by the first `k` entries of a 1-based locations array. */
  ghost function Decode(locations: seq<int>, k: nat): (q: seq<int>)
    requires k <= |locations|
  {
    seq(k, r requires 0 <= r < k => locations[r] - 1)
  }

  /** The ranks 0 .. k-1. */
  ghost function Ranks(k: int): (s: set<int>)
    ensures forall r :: r in s <==> 0 <= r < k
    decreases k
  {
    if k <= 0 then {} else Ranks(k - 1) + {k - 1}
  }

  ghost function Files(q: seq<int>): set<int>
  {
    set r | 0 <= r < |q| :: q[r]
  }

  ghost function Diag1s(q: seq<int>): set<int>
  {
    set r | 0 <= r < |q| :: r + q[r]
  }

  ghost function Diag2s(q: seq<int>, n: int): set<int>
  {
    set r | 0 <= r < |q| :: r + (n - 1 - q[r])
  }

  /** None of the queens on the first k ranks of q attacks a queen on file f of rank |q|. */
  ghost predicate Unattacked(q: seq<int>, k: nat, f: int)
    requires k <= |q|
    decreases k
  {
    k == 0 ||
    (Unattacked(q, k - 1, f) &&
     q[k - 1] != f && k - 1 + q[k - 1] != |q| + f && k - 1 - q[k - 1] != |q| - f)
  }

  /** A queen on file f of the next rank |q| is attacked by none of the queens of q. */
  ghost predicate Fits(q: seq<int>, f: int)
  {
    Unattacked(q, |q|, f)
  }

  /** The square (rank, file) is free in all four occupancy sets of placement `q`. */
  ghost predicate Vacant(rank: int, file: int, q: seq<int>, n: int)
  {
    rank !in Ranks(|q|) && file !in Files(q) && rank + file !in Diag1s(q) && rank + (n - 1 - file) !in Diag2s(q, n)
  }

  /** Decoding one more entry appends its 0-based file. */
  lemma DecodeNext(locations: seq<int>, k: nat)
    requires k < |locations|
    ensures Decode(locations, k + 1) == Decode(locations, k) + [locations[k] - 1]
  {
  }

  /** The bitset holds exactly the members of `s` below its length. */
  ghost predicate Marks(bits: seq<bool>, s: set<int>)
  {
    forall i :: 0 <= i < |bits| ==> bits[i] == (i in s)
  }

  // ---------------------------------------------------------------------------
  // Lemmas

  /** Pushing a queen adds exactly its four indices to the occupancy sets. */
  lemma {:induction false} OccupancyPush(q: seq<int>, f: int, n: int)
    ensures Ranks(|q| + 1) == Ranks(|q|) + {|q|}
    ensures Files(q + [f]) == Files(q) + {f}
    ensures Diag1s(q + [f]) == Diag1s(q) + {|q| + f}
    ensures Diag2s(q + [f], n) == Diag2s(q, n) + {|q| + (n - 1 - f)}
  {
    var q' := q + [f];
    forall x | x in Files(q') ensures x in Files(q) + {f} {
      var r :| 0 <= r < |q'| && q'[r] == x;
      if r < |q| { assert q[r] == x; }
    }
    forall x | x in Files(q) ensures x in Files(q') {
      var r :| 0 <= r < |q| && q[r] == x;
      assert q'[r] == x;
    }
    assert q'[|q|] == f;
    forall x | x in Diag1s(q') ensures x in Diag1s(q) + {|q| + f} {
      var r :| 0 <= r < |q'| && r + q'[r] == x;
      if r < |q| { assert r + q[r] == x; }
    }
    forall x | x in Diag1s(q) ensures x in Diag1s(q') {
      var r :| 0 <= r < |q| && r + q[r] == x;
      assert r + q'[r] == x;
    }
    forall x | x in Diag2s(q', n) ensures x in Diag2s(q, n) + {|q| + (n - 1 - f)} {
      var r :| 0 <= r < |q'| && r + (n - 1 - q'[r]) == x;
      if r < |q| { assert r + (n - 1 - q[r]) == x; }
    }
    forall x | x in Diag2s(q, n) ensures x in Diag2s(q', n) {
      var r :| 0 <= r < |q| && r + (n - 1 - q[r]) == x;
      assert r + (n - 1 - q'[r]) == x;
    }
  }

  /** A queen on the next rank may join a non-attacking placement iff its square is vacant. */
  lemma ExtendNonAttacking(q: seq<int>, f: int, n: int)
    requires NonAttacking(q)
    ensures NonAttacking(q + [f]) <==> Vacant(|q|, f, q, n)
  {
    if NonAttacking(q + [f]) {
      AttackedSquareBlocks(q, f, n);
    } else if Vacant(|q|, f, q, n) {
      VacantSquareExtends(q, f, n);
    }
  }

  lemma AttackedSquareBlocks(q: seq<int>, f: int, n: int)
    requires NonAttacking(q + [f])
    ensures Vacant(|q|, f, q, n)
  {
    var q' := q + [f];
    assert q'[|q|] == f;
    forall r | 0 <= r < |q|
      ensures q[r] != f && r + q[r] != |q| + f && r + (n - 1 - q[r]) != |q| + (n - 1 - f)
    {
      assert Apart(q', r, |q|) && q'[r] == q[r];
    }
  }

  lemma VacantSquareExtends(q: seq<int>, f: int, n: int)
    requires NonAttacking(q) && Vacant(|q|, f, q, n)
    ensures NonAttacking(q + [f])
  {
    var q' := q + [f];
    forall i, j | 0 <= i < j < |q'|
      ensures Apart(q', i, j)
    {
      assert q'[i] == q[i];
      if j < |q| {
        assert q'[j] == q[j] && Apart(q, i, j);
      } else {
        assert q'[j] == f;
        assert q[i] in Files(q) && i + q[i] in Diag1s(q) && i + (n - 1 - q[i]) in Diag2s(q, n);
      }
    }
  }

  lemma {:induction false} UnattackedApart(q: seq<int>, k: nat, f: int)
    requires k <= |q|
    ensures Unattacked(q, k, f) <==> forall r :: 0 <= r < k ==> Apart(q + [f], r, |q|)
    decreases k
  {
    if k > 0 {
      var x := q + [f];
      UnattackedApart(q, k - 1, f);
      assert x[k - 1] == q[k - 1] && x[|q|] == f;
      assert Apart(x, k - 1, |q|) <==>
        q[k - 1] != f && k - 1 + q[k - 1] != |q| + f && k - 1 - q[k - 1] != |q| - f;
      assert (forall r :: 0 <= r < k ==> Apart(x, r, |q|)) <==>
        (forall r :: 0 <= r < k - 1 ==> Apart(x, r, |q|)) && Apart(x, k - 1, |q|);
    }
  }

  /** A non-attacking placement stays non-attacking with a queen on file f of the next rank iff f fits. */
  lemma FitsIff(q: seq<int>, f: int)
    requires NonAttacking(q)
    ensures NonAttacking(q + [f]) <==> Fits(q, f)
  {
    var x := q + [f];
    UnattackedApart(q, |q|, f);
    if Fits(q, f) {
      forall i, j | 0 <= i < j < |x|
        ensures Apart(x, i, j)
      {
        if j < |q| {
          assert x[i] == q[i] && x[j] == q[j] && Apart(q, i, j);
        }
      }
    }
  }

  /** Every prefix of a non-attacking placement is non-attacking. */
  lemma PrefixNonAttacking(q: seq<int>, k: nat)
    requires NonAttacking(q) && k <= |q|
    ensures NonAttacking(q[..k])
  {
    forall i, j | 0 <= i < j < k
      ensures Apart(q[..k], i, j)
    {
      assert q[..k][i] == q[i] && q[..k][j] == q[j] && Apart(q, i, j);
    }
  }

  /** There are k ranks below k. */
  lemma {:induction false} RanksCardinality(k: nat)
    ensures |Ranks(k)| == k
  {
    if k > 0 {
      RanksCardinality(k - 1);
    }
  }

  /** Distinct files give as many occupied files as queens. */
  lemma {:induction false} FilesCardinality(q: seq<int>)
    requires NonAttacking(q)
    ensures |Files(q)| == |q|
  {
    if q != [] {
      var p, f := q[..|q| - 1], q[|q| - 1];
      assert q == p + [f];
      PrefixNonAttacking(q, |q| - 1);
      FilesCardinality(p);
      OccupancyPush(p, f, 0);
      assert f !in Files(p) by {
        forall r | 0 <= r < |p| ensures p[r] != f {
          assert q[r] == p[r] && Apart(q, r, |p|);
        }
      }
    }
  }

  /** Pigeonhole: a complete non-attacking placement occupies every file of the board. */
  lemma FullPlacementFiles(q: seq<int>, n: nat)
    requires |q| == n && InRange(q, n) && NonAttacking(q)
    ensures Files(q) == Ranks(n)
  {
    FilesCardinality(q);
    RanksCardinality(n);
    assert Files(q) <= Ranks(n);
    assert |Ranks(n) - Files(q)| == 0;
  }
}
