/**
 * The leader's partition plan: the 16384 request-queue partitions are cut
 * into contiguous ranges, one per active provisioner node, in the order of
 * the node identifiers (String.compareTo).  The first `16384 % n` nodes get
 * one partition more than the others.
 */
module Partitioning {

  const TOTAL_PARTITIONS: nat := 16384

  // ---------------------------------------------------------------------
  // The plan
  // ---------------------------------------------------------------------

  /** The number of partitions the i-th node (in sorted order) receives among n nodes. */
  function SizeOf(n: nat, i: nat): (size: nat)
    requires n > 0
    ensures TOTAL_PARTITIONS / n <= size <= TOTAL_PARTITIONS / n + 1
    ensures size == TOTAL_PARTITIONS / n + 1 <==> i < TOTAL_PARTITIONS % n
  {
    TOTAL_PARTITIONS / n + (if i < TOTAL_PARTITIONS % n then 1 else 0)
  }

  /** The first partition of the i-th node: each range starts right after the previous one ends. */
  function StartOf(n: nat, i: nat): nat
    requires n > 0
  {
    if i == 0 then 0 else StartOf(n, i - 1) + SizeOf(n, i - 1)
  }

  /** The last partition of the i-th node; one below its start when the range is empty. */
  function EndOf(n: nat, i: nat): int
    requires n > 0
  {
    StartOf(n, i) + SizeOf(n, i) - 1
  }

  function Min(a: nat, b: nat): nat {
    if a < b then a else b
  }

  lemma MulStep(i: nat, c: nat)
    ensures (i + 1) * c == i * c + c
  {
  }

  /** The start of a range in closed form: i whole chunks plus one extra for each earlier node that got one. */
  lemma {:induction false} StartOfClosedForm(n: nat, i: nat)
    requires n > 0
    ensures StartOf(n, i) == i * (TOTAL_PARTITIONS / n) + Min(i, TOTAL_PARTITIONS % n)
  {
    if i > 0 {
      StartOfClosedForm(n, i - 1);
      MulStep(i - 1, TOTAL_PARTITIONS / n);
    }
  }

  /** The n ranges together end exactly at the last partition. */
  lemma PlanCoversAll(n: nat)
    requires n > 0
    ensures StartOf(n, n) == TOTAL_PARTITIONS
    ensures EndOf(n, n - 1) == TOTAL_PARTITIONS - 1
  {
    StartOfClosedForm(n, n);
    assert n * (TOTAL_PARTITIONS / n) + TOTAL_PARTITIONS % n == TOTAL_PARTITIONS;
  }

  lemma {:induction false} StartOfMonotone(n: nat, i: nat, j: nat)
    requires n > 0 && i <= j
    ensures StartOf(n, i) <= StartOf(n, j)
    decreases j - i
  {
    if i < j {
      StartOfMonotone(n, i, j - 1);
    }
  }

  /** Ranges of different nodes never overlap: an earlier node's range ends before a later one's starts. */
  lemma RangesDisjoint(n: nat, i: nat, j: nat)
    requires n > 0 && i < j
    ensures EndOf(n, i) < StartOf(n, j)
  {
    StartOfMonotone(n, i + 1, j);
  }

  /** Every partition belongs to the range of some node. */
  lemma {:induction false} OwnerExists(n: nat, p: nat, from: nat) returns (owner: nat)
    requires n > 0 && from < n
    requires StartOf(n, from) <= p < TOTAL_PARTITIONS
    ensures from <= owner < n && StartOf(n, owner) <= p <= EndOf(n, owner)
    decreases n - from
  {
    if p <= EndOf(n, from) {
      owner := from;
    } else if from + 1 == n {
      PlanCoversAll(n);
      owner := from;
    } else {
      owner := OwnerExists(n, p, from + 1);
    }
  }

  /** Each partition has exactly one owner among the n nodes. */
  lemma UniqueOwner(n: nat, p: nat)
    requires n > 0 && p < TOTAL_PARTITIONS
    ensures exists i :: 0 <= i < n && StartOf(n, i) <= p <= EndOf(n, i)
    ensures forall i, j ::
              (0 <= i < n && 0 <= j < n && StartOf(n, i) <= p <= EndOf(n, i) && StartOf(n, j) <= p <= EndOf(n, j))
              ==> i == j
  {
    var owner := OwnerExists(n, p, 0);
    forall i, j | 0 <= i < n && 0 <= j < n && StartOf(n, i) <= p <= EndOf(n, i) && StartOf(n, j) <= p <= EndOf(n, j)
      ensures i == j
    {
      if i < j {
        RangesDisjoint(n, i, j);
      } else if j < i {
        RangesDisjoint(n, j, i);
      }
    }
  }

  /**
   * A node's range is non-empty (start <= end) exactly when the cluster has
   * at most 16384 nodes or the node is among the first 16384; the others
   * receive the empty range [start, start - 1].
   */
  lemma RangeNonEmpty(n: nat, i: nat)
    requires 0 < n && i < n
    ensures EndOf(n, i) >= StartOf(n, i) <==> n <= TOTAL_PARTITIONS || i < TOTAL_PARTITIONS
  {
    if n > TOTAL_PARTITIONS {
      assert TOTAL_PARTITIONS / n == 0;
      assert TOTAL_PARTITIONS % n == TOTAL_PARTITIONS;
    }
  }

  /** The plan only uses partition numbers below 16384. */
  lemma RangeWithinRing(n: nat, i: nat)
    requires 0 < n && i < n
    ensures 0 <= StartOf(n, i) && EndOf(n, i) < TOTAL_PARTITIONS
  {
    if i + 1 < n {
      RangesDisjoint(n, i, n - 1);
      StartOfMonotone(n, n - 1, n - 1);
    }
    PlanCoversAll(n);
    if i + 1 < n {
      assert StartOf(n, n - 1) <= EndOf(n, n - 1) + 1;
    }
  }

  // ---------------------------------------------------------------------
  // Ordering node identifiers
  // ---------------------------------------------------------------------

  /** String.compareTo(a, b) < 0: lexicographic order by character, a proper prefix first. */
  predicate StrLess(a: string, b: string)
    decreases |a|
  {
    if |a| == 0 then |b| > 0
    else if |b| == 0 then false
    else if a[0] != b[0] then a[0] < b[0]
    else StrLess(a[1..], b[1..])
  }

  lemma {:induction false} StrLessIrreflexive(a: string)
    ensures !StrLess(a, a)
    decreases |a|
  {
    if |a| > 0 {
      StrLessIrreflexive(a[1..]);
    }
  }

  lemma {:induction false} StrLessTransitive(a: string, b: string, c: string)
    requires StrLess(a, b) && StrLess(b, c)
    ensures StrLess(a, c)
    decreases |a|
  {
    if |a| > 0 && |b| > 0 && |c| > 0 && a[0] == b[0] && b[0] == c[0] {
      StrLessTransitive(a[1..], b[1..], c[1..]);
    }
  }

  lemma {:induction false} StrLessTotal(a: string, b: string)
    requires a != b
    ensures StrLess(a, b) || StrLess(b, a)
    decreases |a|
  {
    if |a| > 0 && |b| > 0 && a[0] == b[0] {
      assert a == [a[0]] + a[1..] && b == [b[0]] + b[1..];
      StrLessTotal(a[1..], b[1..]);
    }
  }

  lemma StrLessAsymmetric(a: string, b: string)
    requires StrLess(a, b)
    ensures !StrLess(b, a)
  {
    if StrLess(b, a) {
      StrLessTransitive(a, b, a);
      StrLessIrreflexive(a);
    }
  }

  predicate StrictlySorted(s: seq<string>) {
    forall i, j :: 0 <= i < j < |s| ==> StrLess(s[i], s[j])
  }

  predicate IsMinimal(m: string, s: set<string>) {
    m in s && forall y :: y in s ==> !StrLess(y, m)
  }

  lemma {:induction false} MinimalExists(s: set<string>)
    requires s != {}
    ensures exists m :: IsMinimal(m, s)
    decreases |s|
  {
    var x :| x in s;
    if s != {x} {
      var rest := s - {x};
      MinimalExists(rest);
      var m :| IsMinimal(m, rest);
      if StrLess(x, m) {
        forall y | y in s ensures !StrLess(y, x) {
          if y != x && StrLess(y, x) {
            StrLessTransitive(y, x, m);
          } else if y == x {
            StrLessIrreflexive(x);
          }
        }
        assert IsMinimal(x, s);
      } else {
        assert IsMinimal(m, s);
      }
    } else {
      StrLessIrreflexive(x);
      assert IsMinimal(x, s);
    }
  }

  lemma MinimalUnique(s: set<string>, m1: string, m2: string)
    requires IsMinimal(m1, s) && IsMinimal(m2, s)
    ensures m1 == m2
  {
    if m1 != m2 {
      StrLessTotal(m1, m2);
    }
  }

  /** The smallest identifier of a non-empty set. */
  function Smallest(s: set<string>): (m: string)
    requires s != {}
    ensures IsMinimal(m, s)
  {
    MinimalExists(s);
    forall m1, m2 | IsMinimal(m1, s) && IsMinimal(m2, s) ensures m1 == m2 {
      MinimalUnique(s, m1, m2);
    }
    var m :| IsMinimal(m, s);
    m
  }

  /** new ArrayList<>(nodes) followed by Collections.sort: the identifiers in increasing order. */
  function SortedNodes(nodes: set<string>): (r: seq<string>)
    ensures StrictlySorted(r)
    ensures |r| == |nodes|
    ensures forall x :: x in r <==> x in nodes
    decreases |nodes|
  {
    if nodes == {} then []
    else
      var m := Smallest(nodes);
      var rest := SortedNodes(nodes - {m});
      assert forall j :: 0 <= j < |rest| ==> StrLess(m, rest[j]) by {
        forall j | 0 <= j < |rest| ensures StrLess(m, rest[j]) {
          assert rest[j] in rest;
          assert rest[j] in nodes && rest[j] != m;
          StrLessTotal(m, rest[j]);
        }
      }
      [m] + rest
  }

  /**
   * Sorting does not depend on the order in which the set was enumerated:
   * two strictly sorted sequences with the same elements are equal.
   */
  lemma {:induction false} SortedUnique(a: seq<string>, b: seq<string>)
    requires StrictlySorted(a) && StrictlySorted(b)
    requires forall x :: x in a <==> x in b
    ensures a == b
    decreases |a|
  {
    if |a| > 0 {
      assert a[0] in b;
    }
    if |b| > 0 {
      assert b[0] in a;
    }
    if |a| > 0 && |b| > 0 {
      if a[0] != b[0] {
        assert b[0] in a && a[0] in b;
        var i :| 0 <= i < |a| && a[i] == b[0];
        var j :| 0 <= j < |b| && b[j] == a[0];
        assert i > 0 && j > 0;
        StrLessAsymmetric(a[0], b[0]);
      }
      forall x ensures x in a[1..] <==> x in b[1..] {
        if x in a[1..] {
          var i :| 0 <= i < |a| - 1 && a[1..][i] == x;
          assert a[i + 1] == x && StrLess(a[0], x);
          StrLessIrreflexive(a[0]);
          assert x in a;
          var k :| 0 <= k < |b| && b[k] == x;
          assert k != 0;
          assert b[1..][k - 1] == x;
        }
        if x in b[1..] {
          var j :| 0 <= j < |b| - 1 && b[1..][j] == x;
          assert b[j + 1] == x && StrLess(b[0], x);
          StrLessIrreflexive(b[0]);
          assert x in b;
          var k :| 0 <= k < |a| && a[k] == x;
          assert k != 0;
          assert a[1..][k - 1] == x;
        }
      }
      SortedUnique(a[1..], b[1..]);
    }
  }
}
