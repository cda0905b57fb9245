/**
 * The optimisation problem behind the pack calculator, and the recurrence
 * that its minimum-packs table follows.
 *
 * A combination is a list of packs, each one of a catalog size, used any
 * number of times. MinPacks and Parent give, for every sum i, the values the
 * table-building loops in src/internal/services/orders.go leave in dp[i] and
 * parent[i]; the lemmas here say what those values mean in terms of
 * combinations.
 */
module PackSpec {

  /** math.MaxInt32: the value the table uses for "no combination found". */
  const Unreachable: int := 0x7FFF_FFFF

  /**
   * Every catalog size is positive: the input the table loops are written
   * for. The Go code does not check it, and nothing upstream enforces it.
   */
  predicate PositiveSizes(sizes: seq<int>) {
    forall k :: 0 <= k < |sizes| ==> sizes[k] > 0
  }

  /** Every pack of `c` is a size from the catalog. */
  predicate IsCombination(sizes: seq<int>, c: seq<int>) {
    forall j :: 0 <= j < |c| ==> c[j] in sizes
  }

  /** The number of items shipped by the packs of `c`. */
  function Sum(c: seq<int>): int {
    if c == [] then 0 else c[0] + Sum(c[1..])
  }

  /** dp[i]: the fewest packs summing to exactly i, or Unreachable. */
  function MinPacks(sizes: seq<int>, i: nat): (d: int)
    requires PositiveSizes(sizes)
    ensures 0 <= d <= Unreachable
    decreases i, |sizes| + 1
  {
    if i == 0 then 0 else Relax(sizes, i, |sizes|).0
  }

  /**
   * (dp[i], parent[i]) for i > 0 once the inner loop has scanned the first
   * k catalog entries: a size p replaces the current best only when
   * dp[i-p] + 1 is strictly smaller.
   */
  function Relax(sizes: seq<int>, i: nat, k: nat): (r: (int, int))
    requires PositiveSizes(sizes) && 0 < i && k <= |sizes|
    ensures 0 <= r.0 <= Unreachable
    ensures r.1 == -1 || 0 < r.1 <= i
    decreases i, k
  {
    if k == 0 then (Unreachable, -1)
    else
      var prev := Relax(sizes, i, k - 1);
      var p := sizes[k - 1];
      if i >= p && MinPacks(sizes, i - p) != Unreachable && MinPacks(sizes, i - p) + 1 < prev.0
      then (MinPacks(sizes, i - p) + 1, p)
      else prev
  }

  /** parent[i]: the pack size that achieved dp[i], or -1. */
  function Parent(sizes: seq<int>, i: nat): (p: int)
    requires PositiveSizes(sizes)
    ensures p == -1 || 0 < p <= i
    ensures i == 0 ==> p == -1
  {
    if i == 0 then -1 else Relax(sizes, i, |sizes|).1
  }

  /** What catalog entry j offers for sum i: one pack on top of dp[i - sizes[j]]. */
  function Candidate(sizes: seq<int>, i: nat, j: nat): (r: int)
    requires PositiveSizes(sizes) && j < |sizes|
    ensures 1 <= r <= Unreachable
    ensures r < Unreachable ==> sizes[j] <= i && MinPacks(sizes, i - sizes[j]) == r - 1
  {
    var p := sizes[j];
    if p <= i && MinPacks(sizes, i - p) != Unreachable then MinPacks(sizes, i - p) + 1
    else Unreachable
  }

  /**
   * After scanning k entries the table holds the least candidate seen (capped
   * at Unreachable), and the size recorded is that of the FIRST entry
   * offering it, because the replacement test is a strict `<`.
   */
  lemma {:induction false} RelaxIsFirstMinimum(sizes: seq<int>, i: nat, k: nat) returns (w: int)
    requires PositiveSizes(sizes) && 0 < i && k <= |sizes|
    ensures forall j :: 0 <= j < k ==> Relax(sizes, i, k).0 <= Candidate(sizes, i, j)
    ensures Relax(sizes, i, k).0 == Unreachable ==> Relax(sizes, i, k).1 == -1 && w == -1
    ensures Relax(sizes, i, k).0 < Unreachable ==>
      && 0 <= w < k
      && Relax(sizes, i, k).1 == sizes[w]
      && Candidate(sizes, i, w) == Relax(sizes, i, k).0
      && forall j :: 0 <= j < w ==> Candidate(sizes, i, j) > Relax(sizes, i, k).0
  {
    if k == 0 {
      w := -1;
    } else {
      var w' := RelaxIsFirstMinimum(sizes, i, k - 1);
      var prev := Relax(sizes, i, k - 1);
      var p := sizes[k - 1];
      if i >= p && MinPacks(sizes, i - p) != Unreachable && MinPacks(sizes, i - p) + 1 < prev.0 {
        w := k - 1;
      } else {
        w := w';
      }
    }
  }

  /**
   * A reachable sum i > 0 records a catalog size p <= i with
   * dp[i - p] reachable and dp[i - p] + 1 == dp[i].
   */
  lemma ParentStep(sizes: seq<int>, i: nat)
    requires PositiveSizes(sizes) && 0 < i && MinPacks(sizes, i) != Unreachable
    ensures Parent(sizes, i) in sizes && 0 < Parent(sizes, i) <= i
    ensures MinPacks(sizes, i - Parent(sizes, i)) != Unreachable
    ensures MinPacks(sizes, i - Parent(sizes, i)) + 1 == MinPacks(sizes, i)
  {
    var w := RelaxIsFirstMinimum(sizes, i, |sizes|);
  }

  /** An entry of the table is unreachable exactly when no parent is recorded. */
  lemma UnreachableIffNoParent(sizes: seq<int>, i: nat)
    requires PositiveSizes(sizes) && 0 < i
    ensures MinPacks(sizes, i) == Unreachable <==> Parent(sizes, i) == -1
  {
    var w := RelaxIsFirstMinimum(sizes, i, |sizes|);
  }

  /**
   * Tie-break: parent[i] is the first entry, in catalog order, whose
   * candidate attains dp[i]; every earlier entry offers strictly more, and no
   * entry offers less.
   */
  lemma ParentIsFirstMinimiser(sizes: seq<int>, i: nat) returns (k: nat)
    requires PositiveSizes(sizes) && 0 < i && MinPacks(sizes, i) != Unreachable
    ensures k < |sizes| && Parent(sizes, i) == sizes[k]
    ensures Candidate(sizes, i, k) == MinPacks(sizes, i)
    ensures forall j :: 0 <= j < k ==> Candidate(sizes, i, j) > MinPacks(sizes, i)
    ensures forall j :: 0 <= j < |sizes| ==> MinPacks(sizes, i) <= Candidate(sizes, i, j)
  {
    var w := RelaxIsFirstMinimum(sizes, i, |sizes|);
    k := w;
  }

  /**
   * The packs the backtrack walks from a reachable sum i: parent[i], then
   * the walk from i - parent[i], down to 0.
   */
  function Trace(sizes: seq<int>, i: nat): (t: seq<int>)
    requires PositiveSizes(sizes) && MinPacks(sizes, i) != Unreachable
    ensures |t| <= i
    decreases i
  {
    if i == 0 then []
    else
      ParentStep(sizes, i);
      var p := Parent(sizes, i);
      [p] + Trace(sizes, i - p)
  }

  /**
   * Soundness of the table: the walk from a reachable sum i is a
   * combination summing to exactly i with dp[i] packs.
   */
  lemma {:induction false} TraceSound(sizes: seq<int>, i: nat)
    requires PositiveSizes(sizes) && MinPacks(sizes, i) != Unreachable
    ensures IsCombination(sizes, Trace(sizes, i))
    ensures Sum(Trace(sizes, i)) == i && |Trace(sizes, i)| == MinPacks(sizes, i)
    decreases i
  {
    if i > 0 {
      ParentStep(sizes, i);
      var p := Parent(sizes, i);
      var rest := Trace(sizes, i - p);
      TraceSound(sizes, i - p);
      var t := [p] + rest;
      assert Trace(sizes, i) == t;
      assert t[0] == p && t[1..] == rest;
      assert IsCombination(sizes, t) by {
        forall j | 0 <= j < |t| ensures t[j] in sizes {
          if j > 0 { assert t[j] == rest[j - 1]; }
        }
      }
    }
  }

  /** Appending one pack adds its size to the sum. */
  lemma {:induction false} SumAppend(c: seq<int>, p: int)
    ensures Sum(c + [p]) == Sum(c) + p
    decreases |c|
  {
    if c == [] {
      assert [] + [p] == [p];
    } else {
      assert (c + [p])[1..] == c[1..] + [p];
      SumAppend(c[1..], p);
    }
  }

  /** One step of the walk: Trace(i) starts with parent[i] and goes on from i - parent[i]. */
  lemma TraceStep(sizes: seq<int>, i: nat)
    requires PositiveSizes(sizes) && 0 < i && MinPacks(sizes, i) != Unreachable
    ensures 0 < Parent(sizes, i) <= i && MinPacks(sizes, i - Parent(sizes, i)) != Unreachable
    ensures Trace(sizes, i) == [Parent(sizes, i)] + Trace(sizes, i - Parent(sizes, i))
  {
    ParentStep(sizes, i);
  }

  /** A combination of packs from positive sizes ships at least one item per pack. */
  lemma {:induction false} SumAtLeastLength(sizes: seq<int>, c: seq<int>)
    requires PositiveSizes(sizes) && IsCombination(sizes, c)
    ensures Sum(c) >= |c|
    decreases |c|
  {
    if c != [] {
      assert IsCombination(sizes, c[1..]) by {
        forall j | 0 <= j < |c[1..]| ensures c[1..][j] in sizes { assert c[1..][j] == c[j + 1]; }
      }
      SumAtLeastLength(sizes, c[1..]);
    }
  }

  /**
   * The first n packs of a combination from positive sizes ship at least n
   * items and no more than the whole combination.
   */
  lemma {:induction false} PrefixSum(sizes: seq<int>, c: seq<int>, n: nat)
    requires PositiveSizes(sizes) && IsCombination(sizes, c) && n <= |c|
    ensures IsCombination(sizes, c[..n]) && n <= Sum(c[..n]) <= Sum(c)
    decreases n
  {
    SumAtLeastLength(sizes, c);
    if n > 0 {
      var rest := c[1..];
      assert IsCombination(sizes, rest) by {
        forall j | 0 <= j < |rest| ensures rest[j] in sizes { assert rest[j] == c[j + 1]; }
      }
      PrefixSum(sizes, rest, n - 1);
      assert c[..n][1..] == rest[..n - 1];
      var j :| 0 <= j < |sizes| && sizes[j] == c[0];
    }
  }

  /**
   * Optimality: no combination of fewer than Unreachable packs uses fewer
   * packs than dp records for its sum (in particular that sum is reachable).
   */
  lemma {:induction false} MinPacksOptimal(sizes: seq<int>, c: seq<int>)
    requires PositiveSizes(sizes) && IsCombination(sizes, c) && |c| < Unreachable
    ensures Sum(c) >= |c| && MinPacks(sizes, Sum(c)) <= |c|
    decreases |c|
  {
    SumAtLeastLength(sizes, c);
    if c != [] {
      var rest := c[1..];
      assert IsCombination(sizes, rest) by {
        forall j | 0 <= j < |rest| ensures rest[j] in sizes { assert rest[j] == c[j + 1]; }
      }
      MinPacksOptimal(sizes, rest);
      var j :| 0 <= j < |sizes| && sizes[j] == c[0];
      var _ := RelaxIsFirstMinimum(sizes, Sum(c), |sizes|);
      assert Candidate(sizes, Sum(c), j) <= |c|;
    }
  }

  /**
   * The table's specification: dp[i] is reachable exactly when some
   * combination of fewer than Unreachable packs sums to i, and then it is
   * the fewest packs of any such combination, attained by Trace(i).
   */
  lemma MinPacksIsMinimum(sizes: seq<int>, i: nat)
    requires PositiveSizes(sizes)
    ensures MinPacks(sizes, i) != Unreachable <==>
      exists c :: IsCombination(sizes, c) && Sum(c) == i && |c| < Unreachable
    ensures MinPacks(sizes, i) != Unreachable ==>
      IsCombination(sizes, Trace(sizes, i)) && Sum(Trace(sizes, i)) == i &&
      |Trace(sizes, i)| == MinPacks(sizes, i)
    ensures forall c :: IsCombination(sizes, c) && Sum(c) == i && |c| < Unreachable ==>
      MinPacks(sizes, i) <= |c|
  {
    if MinPacks(sizes, i) != Unreachable {
      TraceSound(sizes, i);
      var t := Trace(sizes, i);
      assert IsCombination(sizes, t) && Sum(t) == i && |t| < Unreachable;
    }
    forall c | IsCombination(sizes, c) && Sum(c) == i && |c| < Unreachable
      ensures MinPacks(sizes, i) <= |c|
    {
      MinPacksOptimal(sizes, c);
    }
  }

  /** A positive sum needs at least one pack. */
  lemma PositiveSumNeedsAPack(sizes: seq<int>, i: nat)
    requires PositiveSizes(sizes) && 0 < i
    ensures MinPacks(sizes, i) >= 1
  {
    var _ := RelaxIsFirstMinimum(sizes, i, |sizes|);
  }

  /** A sum that is itself a catalog size takes one pack, and that pack is recorded. */
  lemma CatalogSizeIsOnePack(sizes: seq<int>, p: int)
    requires PositiveSizes(sizes) && p in sizes
    ensures MinPacks(sizes, p) == 1 && Parent(sizes, p) == p
  {
    var j :| 0 <= j < |sizes| && sizes[j] == p;
    assert Candidate(sizes, p, j) == 1;
    PositiveSumNeedsAPack(sizes, p);
    var w := RelaxIsFirstMinimum(sizes, p, |sizes|);
    if p - sizes[w] > 0 {
      PositiveSumNeedsAPack(sizes, p - sizes[w]);
    }
  }

  /** A sum that takes exactly one pack is a catalog size. */
  lemma OnePackIsCatalogSize(sizes: seq<int>, i: nat)
    requires PositiveSizes(sizes) && MinPacks(sizes, i) == 1
    ensures i in sizes
  {
    TraceSound(sizes, i);
    var t := Trace(sizes, i);
    assert t == [t[0]] && t[1..] == [];
  }

  /** Packs of at most M items each hold at most M items per pack. */
  lemma {:induction false} SumAtMost(c: seq<int>, m: int)
    requires forall j :: 0 <= j < |c| ==> c[j] <= m
    ensures Sum(c) <= m * |c|
    decreases |c|
  {
    if c != [] {
      SumAtMost(c[1..], m);
      assert m * |c| == m + m * |c[1..]|;
    }
  }

  /**
   * When no catalog size exceeds m, a sum above m * k needs more than k
   * packs.
   */
  lemma MinPacksLowerBound(sizes: seq<int>, m: int, i: nat, k: nat)
    requires PositiveSizes(sizes) && m > 0 && k < Unreachable && m * k < i
    requires forall j :: 0 <= j < |sizes| ==> sizes[j] <= m
    ensures MinPacks(sizes, i) > k
  {
    if MinPacks(sizes, i) != Unreachable {
      TraceSound(sizes, i);
      var t := Trace(sizes, i);
      forall j | 0 <= j < |t| ensures t[j] <= m {
        var x :| 0 <= x < |sizes| && sizes[x] == t[j];
      }
      SumAtMost(t, m);
      if |t| <= k {
        MulMonotone(m, |t|, k);
      }
    }
  }

  /** Multiplying by a positive m keeps the order. */
  lemma {:induction false} MulMonotone(m: int, a: nat, b: nat)
    requires m > 0 && a <= b
    ensures m * a <= m * b
    decreases b - a
  {
    if a < b {
      MulMonotone(m, a + 1, b);
      assert m * (a + 1) == m * a + m;
    }
  }

  /** When every catalog size is a multiple of d, so is every combination's sum. */
  lemma {:induction false} SumOfMultiples(sizes: seq<int>, d: int, c: seq<int>) returns (q: int)
    requires d > 0 && IsCombination(sizes, c)
    requires forall k :: 0 <= k < |sizes| ==> sizes[k] % d == 0
    ensures Sum(c) == d * q
    decreases |c|
  {
    if c == [] {
      q := 0;
    } else {
      var rest := c[1..];
      assert IsCombination(sizes, rest) by {
        forall j | 0 <= j < |rest| ensures rest[j] in sizes { assert rest[j] == c[j + 1]; }
      }
      var y := SumOfMultiples(sizes, d, rest);
      var x := c[0] / d;
      assert c[0] == d * x;
      q := x + y;
      assert d * q == d * x + d * y;
    }
  }

  /** `k` packs of size p. */
  function Repeat(p: int, k: nat): (c: seq<int>)
    ensures |c| == k && forall j :: 0 <= j < k ==> c[j] == p
  {
    seq(k, _ => p)
  }

  lemma {:induction false} SumRepeat(p: int, k: nat)
    ensures Sum(Repeat(p, k)) == k * p
    decreases k
  {
    if k > 0 {
      assert Repeat(p, k)[1..] == Repeat(p, k - 1);
      SumRepeat(p, k - 1);
    }
  }
}
