/**
 * The result map of the pack calculator (pack size -> number of packs) and
 * the two totals a caller reads from it: items shipped, Σ size × count, and
 * packs used, Σ count.
 */
module PackTally {

  import opened PackSpec

  /** A non-empty map has a key. */
  lemma SomeKey(m: map<int, int>)
    requires |m| != 0
    ensures exists k :: k in m
  {
    if forall k :: k !in m {
      assert false;
    }
  }

  /** Some key of a non-empty map: the key the fold takes first. */
  ghost function Pick(m: map<int, int>): (k: int)
    requires |m| != 0
    ensures k in m
  {
    SomeKey(m);
    var k :| k in m; k
  }

  /** Σ f(key, value) over a map, in whatever order its keys are picked. */
  ghost function Fold(m: map<int, int>, f: (int, int) -> int): int
    decreases |m|
  {
    if |m| == 0 then 0
    else
      var k := Pick(m);
      assert |m - {k}| < |m| by { assert (m - {k}).Keys == m.Keys - {k}; }
      f(k, m[k]) + Fold(m - {k}, f)
  }

  /** The items held by `count` packs of `size`. */
  function ItemsOf(size: int, count: int): int { size * count }

  /** The packs held by an entry: its count. */
  function CountOf(size: int, count: int): int { count }

  /** A fold of non-negative terms is non-negative. */
  lemma {:induction false} FoldNonNegative(m: map<int, int>, f: (int, int) -> int)
    ensures (forall k :: k in m ==> f(k, m[k]) >= 0) ==> Fold(m, f) >= 0
    decreases |m|
  {
    if |m| != 0 {
      var k := Pick(m);
      assert |m - {k}| < |m| by { assert (m - {k}).Keys == m.Keys - {k}; }
      FoldNonNegative(m - {k}, f);
    }
  }

  /** Items shipped: Σ size × count (orders_test.go totals a result this way). */
  ghost function TotalItems(m: map<int, int>): (t: int)
    ensures m == map[] ==> t == 0
    ensures (forall k :: k in m ==> k >= 0 && m[k] >= 0) ==> t >= 0
  {
    FoldNonNegative(m, ItemsOf);
    Fold(m, ItemsOf)
  }

  /** Packs used: Σ count. */
  ghost function TotalCount(m: map<int, int>): (t: int)
    ensures m == map[] ==> t == 0
    ensures (forall k :: k in m ==> m[k] >= 0) ==> t >= 0
  {
    FoldNonNegative(m, CountOf);
    Fold(m, CountOf)
  }

  /** The fold does not depend on which key it takes first. */
  lemma {:induction false} FoldRemove(m: map<int, int>, f: (int, int) -> int, k: int)
    requires k in m
    ensures Fold(m, f) == f(k, m[k]) + Fold(m - {k}, f)
    decreases |m|
  {
    var j := Pick(m);
    if j != k {
      assert (m - {j}).Keys == m.Keys - {j};
      assert (m - {k}).Keys == m.Keys - {k};
      FoldRemove(m - {j}, f, k);
      FoldRemove(m - {k}, f, j);
      assert m - {j} - {k} == m - {k} - {j};
    }
  }

  /** Overwriting one entry changes the fold by that entry's term only. */
  lemma FoldUpdate(m: map<int, int>, f: (int, int) -> int, k: int, v: int)
    ensures Fold(m[k := v], f) == Fold(m, f) - (if k in m then f(k, m[k]) else 0) + f(k, v)
  {
    FoldRemove(m[k := v], f, k);
    if k in m {
      FoldRemove(m, f, k);
      assert m[k := v] - {k} == m - {k};
    } else {
      assert m[k := v] - {k} == m;
    }
  }

  /** The map the backtrack builds from the packs it walks: size -> multiplicity. */
  function Tally(c: seq<int>): (m: map<int, int>)
    ensures c == [] ==> m == map[]
    ensures c != [] ==> c[0] in m && m[c[0]] >= 1
  {
    map s | s in c :: multiset(c)[s]
  }

  /** The keys of a tally are exactly the sizes walked, each counted at least once. */
  lemma TallyKeys(c: seq<int>)
    ensures forall s :: s in Tally(c) <==> s in c
    ensures forall s :: s in Tally(c) ==> Tally(c)[s] == multiset(c)[s] >= 1
  {
  }

  /** One more pack of `size`, as Go's `packs[size]++` does (a missing key counts 0). */
  function Increment(m: map<int, int>, size: int): (r: map<int, int>)
    ensures size in r && r[size] == (if size in m then m[size] else 0) + 1
    ensures forall k :: k in m && k != size ==> k in r && r[k] == m[k]
  {
    m[size := (if size in m then m[size] else 0) + 1]
  }

  /** Walking one more pack increments its entry of the tally. */
  lemma TallyAppend(c: seq<int>, p: int)
    ensures Tally(c + [p]) == Increment(Tally(c), p)
  {
    assert multiset(c + [p]) == multiset(c) + multiset{p};
    var l, r := Tally(c + [p]), Increment(Tally(c), p);
    assert l.Keys == r.Keys;
  }

  /** One more pack of `size` adds `size` items and one pack. */
  lemma IncrementTotals(m: map<int, int>, size: int)
    ensures TotalItems(Increment(m, size)) == TotalItems(m) + size
    ensures TotalCount(Increment(m, size)) == TotalCount(m) + 1
  {
    var v := if size in m then m[size] else 0;
    FoldUpdate(m, ItemsOf, size, v + 1);
    FoldUpdate(m, CountOf, size, v + 1);
    assert ItemsOf(size, v + 1) == ItemsOf(size, v) + size;
  }

  /**
   * The totals of a tally: its items are the sum of the packs walked, its
   * count is the number of packs walked.
   */
  lemma {:induction false} TallyTotals(c: seq<int>)
    ensures TotalItems(Tally(c)) == Sum(c)
    ensures TotalCount(Tally(c)) == |c|
    decreases |c|
  {
    if c == [] {
      assert Tally(c).Keys == {};
    } else {
      var last := c[|c| - 1];
      var init := c[..|c| - 1];
      assert c == init + [last];
      TallyTotals(init);
      TallyAppend(init, last);
      SumAppend(init, last);
      IncrementTotals(Tally(init), last);
    }
  }
}
