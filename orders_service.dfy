/**
 * The pack-combination optimiser of src/internal/services/orders.go:
 * build the minimum-packs table up to itemsCount + the last catalog size,
 * take the first reachable sum at or above itemsCount, and walk the
 * recorded parents back to 0, counting packs per size.
 */
module OrdersService {

  import opened PackSpec
  import opened PackTally
  import opened Models

  /** PackCombinationResult: pack size -> number of packs, and a pack total. */
  datatype PackCombinationResult = PackCombinationResult(packs: map<int, int>, totalPacks: int)

  /** The catalog the service tests use. */
  const DefaultCatalog: seq<int> := [250, 500, 1000, 2000, 5000]

  /** The first sum in [start, end] that the table marks reachable, or -1. */
  function FirstReachable(sizes: seq<int>, start: int, end: int): (t: int)
    requires PositiveSizes(sizes) && 0 <= start
    ensures t == -1 ==> forall u :: start <= u <= end ==> MinPacks(sizes, u) == Unreachable
    ensures t != -1 ==> start <= t <= end && MinPacks(sizes, t) != Unreachable
    ensures t != -1 ==> forall u :: start <= u < t ==> MinPacks(sizes, u) == Unreachable
    decreases end - start
  {
    if start > end then -1
    else if MinPacks(sizes, start) != Unreachable then start
    else FirstReachable(sizes, start + 1, end)
  }

  /** The search ceiling: itemsCount plus the LAST catalog entry. */
  function MaxTarget(sizes: seq<int>, itemsCount: int): (m: int)
    requires |sizes| > 0
    ensures PositiveSizes(sizes) ==> m > itemsCount
  {
    itemsCount + sizes[|sizes| - 1]
  }

  /** bestTarget: the least reachable sum in [itemsCount, MaxTarget], or -1. */
  function BestTarget(sizes: seq<int>, itemsCount: int): (t: int)
    requires itemsCount > 0 && |sizes| > 0 && PositiveSizes(sizes)
    ensures t == -1 || (itemsCount <= t <= MaxTarget(sizes, itemsCount) && MinPacks(sizes, t) != Unreachable)
  {
    FirstReachable(sizes, itemsCount, MaxTarget(sizes, itemsCount))
  }

  /**
   * The result calculatePackCombination returns: empty for itemsCount <= 0
   * and for the fallback, otherwise the tally of the packs walked back from
   * bestTarget. TotalPacks is never set to anything but 0.
   */
  function Combination(sizes: seq<int>, itemsCount: int): (r: PackCombinationResult)
    requires itemsCount > 0 ==> |sizes| > 0 && PositiveSizes(sizes)
    ensures r.totalPacks == 0
    ensures itemsCount <= 0 ==> r.packs == map[]
  {
    if itemsCount <= 0 then PackCombinationResult(map[], 0)
    else
      var best := BestTarget(sizes, itemsCount);
      if best == -1 then PackCombinationResult(map[], 0)
      else PackCombinationResult(Tally(Trace(sizes, best)), 0)
  }

  /** formatPackSizes: the sizes of the catalog records, in their order. */
  method FormatPackSizes(packSizes: seq<PackSize>) returns (sizes: seq<int>)
    ensures |sizes| == |packSizes|
    ensures forall i :: 0 <= i < |packSizes| ==> sizes[i] == packSizes[i].size
  {
    var a := new int[|packSizes|];
    for i := 0 to |packSizes|
      invariant forall j :: 0 <= j < i ==> a[j] == packSizes[j].size
    {
      a[i] := packSizes[i].size;
    }
    sizes := a[..];
  }

  /**
   * buildDPAndParent: dp[i] and parent[i] for every i in [0, maxTarget],
   * filled bottom-up with the catalog scanned in order for each i.
   */
  method BuildDPAndParent(maxTarget: int, packSizes: seq<int>) returns (dp: array<int>, parent: array<int>)
    requires 0 <= maxTarget && PositiveSizes(packSizes)
    ensures fresh(dp) && fresh(parent)
    ensures dp.Length == maxTarget + 1 && parent.Length == maxTarget + 1
    ensures forall i :: 0 <= i <= maxTarget ==>
      dp[i] == MinPacks(packSizes, i) && parent[i] == Parent(packSizes, i)
  {
    dp := new int[maxTarget + 1];
    parent := new int[maxTarget + 1];
    for i := 0 to dp.Length
      invariant forall j :: 0 <= j < i ==> dp[j] == Unreachable && parent[j] == -1
    {
      dp[i] := Unreachable;
      parent[i] := -1;
    }
    dp[0] := 0;
    for i := 1 to maxTarget + 1
      invariant forall j :: 0 <= j < i ==> dp[j] == MinPacks(packSizes, j) && parent[j] == Parent(packSizes, j)
      invariant forall j :: i <= j <= maxTarget ==> dp[j] == Unreachable && parent[j] == -1
    {
      for k := 0 to |packSizes|
        invariant (dp[i], parent[i]) == Relax(packSizes, i, k)
        invariant forall j :: 0 <= j < i ==> dp[j] == MinPacks(packSizes, j) && parent[j] == Parent(packSizes, j)
        invariant forall j :: i < j <= maxTarget ==> dp[j] == Unreachable && parent[j] == -1
      {
        var pack := packSizes[k];
        if i >= pack && dp[i - pack] != Unreachable {
          if dp[i - pack] + 1 < dp[i] {
            dp[i] := dp[i - pack] + 1;
            parent[i] := pack;
          }
        }
      }
    }
  }

  /**
   * findBestTarget: the least t in [start, end] with dp[t] reachable, every
   * sum before it unreachable; -1 when the whole range is unreachable.
   */
  method FindBestTarget(dp: array<int>, start: int, end: int) returns (best: int)
    requires start <= end ==> 0 <= start && end < dp.Length
    ensures best == -1 ==> forall t :: start <= t <= end ==> dp[t] == Unreachable
    ensures best != -1 ==> start <= best <= end && dp[best] != Unreachable
    ensures best != -1 ==> forall t :: start <= t < best ==> dp[t] == Unreachable
  {
    best := -1;
    var target := start;
    while target <= end
      invariant start <= target <= (if start <= end then end + 1 else start)
      invariant forall t :: start <= t < target ==> dp[t] == Unreachable
    {
      if dp[target] != Unreachable {
        best := target;
        break;
      }
      target := target + 1;
    }
  }

  /**
   * The backtrack of calculatePackCombination: from bestTarget, repeatedly
   * count one pack of size parent[current] and subtract it. The walk stops
   * at current == 0, and the map it builds is the tally of Trace(bestTarget).
   */
  method Backtrack(parent: array<int>, packSizes: seq<int>, bestTarget: int) returns (packs: map<int, int>)
    requires PositiveSizes(packSizes) && 0 <= bestTarget < parent.Length
    requires MinPacks(packSizes, bestTarget) != Unreachable
    requires forall j :: 0 <= j <= bestTarget ==> parent[j] == Parent(packSizes, j)
    ensures packs == Tally(Trace(packSizes, bestTarget))
  {
    packs := map[];
    var current := bestTarget;
    ghost var walked: seq<int> := [];
    while current > 0 && parent[current] != -1
      invariant 0 <= current <= bestTarget
      invariant MinPacks(packSizes, current) != Unreachable
      invariant Trace(packSizes, bestTarget) == walked + Trace(packSizes, current)
      invariant packs == Tally(walked)
      decreases current
    {
      var packSize := parent[current];
      BacktrackStep(packSizes, bestTarget, walked, current);
      TallyAppend(walked, packSize);
      packs := Increment(packs, packSize);
      walked := walked + [packSize];
      current := current - packSize;
    }
    if current > 0 {
      UnreachableIffNoParent(packSizes, current);
    }
    assert walked == Trace(packSizes, bestTarget);
  }

  /** One iteration of the backtrack: the packs still to walk lose their first. */
  lemma BacktrackStep(sizes: seq<int>, best: nat, walked: seq<int>, current: nat)
    requires PositiveSizes(sizes) && 0 < current
    requires MinPacks(sizes, best) != Unreachable && MinPacks(sizes, current) != Unreachable
    requires Trace(sizes, best) == walked + Trace(sizes, current)
    ensures 0 < Parent(sizes, current) <= current
    ensures MinPacks(sizes, current - Parent(sizes, current)) != Unreachable
    ensures Trace(sizes, best) == (walked + [Parent(sizes, current)]) + Trace(sizes, current - Parent(sizes, current))
  {
    var p := Parent(sizes, current);
    TraceStep(sizes, current);
    assert walked + ([p] + Trace(sizes, current - p)) == (walked + [p]) + Trace(sizes, current - p);
  }

  /**
   * calculatePackCombination: the empty result for itemsCount <= 0 and for
   * the fallback, otherwise the backtracked tally; TotalPacks stays 0.
   */
  method CalculatePackCombination(itemsCount: int, packSizes: seq<int>) returns (r: PackCombinationResult)
    requires itemsCount > 0 ==> |packSizes| > 0 && PositiveSizes(packSizes)
    ensures itemsCount <= 0 ==> r.packs == map[] && r.totalPacks == 0
    ensures r == Combination(packSizes, itemsCount)
  {
    if itemsCount <= 0 {
      return PackCombinationResult(map[], 0);
    }
    var maxTarget := itemsCount + packSizes[|packSizes| - 1];
    var dp, parent := BuildDPAndParent(maxTarget, packSizes);
    var bestTarget := FindBestTarget(dp, itemsCount, maxTarget);
    if bestTarget == -1 {
      return PackCombinationResult(map[], 0);
    }
    assert bestTarget == BestTarget(packSizes, itemsCount);
    var packs := Backtrack(parent, packSizes, bestTarget);
    return PackCombinationResult(packs, 0);
  }

  /** With a catalog of positive sizes and 0 < itemsCount < 2^31 - 1 the fallback is unreachable. */
  lemma FallbackUnreachable(sizes: seq<int>, itemsCount: int)
    requires 0 < itemsCount < Unreachable && |sizes| > 0 && PositiveSizes(sizes)
    ensures BestTarget(sizes, itemsCount) != -1
    ensures Combination(sizes, itemsCount).packs != map[]
  {
    var last := sizes[|sizes| - 1];
    var k := LeastMultipleAtLeast(itemsCount, last);
    var c := Repeat(last, k);
    SumRepeat(last, k);
    assert IsCombination(sizes, c);
    MinPacksOptimal(sizes, c);
    assert MinPacks(sizes, Sum(c)) != Unreachable;
    var best := BestTarget(sizes, itemsCount);
    assert best != -1;
    TraceStep(sizes, best);
    TallyKeys(Trace(sizes, best));
    assert Parent(sizes, best) in Tally(Trace(sizes, best));
  }

  /** With the catalog [1], a combination ships one item per pack. */
  lemma {:induction false} UnitSum(c: seq<int>)
    requires IsCombination([1], c)
    ensures Sum(c) == |c|
    decreases |c|
  {
    if c != [] {
      assert IsCombination([1], c[1..]) by {
        forall j | 0 <= j < |c[1..]| ensures c[1..][j] in [1] { assert c[1..][j] == c[j + 1]; }
      }
      UnitSum(c[1..]);
    }
  }

  /**
   * The bound of FallbackUnreachable is needed: with the catalog [1] and
   * itemsCount = MaxInt32, both sums in range need MaxInt32 or more packs,
   * the table marks them unreachable, and the fallback returns the empty
   * map for a positive order.
   */
  lemma FallbackTakenAtSentinel()
    ensures BestTarget([1], Unreachable) == -1
    ensures Combination([1], Unreachable).packs == map[]
  {
    var sizes: seq<int> := [1];
    forall i: nat | Unreachable <= i
      ensures MinPacks(sizes, i) == Unreachable
    {
      MinPacksIsMinimum(sizes, i);
      if MinPacks(sizes, i) != Unreachable {
        var c :| IsCombination(sizes, c) && Sum(c) == i && |c| < Unreachable;
        UnitSum(c);
        assert false;
      }
    }
    assert MinPacks(sizes, Unreachable) == Unreachable && MinPacks(sizes, Unreachable + 1) == Unreachable;
  }

  /** Some multiple k * p of p lies in [n, n + p), with k <= n, for n, p > 0. */
  lemma {:induction false} LeastMultipleAtLeast(n: int, p: int) returns (k: nat)
    requires n > 0 && p > 0
    ensures n <= k * p < n + p && k <= n
    decreases n
  {
    if n <= p {
      k := 1;
    } else {
      var k' := LeastMultipleAtLeast(n - p, p);
      k := k' + 1;
      assert k * p == k' * p + p;
    }
  }

  /**
   * What the result means: TotalPacks is 0; the map is empty exactly when
   * no sum in [itemsCount, MaxTarget] is reachable; otherwise it ships
   * bestTarget >= itemsCount items in dp[bestTarget] packs, every key a
   * catalog size held at least once.
   */
  lemma CombinationSound(sizes: seq<int>, itemsCount: int)
    requires itemsCount > 0 && |sizes| > 0 && PositiveSizes(sizes)
    ensures Combination(sizes, itemsCount).totalPacks == 0
    ensures Combination(sizes, itemsCount).packs == map[] <==> BestTarget(sizes, itemsCount) == -1
    ensures BestTarget(sizes, itemsCount) != -1 ==>
      var packs := Combination(sizes, itemsCount).packs;
      && TotalItems(packs) == BestTarget(sizes, itemsCount) >= itemsCount
      && TotalCount(packs) == MinPacks(sizes, BestTarget(sizes, itemsCount))
      && (forall s :: s in packs ==> s in sizes && packs[s] >= 1)
  {
    var best := BestTarget(sizes, itemsCount);
    if best != -1 {
      var t := Trace(sizes, best);
      TraceSound(sizes, best);
      TraceStep(sizes, best);
      TallyKeys(t);
      TallyTotals(t);
      assert t[0] in Tally(t);
    }
  }

  /** Once bestTarget is known, the map is the tally of the walk from it. */
  lemma CombinationFromBest(sizes: seq<int>, itemsCount: int, best: int)
    requires itemsCount > 0 && |sizes| > 0 && PositiveSizes(sizes)
    requires BestTarget(sizes, itemsCount) == best != -1
    ensures best >= 0 && MinPacks(sizes, best) != Unreachable
    ensures Combination(sizes, itemsCount).packs == Tally(Trace(sizes, best))
  {
  }

  /**
   * Fewest items: no combination that covers itemsCount ships fewer items
   * than the result. A combination too long for the table is cut to its
   * first itemsCount packs, which still cover itemsCount and ship no more.
   */
  lemma MinimalOvershoot(sizes: seq<int>, itemsCount: int, c: seq<int>)
    requires 0 < itemsCount < Unreachable && |sizes| > 0 && PositiveSizes(sizes)
    requires IsCombination(sizes, c) && Sum(c) >= itemsCount
    ensures Combination(sizes, itemsCount).packs != map[]
    ensures TotalItems(Combination(sizes, itemsCount).packs) <= Sum(c)
  {
    FallbackUnreachable(sizes, itemsCount);
    CombinationSound(sizes, itemsCount);
    var d := c;
    if |c| >= Unreachable {
      PrefixSum(sizes, c, itemsCount);
      d := c[..itemsCount];
    }
    assert IsCombination(sizes, d) && itemsCount <= Sum(d) <= Sum(c) && |d| < Unreachable;
    MinPacksOptimal(sizes, d);
  }

  /**
   * Fewest packs: a combination shipping the same number of items as the
   * result uses at least as many packs.
   */
  lemma MinimalPackCount(sizes: seq<int>, itemsCount: int, c: seq<int>)
    requires itemsCount > 0 && |sizes| > 0 && PositiveSizes(sizes)
    requires IsCombination(sizes, c)
    requires Sum(c) == TotalItems(Combination(sizes, itemsCount).packs)
    ensures TotalCount(Combination(sizes, itemsCount).packs) <= |c|
  {
    CombinationSound(sizes, itemsCount);
    if BestTarget(sizes, itemsCount) == -1 {
      assert TotalItems(map[]) == 0 && TotalCount(map[]) == 0;
      SumAtLeastLength(sizes, c);
    } else if |c| < Unreachable {
      MinPacksOptimal(sizes, c);
    }
  }
}
