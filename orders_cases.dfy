/**
 * The cases of the service's test table (orders_test.go), proved for the
 * default catalog [250, 500, 1000, 2000, 5000]: the exact map of pack size
 * to count that calculatePackCombination returns for each order size.
 */
module OrdersServiceCases {

  import opened PackSpec
  import opened PackTally
  import opened OrdersService

  /** Every default size is a multiple of 250. */
  lemma DefaultSizesOnGrid()
    ensures forall k :: 0 <= k < |DefaultCatalog| ==> DefaultCatalog[k] % 250 == 0
  {
  }

  /** Every sum off the 250 grid is unreachable with the default catalog. */
  lemma OffGrid(u: nat)
    requires u % 250 != 0
    ensures MinPacks(DefaultCatalog, u) == Unreachable
  {
    if MinPacks(DefaultCatalog, u) != Unreachable {
      TraceSound(DefaultCatalog, u);
      var t := Trace(DefaultCatalog, u);
      DefaultSizesOnGrid();
      var q := SumOfMultiples(DefaultCatalog, 250, t);
    }
  }

  /**
   * With the default catalog, bestTarget is itemsCount rounded up to the
   * next multiple of 250, once that sum is known to be reachable.
   */
  lemma BestTargetIsRoundedUp(itemsCount: int, t: nat)
    requires 0 < itemsCount <= t < itemsCount + 250 && t % 250 == 0
    requires MinPacks(DefaultCatalog, t) != Unreachable
    ensures BestTarget(DefaultCatalog, itemsCount) == t
  {
    var b := BestTarget(DefaultCatalog, itemsCount);
    if b != -1 && b % 250 != 0 {
      OffGrid(b);
    }
  }

  /** A catalog size is shipped as one pack of that size. */
  lemma CatalogSizeTrace(p: int)
    requires p in DefaultCatalog
    ensures MinPacks(DefaultCatalog, p) == 1 && Trace(DefaultCatalog, p) == [p]
  {
    CatalogSizeIsOnePack(DefaultCatalog, p);
    TraceStep(DefaultCatalog, p);
  }

  /** The tally of a single pack. */
  lemma TallyOfOne(p: int)
    ensures Tally([p]) == map[p := 1]
  {
    assert multiset([p]) == multiset{p};
    assert Tally([p]).Keys == {p};
  }

  /**
   * An order that rounds up to a catalog size ships as one pack of that
   * size.
   */
  lemma OnePackOrder(itemsCount: int, p: int)
    requires p in DefaultCatalog && 0 < itemsCount <= p < itemsCount + 250
    ensures Combination(DefaultCatalog, itemsCount).packs == map[p := 1]
  {
    CatalogSizeTrace(p);
    BestTargetIsRoundedUp(itemsCount, p);
    CombinationFromBest(DefaultCatalog, itemsCount, p);
    TallyOfOne(p);
  }

  /** "Single item": 1 item ships as one 250 pack. */
  lemma SingleItem()
    ensures Combination(DefaultCatalog, 1).packs == map[250 := 1]
  {
    OnePackOrder(1, 250);
  }

  /** "Exact match 250": one 250 pack. */
  lemma ExactMatch250()
    ensures Combination(DefaultCatalog, 250).packs == map[250 := 1]
  {
    OnePackOrder(250, 250);
  }

  /** "251 items": one 500 pack rather than two 250 packs. */
  lemma Order251()
    ensures Combination(DefaultCatalog, 251).packs == map[500 := 1]
  {
    OnePackOrder(251, 500);
  }

  /** "Exact match 5000": one 5000 pack. */
  lemma ExactMatch5000()
    ensures Combination(DefaultCatalog, 5000).packs == map[5000 := 1]
  {
    OnePackOrder(5000, 5000);
  }

  /** "751 items": one 1000 pack, not 500 + 250 + 250. */
  lemma Order751()
    ensures Combination(DefaultCatalog, 751).packs == map[1000 := 1]
  {
    OnePackOrder(751, 1000);
  }

  /** 750 takes two packs, and the first size attaining that, 250, is recorded. */
  lemma Table750()
    ensures MinPacks(DefaultCatalog, 750) == 2 && Trace(DefaultCatalog, 750) == [250, 500]
  {
    CatalogSizeTrace(250);
    CatalogSizeTrace(500);
    MinPacksOptimal(DefaultCatalog, [250, 500]);
    if MinPacks(DefaultCatalog, 750) == 1 {
      OnePackIsCatalogSize(DefaultCatalog, 750);
    }
    PositiveSumNeedsAPack(DefaultCatalog, 750);
    var k := ParentIsFirstMinimiser(DefaultCatalog, 750);
    assert Candidate(DefaultCatalog, 750, 0) == 2;
    TraceStep(DefaultCatalog, 750);
  }

  /** The tally of the walk from 750. */
  lemma Tally750()
    ensures Tally([250, 500]) == map[250 := 1, 500 := 1]
  {
    var t: seq<int> := [250, 500];
    assert multiset(t) == multiset{250, 500};
    assert Tally(t).Keys == {250, 500};
  }

  /** "501 items": one 500 pack and one 250 pack. */
  lemma Order501()
    ensures Combination(DefaultCatalog, 501).packs == map[250 := 1, 500 := 1]
  {
    Table750();
    BestTargetIsRoundedUp(501, 750);
    CombinationFromBest(DefaultCatalog, 501, 750);
    Tally750();
  }

  /** 10000 takes two packs, recorded as 5000 then 5000. */
  lemma Table10000()
    ensures MinPacks(DefaultCatalog, 10000) == 2 && Trace(DefaultCatalog, 10000) == [5000, 5000]
  {
    CatalogSizeTrace(5000);
    MinPacksOptimal(DefaultCatalog, [5000, 5000]);
    MinPacksLowerBound(DefaultCatalog, 5000, 10000, 1);
    ParentStep(DefaultCatalog, 10000);
    OnePackIsCatalogSize(DefaultCatalog, 10000 - Parent(DefaultCatalog, 10000));
    TraceStep(DefaultCatalog, 10000);
  }

  /** The entries before 2000 offer more than three packs for 12000. */
  lemma Candidate12000(j: nat)
    requires j < 3
    ensures Candidate(DefaultCatalog, 12000, j) > 3
  {
    if j == 0 {
      MinPacksLowerBound(DefaultCatalog, 5000, 11750, 2);
    } else if j == 1 {
      MinPacksLowerBound(DefaultCatalog, 5000, 11500, 2);
    } else {
      MinPacksLowerBound(DefaultCatalog, 5000, 11000, 2);
    }
  }

  /** 12000 takes three packs; the first size attaining three is 2000. */
  lemma Parent12000()
    ensures MinPacks(DefaultCatalog, 12000) == 3 && Parent(DefaultCatalog, 12000) == 2000
  {
    Table10000();
    MinPacksOptimal(DefaultCatalog, [2000, 5000, 5000]);
    MinPacksLowerBound(DefaultCatalog, 5000, 12000, 2);
    var k := ParentIsFirstMinimiser(DefaultCatalog, 12000);
    assert Candidate(DefaultCatalog, 12000, 3) == 3;
    if k < 3 {
      Candidate12000(k);
    }
  }

  /** The walk from 12000: 2000, then the walk from 10000. */
  lemma Table12000()
    ensures MinPacks(DefaultCatalog, 12000) == 3
    ensures Trace(DefaultCatalog, 12000) == [2000, 5000, 5000]
  {
    Parent12000();
    Table10000();
    TraceStep(DefaultCatalog, 12000);
    assert Trace(DefaultCatalog, 12000) == [2000] + Trace(DefaultCatalog, 10000);
  }

  /** 7250 cannot be made of two default packs. */
  lemma NotTwoPacks7250()
    ensures MinPacks(DefaultCatalog, 7250) != 2
  {
    if MinPacks(DefaultCatalog, 7250) == 2 {
      ParentStep(DefaultCatalog, 7250);
      OnePackIsCatalogSize(DefaultCatalog, 7250 - Parent(DefaultCatalog, 7250));
    }
  }

  /** Every entry of the default catalog offers at least four packs for 12250. */
  lemma Candidate12250(j: nat)
    requires j < |DefaultCatalog|
    ensures Candidate(DefaultCatalog, 12250, j) >= 4
  {
    if j == 0 {
      Table12000();
    } else if j == 1 {
      MinPacksLowerBound(DefaultCatalog, 5000, 11750, 2);
    } else if j == 2 {
      MinPacksLowerBound(DefaultCatalog, 5000, 11250, 2);
    } else if j == 3 {
      MinPacksLowerBound(DefaultCatalog, 5000, 10250, 2);
    } else {
      NotTwoPacks7250();
      MinPacksLowerBound(DefaultCatalog, 5000, 7250, 1);
    }
  }

  /** 12250 takes four packs; the first size attaining four is 250. */
  lemma Parent12250()
    ensures MinPacks(DefaultCatalog, 12250) == 4 && Parent(DefaultCatalog, 12250) == 250
  {
    Table12000();
    MinPacksOptimal(DefaultCatalog, [250, 2000, 5000, 5000]);
    var k := ParentIsFirstMinimiser(DefaultCatalog, 12250);
    Candidate12250(k);
    assert Candidate(DefaultCatalog, 12250, 0) == 4;
  }

  /** The walk from 12250: 250, then the walk from 12000. */
  lemma Table12250()
    ensures MinPacks(DefaultCatalog, 12250) == 4
    ensures Trace(DefaultCatalog, 12250) == [250, 2000, 5000, 5000]
  {
    Parent12250();
    Table12000();
    TraceStep(DefaultCatalog, 12250);
    assert Trace(DefaultCatalog, 12250) == [250] + Trace(DefaultCatalog, 12000);
  }

  /** The tally of the walk from 12250. */
  lemma Tally12250()
    ensures Tally([250, 2000, 5000, 5000]) == map[250 := 1, 2000 := 1, 5000 := 2]
  {
    var t: seq<int> := [250, 2000, 5000, 5000];
    assert multiset(t) == multiset{250, 2000, 5000, 5000};
    assert Tally(t).Keys == {250, 2000, 5000};
  }

  /** 12001 items round up to 12250, the first reachable sum. */
  lemma BestTarget12001()
    ensures BestTarget(DefaultCatalog, 12001) == 12250
  {
    Table12250();
    BestTargetIsRoundedUp(12001, 12250);
  }

  /** "Large order 12001": two 5000 packs, one 2000 and one 250. */
  lemma Order12001()
    ensures Combination(DefaultCatalog, 12001).packs == map[250 := 1, 2000 := 1, 5000 := 2]
  {
    BestTarget12001();
    CombinationFromBest(DefaultCatalog, 12001, 12250);
    Table12250();
    Tally12250();
  }
}
