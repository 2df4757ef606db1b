/** Properties of the supply/demand balancing of `evaluate_bids`
    (examples/landmodel.py): each market's total after rescaling equals its
    demand, balanced markets are left unchanged, and balancing an aligned
    supply table is idempotent. */
module BalanceProperties {
  import opened Results
  import opened TableOps
  import opened LandTables
  import opened LandBalance

  /** Scaling a market's supply by its factor gives its demand. */
  lemma FactorRestoresDemand(t: real, d: real, s: real, c: real)
    requires d == s || s != 0.0
    requires c == MarketFactor(d, s)
    requires t == s * c
    ensures t == d
  {
  }

  /** A column scaled by the factor of its total against `d` sums to `d`. */
  lemma FactorBalancesColumn(col: seq<real>, d: real, c: real)
    requires d == Sum(col) || Sum(col) != 0.0
    requires c == MarketFactor(d, Sum(col))
    ensures Sum(Scaled(col, c)) == d
  {
    SumScaled(col, c);
    FactorRestoresDemand(Sum(Scaled(col, c)), d, Sum(col), c);
  }

  /** Scaling rows by per-market factors scales the column of each market by
      that market's factor. */
  lemma RescaledMarketColumn(join: seq<JoinedSupply>, factors: map<int, real>, m: int)
    requires forall k | 0 <= k < |join| :: join[k].mIdx in factors
    requires m in factors
    ensures MarketColumn(Rescale(join, factors), m) == Scaled(MarketColumn(join, m), factors[m])
  {
    var r, c := Rescale(join, factors), factors[m];
    forall k | 0 <= k < |join|
      ensures MarketColumn(r, m)[k] == Scaled(MarketColumn(join, m), c)[k]
    {
      if join[k].mIdx != m {
        assert 0.0 * c == 0.0;
      }
    }
  }

  /** A market whose factor is the ratio of `d` to its supply totals `d` after
      rescaling. */
  lemma RescaledMarketTotal(join: seq<JoinedSupply>, factors: map<int, real>, m: int, d: real)
    requires forall k | 0 <= k < |join| :: join[k].mIdx in factors
    requires m in factors
    requires d == MarketSupply(join, m) || MarketSupply(join, m) != 0.0
    requires factors[m] == MarketFactor(d, MarketSupply(join, m))
    ensures MarketSupply(Rescale(join, factors), m) == d
  {
    RescaledMarketColumn(join, factors, m);
    FactorBalancesColumn(MarketColumn(join, m), d, factors[m]);
  }

  /** After balancing, every market's supply total equals its demand total. */
  lemma BalancedMarketTotals(join: seq<JoinedSupply>, ad: seq<AgentDemand>, m: int)
    requires m in JoinMarkets(join)
    requires MarketCheck(join, ad, m) == Pass
    ensures MarketSupply(Rescale(join, MarketFactors(join, ad)), m) == MarketDemand(ad, m)
  {
    RescaledMarketTotal(join, MarketFactors(join, ad), m, MarketDemand(ad, m));
  }

  /** When every market is already balanced, all factors are 1.0 and the joined
      rows come back unchanged. */
  lemma BalancedJoinUnchanged(join: seq<JoinedSupply>, ad: seq<AgentDemand>)
    requires Balanceable(join, ad)
    requires forall m | m in JoinMarkets(join) :: MarketDemand(ad, m) == MarketSupply(join, m)
    ensures Rescale(join, MarketFactors(join, ad)) == join
  {
    var r := Rescale(join, MarketFactors(join, ad));
    forall k | 0 <= k < |join| ensures r[k] == join[k] {
      assert JoinMarkets(join)[k] in JoinMarkets(join);
    }
  }

  lemma {:induction false} BalanceCheckPass(join: seq<JoinedSupply>, ad: seq<AgentDemand>, markets: seq<int>)
    ensures BalanceCheck(join, ad, markets) == Pass <==> forall m | m in markets :: MarketCheck(join, ad, m) == Pass
    ensures BalanceCheck(join, ad, markets).Fail? ==>
      exists m | m in markets :: MarketCheck(join, ad, m) == BalanceCheck(join, ad, markets)
  {
    if markets != [] {
      BalanceCheckPass(join, ad, markets[1..]);
      assert markets == [markets[0]] + markets[1..];
    }
  }

  /** Balancing passes exactly when every market of the join passes its check;
      a failure reports the failing check of one of the join's markets. */
  lemma BalanceOutcomeIff(join: seq<JoinedSupply>, ad: seq<AgentDemand>)
    ensures BalanceOutcome(join, ad) == Pass <==> Balanceable(join, ad)
    ensures BalanceOutcome(join, ad).Fail? ==>
      exists m | m in JoinMarkets(join) :: MarketCheck(join, ad, m) == BalanceOutcome(join, ad)
  {
    BalanceCheckPass(join, ad, SortedKeys(JoinMarkets(join)));
  }

  // ---------------------------------------------------------------------------
  // A supply table aligned with the real-estate table

  function Key(r: RealEstate): (int, int) { (r.vIdx, r.iIdx) }

  /** Supply row `k` is the supply of real-estate row `k`, and no (type, zone)
      pair repeats: the layout that validation's row-count check expects. */
  predicate Aligned(re: seq<RealEstate>, supply: seq<Supply>)
  {
    && |supply| == |re|
    && (forall k | 0 <= k < |re| :: supply[k].vIdx == re[k].vIdx && supply[k].iIdx == re[k].iIdx)
    && (forall i, j | 0 <= i < j < |re| :: Key(re[i]) != Key(re[j]))
  }

  lemma {:induction false} MatchingPrefix(re: seq<RealEstate>, supply: seq<Supply>, k: int, n: int)
    requires Aligned(re, supply) && 0 <= k < |re| && 0 <= n <= |supply|
    ensures MatchingSupply(re[k], supply[..n])
         == if k < n then [JoinedSupply(re[k].vIdx, re[k].iIdx, re[k].mIdx, supply[k].nRest)] else []
  {
    if n > 0 {
      assert supply[..n][..n - 1] == supply[..n - 1];
      MatchingPrefix(re, supply, k, n - 1);
      if n - 1 != k {
        assert Key(re[k]) != Key(re[n - 1]);
      }
    }
  }

  /** Row `k` of the real-estate table matches exactly supply row `k`. */
  predicate OwnRowMatches(re: seq<RealEstate>, supply: seq<Supply>)
  {
    && |supply| == |re|
    && forall k | 0 <= k < |re| ::
         MatchingSupply(re[k], supply) == [JoinedSupply(re[k].vIdx, re[k].iIdx, re[k].mIdx, supply[k].nRest)]
  }

  lemma {:induction false} AlignedJoinPrefix(re: seq<RealEstate>, supply: seq<Supply>, n: int)
    requires OwnRowMatches(re, supply) && 0 <= n <= |re|
    ensures |SupplyJoin(re[..n], supply)| == n
    ensures forall k | 0 <= k < n ::
      SupplyJoin(re[..n], supply)[k] == JoinedSupply(re[k].vIdx, re[k].iIdx, re[k].mIdx, supply[k].nRest)
  {
    if n > 0 {
      var prev := SupplyJoin(re[..n - 1], supply);
      var row := JoinedSupply(re[n - 1].vIdx, re[n - 1].iIdx, re[n - 1].mIdx, supply[n - 1].nRest);
      assert re[..n][..n - 1] == re[..n - 1];
      AlignedJoinPrefix(re, supply, n - 1);
      var join := SupplyJoin(re[..n], supply);
      assert join == prev + [row];
      assert |join| == n && n <= |supply|;
      forall k | 0 <= k < n
        ensures join[k] == JoinedSupply(re[k].vIdx, re[k].iIdx, re[k].mIdx, supply[k].nRest)
      {
        if k < n - 1 {
          assert join[k] == prev[k];
        }
      }
    }
  }

  /** For an aligned supply table the merge pairs row `k` with row `k`, so
      projecting the join gives the supply table back. */
  lemma AlignedJoin(re: seq<RealEstate>, supply: seq<Supply>)
    requires Aligned(re, supply)
    ensures |SupplyJoin(re, supply)| == |re|
    ensures forall k | 0 <= k < |re| ::
      SupplyJoin(re, supply)[k] == JoinedSupply(re[k].vIdx, re[k].iIdx, re[k].mIdx, supply[k].nRest)
    ensures AsSupply(SupplyJoin(re, supply)) == supply
  {
    forall k | 0 <= k < |re|
      ensures MatchingSupply(re[k], supply) == [JoinedSupply(re[k].vIdx, re[k].iIdx, re[k].mIdx, supply[k].nRest)]
    {
      MatchingPrefix(re, supply, k, |supply|);
      assert supply[..|supply|] == supply;
    }
    AlignedJoinPrefix(re, supply, |re|);
    assert re[..|re|] == re;
  }

  /** Rescaling keeps every row's market, so the join has the same markets. */
  lemma RescaleKeepsMarkets(join: seq<JoinedSupply>, factors: map<int, real>)
    requires forall k | 0 <= k < |join| :: join[k].mIdx in factors
    ensures JoinMarkets(Rescale(join, factors)) == JoinMarkets(join)
  {
  }

  /** After balancing, every market passes its check again, now with supply
      equal to demand. */
  lemma BalancedJoinBalanced(join: seq<JoinedSupply>, ad: seq<AgentDemand>)
    requires Balanceable(join, ad)
    ensures var join2 := Rescale(join, MarketFactors(join, ad));
            && Balanceable(join2, ad)
            && forall m | m in JoinMarkets(join2) :: MarketDemand(ad, m) == MarketSupply(join2, m)
  {
    var join2 := Rescale(join, MarketFactors(join, ad));
    RescaleKeepsMarkets(join, MarketFactors(join, ad));
    forall m | m in JoinMarkets(join2)
      ensures MarketDemand(ad, m) == MarketSupply(join2, m) && MarketCheck(join2, ad, m) == Pass
    {
      BalancedMarketTotals(join, ad, m);
    }
  }

  /** Rescaling a join of an aligned table and projecting it gives a table that
      is still aligned, and joining that table again gives the rescaled join. */
  lemma RescaledStaysAligned(re: seq<RealEstate>, supply: seq<Supply>, factors: map<int, real>)
    requires Aligned(re, supply)
    requires forall k | 0 <= k < |SupplyJoin(re, supply)| :: SupplyJoin(re, supply)[k].mIdx in factors
    ensures var scaled := Rescale(SupplyJoin(re, supply), factors);
            Aligned(re, AsSupply(scaled)) && SupplyJoin(re, AsSupply(scaled)) == scaled
  {
    AlignedJoin(re, supply);
    var scaled := Rescale(SupplyJoin(re, supply), factors);
    var once := AsSupply(scaled);
    assert Aligned(re, once);
    AlignedJoin(re, once);
  }

  /** Balancing an aligned supply table twice gives what balancing once gives. */
  lemma BalanceIdempotent(re: seq<RealEstate>, supply: seq<Supply>, ad: seq<AgentDemand>)
    requires Aligned(re, supply)
    requires Balanceable(SupplyJoin(re, supply), ad)
    ensures var once := BalancedSupply(SupplyJoin(re, supply), ad);
            && Aligned(re, once)
            && Balanceable(SupplyJoin(re, once), ad)
            && BalancedSupply(SupplyJoin(re, once), ad) == once
  {
    var join := SupplyJoin(re, supply);
    var factors := MarketFactors(join, ad);
    var scaled := Rescale(join, factors);
    assert BalancedSupply(join, ad) == AsSupply(scaled);
    RescaledStaysAligned(re, supply, factors);
    assert SupplyJoin(re, AsSupply(scaled)) == scaled;
    BalancedJoinBalanced(join, ad);
    BalancedJoinUnchanged(scaled, ad);
    assert BalancedSupply(scaled, ad) == AsSupply(scaled);
  }
}
