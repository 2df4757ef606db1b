/** The supply/demand balancing rule of `evaluate_bids` (examples/landmodel.py):
    supply is joined to the real-estate table to learn each row's market, the
    aggregate supply and demand of every market are compared, and each supply
    row is scaled by its market's factor. */
module LandBalance {
  import opened Results
  import opened TableOps
  import opened LandTables

  /** A supply row joined to its real-estate row: the inner merge on (V_IDX, I_IDX). */
  datatype JoinedSupply = JoinedSupply(vIdx: int, iIdx: int, mIdx: int, nRest: real)

  /** The supply rows that share `r`'s type and zone, in supply order. */
  function MatchingSupply(r: RealEstate, supply: seq<Supply>): seq<JoinedSupply>
  {
    if supply == [] then []
    else
      var n := |supply| - 1;
      MatchingSupply(r, supply[..n])
      + (if supply[n].vIdx == r.vIdx && supply[n].iIdx == r.iIdx
         then [JoinedSupply(r.vIdx, r.iIdx, r.mIdx, supply[n].nRest)] else [])
  }

  /** The inner merge of real estate with supply, in real-estate order. */
  function SupplyJoin(re: seq<RealEstate>, supply: seq<Supply>): seq<JoinedSupply>
  {
    if re == [] then [] else SupplyJoin(re[..|re| - 1], supply) + MatchingSupply(re[|re| - 1], supply)
  }

  function JoinMarkets(join: seq<JoinedSupply>): (ms: seq<int>)
    ensures |ms| == |join|
    ensures forall k | 0 <= k < |join| :: ms[k] == join[k].mIdx
  {
    seq(|join|, k requires 0 <= k < |join| => join[k].mIdx)
  }

  /** The NREST column with the rows of other markets zeroed. */
  function MarketColumn(join: seq<JoinedSupply>, m: int): (col: seq<real>)
    ensures |col| == |join|
    ensures forall k | 0 <= k < |join| :: col[k] == if join[k].mIdx == m then join[k].nRest else 0.0
  {
    seq(|join|, k requires 0 <= k < |join| => if join[k].mIdx == m then join[k].nRest else 0.0)
  }

  /** `S_m`: the units of market `m` (the grouped sum of NREST). */
  function MarketSupply(join: seq<JoinedSupply>, m: int): real
  {
    Sum(MarketColumn(join, m))
  }

  /** An agent's demand row joined to the agent's market: the inner merge of
      agents and demand on IDAGENT = H_IDX. */
  datatype AgentDemand = AgentDemand(idMarket: int, demand: real)

  function DemandOf(a: Agent, demand: seq<Demand>): seq<AgentDemand>
  {
    if demand == [] then []
    else
      var n := |demand| - 1;
      DemandOf(a, demand[..n])
      + (if demand[n].hIdx == a.idAgent then [AgentDemand(a.idMarket, demand[n].demand)] else [])
  }

  function AgentDemandJoin(agents: seq<Agent>, demand: seq<Demand>): seq<AgentDemand>
  {
    if agents == [] then [] else AgentDemandJoin(agents[..|agents| - 1], demand) + DemandOf(agents[|agents| - 1], demand)
  }

  /** Market `m` appears among the grouped demand totals. */
  predicate HasDemand(ad: seq<AgentDemand>, m: int)
  {
    exists k | 0 <= k < |ad| :: ad[k].idMarket == m
  }

  /** `D_m`: the demand of the agents of market `m`. */
  function MarketDemand(ad: seq<AgentDemand>, m: int): real
  {
    if ad == [] then 0.0
    else
      var n := |ad| - 1;
      MarketDemand(ad[..n], m) + (if ad[n].idMarket == m then ad[n].demand else 0.0)
  }

  /** The factor of a market: 1.0 when demand already equals supply, the ratio
      of demand to supply otherwise. A market with no supply and a different
      demand fails `MarketCheck` before any factor is applied; it gets 1.0 here
      only so that the factor table is total. */
  function MarketFactor(d: real, s: real): (f: real)
    ensures d == s ==> f == 1.0
  {
    if d == s || s == 0.0 then 1.0 else d / s
  }

  /** The check made for one market of the supply join: its demand total must
      exist, and a market whose totals differ must have supply to scale. */
  function MarketCheck(join: seq<JoinedSupply>, ad: seq<AgentDemand>, m: int): Outcome<LandError>
  {
    if !HasDemand(ad, m) then Fail(MarketWithoutDemand(m))
    else if MarketDemand(ad, m) != MarketSupply(join, m) && MarketSupply(join, m) == 0.0 then Fail(ZeroMarketSupply(m))
    else Pass
  }

  predicate Balanceable(join: seq<JoinedSupply>, ad: seq<AgentDemand>)
  {
    forall m | m in JoinMarkets(join) :: MarketCheck(join, ad, m) == Pass
  }

  /** The first market of `markets`, in order, that fails its check, or Pass. */
  function BalanceCheck(join: seq<JoinedSupply>, ad: seq<AgentDemand>, markets: seq<int>): Outcome<LandError>
  {
    if markets == [] then Pass
    else if MarketCheck(join, ad, markets[0]).Fail? then MarketCheck(join, ad, markets[0])
    else BalanceCheck(join, ad, markets[1..])
  }

  /** What the balancing block reports: the markets of the join are visited in
      ascending order and the first one that fails its check stops it. */
  function BalanceOutcome(join: seq<JoinedSupply>, ad: seq<AgentDemand>): Outcome<LandError>
  {
    BalanceCheck(join, ad, SortedKeys(JoinMarkets(join)))
  }

  /** `mkt_factors`: the factor of every market of the join. */
  function MarketFactors(join: seq<JoinedSupply>, ad: seq<AgentDemand>): (f: map<int, real>)
    ensures forall k | 0 <= k < |join| :: join[k].mIdx in f
  {
    assert forall k | 0 <= k < |join| :: JoinMarkets(join)[k] in JoinMarkets(join);
    FactorsOver(join, ad, JoinMarkets(join))
  }

  /** The factors of the markets listed in `markets`. */
  function FactorsOver(join: seq<JoinedSupply>, ad: seq<AgentDemand>, markets: seq<int>): (f: map<int, real>)
    ensures forall m :: m in f <==> m in markets
  {
    map m | m in markets :: MarketFactor(MarketDemand(ad, m), MarketSupply(join, m))
  }

  /** Each joined row with NREST multiplied by its market's factor. */
  function Rescale(join: seq<JoinedSupply>, factors: map<int, real>): (r: seq<JoinedSupply>)
    requires forall k | 0 <= k < |join| :: join[k].mIdx in factors
    ensures |r| == |join|
    ensures forall k | 0 <= k < |join| ::
      r[k] == join[k].(nRest := join[k].nRest * factors[join[k].mIdx])
  {
    seq(|join|, k requires 0 <= k < |join| => join[k].(nRest := join[k].nRest * factors[join[k].mIdx]))
  }

  /** The new supply table: V_IDX, I_IDX and the rescaled NREST of each joined row. */
  function AsSupply(join: seq<JoinedSupply>): (s: seq<Supply>)
    ensures |s| == |join|
    ensures forall k | 0 <= k < |join| :: s[k] == Supply(join[k].vIdx, join[k].iIdx, join[k].nRest)
  {
    seq(|join|, k requires 0 <= k < |join| => Supply(join[k].vIdx, join[k].iIdx, join[k].nRest))
  }

  /** The supply table that balancing produces from the current tables. */
  function BalancedSupply(join: seq<JoinedSupply>, ad: seq<AgentDemand>): seq<Supply>
  {
    AsSupply(Rescale(join, MarketFactors(join, ad)))
  }
}
