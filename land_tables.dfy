/** The tables of the in-memory land model (`landModel` in examples/landmodel.py)
    and the pure rules behind its validation, its structural tables and its
    supply/demand balancing. Only the index columns the calibration logic reads
    are kept; every other attribute column is passed to the solver unread. */
module LandTables {
  import opened Results
  import opened TableOps

  /** A zone; column 0 of the zones table is its id. */
  datatype Zone = Zone(id: int)

  /** A real-estate row: type id (column 0, V_IDX), zone id (column 1, I_IDX)
      and market id (column 2, M_IDX). */
  datatype RealEstate = RealEstate(vIdx: int, iIdx: int, mIdx: int)

  /** An agent type: its id (column 0, IDAGENT) and its market (column 1, IDMARKET). */
  datatype Agent = Agent(idAgent: int, idMarket: int)

  datatype Demand = Demand(hIdx: int, demand: real)
  datatype Supply = Supply(vIdx: int, iIdx: int, nRest: real)
  datatype AgentZone = AgentZone(hIdx: int, iIdx: int, acc: real, att: real)
  datatype DemandCutoff = DemandCutoff(hIdx: int, vIdx: int, iIdx: int, dCutoff: int)
  datatype Subsidy = Subsidy(hIdx: int, vIdx: int, iIdx: int, subsidies: real)
  datatype BidAdjustment = BidAdjustment(hIdx: int, vIdx: int, iIdx: int, bidAdj: real)

  /** A row of the solver's per-agent output `bh`. */
  datatype BhRow = BhRow(agents: int, value: real)

  /** The solver outputs whose row counts are checked. */
  datatype OutputTable = LocationTable | LocationProbabilityTable | BidsTable | RentsTable | BhTable

  /** Every error the land model raises, one constructor per raising site. */
  datatype LandError =
    | ZoneIdsNotUnique
    | RealEstateZonesMismatch
    | MarketCountMismatch(agentMarkets: nat, realEstateMarkets: nat)
    | BidFunctionsMissing
    | RentFunctionsMissing
    | DemandRowCount
    | SupplyRowCount
    | MarketWithoutDemand(market: int)
    | ZeroMarketSupply(market: int)
    | OutputRowCount(table: OutputTable, rows: nat)
    | BadAgentColumn(name: string)
    | ZeroAllocation(agent: int)
    | NoComparableAgents
    | UnknownAgent(agent: int)
    | RmseUndefined

  // ---------------------------------------------------------------------------
  // Columns and distinct counts

  function ZoneIds(zones: seq<Zone>): (ids: seq<int>)
    ensures |ids| == |zones|
    ensures forall k | 0 <= k < |zones| :: ids[k] == zones[k].id
  {
    seq(|zones|, k requires 0 <= k < |zones| => zones[k].id)
  }

  function TypeIds(re: seq<RealEstate>): set<int> { set r | r in re :: r.vIdx }
  function RealEstateZoneIds(re: seq<RealEstate>): set<int> { set r | r in re :: r.iIdx }
  function RealEstateMarkets(re: seq<RealEstate>): set<int> { set r | r in re :: r.mIdx }
  function AgentMarkets(agents: seq<Agent>): set<int> { set a | a in agents :: a.idMarket }

  // ---------------------------------------------------------------------------
  // Ordering of the real-estate table by (zone id, type id)

  predicate ZoneTypeLe(a: RealEstate, b: RealEstate)
  {
    a.iIdx < b.iIdx || (a.iIdx == b.iIdx && a.vIdx <= b.vIdx)
  }

  predicate SortedByZoneType(s: seq<RealEstate>)
  {
    forall i, j | 0 <= i < j < |s| :: ZoneTypeLe(s[i], s[j])
  }

  /** Every row of `t` is a row of `s` or `x`; if all of those are at most `y`,
      so is every row of `t`. */
  lemma BoundedByMultiset(t: seq<RealEstate>, s: seq<RealEstate>, x: RealEstate, y: RealEstate)
    requires multiset(t) == multiset(s) + multiset{x}
    requires forall i | 0 <= i < |s| :: ZoneTypeLe(s[i], y)
    requires ZoneTypeLe(x, y)
    ensures forall i | 0 <= i < |t| :: ZoneTypeLe(t[i], y)
  {
    forall i | 0 <= i < |t| ensures ZoneTypeLe(t[i], y) {
      assert t[i] in multiset(t);
      if t[i] != x {
        assert t[i] in multiset(s);
        var j :| 0 <= j < |s| && s[j] == t[i];
      }
    }
  }

  /** Places `x` after every row whose key is not greater than its own. */
  function InsertByZoneType(s: seq<RealEstate>, x: RealEstate): (r: seq<RealEstate>)
    requires SortedByZoneType(s)
    ensures SortedByZoneType(r)
    ensures multiset(r) == multiset(s) + multiset{x}
  {
    if s == [] then [x]
    else
      var n := |s| - 1;
      if ZoneTypeLe(s[n], x) then s + [x]
      else
        var t := InsertByZoneType(s[..n], x);
        assert s == s[..n] + [s[n]];
        BoundedByMultiset(t, s[..n], x, s[n]);
        t + [s[n]]
  }

  /** The real-estate table sorted by zone id, then type id, by insertion; it
      is stable (see `SortIsStable`), as pandas sorts on several columns. */
  function SortByZoneType(s: seq<RealEstate>): (r: seq<RealEstate>)
    ensures SortedByZoneType(r)
    ensures multiset(r) == multiset(s)
  {
    if s == [] then []
    else
      var n := |s| - 1;
      assert s == s[..n] + [s[n]];
      InsertByZoneType(SortByZoneType(s[..n]), s[n])
  }

  /** The rows of `s` with zone id `z` and type id `v`, in table order. */
  function RowsWithKey(s: seq<RealEstate>, z: int, v: int): seq<RealEstate>
  {
    if s == [] then []
    else
      var n := |s| - 1;
      RowsWithKey(s[..n], z, v) + (if s[n].iIdx == z && s[n].vIdx == v then [s[n]] else [])
  }

  lemma RowsWithKeyAppend(s: seq<RealEstate>, x: RealEstate, z: int, v: int)
    ensures RowsWithKey(s + [x], z, v) == RowsWithKey(s, z, v) + (if x.iIdx == z && x.vIdx == v then [x] else [])
  {
    assert (s + [x])[..|s|] == s;
  }

  /** Inserting `x` puts it after every row that shares its key. */
  lemma {:induction false} InsertKeepsOrder(s: seq<RealEstate>, x: RealEstate, z: int, v: int)
    requires SortedByZoneType(s)
    ensures RowsWithKey(InsertByZoneType(s, x), z, v)
            == RowsWithKey(s, z, v) + (if x.iIdx == z && x.vIdx == v then [x] else [])
  {
    if s == [] {
      RowsWithKeyAppend([], x, z, v);
      assert [] + [x] == [x];
    } else {
      var n := |s| - 1;
      assert s == s[..n] + [s[n]];
      if ZoneTypeLe(s[n], x) {
        RowsWithKeyAppend(s, x, z, v);
      } else {
        InsertKeepsOrder(s[..n], x, z, v);
        RowsWithKeyAppend(InsertByZoneType(s[..n], x), s[n], z, v);
        RowsWithKeyAppend(s[..n], s[n], z, v);
      }
    }
  }

  /** The sort is stable: rows with the same zone and type ids (which may
      differ in their market) keep their order. */
  lemma {:induction false} SortIsStable(s: seq<RealEstate>, z: int, v: int)
    ensures RowsWithKey(SortByZoneType(s), z, v) == RowsWithKey(s, z, v)
  {
    if s != [] {
      var n := |s| - 1;
      SortIsStable(s[..n], z, v);
      InsertKeepsOrder(SortByZoneType(s[..n]), s[n], z, v);
    }
  }

  /** Sorting keeps the distinct type, zone and market ids, so the counts taken
      after the sort are those of the table as loaded. */
  lemma SortKeepsIds(s: seq<RealEstate>)
    ensures TypeIds(SortByZoneType(s)) == TypeIds(s)
    ensures RealEstateZoneIds(SortByZoneType(s)) == RealEstateZoneIds(s)
    ensures RealEstateMarkets(SortByZoneType(s)) == RealEstateMarkets(s)
  {
    var r := SortByZoneType(s);
    assert forall x :: x in r <==> x in multiset(r);
    assert forall x :: x in s <==> x in multiset(s);
  }

  // ---------------------------------------------------------------------------
  // Validation

  /** The sizes `validate` compares: distinct zone ids, zones, distinct zone
      ids of the real-estate table, distinct markets of the agent and of the
      real-estate tables, and the rows of demand, agents, supply and real estate. */
  datatype TableCounts = TableCounts(zoneIds: nat, zones: nat, reZones: nat, agentMarkets: nat,
                                     reMarkets: nat, demand: nat, agents: nat, supply: nat, realEstates: nat)

  function Counts(zones: seq<Zone>, re: seq<RealEstate>, agents: seq<Agent>,
                  demand: seq<Demand>, supply: seq<Supply>): TableCounts
  {
    TableCounts(|Values(ZoneIds(zones))|, |zones|, |RealEstateZoneIds(re)|, |AgentMarkets(agents)|,
                |RealEstateMarkets(re)|, |demand|, |agents|, |supply|, |re|)
  }

  /** The checks of `validate` on the sizes, in the order it runs them; the
      first failing one is reported. */
  function CountsOutcome(c: TableCounts, hasBidsFunctions: bool, hasRentFunctions: bool): Outcome<LandError>
  {
    if c.zoneIds != c.zones then Fail(ZoneIdsNotUnique)
    else if c.reZones != c.zones then Fail(RealEstateZonesMismatch)
    else if c.agentMarkets != c.reMarkets then Fail(MarketCountMismatch(c.agentMarkets, c.reMarkets))
    else RowChecks(hasBidsFunctions, hasRentFunctions, c.demand, c.agents, c.supply, c.realEstates)
  }

  /** The checks of `validate` after the counts are assigned: both function
      tables loaded, one demand row per agent, one supply row per real-estate row. */
  function RowChecks(hasBidsFunctions: bool, hasRentFunctions: bool, demandRows: nat, agents: nat,
                     supplyRows: nat, realEstates: nat): Outcome<LandError>
  {
    if !hasBidsFunctions then Fail(BidFunctionsMissing)
    else if !hasRentFunctions then Fail(RentFunctionsMissing)
    else if demandRows != agents then Fail(DemandRowCount)
    else if supplyRows != realEstates then Fail(SupplyRowCount)
    else Pass
  }

  /** What `validate` reports for the given tables. */
  function ValidationOutcome(zones: seq<Zone>, re: seq<RealEstate>, agents: seq<Agent>,
                             demand: seq<Demand>, supply: seq<Supply>,
                             hasBidsFunctions: bool, hasRentFunctions: bool): Outcome<LandError>
  {
    CountsOutcome(Counts(zones, re, agents, demand, supply), hasBidsFunctions, hasRentFunctions)
  }

  /** Validation passes exactly when zone ids are unique, the real-estate table
      names as many distinct zones as there are zones, both tables count the
      same markets, both function tables are loaded and demand and supply have
      one row per agent and per real-estate row. */
  lemma ValidationAcceptsIff(zones: seq<Zone>, re: seq<RealEstate>, agents: seq<Agent>,
                             demand: seq<Demand>, supply: seq<Supply>,
                             hasBidsFunctions: bool, hasRentFunctions: bool)
    ensures ValidationOutcome(zones, re, agents, demand, supply, hasBidsFunctions, hasRentFunctions) == Pass
        <==> && NoDuplicates(ZoneIds(zones))
             && |RealEstateZoneIds(re)| == |zones|
             && |AgentMarkets(agents)| == |RealEstateMarkets(re)|
             && hasBidsFunctions && hasRentFunctions
             && |demand| == |agents|
             && |supply| == |re|
  {
    DistinctCount(ZoneIds(zones));
  }

  /** Two zones with one id are always rejected, and by the first check. */
  lemma DuplicateZoneIdsRejected(zones: seq<Zone>, re: seq<RealEstate>, agents: seq<Agent>,
                                 demand: seq<Demand>, supply: seq<Supply>,
                                 hasBidsFunctions: bool, hasRentFunctions: bool, i: int, j: int)
    requires 0 <= i < j < |zones| && zones[i].id == zones[j].id
    ensures ValidationOutcome(zones, re, agents, demand, supply, hasBidsFunctions, hasRentFunctions)
         == Fail(ZoneIdsNotUnique)
  {
    DistinctCount(ZoneIds(zones));
    assert ZoneIds(zones)[i] == ZoneIds(zones)[j];
  }

  /** A minimal well-formed table set (one zone, one real-estate type, one
      market, one agent) is accepted. */
  lemma MinimalTableSetAccepted(zone: int, vIdx: int, market: int, agent: int, d: real, s: real)
    ensures ValidationOutcome([Zone(zone)], [RealEstate(vIdx, zone, market)], [Agent(agent, market)],
                              [Demand(agent, d)], [Supply(vIdx, zone, s)], true, true) == Pass
  {
    assert Values(ZoneIds([Zone(zone)])) == {zone} by {
      assert ZoneIds([Zone(zone)]) == [zone];
    }
    assert RealEstateZoneIds([RealEstate(vIdx, zone, market)]) == {zone};
    assert AgentMarkets([Agent(agent, market)]) == {market};
    assert RealEstateMarkets([RealEstate(vIdx, zone, market)]) == {market};
  }

  // ---------------------------------------------------------------------------
  // Structural tables built by fill_structure

  function AgentZoneRow(z: Zone, a: Agent): AgentZone
  {
    AgentZone(a.idAgent, z.id, 0.0, 0.0)
  }

  function CutoffRow(r: RealEstate, a: Agent): DemandCutoff
  {
    DemandCutoff(a.idAgent, r.vIdx, r.iIdx, if a.idMarket == r.mIdx then 1 else 0)
  }

  function SubsidyRow(r: RealEstate, a: Agent): Subsidy
  {
    Subsidy(a.idAgent, r.vIdx, r.iIdx, 0.0)
  }

  /** `agents_zones` has one row per (zone, agent) pair, zone-major, with zero
      accessibility and attractiveness. */
  lemma AgentZonesLayout(zones: seq<Zone>, agents: seq<Agent>, k: int)
    requires 0 <= k < |zones| * |agents|
    ensures |Product(zones, agents, AgentZoneRow)| == |zones| * |agents|
    ensures 0 <= k / |agents| < |zones| && 0 <= k % |agents| < |agents|
    ensures Product(zones, agents, AgentZoneRow)[k]
         == AgentZone(agents[k % |agents|].idAgent, zones[k / |agents|].id, 0.0, 0.0)
  {
    ProductAt(zones, agents, AgentZoneRow, k);
  }

  /** `demand_cutoff` has one row per (real-estate row, agent) pair, and its flag
      is 1 exactly when the agent's market is the row's market. */
  lemma DemandCutoffLayout(re: seq<RealEstate>, agents: seq<Agent>, k: int)
    requires 0 <= k < |re| * |agents|
    ensures |Product(re, agents, CutoffRow)| == |re| * |agents|
    ensures 0 <= k / |agents| < |re| && 0 <= k % |agents| < |agents|
    ensures var row, r, a := Product(re, agents, CutoffRow)[k], re[k / |agents|], agents[k % |agents|];
            && row.hIdx == a.idAgent && row.vIdx == r.vIdx && row.iIdx == r.iIdx
            && (row.dCutoff == 1 <==> a.idMarket == r.mIdx)
            && (row.dCutoff == 0 <==> a.idMarket != r.mIdx)
  {
    ProductAt(re, agents, CutoffRow, k);
  }

  /** `subsidies` has one zero row per (real-estate row, agent) pair. */
  lemma SubsidiesLayout(re: seq<RealEstate>, agents: seq<Agent>, k: int)
    requires 0 <= k < |re| * |agents|
    ensures |Product(re, agents, SubsidyRow)| == |re| * |agents|
    ensures 0 <= k / |agents| < |re| && 0 <= k % |agents| < |agents|
    ensures Product(re, agents, SubsidyRow)[k]
         == Subsidy(agents[k % |agents|].idAgent, re[k / |agents|].vIdx, re[k / |agents|].iIdx, 0.0)
  {
    ProductAt(re, agents, SubsidyRow, k);
  }
}
