/** `landModel` (examples/landmodel.py): the tables of a mu-Land run held in
    memory, the validation that derives the table counts, the structural tables,
    the balancing and output checks around the solver, and the fixed-supply
    calibration loop. The solver is a function of the two tables calibration
    changes (supply and bid adjustments). The other inputs it reads (the
    sorted real-estate table, the structural tables) change in `Validate` and
    `FillStructure`, but not during `RunFixedSupply`, whose frame leaves them
    out; for one run they are folded into that function. */
module Land {
  import opened Results
  import opened TableOps
  import opened LandTables
  import opened LandBalance
  import opened LandCalibration

  /** The inputs of one solver run that the calibration changes. */
  datatype SolverInput = SolverInput(supply: seq<Supply>, bidsAdjustments: seq<BidAdjustment>)

  /** The outputs of one solver run: the location table, the row counts of
      the location probability, bids and rents tables, and `bh`. */
  datatype SolverOutput = SolverOutput(location: Location, locationProbabilityRows: nat,
                                       bidsRows: nat, rentsRows: nat, bh: seq<BhRow>)

  /** One solver run on the current supply and bid adjustments. */
  function SolverRun(solve: SolverInput -> SolverOutput, supply: seq<Supply>,
                     bidsAdjustments: seq<BidAdjustment>): SolverOutput
  {
    solve(SolverInput(supply, bidsAdjustments))
  }

  /** The row count of every zone/type table the solver writes. */
  function ExpectedRows(nZones: nat, nTypes: nat): nat
  {
    nZones * nTypes
  }

  /** The checks `evaluate_bids` makes on the solver's outputs, in its order:
      every zone/type table has `expected` rows and `bh` one row per agent. */
  function OutputCheck(out: SolverOutput, expected: nat, nAgent: nat): Outcome<LandError>
  {
    if out.location.rows != expected then Fail(OutputRowCount(LocationTable, out.location.rows))
    else if out.locationProbabilityRows != expected then Fail(OutputRowCount(LocationProbabilityTable, out.locationProbabilityRows))
    else if out.bidsRows != expected then Fail(OutputRowCount(BidsTable, out.bidsRows))
    else if out.rentsRows != expected then Fail(OutputRowCount(RentsTable, out.rentsRows))
    else if |out.bh| != nAgent then Fail(OutputRowCount(BhTable, |out.bh|))
    else Pass
  }

  /** The output tables a model holds: the location table, the row counts of
      the other zone/type tables, and `bh`. */
  datatype OutputTables = OutputTables(location: Location, locationProbabilityRows: nat,
                                       bidsRows: nat, rentsRows: nat, bh: seq<BhRow>)

  /** The output tables after `evaluate_bids` reads the solver's outputs: each
      table is read and then checked, so the tables after the first one that
      fails its check keep their previous contents. */
  function ReadOutputs(prev: OutputTables, out: SolverOutput, expected: nat, nAgent: nat): OutputTables
  {
    var t1 := prev.(location := out.location);
    if out.location.rows != expected then t1
    else
      var t2 := t1.(locationProbabilityRows := out.locationProbabilityRows);
      if out.locationProbabilityRows != expected then t2
      else
        var t3 := t2.(bidsRows := out.bidsRows);
        if out.bidsRows != expected then t3
        else
          var t4 := t3.(rentsRows := out.rentsRows);
          if out.rentsRows != expected then t4
          else t4.(bh := out.bh)
  }

  /** No stop decision was taken after any of the first `n` passes. */
  ghost predicate NoStopBefore(n: int, diffs: seq<real>, rmses: seq<Extended>, tolerance: real, minrmse: real)
    requires 0 <= n <= |diffs| && n <= |rmses|
  {
    forall k | 1 <= k < n :: StopRule(k, diffs[k], rmses[k], rmses[k - 1], tolerance, minrmse) == None
  }

  /** Recording one more pass keeps the earlier passes' records, and extends
      the no-stop history when that pass took no stop decision. */
  lemma NoStopExtend(k: nat, diffs: seq<real>, rmses: seq<Extended>, d: real, r: Extended,
                     tolerance: real, minrmse: real)
    requires |diffs| == k && |rmses| == k && NoStopBefore(k, diffs, rmses, tolerance, minrmse)
    ensures NoStopBefore(k, diffs + [d], rmses + [r], tolerance, minrmse)
    ensures k == 0 || StopRule(k, d, r, rmses[k - 1], tolerance, minrmse) == None ==>
      NoStopBefore(k + 1, diffs + [d], rmses + [r], tolerance, minrmse)
  {
    var ds, rs := diffs + [d], rmses + [r];
    assert forall t | 0 <= t < k :: ds[t] == diffs[t] && rs[t] == rmses[t];
  }

  /** A run that ended normally: one recorded `maxapdiff` and RMSE per pass,
      at most `maxiters` passes, all of them if no stop decision was taken, and
      a stop decision taken only after the last pass, which was not the first. */
  ghost predicate RunRecord(s: RunSummary, diffs: seq<real>, rmses: seq<Extended>,
                            tolerance: real, maxiters: int, minrmse: real)
  {
    && |diffs| == s.passes && |rmses| == s.passes
    && s.passes <= (if maxiters < 0 then 0 else maxiters)
    && (s.end.Exhausted? ==>
          s.passes == (if maxiters < 0 then 0 else maxiters)
          && NoStopBefore(s.passes, diffs, rmses, tolerance, minrmse))
    && (s.end.Stopped? ==>
          && s.passes >= 2
          && NoStopBefore(s.passes - 1, diffs, rmses, tolerance, minrmse)
          && StopRule(s.passes - 1, diffs[s.passes - 1], rmses[s.passes - 1], rmses[s.passes - 2],
                      tolerance, minrmse) == Some(s.end.reason))
  }

  /** How many of `validate`'s assignment points an outcome got past: 0 when
      a zone check failed, 1 when the tables were sorted and the market
      count failed, 2 when `nAgent` was assigned as well. */
  function ValidationStage(outcome: Outcome<LandError>): nat
  {
    match outcome
    case Pass => 2
    case Fail(e) =>
      match e
      case ZoneIdsNotUnique => 0
      case RealEstateZonesMismatch => 0
      case MarketCountMismatch(_, _) => 1
      case _ => 2
  }

  /** Why a calibration run ended: a stop decision, or `maxiters` passes. */
  datatype RunEnd = Stopped(reason: StopReason) | Exhausted

  datatype RunSummary = RunSummary(end: RunEnd, passes: nat)

  /** A stop decision after pass `k` (counting from 0) ends a run of `k + 1`
      recorded passes as `RunRecord` describes. */
  lemma StoppedRecord(k: nat, diffs: seq<real>, rmses: seq<Extended>, d: real, r: Extended,
                      reason: StopReason, tolerance: real, maxiters: int, minrmse: real)
    requires k < maxiters && |diffs| == k && |rmses| == k
    requires NoStopBefore(k, diffs, rmses, tolerance, minrmse)
    requires k > 0 && StopRule(k, d, r, rmses[k - 1], tolerance, minrmse) == Some(reason)
    ensures RunRecord(RunSummary(Stopped(reason), k + 1), diffs + [d], rmses + [r], tolerance, maxiters, minrmse)
  {
    NoStopExtend(k, diffs, rmses, d, r, tolerance, minrmse);
    var ds, rs := diffs + [d], rmses + [r];
    assert ds[k] == d && rs[k] == r && rs[k - 1] == rmses[k - 1];
  }

  /** Running out of passes without a stop decision ends a run as
      `RunRecord` describes. */
  lemma ExhaustedRecord(k: nat, diffs: seq<real>, rmses: seq<Extended>,
                        tolerance: real, maxiters: int, minrmse: real)
    requires k == (if maxiters < 0 then 0 else maxiters) && |diffs| == k && |rmses| == k
    requires NoStopBefore(k, diffs, rmses, tolerance, minrmse)
    ensures RunRecord(RunSummary(Exhausted, k), diffs, rmses, tolerance, maxiters, minrmse)
  {
  }

  /** Sorting keeps the row count and the numbers of distinct markets and types. */
  lemma SortKeepsCounts(s: seq<RealEstate>)
    ensures |SortByZoneType(s)| == |s|
    ensures |RealEstateMarkets(SortByZoneType(s))| == |RealEstateMarkets(s)|
    ensures |TypeIds(SortByZoneType(s))| == |TypeIds(s)|
  {
    assert |multiset(SortByZoneType(s))| == |multiset(s)|;
    SortKeepsIds(s);
  }

  /** Row `i` of a product, `xs`-major, extends the rows of the first `i` entries. */
  lemma ProductStep<A, B, C>(xs: seq<A>, ys: seq<B>, f: (A, B) -> C, i: int)
    requires 0 <= i < |xs|
    ensures Product(xs[..i + 1], ys, f)
         == Product(xs[..i], ys, f) + seq(|ys|, j requires 0 <= j < |ys| => f(xs[i], ys[j]))
  {
    assert xs[..i + 1][..i] == xs[..i];
  }

  lemma FactorsOverAppend(join: seq<JoinedSupply>, ad: seq<AgentDemand>, markets: seq<int>, m: int)
    ensures FactorsOver(join, ad, markets + [m])
         == FactorsOver(join, ad, markets)[m := MarketFactor(MarketDemand(ad, m), MarketSupply(join, m))]
  {
  }

  /** Visiting market `i` of `markets`: its check decides the outcome unless
      it passes, and its factor joins those of the markets before it. */
  lemma MarketStep(join: seq<JoinedSupply>, ad: seq<AgentDemand>, markets: seq<int>, i: nat)
    requires i < |markets|
    ensures var m := markets[i];
      && BalanceCheck(join, ad, markets[i..])
         == (if MarketCheck(join, ad, m).Fail? then MarketCheck(join, ad, m) else BalanceCheck(join, ad, markets[i + 1..]))
      && FactorsOver(join, ad, markets[..i + 1])
         == FactorsOver(join, ad, markets[..i])[m := MarketFactor(MarketDemand(ad, m), MarketSupply(join, m))]
  {
    assert markets[i..][1..] == markets[i + 1..];
    assert markets[..i + 1] == markets[..i] + [markets[i]];
    FactorsOverAppend(join, ad, markets[..i], markets[i]);
  }

  lemma FactorsOverSameMarkets(join: seq<JoinedSupply>, ad: seq<AgentDemand>, xs: seq<int>, ys: seq<int>)
    requires forall v :: v in xs <==> v in ys
    ensures FactorsOver(join, ad, xs) == FactorsOver(join, ad, ys)
  {
  }

  /** The inner loop of `fill_structure` for one zone: one accessibility row
      per agent, in agent order. */
  method ZoneRows(z: Zone, agents: seq<Agent>) returns (rows: seq<AgentZone>)
    ensures rows == seq(|agents|, k requires 0 <= k < |agents| => AgentZoneRow(z, agents[k]))
  {
    rows := [];
    for j := 0 to |agents|
      invariant |rows| == j && forall k | 0 <= k < j :: rows[k] == AgentZoneRow(z, agents[k])
    {
      rows := rows + [AgentZone(agents[j].idAgent, z.id, 0.0, 0.0)];
    }
  }

  /** The accessibility loops of `fill_structure`: for each zone, one row per
      agent with ACC and ATT 0. */
  method AgentZoneRows(zones: seq<Zone>, agents: seq<Agent>) returns (rows: seq<AgentZone>)
    ensures rows == Product(zones, agents, AgentZoneRow)
  {
    rows := [];
    for i := 0 to |zones|
      invariant rows == Product(zones[..i], agents, AgentZoneRow)
    {
      ProductStep(zones, agents, AgentZoneRow, i);
      var zoneRows := ZoneRows(zones[i], agents);
      rows := rows + zoneRows;
    }
    assert zones[..|zones|] == zones;
  }

  /** The inner loop of `fill_structure` for one real-estate row: one cut-off
      row and one subsidy row per agent, in agent order. */
  method RealEstateRows(r: RealEstate, agents: seq<Agent>) returns (cutoffs: seq<DemandCutoff>, subsidies: seq<Subsidy>)
    ensures cutoffs == seq(|agents|, k requires 0 <= k < |agents| => CutoffRow(r, agents[k]))
    ensures subsidies == seq(|agents|, k requires 0 <= k < |agents| => SubsidyRow(r, agents[k]))
  {
    cutoffs, subsidies := [], [];
    for j := 0 to |agents|
      invariant |cutoffs| == j && |subsidies| == j
      invariant forall k | 0 <= k < j :: cutoffs[k] == CutoffRow(r, agents[k])
      invariant forall k | 0 <= k < j :: subsidies[k] == SubsidyRow(r, agents[k])
    {
      var cutoff := if agents[j].idMarket == r.mIdx then 1 else 0;
      cutoffs := cutoffs + [DemandCutoff(agents[j].idAgent, r.vIdx, r.iIdx, cutoff)];
      subsidies := subsidies + [Subsidy(agents[j].idAgent, r.vIdx, r.iIdx, 0.0)];
    }
  }

  /** The cut-off and subsidy loops of `fill_structure`: for each real-estate
      row, one row per agent, DCUTOFF 1 exactly for agents of the row's market
      and SUBSIDIES 0. */
  method CutoffAndSubsidyRows(re: seq<RealEstate>, agents: seq<Agent>)
    returns (cutoffs: seq<DemandCutoff>, subsidies: seq<Subsidy>)
    ensures cutoffs == Product(re, agents, CutoffRow)
    ensures subsidies == Product(re, agents, SubsidyRow)
  {
    cutoffs, subsidies := [], [];
    for i := 0 to |re|
      invariant cutoffs == Product(re[..i], agents, CutoffRow)
      invariant subsidies == Product(re[..i], agents, SubsidyRow)
    {
      ProductStep(re, agents, CutoffRow, i);
      ProductStep(re, agents, SubsidyRow, i);
      var cut, sub := RealEstateRows(re[i], agents);
      cutoffs, subsidies := cutoffs + cut, subsidies + sub;
    }
    assert re[..|re|] == re;
  }

  /** The factor loop of the balancing block: the markets of the join in
      ascending order, each checked and then given its factor, stopping at the
      first market that fails its check. */
  method ComputeMarketFactors(join: seq<JoinedSupply>, ad: seq<AgentDemand>)
    returns (r: Result<map<int, real>, LandError>)
    ensures r.Failure? ==> BalanceOutcome(join, ad) == Fail(r.error)
    ensures r.Success? ==> BalanceOutcome(join, ad) == Pass && r.value == MarketFactors(join, ad)
  {
    var markets := SortedKeys(JoinMarkets(join));
    var factors: map<int, real> := map[];
    for i := 0 to |markets|
      invariant BalanceCheck(join, ad, markets[i..]) == BalanceOutcome(join, ad)
      invariant factors == FactorsOver(join, ad, markets[..i])
    {
      var m := markets[i];
      MarketStep(join, ad, markets, i);
      if !HasDemand(ad, m) {
        return Failure(MarketWithoutDemand(m));
      }
      var d, s := MarketDemand(ad, m), MarketSupply(join, m);
      if d != s && s == 0.0 {
        return Failure(ZeroMarketSupply(m));
      }
      var f := 1.0;
      if d != s {
        f := d / s;
      }
      assert f == MarketFactor(d, s);
      factors := factors[m := f];
    }
    assert markets[..|markets|] == markets;
    FactorsOverSameMarkets(join, ad, markets, JoinMarkets(join));
    return Success(factors);
  }

  /** The fields `validate` leaves behind, given how far its checks got
      (`stage`, see `ValidationStage`): the real-estate table sorted and its
      market and type counts once the zone checks pass, the agent count once
      the market check passes, and the earlier values otherwise. */
  ghost predicate ValidatedFields(stage: nat, re0: seq<RealEstate>, agentCount: nat,
                                  nMarket0: nat, nTypes0: nat, nAgent0: nat,
                                  re: seq<RealEstate>, nMarket: nat, nTypes: nat, nAgent: nat)
  {
    && (if stage >= 1 then
          && re == SortByZoneType(re0)
          && nMarket == |RealEstateMarkets(re0)|
          && nTypes == |TypeIds(re0)|
        else re == re0 && nMarket == nMarket0 && nTypes == nTypes0)
    && nAgent == (if stage == 2 then agentCount else nAgent0)
  }

  /** What one successful pass of `run_fixedSupply` leaves behind, from the
      supply `supply0` and adjustments `adj0` it started with: the supply
      balanced when asked (after the balance check passed) and unchanged
      otherwise, solver outputs of the expected size with their allocation
      kept as `location`, and the calibration pass on those outputs succeeded
      with its corrected `bh` and adjustments kept. */
  ghost predicate PassTaken(balance: bool, join: seq<JoinedSupply>, ad: seq<AgentDemand>,
                            supply0: seq<Supply>, adj0: seq<BidAdjustment>,
                            solve: SolverInput -> SolverOutput, expected: nat, nAgent: nat,
                            demand: seq<Demand>, ln: real -> real,
                            supply: seq<Supply>, location: Location, bh: seq<BhRow>,
                            adj: seq<BidAdjustment>, pass: PassResult)
  {
    var out := SolverRun(solve, supply, adj0);
    && (balance ==> BalanceOutcome(join, ad) == Pass)
    && supply == (if balance then BalancedSupply(join, ad) else supply0)
    && OutputCheck(out, expected, nAgent) == Pass
    && location == out.location
    && (forall j | 0 <= j < |demand| :: demand[j].demand > 0.0)
    && CalibrationPass(out.location, demand, out.bh, adj0, ln) == Success(pass)
    && bh == pass.bh && adj == pass.bidsAdjustments
  }

  /** What one successful pass of `run_fixedSupply` leaves in the model:
      the supply, the allocation, the corrected `bh` and adjustments, and the
      pass's own results. */
  datatype PassStep = PassStep(supply: seq<Supply>, location: Location, bh: seq<BhRow>,
                               adjustments: seq<BidAdjustment>, pass: PassResult)

  /** The pass `step` was taken (as `PassTaken` describes) from supply `s`
      and adjustments `a`. */
  ghost predicate StepTaken(balance: bool, realEstates: seq<RealEstate>, agents: seq<Agent>,
                            demand: seq<Demand>, expected: nat, nAgent: nat,
                            solve: SolverInput -> SolverOutput, ln: real -> real,
                            s: seq<Supply>, a: seq<BidAdjustment>, step: PassStep)
  {
    PassTaken(balance, SupplyJoin(realEstates, s), AgentDemandJoin(agents, demand), s, a, solve,
              expected, nAgent, demand, ln, step.supply, step.location, step.bh, step.adjustments, step.pass)
  }

  /** A pass of `run_fixedSupply` from supply `s` and adjustments `a` raises:
      balancing (when asked) finds a market it cannot scale, an output of the
      solver has the wrong size, or the calibration pass on its outputs fails. */
  ghost predicate StepFails(balance: bool, realEstates: seq<RealEstate>, agents: seq<Agent>,
                            demand: seq<Demand>, expected: nat, nAgent: nat,
                            solve: SolverInput -> SolverOutput, ln: real -> real,
                            s: seq<Supply>, a: seq<BidAdjustment>)
  {
    var join, ad := SupplyJoin(realEstates, s), AgentDemandJoin(agents, demand);
    if balance && BalanceOutcome(join, ad).Fail? then true
    else
      var out := SolverRun(solve, if balance then BalancedSupply(join, ad) else s, a);
      || OutputCheck(out, expected, nAgent).Fail?
      || ((forall j | 0 <= j < |demand| :: demand[j].demand > 0.0)
          && CalibrationPass(out.location, demand, out.bh, a, ln).Failure?)
  }

  /** The supply pass `k` of `steps` starts from. */
  function SupplyBefore(supply0: seq<Supply>, steps: seq<PassStep>, k: nat): seq<Supply>
    requires k <= |steps|
  {
    if k == 0 then supply0 else steps[k - 1].supply
  }

  /** The adjustments pass `k` of `steps` starts from. */
  function AdjustmentsBefore(adj0: seq<BidAdjustment>, steps: seq<PassStep>, k: nat): seq<BidAdjustment>
    requires k <= |steps|
  {
    if k == 0 then adj0 else steps[k - 1].adjustments
  }

  /** `steps` are the passes of a run in order, each taken from the state
      the one before it left, the first from `supply0` and `adj0`. */
  ghost predicate PassChain(balance: bool, realEstates: seq<RealEstate>, agents: seq<Agent>,
                            demand: seq<Demand>, expected: nat, nAgent: nat,
                            solve: SolverInput -> SolverOutput, ln: real -> real,
                            supply0: seq<Supply>, adj0: seq<BidAdjustment>, steps: seq<PassStep>)
  {
    if steps == [] then true
    else
      var n := |steps| - 1;
      && PassChain(balance, realEstates, agents, demand, expected, nAgent, solve, ln, supply0, adj0, steps[..n])
      && StepTaken(balance, realEstates, agents, demand, expected, nAgent, solve, ln,
                   SupplyBefore(supply0, steps, n), AdjustmentsBefore(adj0, steps, n), steps[n])
  }

  /** A pass taken from the state the last of `steps` left extends the chain. */
  lemma PassChainExtend(balance: bool, realEstates: seq<RealEstate>, agents: seq<Agent>,
                        demand: seq<Demand>, expected: nat, nAgent: nat,
                        solve: SolverInput -> SolverOutput, ln: real -> real,
                        supply0: seq<Supply>, adj0: seq<BidAdjustment>, steps: seq<PassStep>,
                        s: seq<Supply>, a: seq<BidAdjustment>, supply: seq<Supply>, location: Location,
                        bh: seq<BhRow>, adj: seq<BidAdjustment>, pass: PassResult)
    requires PassChain(balance, realEstates, agents, demand, expected, nAgent, solve, ln, supply0, adj0, steps)
    requires s == SupplyBefore(supply0, steps, |steps|) && a == AdjustmentsBefore(adj0, steps, |steps|)
    requires PassTaken(balance, SupplyJoin(realEstates, s), AgentDemandJoin(agents, demand), s, a, solve,
                       expected, nAgent, demand, ln, supply, location, bh, adj, pass)
    ensures PassChain(balance, realEstates, agents, demand, expected, nAgent, solve, ln, supply0, adj0,
                      steps + [PassStep(supply, location, bh, adj, pass)])
  {
    var t := steps + [PassStep(supply, location, bh, adj, pass)];
    assert t[..|steps|] == steps;
    assert SupplyBefore(supply0, t, |steps|) == s && AdjustmentsBefore(adj0, t, |steps|) == a;
  }

  /** The records of a run follow its passes: each `maxapdiff` is its
      pass's, and each RMSE from the second pass on compares the pass's
      allocation totals with the previous pass's (the first pass has no
      RMSE; it is recorded as NaN, which no stop rule reads). */
  ghost predicate RecordsOfPasses(steps: seq<PassStep>, diffs: seq<real>, rmses: seq<Extended>, sqrt: real -> real)
  {
    && |diffs| == |steps| && |rmses| == |steps|
    && forall k | 0 <= k < |steps| ::
         && diffs[k] == steps[k].pass.maxapdiff
         && rmses[k] == (if k == 0 then NaN else Rmse(steps[k].pass.totals, steps[k - 1].pass.totals, sqrt))
  }

  /** Recording one more pass: its `maxapdiff`, and from the second pass on
      the RMSE of its totals against the last recorded pass's. */
  lemma RecordsExtend(steps: seq<PassStep>, diffs: seq<real>, rmses: seq<Extended>, sqrt: real -> real,
                      step: PassStep, d: real, r: Extended)
    requires RecordsOfPasses(steps, diffs, rmses, sqrt)
    requires d == step.pass.maxapdiff
    requires r == (if steps == [] then NaN else Rmse(step.pass.totals, steps[|steps| - 1].pass.totals, sqrt))
    ensures RecordsOfPasses(steps + [step], diffs + [d], rmses + [r], sqrt)
  {
    var t, ds, rs := steps + [step], diffs + [d], rmses + [r];
    forall k | 0 <= k < |t|
      ensures ds[k] == t[k].pass.maxapdiff
      ensures rs[k] == (if k == 0 then NaN else Rmse(t[k].pass.totals, t[k - 1].pass.totals, sqrt))
    {
      if k < |steps| {
        assert t[k] == steps[k] && ds[k] == diffs[k] && rs[k] == rmses[k];
      } else {
        assert t[k] == step && ds[k] == d && rs[k] == r;
      }
      assert k > 0 ==> t[k - 1] == steps[k - 1];
    }
  }

  /** The stop decision after one pass of `run_fixedSupply`: from the second
      pass on, the RMSE of the pass's totals against the previous pass's feeds
      the stop rule. The pass's records join the run's, and the run so far is
      either still undecided or ends as `RunRecord` describes. */
  method PassRecord(k: nat, pass: PassResult, prevTotals: seq<AgentTotal>, prevRmse: Extended, sqrt: real -> real,
                    tolerance: real, maxiters: int, minrmse: real,
                    ghost steps: seq<PassStep>, ghost diffs: seq<real>, ghost rmses: seq<Extended>, ghost step: PassStep)
    returns (stop: Option<StopReason>, rmse: Extended)
    requires k < maxiters && |steps| == k && step.pass == pass
    requires RecordsOfPasses(steps, diffs, rmses, sqrt)
    requires k > 0 ==> prevRmse == rmses[k - 1] && prevTotals == steps[k - 1].pass.totals
    requires NoStopBefore(k, diffs, rmses, tolerance, minrmse)
    ensures RecordsOfPasses(steps + [step], diffs + [pass.maxapdiff], rmses + [rmse], sqrt)
    ensures stop.None? ==> NoStopBefore(k + 1, diffs + [pass.maxapdiff], rmses + [rmse], tolerance, minrmse)
    ensures stop.Some? ==>
      RunRecord(RunSummary(Stopped(stop.value), k + 1), diffs + [pass.maxapdiff], rmses + [rmse],
                tolerance, maxiters, minrmse)
  {
    rmse, stop := NaN, None;
    if k > 0 {
      rmse := Rmse(pass.totals, prevTotals, sqrt);
      stop := StopRule(k, pass.maxapdiff, rmse, prevRmse, tolerance, minrmse);
    }
    NoStopExtend(k, diffs, rmses, pass.maxapdiff, rmse, tolerance, minrmse);
    RecordsExtend(steps, diffs, rmses, sqrt, step, pass.maxapdiff, rmse);
    if stop.Some? {
      StoppedRecord(k, diffs, rmses, pass.maxapdiff, rmse, stop.value, tolerance, maxiters, minrmse);
    }
  }

  /** The checks of `validate`, in its order: unique zone ids, every zone in
      the real-estate table, then (after sorting that table by zone and type
      and counting its markets and types) as many agent markets as real-estate
      markets, then the function tables and the row counts. The sorted table
      and the counts are returned once the zone checks have passed. */
  method ValidateTables(zones: seq<Zone>, re: seq<RealEstate>, agents: seq<Agent>,
                        demand: seq<Demand>, supply: seq<Supply>,
                        hasBidsFunctions: bool, hasRentFunctions: bool)
    returns (outcome: Outcome<LandError>, sorted: seq<RealEstate>, nMarket: nat, nTypes: nat)
    ensures outcome == ValidationOutcome(zones, re, agents, demand, supply, hasBidsFunctions, hasRentFunctions)
    ensures ValidationStage(outcome) >= 1 ==>
      && sorted == SortByZoneType(re)
      && SortedByZoneType(sorted) && multiset(sorted) == multiset(re)
      && nMarket == |RealEstateMarkets(re)|
      && nTypes == |TypeIds(re)|
  {
    sorted, nMarket, nTypes := re, 0, 0;
    var nZones := |zones|;
    if |Values(ZoneIds(zones))| != nZones {
      return Fail(ZoneIdsNotUnique), sorted, nMarket, nTypes;
    }
    if |RealEstateZoneIds(re)| != nZones {
      return Fail(RealEstateZonesMismatch), sorted, nMarket, nTypes;
    }
    sorted := SortByZoneType(re);
    SortKeepsCounts(re);
    nMarket := |RealEstateMarkets(sorted)|;
    nTypes := |TypeIds(sorted)|;
    var agentMarkets := |AgentMarkets(agents)|;
    if agentMarkets != nMarket {
      return Fail(MarketCountMismatch(agentMarkets, nMarket)), sorted, nMarket, nTypes;
    }
    var nAgent := |agents|;
    outcome := RowChecks(hasBidsFunctions, hasRentFunctions, |demand|, nAgent, |supply|, |sorted|);
  }

  /** The row loop of the balancing block: each joined row becomes a supply
      row with its NREST multiplied by its market's factor. */
  method RescaleSupply(join: seq<JoinedSupply>, factors: map<int, real>) returns (rows: seq<Supply>)
    requires forall k | 0 <= k < |join| :: join[k].mIdx in factors
    ensures rows == AsSupply(Rescale(join, factors))
  {
    rows := [];
    for k := 0 to |join|
      invariant |rows| == k
      invariant forall t | 0 <= t < k ::
        rows[t] == Supply(join[t].vIdx, join[t].iIdx, join[t].nRest * factors[join[t].mIdx])
    {
      rows := rows + [Supply(join[k].vIdx, join[k].iIdx, join[k].nRest * factors[join[k].mIdx])];
    }
  }

  class LandModel {
    const zones: seq<Zone>
    var realEstates: seq<RealEstate>
    const agents: seq<Agent>
    const demand: seq<Demand>
    var supply: seq<Supply>
    var bidsAdjustments: seq<BidAdjustment>
    const hasBidsFunctions: bool
    const hasRentFunctions: bool

    var nZones: nat
    var nTypes: nat
    var nMarket: nat
    var nAgent: nat

    var agentsZones: seq<AgentZone>
    var demandCutoff: seq<DemandCutoff>
    var subsidies: seq<Subsidy>

    var location: Location
    var locationProbabilityRows: nat
    var bidsRows: nat
    var rentsRows: nat
    var bh: seq<BhRow>

    /** A model holding the loaded input tables, with nothing derived yet. */
    constructor (zones: seq<Zone>, realEstates: seq<RealEstate>, agents: seq<Agent>,
                 demand: seq<Demand>, supply: seq<Supply>, bidsAdjustments: seq<BidAdjustment>,
                 hasBidsFunctions: bool, hasRentFunctions: bool)
      ensures this.zones == zones && this.realEstates == realEstates && this.agents == agents
      ensures this.demand == demand && this.supply == supply && this.bidsAdjustments == bidsAdjustments
      ensures this.hasBidsFunctions == hasBidsFunctions && this.hasRentFunctions == hasRentFunctions
      ensures nZones == 0 && nTypes == 0 && nMarket == 0 && nAgent == 0
      ensures agentsZones == [] && demandCutoff == [] && subsidies == []
      ensures location == Location(0, []) && locationProbabilityRows == 0 && bidsRows == 0 && rentsRows == 0 && bh == []
    {
      this.zones, this.realEstates, this.agents := zones, realEstates, agents;
      this.demand, this.supply, this.bidsAdjustments := demand, supply, bidsAdjustments;
      this.hasBidsFunctions, this.hasRentFunctions := hasBidsFunctions, hasRentFunctions;
      nZones, nTypes, nMarket, nAgent := 0, 0, 0, 0;
      agentsZones, demandCutoff, subsidies := [], [], [];
      location, locationProbabilityRows, bidsRows, rentsRows, bh := Location(0, []), 0, 0, 0, [];
    }

    /** `validate`: assigns `nZones`, runs the checks of `ValidateTables` and
        keeps what it assigned before the first failing check: the sorted
        real-estate table and the market and type counts once the zone checks
        pass, `nAgent` once the market check passes. */
    method Validate() returns (outcome: Outcome<LandError>)
      modifies this`nZones, this`realEstates, this`nMarket, this`nTypes, this`nAgent
      ensures outcome == ValidationOutcome(zones, old(realEstates), agents, demand, supply,
                                           hasBidsFunctions, hasRentFunctions)
      ensures nZones == |zones|
      ensures ValidatedFields(ValidationStage(outcome), old(realEstates), |agents|,
                              old(nMarket), old(nTypes), old(nAgent),
                              realEstates, nMarket, nTypes, nAgent)
    {
      nZones := |zones|;
      var sorted, markets, types;
      outcome, sorted, markets, types :=
        ValidateTables(zones, realEstates, agents, demand, supply, hasBidsFunctions, hasRentFunctions);
      var stage := ValidationStage(outcome);
      var kept := stage >= 1;
      realEstates := if kept then sorted else realEstates;
      nMarket := if kept then markets else nMarket;
      nTypes := if kept then types else nTypes;
      nAgent := if stage == 2 then |agents| else nAgent;
    }

    /** `fill_structure`: the accessibility table over zones and agents, and
        the cut-off and subsidy tables over real-estate rows and agents. */
    method FillStructure()
      modifies this`agentsZones, this`demandCutoff, this`subsidies
      ensures agentsZones == Product(zones, agents, AgentZoneRow)
      ensures demandCutoff == Product(realEstates, agents, CutoffRow)
      ensures subsidies == Product(realEstates, agents, SubsidyRow)
    {
      agentsZones := AgentZoneRows(zones, agents);
      demandCutoff, subsidies := CutoffAndSubsidyRows(realEstates, agents);
    }

    /** The balancing block of `evaluate_bids`: on success the supply table
        becomes the join's rows with NREST rescaled by their market's factor. */
    method Balance() returns (outcome: Outcome<LandError>)
      modifies this`supply
      ensures var join, ad := SupplyJoin(realEstates, old(supply)), AgentDemandJoin(agents, demand);
        && outcome == BalanceOutcome(join, ad)
        && supply == if outcome.Pass? then BalancedSupply(join, ad) else old(supply)
    {
      var join := SupplyJoin(realEstates, supply);
      var ad := AgentDemandJoin(agents, demand);
      var factors := ComputeMarketFactors(join, ad);
      if factors.Failure? {
        return Fail(factors.error);
      }
      supply := RescaleSupply(join, factors.value);
      return Pass;
    }

    /** The output tables the model holds. */
    function Outputs(): OutputTables
      reads this
    {
      OutputTables(location, locationProbabilityRows, bidsRows, rentsRows, bh)
    }

    /** `evaluate_bids`: balance supply when asked (a failing market aborts
        the call), run the solver on the current tables, then read its outputs
        one by one, each read table checked before the next is read. */
    method EvaluateBids(balance: bool, solve: SolverInput -> SolverOutput) returns (outcome: Outcome<LandError>)
      modifies this`supply, this`location, this`locationProbabilityRows, this`bidsRows, this`rentsRows, this`bh
      ensures var join, ad := SupplyJoin(realEstates, old(supply)), AgentDemandJoin(agents, demand);
        if balance && BalanceOutcome(join, ad).Fail? then
          outcome == BalanceOutcome(join, ad) && supply == old(supply) && Outputs() == old(Outputs())
        else
          var out := SolverRun(solve, supply, bidsAdjustments);
          && supply == (if balance then BalancedSupply(join, ad) else old(supply))
          && outcome == OutputCheck(out, ExpectedRows(nZones, nTypes), nAgent)
          && Outputs() == ReadOutputs(old(Outputs()), out, ExpectedRows(nZones, nTypes), nAgent)
      ensures outcome == Pass ==>
        var out := SolverRun(solve, supply, bidsAdjustments);
        && (balance ==> BalanceOutcome(SupplyJoin(realEstates, old(supply)), AgentDemandJoin(agents, demand)) == Pass)
        && OutputCheck(out, ExpectedRows(nZones, nTypes), nAgent) == Pass
        && location == out.location && bh == out.bh
    {
      if balance {
        var b := Balance();
        if b.Fail? {
          return b;
        }
      }
      var out := SolverRun(solve, supply, bidsAdjustments);
      var expected := ExpectedRows(nZones, nTypes);
      location := out.location;
      if location.rows != expected {
        return Fail(OutputRowCount(LocationTable, location.rows));
      }
      locationProbabilityRows := out.locationProbabilityRows;
      if locationProbabilityRows != expected {
        return Fail(OutputRowCount(LocationProbabilityTable, locationProbabilityRows));
      }
      bidsRows := out.bidsRows;
      if bidsRows != expected {
        return Fail(OutputRowCount(BidsTable, bidsRows));
      }
      rentsRows := out.rentsRows;
      if rentsRows != expected {
        return Fail(OutputRowCount(RentsTable, rentsRows));
      }
      bh := out.bh;
      if |bh| != nAgent {
        return Fail(OutputRowCount(BhTable, |bh|));
      }
      return Pass;
    }

    /** The calibration step of one pass of `run_fixedSupply`: `bh` is
        replaced as soon as its correction succeeds, then the bid adjustments,
        then `maxapdiff` is taken. */
    method CalibrationStep(ln: real -> real) returns (r: Result<PassResult, LandError>)
      requires forall j | 0 <= j < |demand| :: demand[j].demand > 0.0
      modifies this`bh, this`bidsAdjustments
      ensures r == CalibrationPass(location, demand, old(bh), old(bidsAdjustments), ln)
      ensures (bh, bidsAdjustments) == PassState(location, demand, old(bh), old(bidsAdjustments), ln)
      ensures AdjustmentKeys(bidsAdjustments) == AdjustmentKeys(old(bidsAdjustments))
    {
      var totals := AllocTotals(location);
      if totals.Failure? {
        return Failure(totals.error);
      }
      var cmp := Compare(totals.value, demand, ln);
      if cmp.Failure? {
        return Failure(cmp.error);
      }
      var newBh := CorrectBh(bh, cmp.value);
      if newBh.Failure? {
        return Failure(newBh.error);
      }
      bh := newBh.value;
      var newAdj := CorrectAdjustments(bidsAdjustments, cmp.value);
      if newAdj.Failure? {
        return Failure(newAdj.error);
      }
      CorrectionKeepsKeys(bidsAdjustments, cmp.value);
      bidsAdjustments := newAdj.value;
      CompareRowsBounded(totals.value, demand, ln);
      var maxapdiff := MaxAbsPctDiff(cmp.value);
      if maxapdiff.Failure? {
        return Failure(maxapdiff.error);
      }
      return Success(PassResult(totals.value, bh, bidsAdjustments, maxapdiff.value));
    }

    /** One pass of `run_fixedSupply` up to its stop decision: `evaluate_bids`
        followed by the calibration step on the solver's outputs. */
    method SolveAndCalibrate(balance: bool, solve: SolverInput -> SolverOutput, ln: real -> real)
      returns (r: Result<PassResult, LandError>)
      requires forall j | 0 <= j < |demand| :: demand[j].demand > 0.0
      modifies this`supply, this`location, this`locationProbabilityRows, this`bidsRows, this`rentsRows,
               this`bh, this`bidsAdjustments
      ensures AdjustmentKeys(bidsAdjustments) == AdjustmentKeys(old(bidsAdjustments))
      ensures r.Success? ==>
        StepTaken(balance, realEstates, agents, demand, ExpectedRows(nZones, nTypes), nAgent, solve, ln,
                  old(supply), old(bidsAdjustments), PassStep(supply, location, bh, bidsAdjustments, r.value))
      ensures r.Failure? <==>
        StepFails(balance, realEstates, agents, demand, ExpectedRows(nZones, nTypes), nAgent, solve, ln,
                  old(supply), old(bidsAdjustments))
    {
      ghost var join, ad := SupplyJoin(realEstates, supply), AgentDemandJoin(agents, demand);
      ghost var supply0, adj0 := supply, bidsAdjustments;
      var o := EvaluateBids(balance, solve);
      if o.Fail? {
        return Failure(o.error);
      }
      ghost var supply1 := supply;
      ghost var out := SolverRun(solve, supply1, adj0);
      r := CalibrationStep(ln);
      if r.Success? {
        PassStateOnSuccess(out.location, demand, out.bh, adj0, ln);
        assert PassTaken(balance, join, ad, supply0, adj0, solve, ExpectedRows(nZones, nTypes), nAgent, demand, ln,
                         supply1, out.location, r.value.bh, r.value.bidsAdjustments, r.value);
      }
    }

    /** The passes `steps` were taken in order from `supply0` and `adj0`
        (see `PassChain`) on this model's tables, and the model holds the
        state the last of them left (the starting supply and adjustments
        when there is none). */
    ghost predicate AfterPasses(balance: bool, solve: SolverInput -> SolverOutput, ln: real -> real,
                                supply0: seq<Supply>, adj0: seq<BidAdjustment>, steps: seq<PassStep>)
      reads this
    {
      && PassChain(balance, realEstates, agents, demand, ExpectedRows(nZones, nTypes), nAgent, solve, ln,
                   supply0, adj0, steps)
      && supply == SupplyBefore(supply0, steps, |steps|)
      && bidsAdjustments == AdjustmentsBefore(adj0, steps, |steps|)
      && (steps != [] ==> location == steps[|steps| - 1].location && bh == steps[|steps| - 1].bh)
    }

    /** The passes `steps` were taken in order from `supply0` and `adj0`, and
        the next pass, from the state the last of them left, raised. */
    ghost predicate RaisedAfterPasses(balance: bool, solve: SolverInput -> SolverOutput, ln: real -> real,
                                      supply0: seq<Supply>, adj0: seq<BidAdjustment>, steps: seq<PassStep>)
      reads this
    {
      && PassChain(balance, realEstates, agents, demand, ExpectedRows(nZones, nTypes), nAgent, solve, ln,
                   supply0, adj0, steps)
      && StepFails(balance, realEstates, agents, demand, ExpectedRows(nZones, nTypes), nAgent, solve, ln,
                   SupplyBefore(supply0, steps, |steps|), AdjustmentsBefore(adj0, steps, |steps|))
    }

    /** A pass taken from the state the passes `steps` left, as
        `SolveAndCalibrate` promises it, extends them. */
    lemma AfterPassesExtend(balance: bool, solve: SolverInput -> SolverOutput, ln: real -> real,
                            supply0: seq<Supply>, adj0: seq<BidAdjustment>, steps: seq<PassStep>,
                            s: seq<Supply>, a: seq<BidAdjustment>, pass: PassResult)
      requires PassChain(balance, realEstates, agents, demand, ExpectedRows(nZones, nTypes), nAgent, solve, ln,
                         supply0, adj0, steps)
      requires s == SupplyBefore(supply0, steps, |steps|) && a == AdjustmentsBefore(adj0, steps, |steps|)
      requires StepTaken(balance, realEstates, agents, demand, ExpectedRows(nZones, nTypes), nAgent, solve, ln,
                         s, a, PassStep(supply, location, bh, bidsAdjustments, pass))
      ensures AfterPasses(balance, solve, ln, supply0, adj0, steps + [PassStep(supply, location, bh, bidsAdjustments, pass)])
    {
      PassChainExtend(balance, realEstates, agents, demand, ExpectedRows(nZones, nTypes), nAgent, solve, ln,
                      supply0, adj0, steps, s, a, supply, location, bh, bidsAdjustments, pass);
    }

    /** One more pass from the state the passes `steps` left: on success
        the pass is the next link of the chain. */
    method NextPass(balance: bool, solve: SolverInput -> SolverOutput, ln: real -> real,
                    ghost supply0: seq<Supply>, ghost adj0: seq<BidAdjustment>, ghost steps: seq<PassStep>)
      returns (r: Result<PassResult, LandError>)
      requires forall j | 0 <= j < |demand| :: demand[j].demand > 0.0
      requires PassChain(balance, realEstates, agents, demand, ExpectedRows(nZones, nTypes), nAgent, solve, ln,
                         supply0, adj0, steps)
      requires supply == SupplyBefore(supply0, steps, |steps|) && bidsAdjustments == AdjustmentsBefore(adj0, steps, |steps|)
      modifies this`supply, this`location, this`locationProbabilityRows, this`bidsRows, this`rentsRows,
               this`bh, this`bidsAdjustments
      ensures AdjustmentKeys(bidsAdjustments) == AdjustmentKeys(old(bidsAdjustments))
      ensures r.Success? ==>
        AfterPasses(balance, solve, ln, supply0, adj0, steps + [PassStep(supply, location, bh, bidsAdjustments, r.value)])
      ensures r.Failure? <==> RaisedAfterPasses(balance, solve, ln, supply0, adj0, steps)
    {
      ghost var s, a := supply, bidsAdjustments;
      r := SolveAndCalibrate(balance, solve, ln);
      if r.Success? {
        AfterPassesExtend(balance, solve, ln, supply0, adj0, steps, s, a, r.value);
      }
    }

    /** Pass `k` of `run_fixedSupply` and its stop decision: the pass either
        raises, as `RaisedAfterPasses` describes, or extends the chain of
        passes and their records; the run then either goes on or stops here. */
    method TakePass(k: nat, balance: bool, solve: SolverInput -> SolverOutput, ln: real -> real,
                    sqrt: real -> real, tolerance: real, maxiters: int, minrmse: real,
                    prevTotals: seq<AgentTotal>, prevRmse: Extended,
                    ghost supply0: seq<Supply>, ghost adj0: seq<BidAdjustment>, ghost steps: seq<PassStep>,
                    ghost diffs: seq<real>, ghost rmses: seq<Extended>)
      returns (r: Result<PassResult, LandError>, stop: Option<StopReason>, rmse: Extended)
      requires forall j | 0 <= j < |demand| :: demand[j].demand > 0.0
      requires k < maxiters && |steps| == k && RecordsOfPasses(steps, diffs, rmses, sqrt)
      requires k > 0 ==> prevRmse == rmses[k - 1] && prevTotals == steps[k - 1].pass.totals
      requires NoStopBefore(k, diffs, rmses, tolerance, minrmse)
      requires AfterPasses(balance, solve, ln, supply0, adj0, steps)
      modifies this`supply, this`location, this`locationProbabilityRows, this`bidsRows, this`rentsRows,
               this`bh, this`bidsAdjustments
      ensures AdjustmentKeys(bidsAdjustments) == AdjustmentKeys(old(bidsAdjustments))
      ensures r.Failure? <==> RaisedAfterPasses(balance, solve, ln, supply0, adj0, steps)
      ensures r.Success? ==>
        var t := steps + [PassStep(supply, location, bh, bidsAdjustments, r.value)];
        var ds, rs := diffs + [r.value.maxapdiff], rmses + [rmse];
        && AfterPasses(balance, solve, ln, supply0, adj0, t)
        && RecordsOfPasses(t, ds, rs, sqrt)
        && (stop.None? ==> NoStopBefore(k + 1, ds, rs, tolerance, minrmse))
        && (stop.Some? ==> RunRecord(RunSummary(Stopped(stop.value), k + 1), ds, rs, tolerance, maxiters, minrmse))
    {
      stop, rmse := None, NaN;
      r := NextPass(balance, solve, ln, supply0, adj0, steps);
      if r.Success? {
        stop, rmse := PassRecord(k, r.value, prevTotals, prevRmse, sqrt, tolerance, maxiters, minrmse,
                                 steps, diffs, rmses, PassStep(supply, location, bh, bidsAdjustments, r.value));
      }
    }

    /** `run_fixedSupply`: up to `maxiters` passes of solve, compare and
        correct. Every pass applies its corrections before the stop rule is
        consulted; from the second pass on the RMSE against the previous pass's
        totals feeds the rule. The ghost outputs are the passes taken, each
        from the state the one before left, and each pass's `maxapdiff` and
        RMSE; after a run that ended normally the model holds the last pass's
        state. */
    method RunFixedSupply(solve: SolverInput -> SolverOutput, ln: real -> real, sqrt: real -> real,
                          balance: bool, tolerance: real, maxiters: int, minrmse: real)
      returns (r: Result<RunSummary, LandError>, ghost diffs: seq<real>, ghost rmses: seq<Extended>,
               ghost steps: seq<PassStep>)
      requires forall j | 0 <= j < |demand| :: demand[j].demand > 0.0
      modifies this`supply, this`location, this`locationProbabilityRows, this`bidsRows, this`rentsRows,
               this`bh, this`bidsAdjustments
      ensures AdjustmentKeys(bidsAdjustments) == AdjustmentKeys(old(bidsAdjustments))
      ensures RecordsOfPasses(steps, diffs, rmses, sqrt)
      ensures r.Success? ==> RunRecord(r.value, diffs, rmses, tolerance, maxiters, minrmse)
      ensures r.Success? ==> AfterPasses(balance, solve, ln, old(supply), old(bidsAdjustments), steps)
      ensures r.Failure? ==>
        && |steps| < maxiters && NoStopBefore(|steps|, diffs, rmses, tolerance, minrmse)
        && RaisedAfterPasses(balance, solve, ln, old(supply), old(bidsAdjustments), steps)
    {
      ghost var supply0, adj0 := supply, bidsAdjustments;
      diffs, rmses, steps := [], [], [];
      var prevTotals: seq<AgentTotal> := [];
      var prevRmse: Extended := NaN;
      var k := 0;
      while k < maxiters
        invariant 0 <= k && (maxiters >= 0 ==> k <= maxiters) && (maxiters < 0 ==> k == 0)
        invariant |steps| == k && RecordsOfPasses(steps, diffs, rmses, sqrt)
        invariant k > 0 ==> prevRmse == rmses[k - 1] && prevTotals == steps[k - 1].pass.totals
        invariant NoStopBefore(k, diffs, rmses, tolerance, minrmse)
        invariant AdjustmentKeys(bidsAdjustments) == AdjustmentKeys(adj0)
        invariant AfterPasses(balance, solve, ln, supply0, adj0, steps)
      {
        var pass, stop, rmse := TakePass(k, balance, solve, ln, sqrt, tolerance, maxiters, minrmse,
                                         prevTotals, prevRmse, supply0, adj0, steps, diffs, rmses);
        if pass.Failure? {
          return Failure(pass.error), diffs, rmses, steps;
        }
        diffs, rmses := diffs + [pass.value.maxapdiff], rmses + [rmse];
        steps := steps + [PassStep(supply, location, bh, bidsAdjustments, pass.value)];
        if stop.Some? {
          return Success(RunSummary(Stopped(stop.value), k + 1)), diffs, rmses, steps;
        }
        prevRmse := rmse;
        prevTotals := pass.value.totals;
        k := k + 1;
      }
      ExhaustedRecord(k, diffs, rmses, tolerance, maxiters, minrmse);
      return Success(RunSummary(Exhausted, k)), diffs, rmses, steps;
    }
  }
}
