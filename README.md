# Fixed-supply calibration of the mu-Land land-use model

mu-Land is a land-use equilibrium model. An external executable takes tables of zones,
real-estate types, agent types, demand, supply and the bid and rent functions. It
returns each agent's estimated location, bids, rents and a per-agent bid term `bh`.
Fixed-supply calibration keeps supply fixed and runs the solver again and again. After
each run it shifts every agent's bid adjustment by the log of the ratio of demand to
estimated allocation, so that each agent's allocation moves toward its demand.

This project models the two implementations of that loop:

- `landModel` (examples/landmodel.py), an in-memory model held in a class. Its state is
  the zone, real-estate, agent, demand and supply tables, plus the counts and output
  tables derived from them. The Dafny model covers:
  - the validation that derives the counts;
  - the structural tables (`agents_zones`, `demand_cutoff`, `subsidies`);
  - the supply/demand balancing and output row checks of `evaluate_bids`;
  - the pass, RMSE and stop logic of `run_fixedSupply`.

  These are in the modules `LandTables`, `LandBalance`, `BalanceProperties`,
  `LandCalibration` and `Land` (class `Land.LandModel`).
- `FixedSupply` (mulandweb/fixedsupply.py), the file-based version. It keeps 29-slot
  lists of totals, normalises corrections over agents 1-13 and 14-29 separately, and
  stops on `maxapdiff` below 1% or on growth of `maxapdiff`. These are in the module
  `FixedSupply`. Its CSV files are values: a header and parsed rows.

`TableOps` holds the sequence sums, key sorting and cross products both use. `Results`
holds `Option`, `Result` and `Outcome`.

The solver is a function parameter in both versions. So are the natural logarithm and
the square root. A raised Python exception is a `Failure`/`Fail` carrying one
constructor per raising site. The RMSE of `run_fixedSupply` is an IEEE value that may be NaN or an
infinity. A zero supply to scale and a zero estimated allocation, which Python would turn
into an infinity, are failures, as stated per member below. The log ratio of a negative
estimated allocation is passed to the `ln` parameter rather than made NaN (see "Left out").

## Model

| member | source | states |
|---|---|---|
| `LandTables.SortByZoneType` | examples/landmodel.py:69-70 | the real-estate table sorted by zone id then type id is ordered by that key and is a permutation of the loaded table |
| `LandTables.InsertKeepsOrder` | examples/landmodel.py:69-70 | inserting a row into a sorted table puts it after every row with its zone and type ids, and those rows keep their order |
| `LandTables.SortIsStable` | examples/landmodel.py:69-70 | the sort is stable: the rows sharing a zone id and type id appear in the sorted table in their loaded order |
| `LandTables.SortKeepsIds` | examples/landmodel.py:67-73 | sorting keeps the sets of type, zone and market ids, so the counts taken after the sort are those of the loaded table |
| `Land.SortKeepsCounts` | examples/landmodel.py:69-73 | the sorted table has the same row count, market count and type count as the loaded one |
| `LandTables.ValidationAcceptsIff` | examples/landmodel.py:55-91 | `validate` passes if and only if: zone ids are unique, the real-estate table names as many zones as there are, agents and real estate count the same markets, both function tables are loaded, demand has one row per agent, and supply has one row per real-estate row |
| `LandTables.DuplicateZoneIdsRejected` | examples/landmodel.py:62-63 | two zones sharing an id are rejected with the zone-uniqueness error, whatever the other tables hold |
| `LandTables.MinimalTableSetAccepted` | examples/landmodel.py:55-91 | one zone, one real-estate row, one agent and one market, with one demand and one supply row, are accepted |
| `Land.ValidateTables` | examples/landmodel.py:60-91 | runs the checks of `validate` in source order and returns the first failure; once the zone checks pass it returns the sorted table and its market and type counts |
| `Land.LandModel.Validate` | examples/landmodel.py:55-91 | the outcome is that of the validation rules; `nZones` is always set; the sorted table, `nMarket` and `nTypes` are stored once both zone checks pass, and `nAgent` once the market check passes, exactly as far as the source gets before it raises |
| `LandTables.AgentZonesLayout` | examples/landmodel.py:98-107 | row k of `agents_zones` is agent k mod nAgents in zone k div nAgents, with zero accessibility and attractiveness |
| `LandTables.DemandCutoffLayout` | examples/landmodel.py:108-125 | row k of `demand_cutoff` pairs real-estate row k div nAgents with agent k mod nAgents, and its flag is 1 exactly when their markets agree, otherwise 0 |
| `LandTables.SubsidiesLayout` | examples/landmodel.py:108-126 | row k of `subsidies` pairs real-estate row k div nAgents with agent k mod nAgents, with zero subsidy |
| `Land.ZoneRows` | examples/landmodel.py:100-106 | the inner loop yields one `agents_zones` row per agent, in agent order |
| `Land.AgentZoneRows` | examples/landmodel.py:98-107 | the nested loops yield the zone-major product of zones and agents |
| `Land.RealEstateRows` | examples/landmodel.py:118-126 | the inner loop yields one cutoff row and one subsidy row per agent for one real-estate row |
| `Land.CutoffAndSubsidyRows` | examples/landmodel.py:108-128 | the nested loops yield the row-major products of real estate and agents for both tables |
| `Land.LandModel.FillStructure` | examples/landmodel.py:93-128 | the three structural tables become those products, and no other field changes |
| `TableOps.Product` | examples/landmodel.py:98-126 | a cross product has one row per pair |
| `TableOps.ProductAt` | examples/landmodel.py:98-126 | row k of a cross product is the pair (k div n, k mod n) |
| `LandBalance.MarketFactor` | examples/landmodel.py:147-154 | a market whose demand equals its supply keeps factor 1 |
| `LandBalance.FactorsOver` | examples/landmodel.py:145-156 | a factor table has an entry for exactly the markets it was built over |
| `LandBalance.MarketFactors` | examples/landmodel.py:145-156 | every market of the supply join has a factor |
| `LandBalance.Rescale` | examples/landmodel.py:157-164 | each joined supply row has NREST multiplied by its market's factor, and nothing else changes |
| `LandBalance.AsSupply` | examples/landmodel.py:157-164 | the new supply table keeps V_IDX, I_IDX and the scaled NREST of every joined row, in order |
| `BalanceProperties.BalanceCheckPass` | examples/landmodel.py:146-156 | the market scan passes if and only if every market passes its check; a failure is the check of a listed market |
| `BalanceProperties.BalanceOutcomeIff` | examples/landmodel.py:141-156 | balancing succeeds if and only if every market of the supply join has a demand total and has supply wherever demand and supply differ; a failure names a market of the join |
| `BalanceProperties.FactorRestoresDemand` | examples/landmodel.py:154 | supply times demand/supply is demand |
| `BalanceProperties.FactorBalancesColumn` | examples/landmodel.py:154-162 | scaling a market's supply column by demand/supply makes it sum to demand |
| `BalanceProperties.RescaledMarketColumn` | examples/landmodel.py:157-164 | a market's column of the rescaled join is its old column scaled by that market's factor |
| `BalanceProperties.RescaledMarketTotal` | examples/landmodel.py:157-164 | a market whose factor is demand/supply has total supply equal to demand after rescaling |
| `BalanceProperties.BalancedMarketTotals` | examples/landmodel.py:141-164 | after balancing, each checked market's supply equals its demand |
| `BalanceProperties.BalancedJoinUnchanged` | examples/landmodel.py:145-164 | when every market already balances, rescaling changes nothing |
| `BalanceProperties.RescaleKeepsMarkets` | examples/landmodel.py:157-164 | rescaling keeps each row's market |
| `BalanceProperties.BalancedJoinBalanced` | examples/landmodel.py:141-164 | the rescaled join passes the balance check again, with every market's supply equal to its demand |
| `BalanceProperties.AlignedJoin` | examples/landmodel.py:141 | when supply row k has the type and zone of real-estate row k, and no other row has that key, the inner merge keeps that alignment row by row, and projecting it back gives the supply table |
| `BalanceProperties.RescaledStaysAligned` | examples/landmodel.py:141-164 | the rescaled supply is still aligned with the real-estate table |
| `BalanceProperties.BalanceIdempotent` | examples/landmodel.py:137-164 | balancing an aligned, balanceable supply twice gives the same table as balancing it once |
| `Land.ComputeMarketFactors` | examples/landmodel.py:145-156 | the market loop fails with the first market, in ascending order, that lacks demand or has zero supply to scale; otherwise it returns the factor of every market |
| `Land.RescaleSupply` | examples/landmodel.py:157-164 | the row loop builds the rescaled supply table |
| `Land.MarketStep` | examples/landmodel.py:146-156 | one more market visited extends the factor table by that market's factor |
| `Land.FactorsOverSameMarkets` | examples/landmodel.py:146 | the factor table depends only on the set of markets visited, not on their order |
| `Land.LandModel.Balance` | examples/landmodel.py:137-164 | the outcome is the balance check; on success supply becomes the rescaled join; on failure supply is unchanged |
| `Land.LandModel.EvaluateBids` | examples/landmodel.py:129-203 | a failed balance leaves supply and outputs unchanged; otherwise the solver runs on the (balanced) supply and current adjustments; the outcome is the first output whose rows differ from nZones*nTypes, or `bh` without one row per agent; every table read before the failing check is stored |
| `LandCalibration.FirstIndex` | examples/landmodel.py:208 | the index of the first occurrence of a character, or none when it does not occur |
| `LandCalibration.NatToString` | examples/landmodel.py:208 | the decimal form of an id is a non-empty digit string |
| `LandCalibration.NatToStringValue` | examples/landmodel.py:208 | parsing that digit string gives the id back |
| `LandCalibration.ParseAgentIdOfName` | examples/landmodel.py:208 | a column named `prefix[n]suffix`, with no `]` or `[` in the prefix, parses to agent n |
| `LandCalibration.ParseAgentIdNeedsBracket` | examples/landmodel.py:208 | a column name without `[` before its first `]` is rejected |
| `LandCalibration.ColumnIds` | examples/landmodel.py:207-208 | on success, one id per agent column, each the parse of its name |
| `LandCalibration.FirstFailure` | examples/landmodel.py:208 | on success, one value per entry, in order |
| `LandCalibration.FirstFailureIsFirst` | examples/landmodel.py:208 | a failure is the error of the first failing entry |
| `LandCalibration.ColumnIdsFirstFailure` | examples/landmodel.py:208 | the error raised is that of the first column whose name does not parse |
| `LandCalibration.AllocTotalsShape` | examples/landmodel.py:207-209 | `alloc_totals` fails with the first bad column name; otherwise it has one row per agent id, in strictly ascending order, each the sum of that agent's columns |
| `LandCalibration.AllocationConserved` | examples/landmodel.py:209 | the per-agent totals sum to the total of all agent columns |
| `LandCalibration.ZeroAllocations` | examples/landmodel.py:209 | with no agent columns the per-agent allocations sum to 0, the base case of `AllocationConserved` |
| `LandCalibration.LookupTotalFinds` | examples/landmodel.py:210 | the merge on an agent id finds a total exactly when the agent is among the totals, and what it finds is a row of that agent with that allocation |
| `LandCalibration.LookupOwnTotal` | examples/landmodel.py:209-210 | with one row per agent, as the groupby gives, looking up a row's agent finds that row's allocation |
| `LandCalibration.Compare` | examples/landmodel.py:210-212 | the comparison succeeds exactly when every demand row does; each demand row whose agent has an allocation gets that allocation, the absolute difference and the log ratio, at the demand row's position; a row without one is marked absent, as the inner merge drops it; a zero allocation fails |
| `LandCalibration.CompareRowExact` | examples/landmodel.py:211 | an allocation equal to demand has absolute difference 0 |
| `LandCalibration.CompareRowsBounded` | examples/landmodel.py:211 | every kept comparison has positive demand and a non-negative absolute difference |
| `LandCalibration.CorrectBh` | examples/landmodel.py:213-219 | the correction succeeds exactly when every `bh` agent has a comparison at position agent-1; it keeps each row's agent and adds that comparison's log ratio to its value |
| `LandCalibration.CorrectAdjustments` | examples/landmodel.py:221-229 | likewise for the bid adjustments, by H_IDX-1, keeping H_IDX, V_IDX and I_IDX |
| `LandCalibration.AdjustmentKeys` | examples/landmodel.py:221-229 | the key triple of every adjustment row, in order |
| `LandCalibration.CorrectionKeepsKeys` | examples/landmodel.py:221-229 | a successful correction keeps the key and order of every adjustment row |
| `LandCalibration.MatchedAllocationNoCorrection` | examples/landmodel.py:211-229 | when every allocation equals its demand and ln(1) = 0, both corrections leave `bh` and the adjustments unchanged |
| `LandCalibration.MaxRatio` | examples/landmodel.py:230 | the maximum of abs_diff/DEMAND is defined exactly when some agent is compared, is at least every ratio, and is one of them |
| `LandCalibration.MaxAbsPctDiffBounds` | examples/landmodel.py:230 | `maxapdiff` is defined exactly when some agent is compared; it is then non-negative and is 100 times the largest ratio |
| `LandCalibration.MaxAbsPctDiffZero` | examples/landmodel.py:211-230 | allocations equal to demand give `maxapdiff` 0 |
| `LandCalibration.CalibrationPass` | examples/landmodel.py:207-230 | a successful pass returns the allocation totals, keeps the agents of `bh` and the keys of the adjustments, and has a non-negative `maxapdiff` |
| `LandCalibration.PassStateOnSuccess` | examples/landmodel.py:213-230 | after a successful pass the stored `bh` and adjustments are the ones the pass returns |
| `LandCalibration.CommonAllocations` | examples/landmodel.py:232 | the inner merge on IDAGENT has no more rows than the current totals |
| `LandCalibration.CommonAllocationsSelf` | examples/landmodel.py:232 | merging a totals table with itself pairs every allocation with itself, in table order |
| `LandCalibration.CommonAllocationsFrom` | examples/landmodel.py:232 | every merged pair's prior allocation is one of the prior pass, and every agent of this pass that the prior pass has is paired |
| `LandCalibration.Quotient` | examples/landmodel.py:234 | IEEE division: finite exactly when the divisor is not 0, and then the quotient times the divisor is the dividend; NaN exactly for 0/0; +inf exactly for a positive dividend over 0 |
| `LandCalibration.RmseUnchanged` | examples/landmodel.py:232-234 | two passes with the same allocations (one row per agent, a non-zero total, sqrt(0) = 0) have RMSE 0 |
| `LandCalibration.RmseDisjoint` | examples/landmodel.py:232-234 | when no agent of this pass was in the prior one the merge is empty and the RMSE is NaN, the mean of nothing |
| `LandCalibration.RmseZeroPrior` | examples/landmodel.py:232-234 | when every prior allocation was 0 and a shared agent now has a non-zero allocation, the RMSE is +inf (for a sqrt positive on positive numbers) |
| `LandCalibration.StopRuleCases` | examples/landmodel.py:231-242 | the stop rule, both ways: converged exactly when past the first pass with `maxapdiff` under the tolerance; not converging exactly when past the first pass, not under the tolerance, and either the RMSE grew (from the third pass on) or fell under `minrmse`; a NaN RMSE never stops the run as not converging, and an infinite RMSE after a finite one does |
| `Land.LandModel.CalibrationStep` | examples/landmodel.py:207-230 | the step returns the calibration pass on the stored location, demand, `bh` and adjustments; `bh` and the adjustments become the pass state, so a correction computed before a later failure is kept; the adjustment keys are kept |
| `Land.LandModel.SolveAndCalibrate` | examples/landmodel.py:206-230 | a successful pass balanced supply (when asked), passed the output checks, and calibrated the solver's location and `bh` from the current adjustments; the stored `bh` and adjustments are the corrected ones; the pass fails exactly when balancing (when asked) finds a market it cannot scale, a solver output has the wrong size, or the calibration on the solver's outputs fails; the adjustment keys are always kept |
| `Land.NoStopExtend` | examples/landmodel.py:231-242 | recording a pass keeps the earlier records, and extends the no-stop history when the pass took no stop decision |
| `Land.StoppedRecord` | examples/landmodel.py:236-241 | a stop decision after pass k ends the run with k+1 recorded passes |
| `Land.ExhaustedRecord` | examples/landmodel.py:205 | a run that takes no stop decision ends after `maxiters` passes, or none when `maxiters` is negative |
| `Land.PassChainExtend` | examples/landmodel.py:205-230 | a pass taken from the supply and adjustments the last pass of a chain left extends the chain |
| `Land.RecordsExtend` | examples/landmodel.py:230-234 | recording a pass's own `maxapdiff`, and from the second pass on the RMSE of its allocation totals against the previous pass's, extends the records of the passes |
| `Land.PassRecord` | examples/landmodel.py:231-245 | from the second pass on, the RMSE of this pass's totals against the previous pass's feeds the stop rule; the pass's records join the run's; the run is either still without a stop decision or ends here as a stopped run |
| `Land.LandModel.AfterPassesExtend` | examples/landmodel.py:205-230 | a pass that `SolveAndCalibrate` took from the state the earlier passes left makes the model hold the state of the longer chain |
| `Land.LandModel.NextPass` | examples/landmodel.py:205-230 | on success the model holds the state of the chain of passes extended by this one: supply balanced from the previous supply (when asked), the solver run on it and the previous adjustments, and its `bh` and adjustments corrected; it fails exactly when that pass, taken from the state the earlier passes left, fails; the adjustment keys are always kept |
| `Land.LandModel.TakePass` | examples/landmodel.py:205-245 | a pass either fails, exactly when the next pass of the chain fails, or extends the chain and its records by one pass, with the stop decision of the rule recorded |
| `Land.LandModel.RunFixedSupply` | examples/landmodel.py:204-245 | each recorded `maxapdiff` is the one its pass computed and each RMSE from the second pass on is `Rmse` of that pass's allocation totals against the previous pass's; a finished run has at most `maxiters` passes, no pass before the last took a stop decision, and it either stopped by the rule after its last pass (at least the second) or ran all `maxiters` passes; its passes form a chain, each taken from the supply and adjustments the one before left, and the model holds the last pass's state; a run that fails took fewer than `maxiters` passes, none of which stopped the run, and the pass after them, from the state they left, failed; the adjustment keys are kept |
| `FixedSupply.Slot` | mulandweb/fixedsupply.py:22 | the slot a Python index selects in a 29-slot list: indices -29..28, negative ones counted from the end |
| `FixedSupply.SlotOfAgentId` | mulandweb/fixedsupply.py:20-22 | agent ids 1..29 select slots 0..28 |
| `FixedSupply.LastWriteIsLast` | mulandweb/fixedsupply.py:19-22 | the record a slot's total comes from writes that slot and no later record does; with none, no record writes it |
| `FixedSupply.LoadTotals` | mulandweb/fixedsupply.py:15-23 | succeeds exactly when every H_IDX-1 is a valid list index; each slot then holds the DEMAND of the last record writing it, or 0; a failure names the first out-of-range index |
| `FixedSupply.ControlTotalOfUniqueId` | mulandweb/fixedsupply.py:15-23 | with ids 1..29 each named once, each agent's control total is its demand |
| `FixedSupply.ColumnTotalConcat` | mulandweb/fixedsupply.py:30-33 | the allocation total of two blocks of rows is the sum of their totals |
| `FixedSupply.SumTotals` | mulandweb/fixedsupply.py:25-34 | a file without a header raises; otherwise it succeeds exactly when every data row has 31 fields; slot hx is then the sum of field 2+hx; a failure names the first short row |
| `FixedSupply.AdjustBids` | mulandweb/fixedsupply.py:36-46 | succeeds exactly when every slot's correction does; slot hx is then ln of its control share over its allocation share within its group (1-13 or 14-29); a failure is the first failing slot's error |
| `FixedSupply.AdjustEntryScaleInvariant` | mulandweb/fixedsupply.py:40-45 | scaling an allocation and its group total by the same positive factor leaves the correction unchanged |
| `FixedSupply.GroupScaleInvariant` | mulandweb/fixedsupply.py:36-46 | scaling one group's allocations by a positive factor changes no correction in either group |
| `FixedSupply.MatchedShareZero` | mulandweb/fixedsupply.py:40-45 | a slot whose allocation share equals its control share gets correction 0 |
| `FixedSupply.TruncToInt` | mulandweb/fixedsupply.py:55 | `int(float)` truncates toward zero |
| `FixedSupply.AdjustedRow` | mulandweb/fixedsupply.py:55-59 | a rewritten row is its first three fields plus the new adjustment, and selects the same slot |
| `FixedSupply.AdjustTable` | mulandweb/fixedsupply.py:54-59 | the table keeps its row count and every row stays adjustable |
| `FixedSupply.MakeAdjustment` | mulandweb/fixedsupply.py:48-63 | a file without a header raises; otherwise it succeeds exactly when every row has 4 fields and an H_IDX that selects a slot; the header is kept and each row gets its correction added; a failure names the first bad row |
| `FixedSupply.AddVectors` | mulandweb/fixedsupply.py:125-126 | entrywise sum of two 29-slot lists |
| `FixedSupply.AdjustTwice` | mulandweb/fixedsupply.py:48-63 | adjusting by a and then by b is adjusting once by a+b |
| `FixedSupply.InitTable` | mulandweb/fixedsupply.py:71-72 | each row becomes `row[:3] + [0]` |
| `FixedSupply.InitBidAdjustments` | mulandweb/fixedsupply.py:65-76 | a file without a header raises; otherwise the header is kept and every row is reset |
| `FixedSupply.InitRowShape` | mulandweb/fixedsupply.py:72 | a row with at least 3 fields becomes its first three fields followed by 0 |
| `FixedSupply.InitIdempotent` | mulandweb/fixedsupply.py:65-76 | resetting twice is resetting once, for rows of at least 3 fields |
| `FixedSupply.InitShortRowGrows` | mulandweb/fixedsupply.py:72 | a row with fewer than 3 fields is not a fixed point: a second reset gives a different table |
| `FixedSupply.Max` | mulandweb/fixedsupply.py:102 | the larger of two values |
| `FixedSupply.MaxApDiff` | mulandweb/fixedsupply.py:100-102 | fails with ZeroDivision exactly when some control total is 0; otherwise the result is `MaxPctDiff`, the running maximum over the 29 slots, and it is non-negative, at least every slot's percentage difference, and either 0 or one of them |
| `FixedSupply.MatchedTotalsNoDifference` | mulandweb/fixedsupply.py:100-102 | allocations equal to the control totals give `maxapdiff` 0 |
| `FixedSupply.Zeros` | mulandweb/fixedsupply.py:86 | 29 zero slots |
| `FixedSupply.NetAdjust` | mulandweb/fixedsupply.py:86-126 | the net of the applied corrections is a 29-slot list |
| `FixedSupply.BhRows` | mulandweb/fixedsupply.py:128-132 | `bh.csv` row hx is agent hx+1 with its net adjustment |
| `FixedSupply.FirstAdjustment` | mulandweb/fixedsupply.py:121-126 | after the first correction the net is that correction |
| `FixedSupply.NextAdjustment` | mulandweb/fixedsupply.py:121-126 | applying one more correction to the table shifted by the net equals shifting the start table by the grown net |
| `FixedSupply.ControlTotals` | mulandweb/fixedsupply.py:15-23 | the 29 control totals, slot by slot |
| `FixedSupply.CorrectionsFromStep` | mulandweb/fixedsupply.py:122 | a pass's `adjust_bids` result extends the record of corrections |
| `FixedSupply.AccumulateNet` | mulandweb/fixedsupply.py:125-126 | the slot loop adds the correction to `net_adjust` |
| `FixedSupply.DescendingStep` | mulandweb/fixedsupply.py:109-120 | a difference that did not stop the run extends the history of non-stopping differences |
| `FixedSupply.DecideStep` | mulandweb/fixedsupply.py:105-120 | below 1% stops with 1; at pass 10 or when `maxapdiff` grew stops with -1; otherwise the loop goes on with `maxapdiff_1` set to this difference |
| `FixedSupply.CorrectionPass` | mulandweb/fixedsupply.py:121-126 | the step fails exactly when `adjust_bids` raises (a zero group total or zero allocation divides by zero, or the log of a non-positive ratio) or `make_adjustment` does (an empty file, or a row without BIDADJ or whose H_IDX-1 is not a valid list index); a successful correction step keeps the adjustment file equal to the start table shifted by the sum of all corrections applied, each of which is `adjust_bids` of its pass |
| `FixedSupply.SolvedExtend` | mulandweb/fixedsupply.py:93-94 | the totals `sum_totals` takes of the solver's output on the file with every correction so far extend the trace of pass totals |
| `FixedSupply.SolvedCorrected` | mulandweb/fixedsupply.py:121-124 | a new correction leaves the files, and so the totals, of the passes already run as they were |
| `FixedSupply.MeasuredExtend` | mulandweb/fixedsupply.py:100-102 | a `maxapdiff` taken on the newest pass's totals extends the history of differences, each measured on the pass after the one it follows |
| `FixedSupply.MeasurePass` | mulandweb/fixedsupply.py:98-120 | raises ZeroDivision exactly when a control total is 0; otherwise it adds this pass's `maxapdiff` to the history, measured on this pass's totals, and either goes on (only before pass 10, with this difference as `maxapdiff_1`) or stops as `DecideStep` says |
| `FixedSupply.Iterate` | mulandweb/fixedsupply.py:84-133 | the loop ends as a finished run (see `Run`), with the totals of every pass it ran; when it raises, the passes before are as in a finished run and the next pass failed in `sum_totals`, in the `maxapdiff` division by a zero control total, or in the correction step |
| `FixedSupply.MeasuredMore` | mulandweb/fixedsupply.py:100-102 | the totals of a pass that took no difference keep the history of differences measured |
| `FixedSupply.RaisedSumming` | mulandweb/fixedsupply.py:93-94 | `sum_totals` failing on the file of the next pass is a run that raised |
| `FixedSupply.RaisedMeasuring` | mulandweb/fixedsupply.py:100-102 | a zero control total at a pass after the first is a run that raised |
| `FixedSupply.RaisedCorrecting` | mulandweb/fixedsupply.py:121-124 | `adjust_bids` or `make_adjustment` failing after a pass that did not stop is a run that raised |
| `FixedSupply.FinishRun` | mulandweb/fixedsupply.py:109-133 | the state the loop stops in is a finished run |
| `FixedSupply.Run` | mulandweb/fixedsupply.py:78-133 | a run that returns: converged is 1 or -1 after 1 to 10 passes; 1 exactly when the last `maxapdiff` is below 1%; -1 only at pass 10 or after growth; every earlier `maxapdiff` was at least 1% and none grew; the totals of pass p are `sum_totals` of the solver's output on the start table (reset when asked) shifted by the first p corrections; each correction is `adjust_bids` of its pass's totals and each `maxapdiff` is taken on the totals of the pass after it; `bh.csv` holds the sum of the corrections; the adjustment file is the start table shifted by that sum; a run raises when a record's H_IDX is out of range, or the adjustment file to reset is empty, and otherwise only when a pass raised as `Iterate` describes |
| `TableOps.SumAppend` | examples/landmodel.py:142 | a sum grows by the appended value |
| `TableOps.SumScaled` | examples/landmodel.py:162 | the sum of a scaled column is the scaled sum |
| `TableOps.DistinctCount` | examples/landmodel.py:62 | the distinct count is at most the length, and equals it exactly when there are no duplicates |
| `TableOps.InsertKey` | examples/landmodel.py:142 | inserting into a strictly increasing key list keeps it strictly increasing and adds exactly the key |
| `TableOps.SortedKeys` | examples/landmodel.py:142 | the group keys of a column are its distinct values in strictly increasing order |

## Left out

- Reading and writing files, the work directory and the CSV exports (landmodel.py:130-134, 168-179, 220), the arcpy and table loading of the constructor, the log file and every `print`. Tables and CSV files are values here.
- The mu-Land executable (landmodel.py:182, fixedsupply.py:79 and 93). It is a function parameter from the current inputs to its outputs. muland.py is not part of this model.
- The natural logarithm and square root are function parameters. Only `ln(1) = 0` is assumed, and only where a lemma states it.
- Floating point is modelled as exact reals. NaN and infinity are values only for the RMSE of `run_fixedSupply` (`Extended`), where a mean of 0 is taken as +0. Elsewhere a market with zero supply is a `ZeroMarketSupply` failure, because the source would scale by infinity. A zero estimated allocation is a `ZeroAllocation` failure, because DEMAND/0 would make the correction infinite. An empty comparison is `NoComparableAgents`, because `max` of an empty series raises.
- `LandCalibration.CompareRow`, `LandCalibration.Compare`: a negative estimated allocation total gives numpy a negative ratio DEMAND/est_loc, whose log is NaN (landmodel.py:212), and that NaN then reaches every `bh` Value and BIDADJ of the agent (landmodel.py:217, 227). The model passes the ratio to the `ln` parameter instead, so such corrections are whatever `ln` returns for a negative argument, not NaN.
- `Land.LandModel.CalibrationStep`, `Land.LandModel.SolveAndCalibrate`, `Land.LandModel.NextPass`, `Land.LandModel.TakePass`, `Land.LandModel.RunFixedSupply`: these require every DEMAND to be positive. With a zero DEMAND, pandas divides by zero into inf or NaN and goes on; that case is not modelled.
- `Land.LandModel.SolveAndCalibrate`: on failure it states only that the adjustment keys are kept, not which tables were already replaced.
- The call at landmodel.py:206 passes `supply_df` and `demand_df` positionally into `evaluate_bids`, which takes only `workDir` there, so Python raises a TypeError. The model makes the intended call: evaluate with the given `balance` on the stored tables.
- The test `k == maxiters` at landmodel.py:239 is never true inside `range(maxiters)`. It is dropped from the stop rule.
- The `isinstance` checks (landmodel.py:57-58, 65-66, 76-77) are not modelled, because the tables are typed. The `hasattr` checks (84-87) are booleans.
- `int(...)` of a column id: the digits are optionally surrounded by spaces and signed. Other forms Python accepts, such as underscores and non-ASCII digits, are rejected.
- `aux_adj[agent - 1]` (landmodel.py:217, 227) is a pandas label lookup. The merged frame keeps the demand table's index labels. The model assumes the default labels 0..n-1, so label a-1 is demand row a-1. An agent without such a row is an `UnknownAgent` failure, matching pandas' KeyError. Demand tables with other index labels are not modelled.
- Output tables other than `location` and `bh` keep only their row counts.
- The RMSE of fixedsupply.py:99-104 only feeds the log, and is not modelled. For the same reason `loc_totals_1` is not modelled. The rest of that pass's decision (lines 98-120) is the method `FixedSupply.MeasurePass`.
- `FixedSupply.InitIdempotent`: this requires rows of at least 3 fields. `FixedSupply.InitShortRowGrows` shows that shorter rows grow.
- The constructor of `FixedSupply`, which copies the adjustment file as a backup (fixedsupply.py:12-13), is file I/O.
