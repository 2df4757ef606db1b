/** The pure rules of one fixed-supply calibration pass of `run_fixedSupply`
    (examples/landmodel.py): reading an agent id out of a location column name,
    totalling the allocation of every agent, comparing it with demand, the
    per-agent log correction added to `bh` and to the bid adjustments, the
    maximum absolute percentage difference, the RMSE between two passes and the
    rule that ends the loop. */
module LandCalibration {
  import opened Results
  import opened TableOps
  import opened LandTables

  // ---------------------------------------------------------------------------
  // Agent ids in location column names

  /** The position of the first `c` in `s`. */
  function FirstIndex(s: string, c: char): (r: Option<nat>)
    ensures r.Some? ==> r.value < |s| && s[r.value] == c && forall i | 0 <= i < r.value :: s[i] != c
    ensures r.None? ==> forall i | 0 <= i < |s| :: s[i] != c
  {
    if s == [] then None
    else if s[0] == c then Some(0)
    else match FirstIndex(s[1..], c)
      case None => None
      case Some(i) => Some(i + 1)
  }

  /** The first field of splitting `s` on `c`: everything before the first `c`,
      or all of `s` when there is none. */
  function BeforeFirst(s: string, c: char): string
  {
    match FirstIndex(s, c)
    case None => s
    case Some(i) => s[..i]
  }

  /** The text a column name carries as its agent id: the part of the name
      before the first ']', split on '[', field 1. None when that part has no
      '[' (the split has no field 1). */
  function AgentIdText(name: string): Option<string>
  {
    var head := BeforeFirst(name, ']');
    match FirstIndex(head, '[')
    case None => None
    case Some(i) => Some(BeforeFirst(head[i + 1..], '['))
  }

  predicate IsSpace(c: char)
  {
    c == ' ' || c == '\t' || c == '\n' || c == '\r' || c == '\U{000B}' || c == '\U{000C}'
  }

  predicate IsDigit(c: char) { '0' <= c <= '9' }

  function TrimLeft(s: string): (r: string)
    ensures |r| <= |s|
  {
    if s != [] && IsSpace(s[0]) then TrimLeft(s[1..]) else s
  }

  function TrimRight(s: string): (r: string)
    ensures |r| <= |s|
  {
    if s != [] && IsSpace(s[|s| - 1]) then TrimRight(s[..|s| - 1]) else s
  }

  /** The value of a string of decimal digits, most significant first. */
  function DigitsValue(ds: string): nat
    requires forall i | 0 <= i < |ds| :: IsDigit(ds[i])
  {
    if ds == [] then 0
    else
      var n := |ds| - 1;
      assert IsDigit(ds[n]);
      DigitsValue(ds[..n]) * 10 + (ds[n] as int - '0' as int)
  }

  /** Integer parsing: surrounding white space, an optional sign, then one or
      more decimal digits. */
  function ParseInt(text: string): Option<int>
  {
    var t := TrimRight(TrimLeft(text));
    var negative := |t| > 0 && t[0] == '-';
    var ds := if |t| > 0 && (t[0] == '-' || t[0] == '+') then t[1..] else t;
    if ds != [] && forall i | 0 <= i < |ds| :: IsDigit(ds[i]) then
      var v: int := DigitsValue(ds);
      Some(if negative then -v else v)
    else None
  }

  /** The agent id of a location column, or the error its conversion raises. */
  function ParseAgentId(name: string): Result<int, LandError>
  {
    match AgentIdText(name)
    case None => Failure(BadAgentColumn(name))
    case Some(text) =>
      match ParseInt(text)
      case None => Failure(BadAgentColumn(name))
      case Some(id) => Success(id)
  }

  function DigitChar(d: nat): char
    requires d < 10
  {
    ('0' as int + d) as char
  }

  /** The decimal spelling of `n`, as the solver writes agent ids into column names. */
  function NatToString(n: nat): (s: string)
    ensures |s| > 0 && forall i | 0 <= i < |s| :: IsDigit(s[i])
  {
    if n < 10 then [DigitChar(n)] else NatToString(n / 10) + [DigitChar(n % 10)]
  }

  lemma {:induction false} NatToStringValue(n: nat)
    ensures DigitsValue(NatToString(n)) == n
  {
    var s := NatToString(n);
    if n >= 10 {
      NatToStringValue(n / 10);
      assert s[..|s| - 1] == NatToString(n / 10);
    }
  }

  lemma FirstIndexAt(s: string, c: char, j: nat)
    requires j < |s| && s[j] == c
    requires forall i | 0 <= i < j :: s[i] != c
    ensures FirstIndex(s, c) == Some(j)
  {
  }

  lemma NoSpaceTrims(s: string)
    requires s != [] && !IsSpace(s[0]) && !IsSpace(s[|s| - 1])
    ensures TrimRight(TrimLeft(s)) == s
  {
  }

  lemma ParseDigits(ds: string)
    requires ds != [] && forall i | 0 <= i < |ds| :: IsDigit(ds[i])
    ensures ParseInt(ds) == Some(DigitsValue(ds))
  {
    NoSpaceTrims(ds);
  }

  /** The head of `prefix[ds]suffix` before its first ']' is `prefix[ds`. */
  lemma HeadOfName(prefix: string, ds: string, suffix: string)
    requires forall i | 0 <= i < |prefix| :: prefix[i] != ']'
    requires forall i | 0 <= i < |ds| :: ds[i] != ']'
    ensures BeforeFirst(prefix + "[" + ds + "]" + suffix, ']') == prefix + "[" + ds
  {
    var name := prefix + "[" + ds + "]" + suffix;
    var j := |prefix| + 1 + |ds|;
    forall i | 0 <= i < j ensures name[i] != ']' {
      if i < |prefix| {
        assert name[i] == prefix[i];
      } else if i > |prefix| {
        assert name[i] == ds[i - |prefix| - 1];
      }
    }
    FirstIndexAt(name, ']', j);
    assert name[..j] == prefix + "[" + ds;
  }

  /** The agent-id text of `prefix[ds]suffix` is `ds`. */
  lemma IdTextOfName(prefix: string, ds: string, suffix: string)
    requires forall i | 0 <= i < |prefix| :: prefix[i] != '[' && prefix[i] != ']'
    requires forall i | 0 <= i < |ds| :: ds[i] != '[' && ds[i] != ']'
    ensures AgentIdText(prefix + "[" + ds + "]" + suffix) == Some(ds)
  {
    HeadOfName(prefix, ds, suffix);
    var head := prefix + "[" + ds;
    var p := |prefix|;
    forall i | 0 <= i < p ensures head[i] != '[' {
      assert head[i] == prefix[i];
    }
    FirstIndexAt(head, '[', p);
    assert head[p + 1..] == ds;
  }

  /** A column named `prefix[n]suffix`, with no bracket in `prefix`, belongs to
      agent `n`. */
  lemma ParseAgentIdOfName(prefix: string, n: nat, suffix: string)
    requires forall i | 0 <= i < |prefix| :: prefix[i] != '[' && prefix[i] != ']'
    ensures ParseAgentId(prefix + "[" + NatToString(n) + "]" + suffix) == Success(n)
  {
    var ds := NatToString(n);
    IdTextOfName(prefix, ds, suffix);
    ParseDigits(ds);
    NatToStringValue(n);
  }

  /** A column name whose part before the first ']' holds no '[' is rejected. */
  lemma ParseAgentIdNeedsBracket(name: string)
    requires forall i | 0 <= i < |BeforeFirst(name, ']')| :: BeforeFirst(name, ']')[i] != '['
    ensures ParseAgentId(name) == Failure(BadAgentColumn(name))
  {
  }

  // ---------------------------------------------------------------------------
  // The location output and per-agent allocation totals

  /** One agent column of the solver's location output. */
  datatype AgentColumn = AgentColumn(name: string, values: seq<real>)

  /** The location output: `rows` (real estate, zone) rows and one column per
      agent; the two index columns are kept out of the agent columns. */
  datatype Location = Location(rows: nat, columns: seq<AgentColumn>)

  /** The agent id of every column, or the error of the first bad column name. */
  function ColumnIds(cols: seq<AgentColumn>): (r: Result<seq<int>, LandError>)
    ensures r.Success? ==>
      && |r.value| == |cols|
      && forall k | 0 <= k < |cols| :: ParseAgentId(cols[k].name) == Success(r.value[k])
  {
    FirstFailure(seq(|cols|, k requires 0 <= k < |cols| => ParseAgentId(cols[k].name)))
  }

  /** The values of `rs` when every one succeeds, else its first error. */
  function FirstFailure(rs: seq<Result<int, LandError>>): (r: Result<seq<int>, LandError>)
    ensures r.Success? ==> |r.value| == |rs| && forall k | 0 <= k < |rs| :: rs[k] == Success(r.value[k])
  {
    if rs == [] then Success([])
    else
      match rs[0]
      case Failure(e) => Failure(e)
      case Success(v) =>
        match FirstFailure(rs[1..])
        case Failure(e) => Failure(e)
        case Success(vs) => Success([v] + vs)
  }

  /** A failure of `FirstFailure` is the error of the first failing entry. */
  lemma {:induction false} FirstFailureIsFirst(rs: seq<Result<int, LandError>>)
    ensures FirstFailure(rs).Failure? ==> exists k | 0 <= k < |rs| ::
      && rs[k] == Failure(FirstFailure(rs).error)
      && forall j | 0 <= j < k :: rs[j].Success?
  {
    if rs != [] && rs[0].Success? && FirstFailure(rs).Failure? {
      var rest := rs[1..];
      FirstFailureIsFirst(rest);
      assert FirstFailure(rs) == FirstFailure(rest);
      var k :| 0 <= k < |rest| && rest[k] == Failure(FirstFailure(rest).error)
        && forall j | 0 <= j < k :: rest[j].Success?;
      assert rs[k + 1] == rest[k];
      assert forall j | 1 <= j < k + 1 :: rs[j] == rest[j - 1];
    }
  }

  /** A failure of `ColumnIds` is the error of the first column whose name
      does not parse. */
  lemma ColumnIdsFirstFailure(cols: seq<AgentColumn>)
    ensures ColumnIds(cols).Failure? ==> exists k | 0 <= k < |cols| ::
      && ParseAgentId(cols[k].name) == Failure(ColumnIds(cols).error)
      && forall j | 0 <= j < k :: ParseAgentId(cols[j].name).Success?
  {
    var ps := seq(|cols|, k requires 0 <= k < |cols| => ParseAgentId(cols[k].name));
    assert ColumnIds(cols) == FirstFailure(ps);
    FirstFailureIsFirst(ps);
    if FirstFailure(ps).Failure? {
      var k :| 0 <= k < |ps| && ps[k] == Failure(FirstFailure(ps).error)
        && forall j | 0 <= j < k :: ps[j].Success?;
      assert ParseAgentId(cols[k].name) == ps[k];
      assert forall j | 0 <= j < k :: ParseAgentId(cols[j].name) == ps[j];
    }
  }

  /** The estimated allocation of agent `a`: the sum of every column whose id is `a`. */
  function AgentAllocation(cols: seq<AgentColumn>, ids: seq<int>, a: int): real
    requires |ids| == |cols|
  {
    if cols == [] then 0.0
    else
      var n := |cols| - 1;
      AgentAllocation(cols[..n], ids[..n], a) + (if ids[n] == a then Sum(cols[n].values) else 0.0)
  }

  datatype AgentTotal = AgentTotal(agent: int, estLoc: real)

  function AgentKeys(totals: seq<AgentTotal>): (ks: seq<int>)
    ensures |ks| == |totals| && forall i | 0 <= i < |totals| :: ks[i] == totals[i].agent
  {
    seq(|totals|, i requires 0 <= i < |totals| => totals[i].agent)
  }

  /** `alloc_totals`: the location output melted to one row per (row, agent
      column), the agent id parsed from every column name and the allocations
      summed per agent, in ascending agent order. */
  function AllocTotals(loc: Location): Result<seq<AgentTotal>, LandError>
  {
    if loc.rows == 0 then Success([])
    else
      match ColumnIds(loc.columns)
      case Failure(e) => Failure(e)
      case Success(ids) =>
        var keys := SortedKeys(ids);
        Success(seq(|keys|, i requires 0 <= i < |keys| => AgentTotal(keys[i], AgentAllocation(loc.columns, ids, keys[i]))))
  }

  /** The totals have one row per agent id found in the column names, in
      strictly ascending order, each the sum of that agent's columns; a bad
      column name fails the whole step. */
  lemma AllocTotalsShape(loc: Location)
    requires loc.rows > 0
    ensures ColumnIds(loc.columns).Failure? ==> AllocTotals(loc) == Failure(ColumnIds(loc.columns).error)
    ensures ColumnIds(loc.columns).Success? ==>
      && AllocTotals(loc).Success?
      && var ids, totals := ColumnIds(loc.columns).value, AllocTotals(loc).value;
      && StrictlyIncreasing(AgentKeys(totals))
      && (forall a :: a in AgentKeys(totals) <==> a in ids)
      && forall i | 0 <= i < |totals| :: totals[i].estLoc == AgentAllocation(loc.columns, ids, totals[i].agent)
  {
    if ColumnIds(loc.columns).Success? {
      var ids := ColumnIds(loc.columns).value;
      var keys := SortedKeys(ids);
      var totals := AllocTotals(loc).value;
      assert AgentKeys(totals) == keys;
    }
  }

  /** The allocation of every agent, summed over agents, is the allocation of
      all columns. */
  lemma {:induction false} AllocationConserved(cols: seq<AgentColumn>, ids: seq<int>, keys: seq<int>)
    requires |ids| == |cols|
    requires StrictlyIncreasing(keys)
    requires forall k | 0 <= k < |ids| :: ids[k] in keys
    ensures Sum(seq(|keys|, i requires 0 <= i < |keys| => AgentAllocation(cols, ids, keys[i])))
         == Sum(seq(|cols|, k requires 0 <= k < |cols| => Sum(cols[k].values)))
  {
    var per := seq(|keys|, i requires 0 <= i < |keys| => AgentAllocation(cols, ids, keys[i]));
    var all := seq(|cols|, k requires 0 <= k < |cols| => Sum(cols[k].values));
    if cols == [] {
      ZeroAllocations(ids, keys);
    } else {
      var n := |cols| - 1;
      var per' := seq(|keys|, i requires 0 <= i < |keys| => AgentAllocation(cols[..n], ids[..n], keys[i]));
      assert forall k | 0 <= k < |ids[..n]| :: ids[..n][k] in keys by {
        forall k | 0 <= k < |ids[..n]| ensures ids[..n][k] in keys {
          assert ids[..n][k] == ids[k];
        }
      }
      AllocationConserved(cols[..n], ids[..n], keys);
      assert ids[n] in keys;
      var j :| 0 <= j < |keys| && keys[j] == ids[n];
      var x := Sum(cols[n].values);
      assert forall i | 0 <= i < |keys| :: per[i] == per'[i] + (if i == j then x else 0.0);
      AddAtOne(per', per, j, x);
      assert all[..n] == seq(|cols[..n]|, k requires 0 <= k < |cols[..n]| => Sum(cols[..n][k].values));
      assert all == all[..n] + [x];
    }
  }

  lemma {:induction false} ZeroAllocations(ids: seq<int>, keys: seq<int>)
    requires ids == []
    ensures Sum(seq(|keys|, i requires 0 <= i < |keys| => AgentAllocation([], ids, keys[i]))) == 0.0
  {
    var z := seq(|keys|, i requires 0 <= i < |keys| => AgentAllocation([], ids, keys[i]));
    if keys != [] {
      var n := |keys| - 1;
      ZeroAllocations(ids, keys[..n]);
      assert z[..n] == seq(|keys[..n]|, i requires 0 <= i < |keys[..n]| => AgentAllocation([], ids, keys[..n][i]));
    }
  }

  /** Adding `x` to entry `j` of a column adds `x` to its sum. */
  lemma {:induction false} AddAtOne(a: seq<real>, b: seq<real>, j: int, x: real)
    requires |a| == |b| && 0 <= j < |a|
    requires forall i | 0 <= i < |a| :: b[i] == a[i] + (if i == j then x else 0.0)
    ensures Sum(b) == Sum(a) + x
  {
    var n := |a| - 1;
    if j == n {
      assert a[..n] == b[..n];
    } else {
      AddAtOne(a[..n], b[..n], j, x);
    }
  }

  // ---------------------------------------------------------------------------
  // Comparison with demand

  /** A row of `compare_agents`: the agent's allocation, its demand, their
      absolute difference and the log correction `ln(DEMAND / est_loc)`. */
  datatype Comparison = Comparison(estLoc: real, demand: real, absDiff: real, auxAdj: real)

  /** The allocation of agent `a` in a totals table (a left join on the
      agent id): the first row with that agent, or None. */
  function LookupTotal(totals: seq<AgentTotal>, a: int): Option<real>
  {
    if totals == [] then None
    else if totals[0].agent == a then Some(totals[0].estLoc)
    else LookupTotal(totals[1..], a)
  }

  /** A lookup finds an allocation exactly when the agent has a row, and what
      it finds is that agent's allocation in one of its rows. */
  lemma {:induction false} LookupTotalFinds(totals: seq<AgentTotal>, a: int)
    ensures LookupTotal(totals, a).Some? <==> a in AgentKeys(totals)
    ensures LookupTotal(totals, a).Some? ==>
      exists i | 0 <= i < |totals| :: totals[i] == AgentTotal(a, LookupTotal(totals, a).value)
  {
    if totals != [] {
      assert AgentKeys(totals) == [totals[0].agent] + AgentKeys(totals[1..]);
      if totals[0].agent != a {
        LookupTotalFinds(totals[1..], a);
        var r := LookupTotal(totals[1..], a);
        if r.Some? {
          var i :| 0 <= i < |totals[1..]| && totals[1..][i] == AgentTotal(a, r.value);
          assert totals[i + 1] == AgentTotal(a, r.value);
        }
      } else {
        assert totals[0] == AgentTotal(a, totals[0].estLoc);
      }
    }
  }

  /** The comparison of one demand row: None when the agent has no allocation
      total (the inner merge drops the row). A zero allocation makes the ratio
      undefined. */
  function CompareRow(totals: seq<AgentTotal>, d: Demand, ln: real -> real): Result<Option<Comparison>, LandError>
  {
    match LookupTotal(totals, d.hIdx)
    case None => Success(None)
    case Some(est) =>
      if est == 0.0 then Failure(ZeroAllocation(d.hIdx))
      else Success(Some(Comparison(est, d.demand, Abs(est - d.demand), ln(d.demand / est))))
  }

  /** `compare_agents`, kept at the positions of the demand rows it was merged
      from (the merge keeps the demand table's index labels). */
  function Compare(totals: seq<AgentTotal>, demand: seq<Demand>, ln: real -> real): (r: Result<seq<Option<Comparison>>, LandError>)
    ensures r.Success? <==> forall j | 0 <= j < |demand| :: CompareRow(totals, demand[j], ln).Success?
    ensures r.Success? ==>
      && |r.value| == |demand|
      && forall j | 0 <= j < |demand| :: r.value[j] == CompareRow(totals, demand[j], ln).value
  {
    if demand == [] then Success([])
    else
      var n := |demand| - 1;
      match Compare(totals, demand[..n], ln)
      case Failure(e) =>
        assert exists j | 0 <= j < n :: CompareRow(totals, demand[..n][j], ln).Failure?;
        Failure(e)
      case Success(cs) =>
        match CompareRow(totals, demand[n], ln)
        case Failure(e) => Failure(e)
        case Success(c) =>
          assert forall j | 0 <= j < n :: demand[..n][j] == demand[j];
          Success(cs + [c])
  }

  // ---------------------------------------------------------------------------
  // The per-agent correction

  /** `aux_adj[a - 1]`: the correction stored under label `a - 1`, or the
      failed lookup when no comparison row carries that label. */
  function AuxAdj(cmp: seq<Option<Comparison>>, a: int): Result<real, LandError>
  {
    if 0 <= a - 1 < |cmp| && cmp[a - 1].Some? then Success(cmp[a - 1].value.auxAdj)
    else Failure(UnknownAgent(a))
  }

  /** The new `bh` table: every value plus its agent's correction. */
  function CorrectBh(bh: seq<BhRow>, cmp: seq<Option<Comparison>>): (r: Result<seq<BhRow>, LandError>)
    ensures r.Success? <==> forall i | 0 <= i < |bh| :: AuxAdj(cmp, bh[i].agents).Success?
    ensures r.Success? ==>
      && |r.value| == |bh|
      && forall i | 0 <= i < |bh| ::
           r.value[i] == BhRow(bh[i].agents, bh[i].value + AuxAdj(cmp, bh[i].agents).value)
  {
    if bh == [] then Success([])
    else
      var n := |bh| - 1;
      match CorrectBh(bh[..n], cmp)
      case Failure(e) =>
        assert exists i | 0 <= i < n :: AuxAdj(cmp, bh[..n][i].agents).Failure?;
        Failure(e)
      case Success(rows) =>
        match AuxAdj(cmp, bh[n].agents)
        case Failure(e) => Failure(e)
        case Success(x) =>
          assert forall i | 0 <= i < n :: bh[..n][i] == bh[i];
          Success(rows + [BhRow(bh[n].agents, bh[n].value + x)])
  }

  /** The new bid adjustments: every BIDADJ plus its agent's correction. */
  function CorrectAdjustments(adj: seq<BidAdjustment>, cmp: seq<Option<Comparison>>): (r: Result<seq<BidAdjustment>, LandError>)
    ensures r.Success? <==> forall i | 0 <= i < |adj| :: AuxAdj(cmp, adj[i].hIdx).Success?
    ensures r.Success? ==>
      && |r.value| == |adj|
      && forall i | 0 <= i < |adj| ::
           r.value[i] == adj[i].(bidAdj := adj[i].bidAdj + AuxAdj(cmp, adj[i].hIdx).value)
  {
    if adj == [] then Success([])
    else
      var n := |adj| - 1;
      match CorrectAdjustments(adj[..n], cmp)
      case Failure(e) =>
        assert exists i | 0 <= i < n :: AuxAdj(cmp, adj[..n][i].hIdx).Failure?;
        Failure(e)
      case Success(rows) =>
        match AuxAdj(cmp, adj[n].hIdx)
        case Failure(e) => Failure(e)
        case Success(x) =>
          assert forall i | 0 <= i < n :: adj[..n][i] == adj[i];
          Success(rows + [adj[n].(bidAdj := adj[n].bidAdj + x)])
  }

  /** The adjustment keys of a table: every row's (H_IDX, V_IDX, I_IDX). */
  function AdjustmentKeys(adj: seq<BidAdjustment>): (ks: seq<(int, int, int)>)
    ensures |ks| == |adj| && forall i | 0 <= i < |adj| :: ks[i] == (adj[i].hIdx, adj[i].vIdx, adj[i].iIdx)
  {
    seq(|adj|, i requires 0 <= i < |adj| => (adj[i].hIdx, adj[i].vIdx, adj[i].iIdx))
  }

  /** Correcting the bid adjustments keeps the row count, the row order and
      every row's keys. */
  lemma CorrectionKeepsKeys(adj: seq<BidAdjustment>, cmp: seq<Option<Comparison>>)
    requires CorrectAdjustments(adj, cmp).Success?
    ensures AdjustmentKeys(CorrectAdjustments(adj, cmp).value) == AdjustmentKeys(adj)
  {
  }

  /** When every agent's allocation matches its demand and `ln(1) = 0`, the
      corrections are zero and both tables come back unchanged. */
  lemma MatchedAllocationNoCorrection(bh: seq<BhRow>, adj: seq<BidAdjustment>, cmp: seq<Option<Comparison>>, ln: real -> real)
    requires ln(1.0) == 0.0
    requires forall j | 0 <= j < |cmp| :: cmp[j].Some? ==>
      cmp[j].value.estLoc != 0.0 && cmp[j].value.auxAdj == ln(cmp[j].value.demand / cmp[j].value.estLoc)
      && cmp[j].value.demand == cmp[j].value.estLoc
    requires CorrectBh(bh, cmp).Success? && CorrectAdjustments(adj, cmp).Success?
    ensures CorrectBh(bh, cmp).value == bh
    ensures CorrectAdjustments(adj, cmp).value == adj
  {
    var rb, ra := CorrectBh(bh, cmp).value, CorrectAdjustments(adj, cmp).value;
    forall i | 0 <= i < |bh| ensures rb[i] == bh[i] {
      var c := cmp[bh[i].agents - 1].value;
      DivSelf(c.estLoc);
    }
    forall i | 0 <= i < |adj| ensures ra[i] == adj[i] {
      var c := cmp[adj[i].hIdx - 1].value;
      DivSelf(c.estLoc);
    }
  }

  // ---------------------------------------------------------------------------
  // Maximum absolute percentage difference

  /** `abs_diff / DEMAND` of one comparison row. */
  function Ratio(c: Comparison): real
    requires c.demand > 0.0
  {
    c.absDiff / c.demand
  }

  predicate PositiveDemand(cmp: seq<Option<Comparison>>)
  {
    forall j | 0 <= j < |cmp| :: cmp[j].Some? ==> cmp[j].value.demand > 0.0
  }

  /** The largest `abs_diff / DEMAND` over the comparison rows, None when there
      are none. */
  function MaxRatio(cmp: seq<Option<Comparison>>): (r: Option<real>)
    requires PositiveDemand(cmp)
    ensures r.Some? <==> exists j | 0 <= j < |cmp| :: cmp[j].Some?
    ensures r.Some? ==> forall j | 0 <= j < |cmp| :: cmp[j].Some? ==> Ratio(cmp[j].value) <= r.value
    ensures r.Some? ==> exists j | 0 <= j < |cmp| :: cmp[j].Some? && r.value == Ratio(cmp[j].value)
  {
    if cmp == [] then None
    else
      var n := |cmp| - 1;
      assert forall j | 0 <= j < n :: cmp[..n][j] == cmp[j];
      var p := MaxRatio(cmp[..n]);
      if cmp[n].None? then p
      else
        var x := Ratio(cmp[n].value);
        if p.None? || x > p.value then Some(x) else p
  }

  /** `maxapdiff`: 100 times the largest `abs_diff / DEMAND`, or the error of
      taking the maximum of no rows. */
  function MaxAbsPctDiff(cmp: seq<Option<Comparison>>): Result<real, LandError>
    requires PositiveDemand(cmp)
  {
    match MaxRatio(cmp)
    case None => Failure(NoComparableAgents)
    case Some(x) => Success(100.0 * x)
  }

  lemma ScaleMonotone(x: real, y: real)
    requires x <= y
    ensures 100.0 * x <= 100.0 * y
  {
  }

  /** With non-negative differences and positive demand, `maxapdiff` is
      defined exactly when some agent was compared, is at least every row's
      percentage difference, is reached by one of them, and is not negative. */
  lemma MaxAbsPctDiffBounds(cmp: seq<Option<Comparison>>)
    requires PositiveDemand(cmp)
    requires forall j | 0 <= j < |cmp| :: cmp[j].Some? ==> cmp[j].value.absDiff >= 0.0
    ensures MaxAbsPctDiff(cmp).Success? <==> exists j | 0 <= j < |cmp| :: cmp[j].Some?
    ensures MaxAbsPctDiff(cmp).Success? ==>
      var m := MaxAbsPctDiff(cmp).value;
      && m >= 0.0
      && (forall j | 0 <= j < |cmp| :: cmp[j].Some? ==> 100.0 * Ratio(cmp[j].value) <= m)
      && exists j | 0 <= j < |cmp| :: cmp[j].Some? && m == 100.0 * Ratio(cmp[j].value)
  {
    var r := MaxRatio(cmp);
    if r.Some? {
      var j :| 0 <= j < |cmp| && cmp[j].Some? && r.value == Ratio(cmp[j].value);
      assert Ratio(cmp[j].value) >= 0.0;
      forall i | 0 <= i < |cmp| && cmp[i].Some? ensures 100.0 * Ratio(cmp[i].value) <= 100.0 * r.value {
        ScaleMonotone(Ratio(cmp[i].value), r.value);
      }
    }
  }

  /** When every compared allocation equals its demand, `maxapdiff` is 0. */
  lemma MaxAbsPctDiffZero(cmp: seq<Option<Comparison>>)
    requires PositiveDemand(cmp)
    requires forall j | 0 <= j < |cmp| :: cmp[j].Some? ==> cmp[j].value.absDiff == 0.0
    requires MaxAbsPctDiff(cmp).Success?
    ensures MaxAbsPctDiff(cmp).value == 0.0
  {
    var r := MaxRatio(cmp);
    var j :| 0 <= j < |cmp| && cmp[j].Some? && r.value == Ratio(cmp[j].value);
    assert Ratio(cmp[j].value) == 0.0;
  }

  /** A comparison made by `CompareRow` whose allocation equals its demand has
      no difference. */
  lemma CompareRowExact(totals: seq<AgentTotal>, d: Demand, ln: real -> real)
    requires CompareRow(totals, d, ln).Success? && CompareRow(totals, d, ln).value.Some?
    requires LookupTotal(totals, d.hIdx) == Some(d.demand)
    ensures CompareRow(totals, d, ln).value.value.absDiff == 0.0
  {
  }

  /** Every comparison row built from positive demand has positive demand and
      a non-negative difference. */
  lemma CompareRowsBounded(totals: seq<AgentTotal>, demand: seq<Demand>, ln: real -> real)
    requires forall j | 0 <= j < |demand| :: demand[j].demand > 0.0
    requires Compare(totals, demand, ln).Success?
    ensures PositiveDemand(Compare(totals, demand, ln).value)
    ensures forall j | 0 <= j < |demand| :: Compare(totals, demand, ln).value[j].Some? ==>
      Compare(totals, demand, ln).value[j].value.absDiff >= 0.0
  {
    var cmp := Compare(totals, demand, ln).value;
    forall j | 0 <= j < |cmp| && cmp[j].Some?
      ensures cmp[j].value.demand > 0.0 && cmp[j].value.absDiff >= 0.0
    {
      assert cmp[j] == CompareRow(totals, demand[j], ln).value;
    }
  }

  // ---------------------------------------------------------------------------
  // One calibration pass

  /** The allocation totals of a pass and their comparison with demand. */
  function PassComparison(location: Location, demand: seq<Demand>, ln: real -> real)
    : Result<(seq<AgentTotal>, seq<Option<Comparison>>), LandError>
  {
    match AllocTotals(location)
    case Failure(e) => Failure(e)
    case Success(totals) =>
      match Compare(totals, demand, ln)
      case Failure(e) => Failure(e)
      case Success(cmp) => Success((totals, cmp))
  }

  /** What one pass produces: the allocation totals, the corrected `bh` and
      bid adjustments, and `maxapdiff`. */
  datatype PassResult = PassResult(totals: seq<AgentTotal>, bh: seq<BhRow>,
                                   bidsAdjustments: seq<BidAdjustment>, maxapdiff: real)

  /** The per-agent step of `run_fixedSupply` after a solver run: totals,
      comparison, corrections of `bh` and of the bid adjustments, then
      `maxapdiff`, failing at the first step that fails. A successful pass keeps
      the agents of `bh`, the keys and order of the adjustments, and gives a
      non-negative `maxapdiff`. */
  function CalibrationPass(location: Location, demand: seq<Demand>, bh: seq<BhRow>,
                           adj: seq<BidAdjustment>, ln: real -> real): (r: Result<PassResult, LandError>)
    requires forall j | 0 <= j < |demand| :: demand[j].demand > 0.0
    ensures r.Success? ==>
      && PassComparison(location, demand, ln).Success?
      && r.value.totals == PassComparison(location, demand, ln).value.0
      && |r.value.bh| == |bh|
      && (forall i | 0 <= i < |bh| :: r.value.bh[i].agents == bh[i].agents)
      && AdjustmentKeys(r.value.bidsAdjustments) == AdjustmentKeys(adj)
      && r.value.maxapdiff >= 0.0
  {
    match PassComparison(location, demand, ln)
    case Failure(e) => Failure(e)
    case Success((totals, cmp)) =>
      match CorrectBh(bh, cmp)
      case Failure(e) => Failure(e)
      case Success(newBh) =>
        match CorrectAdjustments(adj, cmp)
        case Failure(e) => Failure(e)
        case Success(newAdj) =>
          CompareRowsBounded(totals, demand, ln);
          CorrectionKeepsKeys(adj, cmp);
          MaxAbsPctDiffBounds(cmp);
          match MaxAbsPctDiff(cmp)
          case Failure(e) => Failure(e)
          case Success(d) => Success(PassResult(totals, newBh, newAdj, d))
  }

  /** The `bh` rows and bid adjustments a pass leaves behind: each correction
      is kept once it has been computed, even when a later step of the pass
      fails. `PassStateOnSuccess` relates it to `CalibrationPass`. */
  function PassState(location: Location, demand: seq<Demand>, bh: seq<BhRow>,
                     adj: seq<BidAdjustment>, ln: real -> real): (seq<BhRow>, seq<BidAdjustment>)
    requires forall j | 0 <= j < |demand| :: demand[j].demand > 0.0
  {
    match PassComparison(location, demand, ln)
    case Failure(_) => (bh, adj)
    case Success((_, cmp)) =>
      match CorrectBh(bh, cmp)
      case Failure(_) => (bh, adj)
      case Success(newBh) =>
        match CorrectAdjustments(adj, cmp)
        case Failure(_) => (newBh, adj)
        case Success(newAdj) => (newBh, newAdj)
  }

  /** After a successful pass the state left behind is the corrected `bh` and
      adjustments that the pass returns. */
  lemma PassStateOnSuccess(location: Location, demand: seq<Demand>, bh: seq<BhRow>,
                           adj: seq<BidAdjustment>, ln: real -> real)
    requires forall j | 0 <= j < |demand| :: demand[j].demand > 0.0
    requires CalibrationPass(location, demand, bh, adj, ln).Success?
    ensures PassState(location, demand, bh, adj, ln)
         == (CalibrationPass(location, demand, bh, adj, ln).value.bh,
             CalibrationPass(location, demand, bh, adj, ln).value.bidsAdjustments)
  {
    var cmp := PassComparison(location, demand, ln).value.1;
    assert CorrectBh(bh, cmp).Success?;
    assert CorrectAdjustments(adj, cmp).Success?;
  }

  // ---------------------------------------------------------------------------
  // RMSE between two passes and the stop rule

  /** The allocations of the agents present in both passes, current then prior
      (the inner merge on IDAGENT). */
  function CommonAllocations(cur: seq<AgentTotal>, prev: seq<AgentTotal>): (r: seq<(real, real)>)
    ensures |r| <= |cur|
  {
    if cur == [] then []
    else
      var n := |cur| - 1;
      CommonAllocations(cur[..n], prev)
      + match LookupTotal(prev, cur[n].agent)
        case None => []
        case Some(y) => [(cur[n].estLoc, y)]
  }

  function SquaredDiffs(pairs: seq<(real, real)>): seq<real>
  {
    seq(|pairs|, i requires 0 <= i < |pairs| => (pairs[i].0 - pairs[i].1) * (pairs[i].0 - pairs[i].1))
  }

  function Priors(pairs: seq<(real, real)>): seq<real>
  {
    seq(|pairs|, i requires 0 <= i < |pairs| => pairs[i].1)
  }

  /** A float value as IEEE arithmetic leaves it: a real, an infinity or NaN. */
  datatype Extended = Finite(value: real) | PosInf | NegInf | NaN

  /** IEEE division of `x` by `y`: a real when `y` is not 0; dividing by a
      zero (taken as +0) gives an infinity of the sign of `x`, or NaN for 0/0. */
  function Quotient(x: real, y: real): (r: Extended)
    ensures r.Finite? <==> y != 0.0
    ensures r.Finite? ==> r.value * y == x
    ensures r == NaN <==> y == 0.0 && x == 0.0
    ensures r == PosInf <==> y == 0.0 && x > 0.0
  {
    if y != 0.0 then Finite(x / y)
    else if x == 0.0 then NaN
    else if x > 0.0 then PosInf
    else NegInf
  }

  /** The RMSE of the allocation change, relative to the mean prior
      allocation: NaN when no agent is in both passes (the mean of nothing),
      and an infinity or NaN when the prior mean is 0. */
  function Rmse(cur: seq<AgentTotal>, prev: seq<AgentTotal>, sqrt: real -> real): Extended
  {
    var pairs := CommonAllocations(cur, prev);
    var n := |pairs| as real;
    if pairs == [] then NaN
    else Quotient(sqrt(Sum(SquaredDiffs(pairs)) / n), Sum(Priors(pairs)) / n)
  }

  /** `x > y` on floats: false whenever NaN is involved. */
  predicate Greater(x: Extended, y: Extended)
  {
    match (x, y)
    case (Finite(a), Finite(b)) => a > b
    case (PosInf, Finite(_)) => true
    case (PosInf, NegInf) => true
    case (Finite(_), NegInf) => true
    case _ => false
  }

  /** `x < y` for a float `x` and a real `y`: false for NaN. */
  predicate Less(x: Extended, y: real)
  {
    match x
    case Finite(a) => a < y
    case NegInf => true
    case _ => false
  }

  /** The allocations of a totals table, in its order. */
  function Allocations(t: seq<AgentTotal>): (r: seq<real>)
    ensures |r| == |t| && forall i | 0 <= i < |t| :: r[i] == t[i].estLoc
  {
    seq(|t|, i requires 0 <= i < |t| => t[i].estLoc)
  }

  /** With distinct agents, looking an agent up finds its own row. */
  lemma LookupOwnTotal(t: seq<AgentTotal>, i: int)
    requires StrictlyIncreasing(AgentKeys(t)) && 0 <= i < |t|
    ensures LookupTotal(t, t[i].agent) == Some(t[i].estLoc)
  {
    assert AgentKeys(t)[i] == t[i].agent;
    LookupTotalFinds(t, t[i].agent);
    var r := LookupTotal(t, t[i].agent);
    var j :| 0 <= j < |t| && t[j] == AgentTotal(t[i].agent, r.value);
    assert AgentKeys(t)[j] == AgentKeys(t)[i];
  }

  /** Merging a totals table with itself pairs every allocation with itself,
      when every agent's lookup finds its own row. */
  lemma {:induction false} CommonAllocationsSelf(t: seq<AgentTotal>, n: nat)
    requires n <= |t|
    requires forall i {:trigger LookupTotal(t, t[i].agent)} | 0 <= i < |t| :: LookupTotal(t, t[i].agent) == Some(t[i].estLoc)
    ensures |CommonAllocations(t[..n], t)| == n
    ensures forall i | 0 <= i < n :: CommonAllocations(t[..n], t)[i] == (t[i].estLoc, t[i].estLoc)
  {
    if n > 0 {
      var prefix := t[..n];
      assert prefix[..n - 1] == t[..n - 1] && prefix[n - 1] == t[n - 1];
      CommonAllocationsSelf(t, n - 1);
      var c := CommonAllocations(t[..n - 1], t);
      var full := CommonAllocations(prefix, t);
      assert full == c + [(t[n - 1].estLoc, t[n - 1].estLoc)];
      forall i | 0 <= i < n
        ensures full[i] == (t[i].estLoc, t[i].estLoc)
      {
        if i < n - 1 {
          assert full[i] == c[i];
        }
      }
    }
  }

  /** Two passes with the same allocations (and a non-zero mean) have an
      RMSE of 0, given `sqrt(0) = 0`. */
  lemma RmseUnchanged(t: seq<AgentTotal>, sqrt: real -> real)
    requires StrictlyIncreasing(AgentKeys(t)) && t != []
    requires Sum(Allocations(t)) != 0.0
    requires sqrt(0.0) == 0.0
    ensures Rmse(t, t, sqrt) == Finite(0.0)
  {
    forall i | 0 <= i < |t|
      ensures LookupTotal(t, t[i].agent) == Some(t[i].estLoc)
    {
      LookupOwnTotal(t, i);
    }
    CommonAllocationsSelf(t, |t|);
    assert t[..|t|] == t;
    var pairs := CommonAllocations(t[..|t|], t);
    var n := |pairs| as real;
    assert Priors(pairs) == Allocations(t);
    SquaredDiffsOfEqualPairs(pairs);
    ZeroOver(n);
    var mean := Sum(Priors(pairs)) / n;
    NonZeroOver(Sum(Priors(pairs)), n);
    ZeroOver(mean);
  }

  lemma SquaredDiffsOfEqualPairs(pairs: seq<(real, real)>)
    requires forall m | 0 <= m < |pairs| :: pairs[m].0 == pairs[m].1
    ensures Sum(SquaredDiffs(pairs)) == 0.0
  {
    var sq := SquaredDiffs(pairs);
    forall m | 0 <= m < |sq| ensures sq[m] == 0.0 {
      var d := pairs[m].0 - pairs[m].1;
      assert d == 0.0;
      assert d * d == 0.0;
      assert sq[m] == d * d;
    }
    SumOfZeros(sq);
  }

  lemma ZeroOver(y: real)
    requires y != 0.0
    ensures 0.0 / y == 0.0
  {
  }

  lemma NonZeroOver(x: real, y: real)
    requires x != 0.0 && y != 0.0
    ensures x / y != 0.0
  {
  }

  /** When no agent of this pass was in the prior one, the RMSE is NaN. */
  lemma {:induction false} RmseDisjoint(cur: seq<AgentTotal>, prev: seq<AgentTotal>, sqrt: real -> real)
    requires forall i | 0 <= i < |cur| :: cur[i].agent !in AgentKeys(prev)
    ensures CommonAllocations(cur, prev) == []
    ensures Rmse(cur, prev, sqrt) == NaN
  {
    if cur != [] {
      var n := |cur| - 1;
      RmseDisjoint(cur[..n], prev, sqrt);
      LookupTotalFinds(prev, cur[n].agent);
    }
  }

  /** Every pair of the merge is an allocation of `cur` and one of `prev`;
      an agent of `cur` that `prev` has is paired. */
  lemma {:induction false} CommonAllocationsFrom(cur: seq<AgentTotal>, prev: seq<AgentTotal>)
    ensures forall k | 0 <= k < |CommonAllocations(cur, prev)| ::
              CommonAllocations(cur, prev)[k].1 in Allocations(prev)
    ensures forall i | 0 <= i < |cur| && cur[i].agent in AgentKeys(prev) ::
              exists k | 0 <= k < |CommonAllocations(cur, prev)| :: CommonAllocations(cur, prev)[k].0 == cur[i].estLoc
  {
    if cur != [] {
      var n := |cur| - 1;
      CommonAllocationsFrom(cur[..n], prev);
      var p := CommonAllocations(cur[..n], prev);
      var r := CommonAllocations(cur, prev);
      LookupTotalFinds(prev, cur[n].agent);
      if LookupTotal(prev, cur[n].agent).Some? {
        var y := LookupTotal(prev, cur[n].agent).value;
        assert r == p + [(cur[n].estLoc, y)];
        var j :| 0 <= j < |prev| && prev[j] == AgentTotal(cur[n].agent, y);
        assert Allocations(prev)[j] == y;
        forall k | 0 <= k < |r| ensures r[k].1 in Allocations(prev) {
          if k < |p| { assert r[k] == p[k]; }
        }
      } else {
        assert r == p;
      }
      assert r[..|p|] == p;
      forall i | 0 <= i < |cur| && cur[i].agent in AgentKeys(prev)
        ensures exists k | 0 <= k < |r| :: r[k].0 == cur[i].estLoc
      {
        if i < n {
          assert cur[..n][i] == cur[i];
          var k :| 0 <= k < |p| && p[k].0 == cur[i].estLoc;
          assert r[k] == p[k];
        } else {
          assert r[|p|].0 == cur[n].estLoc;
        }
      }
    }
  }

  /** When every prior allocation was 0 and an agent of both passes now has
      an allocation, the RMSE is +inf (its root is positive and the prior
      mean 0), given a `sqrt` positive on positive numbers. */
  lemma RmseZeroPrior(cur: seq<AgentTotal>, prev: seq<AgentTotal>, sqrt: real -> real)
    requires forall j | 0 <= j < |prev| :: prev[j].estLoc == 0.0
    requires exists i | 0 <= i < |cur| :: cur[i].agent in AgentKeys(prev) && cur[i].estLoc != 0.0
    requires forall x: real | x > 0.0 :: sqrt(x) > 0.0
    ensures Rmse(cur, prev, sqrt) == PosInf
  {
    CommonAllocationsFrom(cur, prev);
    var pairs := CommonAllocations(cur, prev);
    var n := |pairs| as real;
    var i :| 0 <= i < |cur| && cur[i].agent in AgentKeys(prev) && cur[i].estLoc != 0.0;
    var k :| 0 <= k < |pairs| && pairs[k].0 == cur[i].estLoc;
    forall m | 0 <= m < |pairs| ensures pairs[m].1 == 0.0 {
      var j :| 0 <= j < |prev| && Allocations(prev)[j] == pairs[m].1;
    }
    SumOfZeros(Priors(pairs));
    ZeroOver(n);
    SquaredDiffsPositive(pairs, k);
    PositiveOver(Sum(SquaredDiffs(pairs)), n);
  }

  lemma SquaredDiffsPositive(pairs: seq<(real, real)>, k: int)
    requires 0 <= k < |pairs| && pairs[k].0 != pairs[k].1
    ensures Sum(SquaredDiffs(pairs)) > 0.0
  {
    var sq := SquaredDiffs(pairs);
    forall m | 0 <= m < |sq| ensures sq[m] >= 0.0 {
      assert sq[m] == (pairs[m].0 - pairs[m].1) * (pairs[m].0 - pairs[m].1);
    }
    var d := pairs[k].0 - pairs[k].1;
    ProductPositive(d, d, sq[k]);
    SumPositive(sq);
  }

  /** A product of two factors of the same sign is positive. */
  lemma ProductPositive(a: real, b: real, e: real)
    requires e == a * b
    requires (a > 0.0 && b > 0.0) || (a < 0.0 && b < 0.0)
    ensures e > 0.0
  {
  }

  lemma PositiveOver(x: real, y: real)
    requires x > 0.0 && y > 0.0
    ensures x / y > 0.0
  {
  }

  datatype StopReason = Converged | NotConverging

  /** The decision after pass `k`: no exit after the first pass; then exit as
      converged when `maxapdiff` is under the tolerance, as not converging when
      the RMSE grew (from the third pass on) or fell under `minrmse`. */
  function StopRule(k: nat, maxapdiff: real, rmse: Extended, prevRmse: Extended,
                    tolerance: real, minrmse: real): Option<StopReason>
  {
    if k == 0 then None
    else if maxapdiff < tolerance then Some(Converged)
    else if (k > 1 && Greater(rmse, prevRmse)) || Less(rmse, minrmse) then Some(NotConverging)
    else None
  }

  /** The rule's outcomes, both ways: converged exactly when past the first
      pass with `maxapdiff` under the tolerance; not converging exactly when
      past the first pass, not under the tolerance, and the RMSE grew from
      the third pass on or fell under `minrmse`. A NaN RMSE never stops the
      run as not converging; an infinite one after a finite one does. */
  lemma StopRuleCases(k: nat, maxapdiff: real, rmse: Extended, prevRmse: Extended,
                      tolerance: real, minrmse: real)
    ensures StopRule(k, maxapdiff, rmse, prevRmse, tolerance, minrmse) == Some(Converged)
        <==> k > 0 && maxapdiff < tolerance
    ensures StopRule(k, maxapdiff, rmse, prevRmse, tolerance, minrmse) == Some(NotConverging)
        <==> k > 0 && maxapdiff >= tolerance
             && ((k > 1 && Greater(rmse, prevRmse)) || Less(rmse, minrmse))
    ensures rmse == NaN ==> StopRule(k, maxapdiff, rmse, prevRmse, tolerance, minrmse) != Some(NotConverging)
    ensures k > 1 && maxapdiff >= tolerance && rmse == PosInf && prevRmse.Finite? ==>
              StopRule(k, maxapdiff, rmse, prevRmse, tolerance, minrmse) == Some(NotConverging)
  {
  }
}
