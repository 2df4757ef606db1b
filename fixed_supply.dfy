/** `FixedSupply` (mulandweb/fixedsupply.py): the file-based fixed-supply
    calibration. Totals live in 29-slot lists indexed by agent id - 1, the
    correction is a log share ratio normalised separately over agents 1-13 and
    14-29, and the adjustment table is rewritten after every non-terminal pass.
    Files are values here: a CSV file is its header and its parsed rows, and the
    solver is a function from the adjustment file to the location file. */
module FixedSupply {
  import opened Results
  import opened TableOps

  /** Number of agent slots in every total and correction list. */
  const NumAgents: nat := 29
  /** Agents 1..13 (slots 0..12) form the first normalisation group. */
  const FirstGroupSize: nat := 13
  /** The pass number at which a non-converged run gives up. */
  const MaxIteration: nat := 10
  /** A run has converged once `maxapdiff` is below this percentage. */
  const ConvergenceThreshold: real := 1.0
  /** The leading location fields that are not per-agent allocations. */
  const LocationKeyFields: nat := 2

  /** The exceptions the calibration can raise. */
  datatype FsError =
    | IndexOutOfRange(index: int)   // a list index outside the 29 slots
    | ShortRow(row: nat)            // data row `row` lacks a field the code reads
    | MissingHeader                 // a CSV file without even a header line
    | ZeroDivision                  // a division by zero
    | MathDomain                    // `math.log` of a value that is not positive

  /** A row of the demand file: H_IDX and DEMAND. */
  datatype DemandRecord = DemandRecord(hIdx: int, demand: real)

  /** A semicolon-separated file: its header line and its data rows. */
  datatype CsvFile = Empty | File(header: seq<string>, rows: seq<seq<real>>)

  /** The slot a Python index selects in a 29-slot list: negative indices count
      from the end; anything else is out of range. */
  function Slot(i: int): (r: Option<nat>)
    ensures r.Some? <==> -(NumAgents as int) <= i < NumAgents
    ensures r.Some? ==> r.value < NumAgents && (r.value == i || r.value == i + NumAgents)
  {
    if 0 <= i < NumAgents then Some(i)
    else if -(NumAgents as int) <= i < 0 then Some(i + NumAgents)
    else None
  }

  lemma SlotOfAgentId(h: int)
    requires 1 <= h <= NumAgents
    ensures Slot(h - 1) == Some(h - 1)
  {
  }

  // ---------------------------------------------------------------------------
  // load_totals

  /** The position of the last record of `records` that writes slot `s`. */
  function LastWrite(records: seq<DemandRecord>, s: nat): (r: Option<nat>)
    ensures r.Some? ==> r.value < |records|
  {
    if records == [] then None
    else
      var n := |records| - 1;
      if Slot(records[n].hIdx - 1) == Some(s) then Some(n)
      else LastWrite(records[..n], s)
  }

  /** The record `LastWrite` finds writes slot `s` and no later record does;
      when it finds none, no record writes `s`. */
  lemma {:induction false} LastWriteIsLast(records: seq<DemandRecord>, s: nat)
    ensures var r := LastWrite(records, s);
      && (r.Some? ==> Slot(records[r.value].hIdx - 1) == Some(s))
      && (r.Some? ==> forall j | r.value < j < |records| :: Slot(records[j].hIdx - 1) != Some(s))
      && (r.None? ==> forall j | 0 <= j < |records| :: Slot(records[j].hIdx - 1) != Some(s))
  {
    if records != [] {
      var n := |records| - 1;
      if Slot(records[n].hIdx - 1) != Some(s) {
        LastWriteIsLast(records[..n], s);
        assert forall j | 0 <= j < n :: records[..n][j] == records[j];
      }
    }
  }

  /** The control total of slot `s` after every record has been written. */
  function ControlTotal(records: seq<DemandRecord>, s: nat): real
  {
    match LastWrite(records, s)
    case None => 0.0
    case Some(j) => records[j].demand
  }

  lemma LastWriteStep(records: seq<DemandRecord>, j: nat, s: nat)
    requires j < |records|
    ensures LastWrite(records[..j + 1], s)
         == if Slot(records[j].hIdx - 1) == Some(s) then Some(j) else LastWrite(records[..j], s)
  {
    var pre := records[..j + 1];
    assert |pre| - 1 == j && pre[j] == records[j];
    assert pre[..j] == records[..j];
    LastWriteUnfold(pre, s);
  }

  lemma LastWriteUnfold(records: seq<DemandRecord>, s: nat)
    requires records != []
    ensures var n := |records| - 1;
      LastWrite(records, s) == if Slot(records[n].hIdx - 1) == Some(s) then Some(n) else LastWrite(records[..n], s)
  {
  }

  /** `load_totals`: the DEMAND of every record written into slot H_IDX - 1.
      The slot of an id holds the demand of its last record and slots no record
      names stay 0; the first id outside the list's index range raises. */
  method LoadTotals(records: seq<DemandRecord>) returns (r: Result<seq<real>, FsError>)
    ensures r.Success? <==> forall j | 0 <= j < |records| :: Slot(records[j].hIdx - 1).Some?
    ensures r.Success? ==>
      && |r.value| == NumAgents
      && forall s | 0 <= s < NumAgents :: r.value[s] == ControlTotal(records, s)
    ensures r.Failure? ==> exists j | 0 <= j < |records| ::
      && Slot(records[j].hIdx - 1).None?
      && (forall i | 0 <= i < j :: Slot(records[i].hIdx - 1).Some?)
      && r.error == IndexOutOfRange(records[j].hIdx - 1)
  {
    var totals := seq(NumAgents, _ => 0.0);
    for j := 0 to |records|
      invariant |totals| == NumAgents
      invariant forall i | 0 <= i < j :: Slot(records[i].hIdx - 1).Some?
      invariant forall s | 0 <= s < NumAgents :: totals[s] == ControlTotal(records[..j], s)
    {
      var hx := records[j].hIdx - 1;
      var slot := Slot(hx);
      if slot.None? {
        return Failure(IndexOutOfRange(hx));
      }
      totals := totals[slot.value := records[j].demand];
      forall s | 0 <= s < NumAgents ensures totals[s] == ControlTotal(records[..j + 1], s) {
        LastWriteStep(records, j, s);
      }
    }
    assert records[..|records|] == records;
    return Success(totals);
  }

  /** Ids 1..29, each named once, give every agent its own demand. */
  lemma ControlTotalOfUniqueId(records: seq<DemandRecord>, j: nat)
    requires j < |records| && 1 <= records[j].hIdx <= NumAgents
    requires forall i | 0 <= i < |records| && i != j :: records[i].hIdx != records[j].hIdx
    requires forall i | 0 <= i < |records| :: 1 <= records[i].hIdx <= NumAgents
    ensures ControlTotal(records, records[j].hIdx - 1) == records[j].demand
  {
    var s := records[j].hIdx - 1;
    assert Slot(records[j].hIdx - 1) == Some(s);
    LastWriteIsLast(records, s);
    var k := LastWrite(records, s).value;
    assert Slot(records[k].hIdx - 1) == Some(records[k].hIdx - 1);
  }

  // ---------------------------------------------------------------------------
  // sum_totals

  /** Every data row carries the two key fields and one allocation per agent. */
  predicate LongRows(rows: seq<seq<real>>)
  {
    forall i | 0 <= i < |rows| :: |rows[i]| >= LocationKeyFields + NumAgents
  }

  /** The allocations of agent slot `c`, one per row. */
  function Column(rows: seq<seq<real>>, c: nat): (col: seq<real>)
    requires c < NumAgents && LongRows(rows)
    ensures |col| == |rows| && forall i | 0 <= i < |rows| :: col[i] == rows[i][LocationKeyFields + c]
  {
    seq(|rows|, i requires 0 <= i < |rows| && LongRows(rows) => rows[i][LocationKeyFields + c])
  }

  /** The allocation of agent slot `c` summed over the rows, first to last. */
  function ColumnTotal(rows: seq<seq<real>>, c: nat): real
    requires c < NumAgents && LongRows(rows)
  {
    Sum(Column(rows, c))
  }

  lemma ColumnTotalStep(rows: seq<seq<real>>, i: nat, c: nat)
    requires i < |rows| && c < NumAgents && LongRows(rows[..i + 1])
    ensures LongRows(rows[..i])
    ensures ColumnTotal(rows[..i + 1], c) == ColumnTotal(rows[..i], c) + rows[i][LocationKeyFields + c]
  {
    assert rows[..i + 1][..i] == rows[..i];
    var col := Column(rows[..i + 1], c);
    assert col[..i] == Column(rows[..i], c);
  }

  /** The location totals of two row blocks add up: the total of a file is the
      sum of the totals of its parts. */
  lemma {:induction false} ColumnTotalConcat(a: seq<seq<real>>, b: seq<seq<real>>, c: nat)
    requires c < NumAgents && LongRows(a) && LongRows(b)
    ensures LongRows(a + b)
    ensures ColumnTotal(a + b, c) == ColumnTotal(a, c) + ColumnTotal(b, c)
  {
    if b != [] {
      var n := |b| - 1;
      assert (a + b)[..|a| + n] == a + b[..n];
      assert (a + b)[..|a| + n + 1] == a + b;
      assert b[..n + 1] == b;
      ColumnTotalConcat(a, b[..n], c);
      ColumnTotalStep(a + b, |a| + n, c);
      ColumnTotalStep(b, n, c);
    } else {
      assert a + b == a;
    }
  }

  /** `sum_totals`: skip the header, then add field 2 + hx of every data row to
      slot hx. A file without a header raises; so does the first row with fewer
      than 31 fields. */
  method SumTotals(file: CsvFile) returns (r: Result<seq<real>, FsError>)
    ensures file.Empty? ==> r == Failure(MissingHeader)
    ensures file.File? ==> (r.Success? <==> LongRows(file.rows))
    ensures r.Success? ==>
      && file.File? && |r.value| == NumAgents
      && forall c | 0 <= c < NumAgents :: r.value[c] == ColumnTotal(file.rows, c)
    ensures r.Failure? && file.File? ==> exists i | 0 <= i < |file.rows| ::
      && |file.rows[i]| < LocationKeyFields + NumAgents
      && LongRows(file.rows[..i])
      && r.error == ShortRow(i)
  {
    if file.Empty? {
      return Failure(MissingHeader);
    }
    var rows := file.rows;
    var totals := seq(NumAgents, _ => 0.0);
    for i := 0 to |rows|
      invariant |totals| == NumAgents
      invariant LongRows(rows[..i])
      invariant forall c | 0 <= c < NumAgents :: totals[c] == ColumnTotal(rows[..i], c)
    {
      var row := rows[i];
      var hvi := if |row| >= LocationKeyFields then row[LocationKeyFields..] else [];
      if |hvi| < NumAgents {
        return Failure(ShortRow(i));
      }
      assert LongRows(rows[..i + 1]) by {
        assert rows[..i + 1] == rows[..i] + [row];
      }
      for hx := 0 to NumAgents
        invariant |totals| == NumAgents
        invariant forall c | 0 <= c < NumAgents ::
          totals[c] == ColumnTotal(rows[..i], c) + (if c < hx then row[LocationKeyFields + c] else 0.0)
      {
        totals := totals[hx := totals[hx] + hvi[hx]];
      }
      forall c | 0 <= c < NumAgents ensures totals[c] == ColumnTotal(rows[..i + 1], c) {
        ColumnTotalStep(rows, i, c);
      }
    }
    assert rows[..|rows|] == rows;
    return Success(totals);
  }

  // ---------------------------------------------------------------------------
  // adjust_bids

  /** One correction `ln((c / ctlGroup) / (l / locGroup))`, with the exceptions
      Python raises while evaluating it from left to right. */
  function AdjustEntry(c: real, ctlGroup: real, l: real, locGroup: real, ln: real -> real): Result<real, FsError>
  {
    if ctlGroup == 0.0 || locGroup == 0.0 || l / locGroup == 0.0 then Failure(ZeroDivision)
    else
      var x := (c / ctlGroup) / (l / locGroup);
      if x <= 0.0 then Failure(MathDomain) else Success(ln(x))
  }

  /** The slots of the normalisation group of slot `hx`. */
  function GroupStart(hx: nat): nat { if hx < FirstGroupSize then 0 else FirstGroupSize }
  function GroupEnd(hx: nat): nat { if hx < FirstGroupSize then FirstGroupSize else NumAgents }

  /** The correction of slot `hx`, normalised over its group. */
  function BidAdjustEntry(ctl: seq<real>, loc: seq<real>, hx: nat, ln: real -> real): Result<real, FsError>
    requires |ctl| == NumAgents && |loc| == NumAgents && hx < NumAgents
  {
    var lo, hi := GroupStart(hx), GroupEnd(hx);
    AdjustEntry(ctl[hx], Sum(ctl[lo..hi]), loc[hx], Sum(loc[lo..hi]), ln)
  }

  /** `adjust_bids`: the corrections of slots 0..12 against the totals of the
      first group, then those of slots 13..28 against the second group's, the
      first failing entry raising. */
  method AdjustBids(ctl: seq<real>, loc: seq<real>, ln: real -> real) returns (r: Result<seq<real>, FsError>)
    requires |ctl| == NumAgents && |loc| == NumAgents
    ensures r.Success? <==> forall hx | 0 <= hx < NumAgents :: BidAdjustEntry(ctl, loc, hx, ln).Success?
    ensures r.Success? ==>
      && |r.value| == NumAgents
      && forall hx | 0 <= hx < NumAgents :: r.value[hx] == BidAdjustEntry(ctl, loc, hx, ln).value
    ensures r.Failure? ==> exists hx | 0 <= hx < NumAgents ::
      && BidAdjustEntry(ctl, loc, hx, ln) == Failure(r.error)
      && forall k | 0 <= k < hx :: BidAdjustEntry(ctl, loc, k, ln).Success?
  {
    var bidAdjust := seq(NumAgents, _ => 0.0);
    var ctlTotal2, locTotal2 := Sum(ctl[..FirstGroupSize]), Sum(loc[..FirstGroupSize]);
    assert ctl[0..FirstGroupSize] == ctl[..FirstGroupSize] && loc[0..FirstGroupSize] == loc[..FirstGroupSize];
    for hx := 0 to FirstGroupSize
      invariant |bidAdjust| == NumAgents
      invariant forall k | 0 <= k < hx :: BidAdjustEntry(ctl, loc, k, ln) == Success(bidAdjust[k])
    {
      var e := AdjustEntry(ctl[hx], ctlTotal2, loc[hx], locTotal2, ln);
      assert e == BidAdjustEntry(ctl, loc, hx, ln);
      if e.Failure? {
        return Failure(e.error);
      }
      bidAdjust := bidAdjust[hx := e.value];
    }
    var ctlTotal1, locTotal1 := Sum(ctl[FirstGroupSize..]), Sum(loc[FirstGroupSize..]);
    assert ctl[FirstGroupSize..NumAgents] == ctl[FirstGroupSize..] && loc[FirstGroupSize..NumAgents] == loc[FirstGroupSize..];
    for hx := FirstGroupSize to NumAgents
      invariant |bidAdjust| == NumAgents
      invariant forall k | 0 <= k < hx :: BidAdjustEntry(ctl, loc, k, ln) == Success(bidAdjust[k])
    {
      var e := AdjustEntry(ctl[hx], ctlTotal1, loc[hx], locTotal1, ln);
      assert e == BidAdjustEntry(ctl, loc, hx, ln);
      if e.Failure? {
        return Failure(e.error);
      }
      bidAdjust := bidAdjust[hx := e.value];
    }
    return Success(bidAdjust);
  }

  lemma ScaledShare(l: real, g: real, k: real)
    requires k > 0.0 && g != 0.0
    ensures (l * k) / (g * k) == l / g
  {
  }

  /** Scaling a group's allocation totals and their sum by the same positive
      factor leaves the correction unchanged. */
  lemma AdjustEntryScaleInvariant(c: real, ctlGroup: real, l: real, locGroup: real, k: real, ln: real -> real)
    requires k > 0.0
    ensures AdjustEntry(c, ctlGroup, l * k, locGroup * k, ln) == AdjustEntry(c, ctlGroup, l, locGroup, ln)
  {
    if locGroup != 0.0 {
      ScaledShare(l, locGroup, k);
    }
  }

  lemma BidAdjustEntryAt(ctl: seq<real>, loc: seq<real>, hx: nat, ln: real -> real,
                         c: real, cg: real, l: real, lg: real)
    requires |ctl| == NumAgents && |loc| == NumAgents && hx < NumAgents
    requires c == ctl[hx] && cg == Sum(ctl[GroupStart(hx)..GroupEnd(hx)])
    requires l == loc[hx] && lg == Sum(loc[GroupStart(hx)..GroupEnd(hx)])
    ensures BidAdjustEntry(ctl, loc, hx, ln) == AdjustEntry(c, cg, l, lg, ln)
  {
  }

  /** A slice scaled entry by entry has its sum scaled. */
  lemma ScaledGroupSum(loc: seq<real>, loc2: seq<real>, lo: nat, hi: nat, k: real)
    requires lo <= hi <= |loc| == |loc2|
    requires forall i | lo <= i < hi :: loc2[i] == loc[i] * k
    ensures Sum(loc2[lo..hi]) == Sum(loc[lo..hi]) * k
  {
    forall i | 0 <= i < hi - lo ensures loc2[lo..hi][i] == Scaled(loc[lo..hi], k)[i] {
      assert loc2[lo + i] == loc[lo + i] * k;
    }
    assert loc2[lo..hi] == Scaled(loc[lo..hi], k);
    SumScaled(loc[lo..hi], k);
  }

  /** Scaling the allocation totals of one group by a positive factor leaves
      every correction of both groups unchanged: each group is normalised by
      its own totals. */
  lemma GroupScaleInvariant(ctl: seq<real>, loc: seq<real>, loc2: seq<real>, firstGroup: bool, k: real,
                            ln: real -> real, hx: nat)
    requires |ctl| == NumAgents && |loc| == NumAgents && |loc2| == NumAgents && hx < NumAgents && k > 0.0
    requires forall i | 0 <= i < NumAgents ::
      loc2[i] == if (i < FirstGroupSize) == firstGroup then loc[i] * k else loc[i]
    ensures BidAdjustEntry(ctl, loc2, hx, ln) == BidAdjustEntry(ctl, loc, hx, ln)
  {
    var lo, hi := GroupStart(hx), GroupEnd(hx);
    if (hx < FirstGroupSize) == firstGroup {
      ScaledGroupSum(loc, loc2, lo, hi, k);
      var c, cg, l, lg := ctl[hx], Sum(ctl[lo..hi]), loc[hx], Sum(loc[lo..hi]);
      BidAdjustEntryAt(ctl, loc2, hx, ln, c, cg, l * k, lg * k);
      BidAdjustEntryAt(ctl, loc, hx, ln, c, cg, l, lg);
      AdjustEntryScaleInvariant(c, cg, l, lg, k, ln);
    } else {
      assert loc2[lo..hi] == loc[lo..hi];
      var c, cg, l, lg := ctl[hx], Sum(ctl[lo..hi]), loc[hx], Sum(loc[lo..hi]);
      BidAdjustEntryAt(ctl, loc2, hx, ln, c, cg, l, lg);
      BidAdjustEntryAt(ctl, loc, hx, ln, c, cg, l, lg);
    }
  }

  /** A slot whose share of its group's allocation equals its share of the
      group's control total gets a zero correction, given `ln(1) = 0`. */
  lemma MatchedShareZero(c: real, ctlGroup: real, l: real, locGroup: real, ln: real -> real)
    requires ln(1.0) == 0.0
    requires ctlGroup != 0.0 && locGroup != 0.0 && l != 0.0
    requires c / ctlGroup == l / locGroup
    ensures AdjustEntry(c, ctlGroup, l, locGroup, ln) == Success(0.0)
  {
    assert l / locGroup != 0.0;
    DivSelf(l / locGroup);
  }

  // ---------------------------------------------------------------------------
  // make_adjustment and initBid_adjustments

  /** Python's `int(x)` for a float: truncation toward zero. */
  function TruncToInt(x: real): (r: int)
    ensures x >= 0.0 ==> r as real <= x < r as real + 1.0
    ensures x < 0.0 ==> r as real - 1.0 < x <= r as real
  {
    if x >= 0.0 then x.Floor else -((-x).Floor)
  }

  /** The correction slot an adjustment row's H_IDX selects. */
  function RowSlot(row: seq<real>): Option<nat>
    requires |row| >= 1
  {
    Slot(TruncToInt(row[0]) - 1)
  }

  /** A data row `make_adjustment` can rewrite: it has its BIDADJ field and its
      H_IDX selects a slot. */
  predicate AdjustableRow(row: seq<real>)
  {
    |row| >= 4 && RowSlot(row).Some?
  }

  predicate AdjustableRows(rows: seq<seq<real>>)
  {
    forall i | 0 <= i < |rows| :: AdjustableRow(rows[i])
  }

  /** The exception raised on data row `i` when it is not adjustable. */
  function RowError(i: nat, row: seq<real>): FsError
  {
    if |row| < 4 then ShortRow(i) else IndexOutOfRange(TruncToInt(row[0]) - 1)
  }

  /** The rewritten row: the key fields and BIDADJ plus the agent's correction. */
  function AdjustedRow(row: seq<real>, bidAdjust: seq<real>): (r: seq<real>)
    requires AdjustableRow(row) && |bidAdjust| == NumAgents
    ensures |r| == 4 && r[..3] == row[..3] && AdjustableRow(r) && RowSlot(r) == RowSlot(row)
  {
    row[..3] + [row[3] + bidAdjust[RowSlot(row).value]]
  }

  function AdjustTable(rows: seq<seq<real>>, bidAdjust: seq<real>): (r: seq<seq<real>>)
    requires AdjustableRows(rows) && |bidAdjust| == NumAgents
    ensures |r| == |rows| && AdjustableRows(r)
  {
    seq(|rows|, i requires 0 <= i < |rows| => AdjustedRow(rows[i], bidAdjust))
  }

  /** `make_adjustment`: copy the header, then write every data row as its
      first three fields and BIDADJ + `bid_adjust[h - 1]`, where `h` is H_IDX
      read as a float and truncated. */
  method MakeAdjustment(file: CsvFile, bidAdjust: seq<real>) returns (r: Result<CsvFile, FsError>)
    requires |bidAdjust| == NumAgents
    ensures file.Empty? ==> r == Failure(MissingHeader)
    ensures file.File? ==> (r.Success? <==> AdjustableRows(file.rows))
    ensures r.Success? ==> file.File? && r.value == File(file.header, AdjustTable(file.rows, bidAdjust))
    ensures r.Failure? && file.File? ==> exists i | 0 <= i < |file.rows| ::
      && !AdjustableRow(file.rows[i])
      && AdjustableRows(file.rows[..i])
      && r.error == RowError(i, file.rows[i])
  {
    if file.Empty? {
      return Failure(MissingHeader);
    }
    var rows := file.rows;
    var out: seq<seq<real>> := [];
    for i := 0 to |rows|
      invariant AdjustableRows(rows[..i])
      invariant |out| == i && forall k | 0 <= k < i :: out[k] == AdjustedRow(rows[k], bidAdjust)
    {
      var row := rows[i];
      if |row| < 1 {
        return Failure(ShortRow(i));
      }
      var h := TruncToInt(row[0]);
      var hx := h - 1;
      if |row| < 4 {
        return Failure(ShortRow(i));
      }
      var a0 := row[3];
      var slot := Slot(hx);
      if slot.None? {
        return Failure(IndexOutOfRange(hx));
      }
      var a1 := a0 + bidAdjust[slot.value];
      out := out + [row[..3] + [a1]];
      assert rows[..i + 1] == rows[..i] + [row];
    }
    assert rows[..|rows|] == rows;
    return Success(File(file.header, out));
  }

  /** The entrywise sum of two correction lists. */
  function AddVectors(a: seq<real>, b: seq<real>): (r: seq<real>)
    requires |a| == NumAgents && |b| == NumAgents
    ensures |r| == NumAgents && forall i | 0 <= i < NumAgents :: r[i] == a[i] + b[i]
  {
    seq(NumAgents, i requires 0 <= i < NumAgents => a[i] + b[i])
  }

  /** Two rewrites in a row add both corrections to BIDADJ: the same table as
      one rewrite with their sum. */
  lemma AdjustTwice(rows: seq<seq<real>>, a: seq<real>, b: seq<real>)
    requires AdjustableRows(rows) && |a| == NumAgents && |b| == NumAgents
    ensures AdjustTable(AdjustTable(rows, a), b) == AdjustTable(rows, AddVectors(a, b))
  {
    var once, twice, direct := AdjustTable(rows, a), AdjustTable(AdjustTable(rows, a), b), AdjustTable(rows, AddVectors(a, b));
    forall i | 0 <= i < |rows| ensures twice[i] == direct[i] {
      var s := RowSlot(rows[i]).value;
      assert once[i][..3] == rows[i][..3];
      assert twice[i] == rows[i][..3] + [(rows[i][3] + a[s]) + b[s]];
    }
  }

  /** `initBid_adjustments` on one row: its first three fields (all of a shorter
      row) followed by a zero BIDADJ. */
  function InitRow(row: seq<real>): seq<real>
  {
    (if |row| >= 3 then row[..3] else row) + [0.0]
  }

  function InitTable(rows: seq<seq<real>>): (r: seq<seq<real>>)
    ensures |r| == |rows| && forall i | 0 <= i < |rows| :: r[i] == InitRow(rows[i])
  {
    seq(|rows|, i requires 0 <= i < |rows| => InitRow(rows[i]))
  }

  /** `initBid_adjustments`: copy the header and rewrite every data row with a
      zero BIDADJ. */
  method InitBidAdjustments(file: CsvFile) returns (r: Result<CsvFile, FsError>)
    ensures file.Empty? ==> r == Failure(MissingHeader)
    ensures file.File? ==> r == Success(File(file.header, InitTable(file.rows)))
  {
    if file.Empty? {
      return Failure(MissingHeader);
    }
    var rows := file.rows;
    var out: seq<seq<real>> := [];
    for i := 0 to |rows|
      invariant |out| == i && forall k | 0 <= k < i :: out[k] == InitRow(rows[k])
    {
      var row := rows[i];
      var keys := if |row| >= 3 then row[..3] else row;
      out := out + [keys + [0.0]];
    }
    assert out == InitTable(rows);
    return Success(File(file.header, out));
  }

  /** Every reset row of a table whose rows have their three key fields keeps
      those fields and has BIDADJ 0. */
  lemma InitRowShape(row: seq<real>)
    requires |row| >= 3
    ensures |InitRow(row)| == 4 && InitRow(row)[..3] == row[..3] && InitRow(row)[3] == 0.0
  {
  }

  /** Resetting twice gives the table resetting once gives, for a table whose
      rows all have their three key fields. */
  lemma InitIdempotent(rows: seq<seq<real>>)
    requires forall i | 0 <= i < |rows| :: |rows[i]| >= 3
    ensures InitTable(InitTable(rows)) == InitTable(rows)
  {
    forall i | 0 <= i < |rows| ensures InitRow(InitRow(rows[i])) == InitRow(rows[i]) {
      InitRowShape(rows[i]);
      assert InitRow(rows[i])[..3] == rows[i][..3];
    }
  }

  /** A row with fewer than three fields grows by one field per reset. */
  lemma InitShortRowGrows()
    ensures InitTable(InitTable([[]])) != InitTable([[]])
  {
    assert InitTable([[]])[0] == [0.0];
    assert InitTable(InitTable([[]]))[0] == [0.0, 0.0];
  }

  // ---------------------------------------------------------------------------
  // The maximum absolute percentage difference

  /** `100 * abs(c - l) / c` for one slot. */
  function PctDiff(c: real, l: real): real
    requires c != 0.0
  {
    100.0 * Abs(c - l) / c
  }

  function Max(a: real, b: real): (r: real)
    ensures r >= a && r >= b && (r == a || r == b)
  {
    if b > a then b else a
  }

  /** `maxapdiff` over the first `n` slots: 0 before any slot, then the
      larger of the running value and the slot's difference. */
  function MaxPctDiff(ctl: seq<real>, loc: seq<real>, n: nat): real
    requires n <= |ctl| && n <= |loc|
    requires forall k | 0 <= k < n :: ctl[k] != 0.0
  {
    if n == 0 then 0.0 else Max(MaxPctDiff(ctl, loc, n - 1), PctDiff(ctl[n - 1], loc[n - 1]))
  }

  /** The fold of `run` that takes `maxapdiff` over the 29 slots, starting
      from 0; a control total of 0 raises. The result is at least 0 and at
      least every slot's difference, it is 0 or one of them, and it is 0
      when the allocations equal the control totals. */
  method MaxApDiff(ctl: seq<real>, loc: seq<real>) returns (r: Result<real, FsError>)
    requires |ctl| == NumAgents && |loc| == NumAgents
    ensures r.Success? <==> forall hx | 0 <= hx < NumAgents :: ctl[hx] != 0.0
    ensures r.Failure? ==> r.error == ZeroDivision
    ensures r.Success? ==> r.value == MaxPctDiff(ctl, loc, NumAgents)
    ensures r.Success? ==>
      && r.value >= 0.0
      && (forall hx | 0 <= hx < NumAgents :: PctDiff(ctl[hx], loc[hx]) <= r.value)
      && (r.value == 0.0 || exists hx | 0 <= hx < NumAgents :: r.value == PctDiff(ctl[hx], loc[hx]))
    ensures r.Success? && loc == ctl ==> r.value == 0.0
  {
    var m := 0.0;
    for hx := 0 to NumAgents
      invariant forall k | 0 <= k < hx :: ctl[k] != 0.0
      invariant m == MaxPctDiff(ctl, loc, hx)
      invariant m >= 0.0 && forall k | 0 <= k < hx :: PctDiff(ctl[k], loc[k]) <= m
      invariant m == 0.0 || exists k | 0 <= k < hx :: m == PctDiff(ctl[k], loc[k])
    {
      if ctl[hx] == 0.0 {
        return Failure(ZeroDivision);
      }
      m := Max(m, 100.0 * Abs(ctl[hx] - loc[hx]) / ctl[hx]);
    }
    if loc == ctl {
      MatchedTotalsNoDifference(ctl, NumAgents);
    }
    return Success(m);
  }

  /** Allocations equal to the control totals give a `maxapdiff` of 0. */
  lemma {:induction false} MatchedTotalsNoDifference(ctl: seq<real>, n: nat)
    requires n <= |ctl|
    requires forall k | 0 <= k < n :: ctl[k] != 0.0
    ensures MaxPctDiff(ctl, ctl, n) == 0.0
  {
    if n > 0 {
      MatchedTotalsNoDifference(ctl, n - 1);
      assert Abs(ctl[n - 1] - ctl[n - 1]) == 0.0;
    }
  }

  // ---------------------------------------------------------------------------
  // run

  function Zeros(): (z: seq<real>)
    ensures |z| == NumAgents && forall i | 0 <= i < NumAgents :: z[i] == 0.0
  {
    seq(NumAgents, _ => 0.0)
  }

  predicate Corrections(vs: seq<seq<real>>)
  {
    forall p | 0 <= p < |vs| :: |vs[p]| == NumAgents
  }

  /** `net_adjust`: the entrywise sum of the corrections applied so far. */
  function NetAdjust(vs: seq<seq<real>>): (r: seq<real>)
    requires Corrections(vs)
    ensures |r| == NumAgents
  {
    if vs == [] then Zeros()
    else AddVectors(NetAdjust(vs[..|vs| - 1]), vs[|vs| - 1])
  }

  /** The rows of `bh.csv`: agent id hx + 1 and its net adjustment. */
  function BhRows(net: seq<real>): (r: seq<(int, real)>)
    requires |net| == NumAgents
    ensures |r| == NumAgents && forall hx | 0 <= hx < NumAgents :: r[hx] == (hx + 1, net[hx])
  {
    seq(NumAgents, hx requires 0 <= hx < NumAgents => (hx + 1, net[hx]))
  }

  /** The adjustment file the loop starts from. */
  function StartTable(adjustments: CsvFile, initBids: bool): CsvFile
  {
    if initBids && adjustments.File? then File(adjustments.header, InitTable(adjustments.rows)) else adjustments
  }

  /** What `run` leaves behind: its return code, the pass counter, the rows of
      `bh.csv` and the adjustment file. */
  datatype RunResult = RunResult(converged: int, iterations: nat, bh: seq<(int, real)>, adjustments: CsvFile)

  lemma FirstAdjustment(rows: seq<seq<real>>, ba: seq<real>)
    requires AdjustableRows(rows) && |ba| == NumAgents
    ensures NetAdjust([ba]) == ba
    ensures AdjustTable(rows, ba) == AdjustTable(rows, NetAdjust([ba]))
  {
    assert [ba][..0] == [];
    assert AddVectors(Zeros(), ba) == ba;
  }

  lemma NextAdjustment(rows: seq<seq<real>>, applied: seq<seq<real>>, ba: seq<real>)
    requires AdjustableRows(rows) && Corrections(applied) && |ba| == NumAgents
    ensures Corrections(applied + [ba])
    ensures NetAdjust(applied + [ba]) == AddVectors(NetAdjust(applied), ba)
    ensures AdjustTable(AdjustTable(rows, NetAdjust(applied)), ba) == AdjustTable(rows, NetAdjust(applied + [ba]))
  {
    assert (applied + [ba])[..|applied|] == applied;
    AdjustTwice(rows, NetAdjust(applied), ba);
  }

  /** The control totals `load_totals` gives for `records`. */
  function ControlTotals(records: seq<DemandRecord>): (r: seq<real>)
    ensures |r| == NumAgents && forall s | 0 <= s < NumAgents :: r[s] == ControlTotal(records, s)
  {
    seq(NumAgents, s requires 0 <= s < NumAgents => ControlTotal(records, s))
  }

  /** Correction list `p` is `adjust_bids` of the control totals and of the
      location totals `locs[p]` of that pass. */
  ghost predicate CorrectionsFrom(records: seq<DemandRecord>, locs: seq<seq<real>>, applied: seq<seq<real>>,
                                  ln: real -> real)
  {
    && |locs| == |applied| && Corrections(applied)
    && forall p | 0 <= p < |applied| ::
         && |locs[p]| == NumAgents
         && forall hx | 0 <= hx < NumAgents ::
              BidAdjustEntry(ControlTotals(records), locs[p], hx, ln) == Success(applied[p][hx])
  }

  lemma CorrectionsFromStep(records: seq<DemandRecord>, ctl: seq<real>, locs: seq<seq<real>>,
                            applied: seq<seq<real>>, loc: seq<real>, ba: seq<real>, ln: real -> real)
    requires CorrectionsFrom(records, locs, applied, ln)
    requires |ctl| == NumAgents && forall s | 0 <= s < NumAgents :: ctl[s] == ControlTotal(records, s)
    requires |loc| == NumAgents && |ba| == NumAgents
    requires forall hx | 0 <= hx < NumAgents :: BidAdjustEntry(ctl, loc, hx, ln) == Success(ba[hx])
    ensures CorrectionsFrom(records, locs + [loc], applied + [ba], ln)
  {
    assert ctl == ControlTotals(records);
  }

  /** The loop of `run` that adds a correction list into `net_adjust`. */
  method AccumulateNet(net: seq<real>, bidAdjust: seq<real>) returns (sum: seq<real>)
    requires |net| == NumAgents && |bidAdjust| == NumAgents
    ensures sum == AddVectors(net, bidAdjust)
  {
    sum := net;
    for hx := 0 to NumAgents
      invariant |sum| == NumAgents
      invariant forall c | 0 <= c < NumAgents :: sum[c] == net[c] + (if c < hx then bidAdjust[c] else 0.0)
    {
      sum := sum[hx := sum[hx] + bidAdjust[hx]];
    }
  }

  /** Every recorded `maxapdiff` is at the threshold or above it, and none is
      above the one before it: the history of passes that did not stop. */
  ghost predicate Descending(ds: seq<real>)
  {
    forall q | 0 <= q < |ds| :: ds[q] >= ConvergenceThreshold && (q >= 1 ==> ds[q] <= ds[q - 1])
  }

  /** Appending one difference keeps the earlier history, and extends a
      descending history when the new difference did not stop the run. */
  lemma DescendingStep(ds: seq<real>, d: real)
    requires Descending(ds)
    ensures (ds + [d])[..|ds|] == ds
    ensures d >= ConvergenceThreshold && (ds != [] ==> d <= ds[|ds| - 1]) ==> Descending(ds + [d])
  {
    assert (ds + [d])[..|ds|] == ds;
  }

  /** The state the loop of `run` keeps between passes: the corrections
      applied so far each come from `adjust_bids` of that pass's totals,
      `net` is their sum, and the adjustment file is the start table shifted
      by that sum (or still the start table before the first correction). */
  ghost predicate Adjusted(records: seq<DemandRecord>, start: CsvFile, table: CsvFile, net: seq<real>,
                           applied: seq<seq<real>>, locs: seq<seq<real>>, ln: real -> real)
  {
    && CorrectionsFrom(records, locs, applied, ln) && net == NetAdjust(applied)
    && (applied == [] ==> table == start)
    && (applied != [] ==>
          && start.File? && AdjustableRows(start.rows)
          && table == File(start.header, AdjustTable(start.rows, net)))
  }

  /** The loop state of `run` while it goes on: after pass 0 no difference
      is recorded, after pass p >= 1 one for each of passes 1..p-1, none of
      them stopped the run, and `maxapdiff_1` is the latest. */
  ghost predicate Searching(diffs: seq<real>, it: nat, maxapdiff1: real)
  {
    && |diffs| == (if it == 0 then 0 else it - 1)
    && (it >= 2 ==> maxapdiff1 == diffs[it - 2])
    && Descending(diffs)
  }

  /** The loop state of `run` once it stopped after `it` passes: 1 when the
      last difference fell below the threshold, -1 when it did not and the
      pass limit was reached or the difference grew. */
  ghost predicate Stopped(diffs: seq<real>, it: nat, converged: int)
  {
    && it >= 1 && |diffs| == it
    && Descending(diffs[..it - 1])
    && (converged == 1 || converged == -1)
    && (converged == 1 ==> diffs[it - 1] < ConvergenceThreshold)
    && (converged == -1 ==>
          && diffs[it - 1] >= ConvergenceThreshold
          && (it == MaxIteration || (it >= 2 && diffs[it - 1] > diffs[it - 2])))
  }

  /** The decision `run` takes on the difference `d` of pass `it` >= 1, with
      `maxapdiff_1` set to `d` on pass 1: stop with 1 below the threshold,
      with -1 at the pass limit or when `d` grew, or go on. */
  lemma DecideStep(diffs: seq<real>, it: nat, maxapdiff1: real, d: real)
    requires 1 <= it && Searching(diffs, it, if it == 1 then d else maxapdiff1)
    ensures d < ConvergenceThreshold ==> Stopped(diffs + [d], it, 1)
    ensures d >= ConvergenceThreshold && (it == MaxIteration || d > (if it == 1 then d else maxapdiff1)) ==>
      Stopped(diffs + [d], it, -1)
    ensures d >= ConvergenceThreshold && d <= (if it == 1 then d else maxapdiff1) ==>
      Searching(diffs + [d], it + 1, d)
  {
    DescendingStep(diffs, d);
  }

  /** The adjustment file pass `p` hands to the solver once the corrections
      `applied` are written: the start table, shifted by their net as soon as
      there is one. */
  function PassTable(start: CsvFile, applied: seq<seq<real>>): (t: CsvFile)
    requires Corrections(applied)
    ensures applied == [] ==> t == start
  {
    if applied != [] && start.File? && AdjustableRows(start.rows)
    then File(start.header, AdjustTable(start.rows, NetAdjust(applied)))
    else start
  }

  /** `loc` is what `sum_totals` gives for `file`: one total per agent slot,
      each the sum of that slot's column. */
  ghost predicate TotalsOf(file: CsvFile, loc: seq<real>)
  {
    && file.File? && LongRows(file.rows) && |loc| == NumAgents
    && forall c | 0 <= c < NumAgents :: loc[c] == ColumnTotal(file.rows, c)
  }

  /** The location totals of passes 0, 1, ...: pass `p` summed the solver's
      output on the start table shifted by the first `p` corrections. */
  ghost predicate Solved(solve: CsvFile -> CsvFile, start: CsvFile, applied: seq<seq<real>>,
                         totals: seq<seq<real>>)
  {
    && Corrections(applied) && |totals| <= |applied| + 1
    && forall p | 0 <= p < |totals| :: TotalsOf(solve(PassTable(start, applied[..p])), totals[p])
  }

  /** The totals of one more pass, on the file of all corrections so far. */
  lemma SolvedExtend(solve: CsvFile -> CsvFile, start: CsvFile, applied: seq<seq<real>>,
                     totals: seq<seq<real>>, loc: seq<real>)
    requires Solved(solve, start, applied, totals) && |totals| == |applied|
    requires TotalsOf(solve(PassTable(start, applied)), loc)
    ensures Solved(solve, start, applied, totals + [loc])
  {
    var t := totals + [loc];
    forall p | 0 <= p < |t|
      ensures TotalsOf(solve(PassTable(start, applied[..p])), t[p])
    {
      if p < |totals| {
        assert t[p] == totals[p];
      } else {
        assert applied[..p] == applied;
      }
    }
  }

  /** A new correction leaves the files of the passes already run as they were. */
  lemma SolvedCorrected(solve: CsvFile -> CsvFile, start: CsvFile, applied: seq<seq<real>>,
                        totals: seq<seq<real>>, ba: seq<real>)
    requires Solved(solve, start, applied, totals) && |ba| == NumAgents
    ensures Solved(solve, start, applied + [ba], totals)
  {
    var a := applied + [ba];
    assert Corrections(a) by {
      forall p | 0 <= p < |a| ensures |a[p]| == NumAgents {
        if p < |applied| { assert a[p] == applied[p]; }
      }
    }
    forall p | 0 <= p < |totals|
      ensures TotalsOf(solve(PassTable(start, a[..p])), totals[p])
    {
      assert a[..p] == applied[..p];
    }
  }

  /** The `maxapdiff` recorded `q`-th is that of pass q + 1 over all 29
      slots: the totals of that pass against the control totals. */
  ghost predicate MeasuredAt(ctl: seq<real>, totals: seq<seq<real>>, diffs: seq<real>, q: nat)
  {
    && q < |diffs| && q + 1 < |totals| && |ctl| == NumAgents && |totals[q + 1]| == NumAgents
    && (forall k | 0 <= k < NumAgents :: ctl[k] != 0.0)
    && diffs[q] == MaxPctDiff(ctl, totals[q + 1], NumAgents)
  }

  /** Every recorded `maxapdiff` is measured on the pass after it. */
  ghost predicate Measured(ctl: seq<real>, totals: seq<seq<real>>, diffs: seq<real>)
  {
    forall q: nat | q < |diffs| :: MeasuredAt(ctl, totals, diffs, q)
  }

  lemma MeasuredExtend(ctl: seq<real>, totals: seq<seq<real>>, diffs: seq<real>, loc: seq<real>, d: real)
    requires Measured(ctl, totals, diffs) && |totals| == |diffs| + 1
    requires |ctl| == NumAgents && |loc| == NumAgents && forall k | 0 <= k < NumAgents :: ctl[k] != 0.0
    requires d == MaxPctDiff(ctl, loc, NumAgents)
    ensures Measured(ctl, totals + [loc], diffs + [d])
  {
    var t, ds := totals + [loc], diffs + [d];
    forall q: nat | q < |ds|
      ensures MeasuredAt(ctl, t, ds, q)
    {
      if q < |diffs| {
        assert MeasuredAt(ctl, totals, diffs, q);
        assert ds[q] == diffs[q] && t[q + 1] == totals[q + 1];
      } else {
        assert ds[q] == d && t[q + 1] == loc;
      }
    }
  }

  /** The totals of a pass that took no difference keep the history measured. */
  lemma MeasuredMore(ctl: seq<real>, totals: seq<seq<real>>, diffs: seq<real>, loc: seq<real>)
    requires Measured(ctl, totals, diffs)
    ensures Measured(ctl, totals + [loc], diffs)
  {
    var t := totals + [loc];
    forall q: nat | q < |diffs|
      ensures MeasuredAt(ctl, t, diffs, q)
    {
      assert MeasuredAt(ctl, totals, diffs, q);
      assert t[q + 1] == totals[q + 1];
    }
  }

  // ---------------------------------------------------------------------------
  // Where `run` raises

  /** `load_totals` raises: some H_IDX - 1 is not an index of the 29-slot list. */
  ghost predicate LoadFails(records: seq<DemandRecord>)
  {
    exists j | 0 <= j < |records| :: Slot(records[j].hIdx - 1).None?
  }

  /** `sum_totals` raises: no header, or a row shorter than 31 fields. */
  ghost predicate SumFails(file: CsvFile)
  {
    file.Empty? || !LongRows(file.rows)
  }

  /** Taking `maxapdiff` raises: a control total is 0. */
  ghost predicate HasZero(ctl: seq<real>)
  {
    exists hx | 0 <= hx < |ctl| :: ctl[hx] == 0.0
  }

  /** `adjust_bids` raises on some slot. */
  ghost predicate AdjustFails(ctl: seq<real>, loc: seq<real>, ln: real -> real)
  {
    && |ctl| == NumAgents && |loc| == NumAgents
    && exists hx | 0 <= hx < NumAgents :: BidAdjustEntry(ctl, loc, hx, ln).Failure?
  }

  /** `make_adjustment` raises: no header, or a row it cannot rewrite. */
  ghost predicate MakeFails(file: CsvFile)
  {
    file.Empty? || !AdjustableRows(file.rows)
  }

  /** The correction step raises: `adjust_bids` does, or `make_adjustment`
      on the current adjustment file does. */
  ghost predicate CorrectionFails(ctl: seq<real>, loc: seq<real>, ln: real -> real, table: CsvFile)
  {
    AdjustFails(ctl, loc, ln) || MakeFails(table)
  }

  /** One correction step of `run`: the corrections `adjust_bids` computes
      from the control totals and this pass's location totals, the adjustment
      file rewritten with them, and `net_adjust` grown by them. The adjustment
      file stays the start table shifted by the net of all corrections. */
  method CorrectionPass(records: seq<DemandRecord>, ctl: seq<real>, loc: seq<real>, ln: real -> real,
                        ghost start: CsvFile, table: CsvFile, net: seq<real>,
                        ghost applied: seq<seq<real>>, ghost locs: seq<seq<real>>)
    returns (r: Result<(CsvFile, seq<real>), FsError>, ghost ba: seq<real>)
    requires ctl == ControlTotals(records) && |loc| == NumAgents
    requires Adjusted(records, start, table, net, applied, locs, ln)
    ensures r.Failure? <==> CorrectionFails(ctl, loc, ln, table)
    ensures r.Success? ==> Adjusted(records, start, r.value.0, r.value.1, applied + [ba], locs + [loc], ln)
  {
    ba := [];
    var bidAdjust := AdjustBids(ctl, loc, ln);
    if bidAdjust.Failure? {
      return Failure(bidAdjust.error), ba;
    }
    var adjust := bidAdjust.value;
    ba := adjust;
    CorrectionsFromStep(records, ctl, locs, applied, loc, ba, ln);
    var t := MakeAdjustment(table, adjust);
    if t.Failure? {
      return Failure(t.error), ba;
    }
    NextAdjustment(start.rows, applied, ba);
    if applied == [] {
      FirstAdjustment(start.rows, ba);
    }
    var sum := AccumulateNet(net, adjust);
    return Success((t.value, sum)), ba;
  }

  /** What a finished run promises: it stopped with 1 or -1 after 1 to 10
      passes; it converged exactly when the last `maxapdiff` fell below the
      threshold, and otherwise stopped at the pass limit or because
      `maxapdiff` grew; every earlier `maxapdiff` was at the threshold or
      above and none grew; each correction comes from `adjust_bids` of its
      pass; `bh.csv` holds their sum; the adjustment file is the start
      table shifted by that sum. The totals of passes 0..it are those of the
      solver's output on the start table shifted by the corrections before
      each pass; the corrections were computed from passes 0..it-1 and each
      `maxapdiff` from the pass after it. */
  ghost predicate FinishedRun(records: seq<DemandRecord>, start: CsvFile, solve: CsvFile -> CsvFile, ln: real -> real,
                              res: RunResult, diffs: seq<real>, applied: seq<seq<real>>, locs: seq<seq<real>>,
                              totals: seq<seq<real>>)
  {
    var it := res.iterations;
    && CorrectionsFrom(records, locs, applied, ln)
    && Solved(solve, start, applied, totals) && |totals| == it + 1 && locs == totals[..it]
    && Measured(ControlTotals(records), totals, diffs)
    && (res.converged == 1 || res.converged == -1)
    && 1 <= it <= MaxIteration && |diffs| == it && |applied| == it
    && (res.converged == 1 <==> diffs[it - 1] < ConvergenceThreshold)
    && (res.converged == -1 ==> it == MaxIteration || (it >= 2 && diffs[it - 1] > diffs[it - 2]))
    && (forall q | 0 <= q < it - 1 :: diffs[q] >= ConvergenceThreshold && (q >= 1 ==> diffs[q] <= diffs[q - 1]))
    && res.bh == BhRows(NetAdjust(applied))
    && start.File? && AdjustableRows(start.rows)
    && res.adjustments == File(start.header, AdjustTable(start.rows, NetAdjust(applied)))
  }

  /** What a run that raised promises: the passes before the failing one are
      as in a finished run (their totals come from the solver on the shifted
      start table, their corrections from `adjust_bids`, their differences
      measured and none of them stopping the run), and the failing pass either
      could not be summed, or (from pass 1 on) met a control total of 0 when
      taking `maxapdiff`, or went on and could not be corrected. */
  ghost predicate FailedRun(records: seq<DemandRecord>, start: CsvFile, solve: CsvFile -> CsvFile,
                            ln: real -> real, diffs: seq<real>, applied: seq<seq<real>>,
                            locs: seq<seq<real>>, totals: seq<seq<real>>)
  {
    var it := |applied|;
    var ctl := ControlTotals(records);
    && CorrectionsFrom(records, locs, applied, ln) && it <= MaxIteration
    && Solved(solve, start, applied, totals) && it <= |totals| && locs == totals[..it]
    && Measured(ctl, totals, diffs) && Descending(diffs)
    && if |totals| == it then
         && |diffs| == (if it == 0 then 0 else it - 1)
         && SumFails(solve(PassTable(start, applied)))
       else if it > 0 && HasZero(ctl) then
         |diffs| == it - 1
       else
         && |diffs| == it && it < MaxIteration
         && CorrectionFails(ctl, totals[it], ln, PassTable(start, applied))
  }

  /** Pass `it` could not be summed. */
  lemma RaisedSumming(records: seq<DemandRecord>, start: CsvFile, solve: CsvFile -> CsvFile, ln: real -> real,
                      diffs: seq<real>, applied: seq<seq<real>>, totals: seq<seq<real>>, m1: real)
    requires |applied| <= MaxIteration && CorrectionsFrom(records, totals, applied, ln)
    requires Searching(diffs, |applied|, m1)
    requires Solved(solve, start, applied, totals) && Measured(ControlTotals(records), totals, diffs)
    requires SumFails(solve(PassTable(start, applied)))
    ensures FailedRun(records, start, solve, ln, diffs, applied, totals, totals)
  {
    assert totals[..|applied|] == totals;
  }

  /** Pass `it` >= 1 met a control total of 0 when taking `maxapdiff`. */
  lemma RaisedMeasuring(records: seq<DemandRecord>, start: CsvFile, solve: CsvFile -> CsvFile, ln: real -> real,
                        diffs: seq<real>, applied: seq<seq<real>>, locs: seq<seq<real>>,
                        totals: seq<seq<real>>, m1: real)
    requires 1 <= |applied| <= MaxIteration && CorrectionsFrom(records, locs, applied, ln)
    requires Searching(diffs, |applied|, m1)
    requires Solved(solve, start, applied, totals) && |totals| == |applied| + 1 && locs == totals[..|applied|]
    requires Measured(ControlTotals(records), totals, diffs)
    requires HasZero(ControlTotals(records))
    ensures FailedRun(records, start, solve, ln, diffs, applied, locs, totals)
  {
  }

  /** Pass `it` went on and could not be corrected. */
  lemma RaisedCorrecting(records: seq<DemandRecord>, start: CsvFile, solve: CsvFile -> CsvFile, ln: real -> real,
                         diffs: seq<real>, applied: seq<seq<real>>, locs: seq<seq<real>>,
                         totals: seq<seq<real>>, m1: real)
    requires |applied| < MaxIteration && CorrectionsFrom(records, locs, applied, ln)
    requires Searching(diffs, |applied| + 1, m1)
    requires Solved(solve, start, applied, totals) && |totals| == |applied| + 1 && locs == totals[..|applied|]
    requires Measured(ControlTotals(records), totals, diffs)
    requires |applied| > 0 ==> !HasZero(ControlTotals(records))
    requires CorrectionFails(ControlTotals(records), totals[|applied|], ln, PassTable(start, applied))
    ensures FailedRun(records, start, solve, ln, diffs, applied, locs, totals)
  {
  }

  /** `run`: load the control totals, reset the adjustments when asked, then
      loop: run the solver and sum its allocations; from pass 1 on take
      `maxapdiff` and stop with 1 below the threshold, or with -1 at pass 10 or
      when `maxapdiff` grew; otherwise count the pass, compute the corrections,
      rewrite the adjustment file and add them to `net_adjust`. The ghost
      outputs are the `maxapdiff` of passes 1.., the corrections applied, the
      location totals they were computed from and the totals of every pass. */
  method Run(records: seq<DemandRecord>, adjustments: CsvFile, initBids: bool,
             solve: CsvFile -> CsvFile, ln: real -> real)
    returns (r: Result<RunResult, FsError>, ghost diffs: seq<real>, ghost applied: seq<seq<real>>,
             ghost locs: seq<seq<real>>, ghost totals: seq<seq<real>>)
    ensures r.Success? ==>
      FinishedRun(records, StartTable(adjustments, initBids), solve, ln, r.value, diffs, applied, locs, totals)
    ensures LoadFails(records) || (initBids && adjustments.Empty?) ==> r.Failure?
    ensures r.Failure? ==>
      || LoadFails(records)
      || (initBids && adjustments.Empty?)
      || FailedRun(records, StartTable(adjustments, initBids), solve, ln, diffs, applied, locs, totals)
  {
    diffs, applied, locs, totals := [], [], [], [];
    var ctl := LoadTotals(records);
    if ctl.Failure? {
      return Failure(ctl.error), diffs, applied, locs, totals;
    }
    var table := adjustments;
    if initBids {
      var t := InitBidAdjustments(table);
      if t.Failure? {
        return Failure(t.error), diffs, applied, locs, totals;
      }
      table := t.value;
    }
    assert table == StartTable(adjustments, initBids);
    assert ctl.value == ControlTotals(records);
    r, diffs, applied, locs, totals := Iterate(records, ctl.value, table, solve, ln);
  }

  /** The loop of `run`, from the control totals and the start table. */
  method Iterate(records: seq<DemandRecord>, ctl: seq<real>, start: CsvFile,
                 solve: CsvFile -> CsvFile, ln: real -> real)
    returns (r: Result<RunResult, FsError>, ghost diffs: seq<real>, ghost applied: seq<seq<real>>,
             ghost locs: seq<seq<real>>, ghost totals: seq<seq<real>>)
    requires ctl == ControlTotals(records)
    ensures r.Success? ==> FinishedRun(records, start, solve, ln, r.value, diffs, applied, locs, totals)
    ensures r.Failure? ==> FailedRun(records, start, solve, ln, diffs, applied, locs, totals)
  {
    diffs, applied, locs, totals := [], [], [], [];
    var table := start;
    var iteration := 0;
    var converged := 0;
    var net := Zeros();
    var maxapdiff1 := 0.0;
    while converged == 0
      invariant 0 <= iteration <= MaxIteration
      invariant Adjusted(records, start, table, net, applied, locs, ln) && |applied| == iteration
      invariant converged == 0 ==> Searching(diffs, iteration, maxapdiff1)
      invariant converged != 0 ==> Stopped(diffs, iteration, converged)
      invariant converged == 0 ==> totals == locs
      invariant converged != 0 ==> |totals| == iteration + 1 && locs == totals[..iteration]
      invariant Solved(solve, start, applied, totals)
      invariant Measured(ctl, totals, diffs)
      decreases if converged == 0 then MaxIteration + 2 - iteration else 0
    {
      var loc := SumTotals(solve(table));
      if loc.Failure? {
        RaisedSumming(records, start, solve, ln, diffs, applied, totals, maxapdiff1);
        return Failure(loc.error), diffs, applied, locs, totals;
      }
      ghost var before := totals;
      SolvedExtend(solve, start, applied, totals, loc.value);
      totals := totals + [loc.value];
      if iteration != 0 {
        var m;
        m, diffs := MeasurePass(ctl, loc.value, iteration, maxapdiff1, diffs, before);
        if m.Failure? {
          MeasuredMore(ctl, before, diffs, loc.value);
          RaisedMeasuring(records, start, solve, ln, diffs, applied, locs, totals, maxapdiff1);
          return Failure(m.error), diffs, applied, locs, totals;
        }
        converged, maxapdiff1 := m.value.0, m.value.1;
        if converged != 0 {
          assert totals[..iteration] == locs;
          continue;
        }
      }
      iteration := iteration + 1;
      var next;
      ghost var ba;
      next, ba := CorrectionPass(records, ctl, loc.value, ln, start, table, net, applied, locs);
      if next.Failure? {
        RaisedCorrecting(records, start, solve, ln, diffs, applied, locs, totals, maxapdiff1);
        return Failure(next.error), diffs, applied, locs, totals;
      }
      SolvedCorrected(solve, start, applied, totals, ba);
      table, net := next.value.0, next.value.1;
      applied, locs := applied + [ba], locs + [loc.value];
    }
    FinishRun(records, start, solve, ln, converged, iteration, table, net, diffs, applied, locs, totals);
    return Success(RunResult(converged, iteration, BhRows(net), table)), diffs, applied, locs, totals;
  }

  /** The decision of `run` on pass `it` >= 1 with location totals `loc`:
      `maxapdiff` against the control totals (raising on a control total of
      0), then stop with 1 below the threshold, with -1 at the pass limit or
      when it grew past `maxapdiff_1` (itself on pass 1), or go on with it as
      the new `maxapdiff_1`. The ghost output is the history with it added. */
  method MeasurePass(ctl: seq<real>, loc: seq<real>, it: nat, maxapdiff1: real,
                     ghost diffs: seq<real>, ghost totals: seq<seq<real>>)
    returns (r: Result<(int, real), FsError>, ghost diffs': seq<real>)
    requires |ctl| == NumAgents && |loc| == NumAgents && 1 <= it <= MaxIteration
    requires Searching(diffs, it, maxapdiff1)
    requires Measured(ctl, totals, diffs) && |totals| == |diffs| + 1
    ensures r.Failure? <==> HasZero(ctl)
    ensures r.Failure? ==> diffs' == diffs
    ensures r.Success? ==>
      && diffs' == diffs + [MaxPctDiff(ctl, loc, NumAgents)]
      && Measured(ctl, totals + [loc], diffs')
      && (r.value.0 == 0 ==> it < MaxIteration && Searching(diffs', it + 1, r.value.1))
      && (r.value.0 != 0 ==> Stopped(diffs', it, r.value.0))
  {
    diffs' := diffs;
    var m := MaxApDiff(ctl, loc);
    if m.Failure? {
      return Failure(m.error), diffs';
    }
    var maxapdiff := m.value;
    var last := if it == 1 then maxapdiff else maxapdiff1;
    DecideStep(diffs, it, last, maxapdiff);
    MeasuredExtend(ctl, totals, diffs, loc, maxapdiff);
    diffs' := diffs + [maxapdiff];
    if maxapdiff < ConvergenceThreshold {
      return Success((1, last)), diffs';
    } else if it == MaxIteration || maxapdiff > last {
      return Success((-1, last)), diffs';
    }
    return Success((0, maxapdiff)), diffs';
  }

  /** The state in which the loop of `run` leaves is a finished run. */
  lemma FinishRun(records: seq<DemandRecord>, start: CsvFile, solve: CsvFile -> CsvFile, ln: real -> real,
                  converged: int, it: nat, table: CsvFile, net: seq<real>, diffs: seq<real>,
                  applied: seq<seq<real>>, locs: seq<seq<real>>, totals: seq<seq<real>>)
    requires it <= MaxIteration && |applied| == it
    requires Adjusted(records, start, table, net, applied, locs, ln)
    requires Stopped(diffs, it, converged)
    requires Solved(solve, start, applied, totals) && |totals| == it + 1 && locs == totals[..it]
    requires Measured(ControlTotals(records), totals, diffs)
    ensures FinishedRun(records, start, solve, ln, RunResult(converged, it, BhRows(net), table), diffs, applied,
                        locs, totals)
  {
    forall q | 0 <= q < it - 1
      ensures diffs[q] >= ConvergenceThreshold && (q >= 1 ==> diffs[q] <= diffs[q - 1])
    {
      assert diffs[..it - 1][q] == diffs[q];
      assert q >= 1 ==> diffs[..it - 1][q - 1] == diffs[q - 1];
    }
  }
}
