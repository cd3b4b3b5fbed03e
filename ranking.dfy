/** The ranking step of calc_and_sort (monday_push_helpers.py): merge the
    pending rows with the facility budgets, sort by cost-effectiveness, then
    running cost per RD and per fund in that order and the exceeded flags. */
module Ranking {
  import opened Wrappers
  import opened Algo
  import opened Budget

  // ---------------------------------------------------------------------
  // Merge with the facility table
  // ---------------------------------------------------------------------

  /** A pending row after the left merge on RD with the facility budgets. */
  datatype Candidate = Candidate(
    scored: Scored,
    fund: Option<string>,
    remainingBudget: Option<real>,
    remainingFundBudget: Option<real>)

  function RdOf(c: Candidate): string
  {
    c.scored.project.rd
  }

  function Key(c: Candidate): Option<real>
  {
    c.scored.costEffectiveness
  }

  /** The first facility row with this RD. */
  function FindFacility(byFacility: seq<FacilityBudget>, rd: string): (r: Option<FacilityBudget>)
    ensures r.Some? ==> r.value in byFacility && r.value.facility.rd == rd
    ensures r.None? ==> forall f :: f in byFacility ==> f.facility.rd != rd
  {
    if byFacility == [] then None
    else if byFacility[0].facility.rd == rd then Some(byFacility[0])
    else FindFacility(byFacility[1..], rd)
  }

  /** One row of `open_df.merge(facilities_df, on='RD', how='left')`. */
  function MergeRow(s: Scored, byFacility: seq<FacilityBudget>): Candidate
  {
    match FindFacility(byFacility, s.project.rd)
    case None => Candidate(s, None, None, None)
    case Some(f) =>
      Candidate(s, Some(f.facility.fund), f.remaining,
                Some(RemainingFund(byFacility, f.facility.fund, false).remaining))
  }

  function MergeRows(rows: seq<Scored>, byFacility: seq<FacilityBudget>): (r: seq<Candidate>)
    ensures |r| == |rows|
    ensures forall i :: 0 <= i < |rows| ==> r[i] == MergeRow(rows[i], byFacility)
  {
    seq(|rows|, i requires 0 <= i < |rows| => MergeRow(rows[i], byFacility))
  }

  /** Rows of the same RD see the same facility budget, and rows of the same
      fund the same fund budget. */
  ghost predicate Consistent(rows: seq<Candidate>)
  {
    && (forall x, y :: x in rows && y in rows && RdOf(x) == RdOf(y) ==> x.remainingBudget == y.remainingBudget)
    && (forall x, y :: x in rows && y in rows && x.fund.Some? && x.fund == y.fund ==> x.remainingFundBudget == y.remainingFundBudget)
    && (forall x :: x in rows && x.fund.None? ==> x.remainingFundBudget.None?)
  }

  /** The merge looks budgets up by key, so it always yields consistent rows. */
  lemma MergeIsConsistent(rows: seq<Scored>, byFacility: seq<FacilityBudget>)
    ensures Consistent(MergeRows(rows, byFacility))
  {
    var m := MergeRows(rows, byFacility);
    forall x, y | x in m && y in m && x.fund.Some? && x.fund == y.fund
      ensures x.remainingFundBudget == y.remainingFundBudget
    {
      var i :| 0 <= i < |m| && m[i] == x;
      var j :| 0 <= j < |m| && m[j] == y;
      assert x == MergeRow(rows[i], byFacility);
      assert y == MergeRow(rows[j], byFacility);
    }
  }

  // ---------------------------------------------------------------------
  // sort_values('cost_effectiveness', ascending=False)
  // ---------------------------------------------------------------------

  /** Descending order on cost-effectiveness, NaN last. */
  predicate KeyGeq(a: Option<real>, b: Option<real>)
  {
    b.None? || (a.Some? && a.value >= b.value)
  }

  ghost predicate SortedDesc(rows: seq<Candidate>)
  {
    forall i, j :: 0 <= i < j < |rows| ==> KeyGeq(Key(rows[i]), Key(rows[j]))
  }

  function Insert(x: Candidate, rows: seq<Candidate>): (r: seq<Candidate>)
    ensures multiset(r) == multiset(rows) + multiset{x}
  {
    if rows == [] then [x]
    else if KeyGeq(Key(x), Key(rows[0])) then [x] + rows
    else
      assert rows == [rows[0]] + rows[1..];
      [rows[0]] + Insert(x, rows[1..])
  }

  /** A stable insertion sort; rows of equal key keep their input order. */
  function SortByEffectiveness(rows: seq<Candidate>): (r: seq<Candidate>)
    ensures multiset(r) == multiset(rows)
  {
    if rows == [] then []
    else
      assert rows == [rows[0]] + rows[1..];
      Insert(rows[0], SortByEffectiveness(rows[1..]))
  }

  lemma {:induction false} InsertSorted(x: Candidate, rows: seq<Candidate>)
    requires SortedDesc(rows)
    ensures SortedDesc(Insert(x, rows))
  {
    if rows != [] && !KeyGeq(Key(x), Key(rows[0])) {
      var tail := Insert(x, rows[1..]);
      InsertSorted(x, rows[1..]);
      assert forall y :: y in tail ==> y == x || y in rows[1..] by {
        forall y | y in tail ensures y == x || y in rows[1..] {
          assert y in multiset(tail);
        }
      }
      forall j | 0 <= j < |tail| ensures KeyGeq(Key(rows[0]), Key(tail[j])) {
        assert tail[j] in tail;
        if tail[j] != x {
          var k :| 0 <= k < |rows[1..]| && rows[1..][k] == tail[j];
          assert rows[k + 1] == tail[j];
        }
      }
    }
  }

  /** After sorting, rows are in non-increasing cost-effectiveness order, and
      are a permutation of the input. */
  lemma {:induction false} SortIsSorted(rows: seq<Candidate>)
    ensures SortedDesc(SortByEffectiveness(rows))
    ensures multiset(SortByEffectiveness(rows)) == multiset(rows)
  {
    if rows != [] {
      SortIsSorted(rows[1..]);
      InsertSorted(rows[0], SortByEffectiveness(rows[1..]));
    }
  }

  /** Consistency is a property of the rows, not of their order. */
  lemma PermutationKeepsConsistent(a: seq<Candidate>, b: seq<Candidate>)
    requires multiset(a) == multiset(b) && Consistent(a)
    ensures Consistent(b)
  {
    forall x | x in b ensures x in a {
      assert x in multiset(b);
    }
  }

  // ---------------------------------------------------------------------
  // Running costs and the exceeded flags
  // ---------------------------------------------------------------------

  function CostOf(c: Candidate): real
  {
    c.scored.cost.GetOr(0.0)
  }

  /** Sum of the costs of the rows of one RD. */
  function RdCost(rows: seq<Candidate>, rd: string): real
  {
    if rows == [] then 0.0
    else RdCost(rows[..|rows| - 1], rd) + (if RdOf(rows[|rows| - 1]) == rd then CostOf(rows[|rows| - 1]) else 0.0)
  }

  /** Sum of the costs of the rows of one fund (rows without a fund belong to none). */
  function FundCost(rows: seq<Candidate>, fund: string): real
  {
    if rows == [] then 0.0
    else FundCost(rows[..|rows| - 1], fund) + (if rows[|rows| - 1].fund == Some(fund) then CostOf(rows[|rows| - 1]) else 0.0)
  }

  /** A row of the returned `open_df`. */
  datatype Ranked = Ranked(
    row: Candidate,
    rank: nat,
    cumulativeCost: int,
    cumulativeFundCost: int,
    currentRdBudgetStatus: int,
    currentFundBudgetStatus: int,
    remainingBudgetByRd: int,
    remainingBudgetByFund: int,
    exceedsFacilityBudget: bool,
    exceedsFundBudget: bool)

  /** The derived columns of a row, from its running RD and fund costs. */
  function RankedRow(c: Candidate, i: nat, rdCost: real, fundCost: real): (r: Ranked)
    ensures r.rank == i && r.row == c
    ensures r.exceedsFacilityBudget <==> r.currentRdBudgetStatus - r.cumulativeCost < 0
    ensures r.exceedsFundBudget <==> r.currentFundBudgetStatus - r.cumulativeFundCost < 0
  {
    var cumulative := Trunc(rdCost);
    var cumulativeFund := if c.fund.Some? then Trunc(fundCost) else 0;
    var rdStatus := Trunc(c.remainingBudget.GetOr(0.0));
    var fundStatus := Trunc(c.remainingFundBudget.GetOr(0.0));
    Ranked(c, i, cumulative, cumulativeFund, rdStatus, fundStatus,
           rdStatus - cumulative, fundStatus - cumulativeFund,
           rdStatus - cumulative < 0, fundStatus - cumulativeFund < 0)
  }

  /** The derived columns of the row at position `i` of the sorted frame: its
      running costs are the prefix sums over its RD and its fund. */
  function RankedAt(rows: seq<Candidate>, i: nat): (r: Ranked)
    requires i < |rows|
    ensures r.rank == i && r.row == rows[i]
    ensures r.cumulativeCost == Trunc(RdCost(rows[..i + 1], RdOf(rows[i])))
    ensures r.cumulativeFundCost
            == if rows[i].fund.Some? then Trunc(FundCost(rows[..i + 1], rows[i].fund.value)) else 0
    ensures r.currentRdBudgetStatus == Trunc(rows[i].remainingBudget.GetOr(0.0))
    ensures r.currentFundBudgetStatus == Trunc(rows[i].remainingFundBudget.GetOr(0.0))
    ensures r.exceedsFacilityBudget <==> r.currentRdBudgetStatus - r.cumulativeCost < 0
    ensures r.exceedsFundBudget <==> r.currentFundBudgetStatus - r.cumulativeFundCost < 0
  {
    var c := rows[i];
    RankedRow(c, i, RdCost(rows[..i + 1], RdOf(c)),
              if c.fund.Some? then FundCost(rows[..i + 1], c.fund.value) else 0.0)
  }

  function Lookup(m: map<string, real>, k: string): real
  {
    if k in m then m[k] else 0.0
  }

  /** One more row added to the per-RD and per-fund running totals. */
  lemma RunningTotalsStep(rows: seq<Candidate>, i: nat, rdTotals: map<string, real>, fundTotals: map<string, real>,
                          rdNext: map<string, real>, fundNext: map<string, real>)
    requires i < |rows|
    requires forall k :: Lookup(rdTotals, k) == RdCost(rows[..i], k)
    requires forall k :: Lookup(fundTotals, k) == FundCost(rows[..i], k)
    requires rdNext == rdTotals[RdOf(rows[i]) := Lookup(rdTotals, RdOf(rows[i])) + CostOf(rows[i])]
    requires fundNext == if rows[i].fund.Some?
                         then fundTotals[rows[i].fund.value := Lookup(fundTotals, rows[i].fund.value) + CostOf(rows[i])]
                         else fundTotals
    ensures forall k :: Lookup(rdNext, k) == RdCost(rows[..i + 1], k)
    ensures forall k :: Lookup(fundNext, k) == FundCost(rows[..i + 1], k)
  {
    assert rows[..i + 1][..i] == rows[..i];
  }

  /** The cumulative columns and flags, computed in one pass with a running
      total per RD and per fund. A row whose cost is NaN makes astype(int)
      raise, which aborts the run. */
  method CumulativeAndFlags(sorted: seq<Candidate>) returns (r: Result<seq<Ranked>>)
    ensures r.Failure? <==> exists i :: 0 <= i < |sorted| && sorted[i].scored.cost.None?
    ensures r.Success? ==> |r.value| == |sorted|
    ensures r.Success? ==> forall i :: 0 <= i < |sorted| ==> r.value[i] == RankedAt(sorted, i)
  {
    var rdTotals: map<string, real> := map[];
    var fundTotals: map<string, real> := map[];
    var out: seq<Ranked> := [];
    var i := 0;
    while i < |sorted|
      invariant 0 <= i <= |sorted|
      invariant forall j :: 0 <= j < i ==> sorted[j].scored.cost.Some?
      invariant forall k :: Lookup(rdTotals, k) == RdCost(sorted[..i], k)
      invariant forall k :: Lookup(fundTotals, k) == FundCost(sorted[..i], k)
      invariant |out| == i
      invariant forall j :: 0 <= j < i ==> out[j] == RankedAt(sorted, j)
    {
      var c := sorted[i];
      if c.scored.cost.None? {
        return Failure("cannot convert a NaN cumulative cost to int");
      }
      var cost := c.scored.cost.value;
      var rd := RdOf(c);
      var rdNext := rdTotals[rd := Lookup(rdTotals, rd) + cost];
      var fundNext := if c.fund.Some? then fundTotals[c.fund.value := Lookup(fundTotals, c.fund.value) + cost]
                      else fundTotals;
      RunningTotalsStep(sorted, i, rdTotals, fundTotals, rdNext, fundNext);
      rdTotals, fundTotals := rdNext, fundNext;
      var fundCost := if c.fund.Some? then Lookup(fundTotals, c.fund.value) else 0.0;
      out := out + [RankedRow(c, i, Lookup(rdTotals, rd), fundCost)];
      i := i + 1;
    }
    assert sorted[..|sorted|] == sorted;
    r := Success(out);
  }

  // ---------------------------------------------------------------------
  // Properties of the running costs
  // ---------------------------------------------------------------------

  ghost predicate NonNegativeCosts(rows: seq<Candidate>)
  {
    forall i :: 0 <= i < |rows| ==> 0.0 <= CostOf(rows[i])
  }

  lemma {:induction false} RdCostMonotone(rows: seq<Candidate>, a: nat, b: nat, rd: string)
    requires a <= b <= |rows| && NonNegativeCosts(rows)
    ensures RdCost(rows[..a], rd) <= RdCost(rows[..b], rd)
  {
    if a < b {
      RdCostMonotone(rows, a, b - 1, rd);
      assert rows[..b][..b - 1] == rows[..b - 1];
    }
  }

  lemma {:induction false} FundCostMonotone(rows: seq<Candidate>, a: nat, b: nat, fund: string)
    requires a <= b <= |rows| && NonNegativeCosts(rows)
    ensures FundCost(rows[..a], fund) <= FundCost(rows[..b], fund)
  {
    if a < b {
      FundCostMonotone(rows, a, b - 1, fund);
      assert rows[..b][..b - 1] == rows[..b - 1];
    }
  }

  /** A row's running RD cost is the previous same-RD row's plus its own cost,
      whatever other rows lie between them. */
  lemma {:induction false} RdCostSkipsOtherRows(rows: seq<Candidate>, a: nat, b: nat, rd: string)
    requires a <= b <= |rows|
    requires forall k :: a <= k < b ==> RdOf(rows[k]) != rd
    ensures RdCost(rows[..b], rd) == RdCost(rows[..a], rd)
  {
    if a < b {
      RdCostSkipsOtherRows(rows, a, b - 1, rd);
      assert rows[..b][..b - 1] == rows[..b - 1];
    }
  }

  lemma RunningRdCost(rows: seq<Candidate>, i: nat, j: nat)
    requires i < j < |rows| && RdOf(rows[i]) == RdOf(rows[j])
    requires forall k :: i < k < j ==> RdOf(rows[k]) != RdOf(rows[j])
    ensures RdCost(rows[..j + 1], RdOf(rows[j])) == RdCost(rows[..i + 1], RdOf(rows[i])) + CostOf(rows[j])
  {
    RdCostSkipsOtherRows(rows, i + 1, j, RdOf(rows[j]));
    assert rows[..j + 1][..j] == rows[..j];
  }

  /** With non-negative costs, once a row exceeds its facility budget every
      later row of the same RD does too. */
  lemma ExceedsFacilityIsSticky(rows: seq<Candidate>, i: nat, j: nat)
    requires i < j < |rows| && RdOf(rows[i]) == RdOf(rows[j])
    requires NonNegativeCosts(rows) && Consistent(rows)
    requires RankedAt(rows, i).exceedsFacilityBudget
    ensures RankedAt(rows, j).exceedsFacilityBudget
  {
    RdCostMonotone(rows, i + 1, j + 1, RdOf(rows[i]));
    TruncMonotone(RdCost(rows[..i + 1], RdOf(rows[i])), RdCost(rows[..j + 1], RdOf(rows[j])));
    assert rows[i] in rows && rows[j] in rows;
  }

  /** The same holds per fund. */
  lemma ExceedsFundIsSticky(rows: seq<Candidate>, i: nat, j: nat)
    requires i < j < |rows| && rows[i].fund == rows[j].fund
    requires NonNegativeCosts(rows) && Consistent(rows)
    requires RankedAt(rows, i).exceedsFundBudget
    ensures RankedAt(rows, j).exceedsFundBudget
  {
    assert rows[i] in rows && rows[j] in rows;
    if rows[i].fund.Some? {
      var f := rows[i].fund.value;
      FundCostMonotone(rows, i + 1, j + 1, f);
      TruncMonotone(FundCost(rows[..i + 1], f), FundCost(rows[..j + 1], f));
    }
  }

  // ---------------------------------------------------------------------
  // calc_and_sort
  // ---------------------------------------------------------------------

  /** The sorted, merged pending rows the ranking is computed over. */
  function OpenCandidates(completed: seq<Project>, open: seq<Project>, facilities: seq<Facility>,
                          pendingStatuses: set<string>, today: int): (r: seq<Candidate>)
    ensures |r| == |PendingProjects(open, pendingStatuses)|
  {
    var combined := completed + InProcessProjects(open, pendingStatuses);
    var byFacility := RemainingFacility(combined, facilities, false);
    var scored := CostEffectiveness(PendingProjects(open, pendingStatuses), today);
    var merged := MergeRows(scored, byFacility);
    assert |SortByEffectiveness(merged)| == |multiset(SortByEffectiveness(merged))| == |merged|;
    SortByEffectiveness(merged)
  }

  /** The candidates are ordered by effectiveness and budgets are consistent per key. */
  lemma OpenCandidatesSortedAndConsistent(completed: seq<Project>, open: seq<Project>, facilities: seq<Facility>,
                                          pendingStatuses: set<string>, today: int)
    ensures SortedDesc(OpenCandidates(completed, open, facilities, pendingStatuses, today))
    ensures Consistent(OpenCandidates(completed, open, facilities, pendingStatuses, today))
  {
    var combined := completed + InProcessProjects(open, pendingStatuses);
    var byFacility := RemainingFacility(combined, facilities, false);
    var merged := MergeRows(CostEffectiveness(PendingProjects(open, pendingStatuses), today), byFacility);
    SortIsSorted(merged);
    MergeIsConsistent(CostEffectiveness(PendingProjects(open, pendingStatuses), today), byFacility);
    PermutationKeepsConsistent(merged, SortByEffectiveness(merged));
  }

  /** The two frames calc_and_sort selects with the `project_category` column. */
  method SplitByCategory(open: seq<Project>, pendingStatuses: set<string>)
    returns (pending: seq<Project>, inProc: seq<Project>)
    ensures pending == PendingProjects(open, pendingStatuses)
    ensures inProc == InProcessProjects(open, pendingStatuses)
  {
    var category := CategorizeProjects(open, pendingStatuses);
    inProc, pending := [], [];
    var i := 0;
    while i < |open|
      invariant 0 <= i <= |open|
      invariant inProc == InProcessProjects(open[..i], pendingStatuses)
      invariant pending == PendingProjects(open[..i], pendingStatuses)
    {
      assert open[..i + 1][..i] == open[..i];
      if category[i] == Pending {
        pending := pending + [open[i]];
      } else {
        inProc := inProc + [open[i]];
      }
      i := i + 1;
    }
    assert open[..|open|] == open;
  }

  /** calc_and_sort, from fetched frames to the ranked open frame, the scored
      in-process frame and the completed frame's costs. */
  method CalcAndSort(completed: seq<Project>, open: seq<Project>, facilities: seq<Facility>,
                     pendingStatuses: set<string>, today: int)
    returns (ranked: Result<seq<Ranked>>, inProcess: seq<Scored>, completedCosts: seq<Option<real>>)
    ensures var rows := OpenCandidates(completed, open, facilities, pendingStatuses, today);
            && (ranked.Failure? <==> exists i :: 0 <= i < |rows| && rows[i].scored.cost.None?)
            && (ranked.Success? ==> |ranked.value| == |rows|
                                    && forall i :: 0 <= i < |rows| ==> ranked.value[i] == RankedAt(rows, i))
    ensures inProcess == CostEffectiveness(InProcessProjects(open, pendingStatuses), today)
    ensures |completedCosts| == |completed|
    ensures forall i :: 0 <= i < |completed| ==> completedCosts[i] == ProjectCost(completed[i], 1.0)
  {
    var pending, inProc := SplitByCategory(open, pendingStatuses);
    completedCosts := CalculateCosts(completed, 1.0);
    var byFacility := RemainingFacility(completed + inProc, facilities, false);
    inProcess := CalcCostEffectiveness(inProc, today);
    var scored := CalcCostEffectiveness(pending, today);
    var sorted := SortByEffectiveness(MergeRows(scored, byFacility));
    assert sorted == OpenCandidates(completed, open, facilities, pendingStatuses, today);
    ranked := CumulativeAndFlags(sorted);
  }
}
