/** Project categories and the per-facility / per-fund budget aggregation (helpers.py). */
module Budget {
  import opened Wrappers
  import opened Algo

  // ---------------------------------------------------------------------
  // categorize_projects
  // ---------------------------------------------------------------------

  datatype Category = Pending | InProcess

  /** categorize_projects: one `project_category` entry per row, 'pending'
      exactly when the status is one of the pending statuses. */
  method CategorizeProjects(df: seq<Project>, pendingStatuses: set<string>) returns (category: seq<Category>)
    ensures |category| == |df|
    ensures forall i :: 0 <= i < |df| ==> (category[i] == Pending <==> df[i].status in pendingStatuses)
  {
    category := [];
    var i := 0;
    while i < |df|
      invariant 0 <= i <= |df|
      invariant |category| == i
      invariant forall j :: 0 <= j < i ==> (category[j] == Pending <==> df[j].status in pendingStatuses)
    {
      var c := if df[i].status in pendingStatuses then Pending else InProcess;
      category := category + [c];
      i := i + 1;
    }
  }

  /** The rows calc_and_sort keeps as `df_pending`, in their original order. */
  function PendingProjects(df: seq<Project>, pendingStatuses: set<string>): seq<Project>
  {
    if df == [] then []
    else
      var last := df[|df| - 1];
      PendingProjects(df[..|df| - 1], pendingStatuses) + (if last.status in pendingStatuses then [last] else [])
  }

  /** The rows calc_and_sort keeps as `df_in_process`, in their original order. */
  function InProcessProjects(df: seq<Project>, pendingStatuses: set<string>): seq<Project>
  {
    if df == [] then []
    else
      var last := df[|df| - 1];
      InProcessProjects(df[..|df| - 1], pendingStatuses) + (if last.status !in pendingStatuses then [last] else [])
  }

  /** The two categories split the open rows: every row lands in exactly one of them. */
  lemma {:induction false} CategoriesPartition(df: seq<Project>, pendingStatuses: set<string>)
    ensures multiset(PendingProjects(df, pendingStatuses)) + multiset(InProcessProjects(df, pendingStatuses)) == multiset(df)
    ensures forall p :: p in PendingProjects(df, pendingStatuses) ==> p.status in pendingStatuses
    ensures forall p :: p in InProcessProjects(df, pendingStatuses) ==> p.status !in pendingStatuses
  {
    if df != [] {
      var front, last := df[..|df| - 1], df[|df| - 1];
      CategoriesPartition(front, pendingStatuses);
      assert df == front + [last];
      var p, q := PendingProjects(front, pendingStatuses), InProcessProjects(front, pendingStatuses);
      if last.status in pendingStatuses {
        assert PendingProjects(df, pendingStatuses) == p + [last];
        assert InProcessProjects(df, pendingStatuses) == q;
      } else {
        assert PendingProjects(df, pendingStatuses) == p;
        assert InProcessProjects(df, pendingStatuses) == q + [last];
      }
    }
  }

  // ---------------------------------------------------------------------
  // remaining_facility
  // ---------------------------------------------------------------------

  /** Final Cost after pd.to_numeric(errors='coerce').fillna(0). */
  function SpendOf(p: Project): (r: real)
    ensures p.finalCost.Number? ==> r == p.finalCost.amount
    ensures !p.finalCost.Number? ==> r == 0.0
  {
    Numeric(p.finalCost).GetOr(0.0)
  }

  /** Spend of at least this much counts as CapEx, below it as R&M. */
  const CAPEX_THRESHOLD: real := 2500.0

  predicate InClass(cost: real, capex: bool)
  {
    if capex then cost >= CAPEX_THRESHOLD else cost < CAPEX_THRESHOLD
  }

  /** Sum of the coerced Final Cost over the kept rows of one RD. */
  function Spent(rows: seq<Project>, rd: string, capex: bool): real
  {
    if rows == [] then 0.0
    else
      (if rows[0].rd == rd && InClass(SpendOf(rows[0]), capex) then SpendOf(rows[0]) else 0.0)
      + Spent(rows[1..], rd, capex)
  }

  /** Sum of the coerced Final Cost over all rows of one RD, whatever the class. */
  function TotalSpent(rows: seq<Project>, rd: string): real
  {
    if rows == [] then 0.0
    else (if rows[0].rd == rd then SpendOf(rows[0]) else 0.0) + TotalSpent(rows[1..], rd)
  }

  /** The R&M filter and the CapEx filter partition the rows: their spends add up to the whole. */
  lemma {:induction false} ThresholdPartition(rows: seq<Project>, rd: string)
    ensures Spent(rows, rd, false) + Spent(rows, rd, true) == TotalSpent(rows, rd)
  {
    if rows != [] {
      ThresholdPartition(rows[1..], rd);
    }
  }

  /** A facility none of whose rows is kept has spent nothing. */
  lemma {:induction false} NoKeptRowsNoSpend(rows: seq<Project>, rd: string, capex: bool)
    requires forall i :: 0 <= i < |rows| ==> rows[i].rd != rd || !InClass(SpendOf(rows[i]), capex)
    ensures Spent(rows, rd, capex) == 0.0
  {
    if rows != [] {
      NoKeptRowsNoSpend(rows[1..], rd, capex);
    }
  }

  /** A facility row of the budget table (SQL facilities left-joined with the budget CSV). */
  datatype Facility = Facility(rd: string, fund: string, rmBudget: Option<real>, capexBudget: Option<real>)

  function BudgetOf(f: Facility, capex: bool): Option<real>
  {
    if capex then f.capexBudget else f.rmBudget
  }

  /** One row of remaining_facility's result. */
  datatype FacilityBudget = FacilityBudget(facility: Facility, spent: real, remaining: Option<real>)

  /** remaining_facility: per facility row, its spend and budget - spend (may be negative). */
  function RemainingFacility(completed: seq<Project>, facilities: seq<Facility>, capex: bool): (r: seq<FacilityBudget>)
    ensures |r| == |facilities|
    ensures forall i :: 0 <= i < |r| ==> r[i].facility == facilities[i]
    ensures forall i :: 0 <= i < |r| ==> r[i].spent == Spent(completed, facilities[i].rd, capex)
    ensures forall i :: 0 <= i < |r| ==>
              (r[i].remaining.Some? <==> BudgetOf(facilities[i], capex).Some?)
              && (r[i].remaining.Some? ==> r[i].remaining.value == BudgetOf(facilities[i], capex).value - r[i].spent)
  {
    seq(|facilities|, i requires 0 <= i < |facilities| =>
      var spent := Spent(completed, facilities[i].rd, capex);
      var budget := BudgetOf(facilities[i], capex);
      FacilityBudget(facilities[i], spent, if budget.Some? then Some(budget.value - spent) else None))
  }

  /** A facility none of whose completed rows passes the threshold filter
      keeps its whole budget. */
  lemma UntouchedFacilityKeepsBudget(completed: seq<Project>, facilities: seq<Facility>, capex: bool, i: int)
    requires 0 <= i < |facilities|
    requires forall j :: 0 <= j < |completed| ==>
               completed[j].rd != facilities[i].rd || !InClass(SpendOf(completed[j]), capex)
    ensures RemainingFacility(completed, facilities, capex)[i].remaining == BudgetOf(facilities[i], capex)
  {
    NoKeptRowsNoSpend(completed, facilities[i].rd, capex);
  }

  // ---------------------------------------------------------------------
  // remaining_fund
  // ---------------------------------------------------------------------

  /** One row of remaining_fund's result: sums over the facilities of a fund,
      NaN entries counting as 0 as in a pandas group sum. */
  datatype FundBudget = FundBudget(budget: real, spent: real, remaining: real)

  function RemainingFund(byFacility: seq<FacilityBudget>, fund: string, capex: bool): (r: FundBudget)
    ensures (forall k :: 0 <= k < |byFacility| ==> byFacility[k].facility.fund != fund) ==> r == FundBudget(0.0, 0.0, 0.0)
  {
    if byFacility == [] then FundBudget(0.0, 0.0, 0.0)
    else
      var rest := RemainingFund(byFacility[1..], fund, capex);
      var f := byFacility[0];
      if f.facility.fund != fund then rest
      else FundBudget(rest.budget + BudgetOf(f.facility, capex).GetOr(0.0),
                      rest.spent + f.spent,
                      rest.remaining + f.remaining.GetOr(0.0))
  }

  /** When every facility of the fund has a budget, the fund's remaining budget
      is the sum of their budgets minus the sum of their spend. */
  lemma {:induction false} FundRemainingIsBudgetMinusSpent(completed: seq<Project>, facilities: seq<Facility>, fund: string, capex: bool)
    requires forall i :: 0 <= i < |facilities| && facilities[i].fund == fund ==> BudgetOf(facilities[i], capex).Some?
    ensures var r := RemainingFund(RemainingFacility(completed, facilities, capex), fund, capex);
            r.remaining == r.budget - r.spent
  {
    if facilities != [] {
      var byFacility := RemainingFacility(completed, facilities, capex);
      assert byFacility[1..] == RemainingFacility(completed, facilities[1..], capex);
      FundRemainingIsBudgetMinusSpent(completed, facilities[1..], fund, capex);
    }
  }
}
