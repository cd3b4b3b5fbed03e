/** Urgency scoring, cost resolution and cost-effectiveness (algo.py).
    Money and scores are exact reals; pandas' NaN is `None`; the age of a
    project in days is `today - openDay`, with `today` passed in. */
module Algo {
  import opened Wrappers

  // ---------------------------------------------------------------------
  // Priority labels and their (min, max) ranges
  // ---------------------------------------------------------------------

  /** The four labels the scorer recognises. */
  datatype Level = Low | Medium | High | Emergency

  /** Only these exact spellings are recognised ("Emergency" in mixed case is not). */
  function ParseLevel(tag: string): Option<Level>
  {
    if tag == "Low" then Some(Low)
    else if tag == "Medium" then Some(Medium)
    else if tag == "High" then Some(High)
    else if tag == "EMERGENCY" then Some(Emergency)
    else None
  }

  function MinPriority(l: Level): int
  {
    match l
    case Low => 10
    case Medium => 350
    case High => 800
    case Emergency => 5000
  }

  function MaxPriority(l: Level): int
  {
    match l
    case Low => 300
    case Medium => 750
    case High => 1500
    case Emergency => 10000
  }

  /** Age (in days) at which the score reaches its ceiling. */
  const HORIZON_DAYS: int := 730

  /** Truncation toward zero, as numpy does when it stores a float in an
      integer array and as pandas' astype(int) does. */
  function Trunc(x: real): (r: int)
    ensures 0.0 <= x ==> r as real <= x < r as real + 1.0
    ensures x < 0.0 ==> r as real - 1.0 < x <= r as real
  {
    if x >= 0.0 then x.Floor else -((-x).Floor)
  }

  lemma TruncMonotone(x: real, y: real)
    requires x <= y
    ensures Trunc(x) <= Trunc(y)
  {
  }

  /** The straight line from `minPriority` at day 0 to `maxPriority` at day 730. */
  function Linear(days: int, minPriority: int, maxPriority: int): (r: real)
    ensures days == 0 ==> r == minPriority as real
    ensures days == HORIZON_DAYS ==> r == maxPriority as real
  {
    minPriority as real + (days as real) * ((maxPriority - minPriority) as real / 730.0)
  }

  /** np.piecewise over an integer age: the line up to day 730, the maximum
      after. The output array has the age's integer type, so the line's value
      is cut to a whole number. */
  function PriorityFunction(days: int, minPriority: int, maxPriority: int): (r: int)
    ensures days == 0 ==> r == minPriority
    ensures days >= HORIZON_DAYS ==> r == maxPriority
    ensures 0 <= days <= HORIZON_DAYS && 0 <= minPriority <= maxPriority ==>
              r as real <= Linear(days, minPriority, maxPriority) < r as real + 1.0
  {
    if days <= HORIZON_DAYS then Trunc(Linear(days, minPriority, maxPriority))
    else maxPriority
  }

  lemma MulMonotone(a: real, b: real, k: real)
    requires a <= b && 0.0 <= k
    ensures a * k <= b * k
  {
    assert b * k - a * k == (b - a) * k;
  }

  /** The line never decreases with age when the range is ordered. */
  lemma LinearMonotone(d1: int, d2: int, minPriority: int, maxPriority: int)
    requires d1 <= d2 && minPriority <= maxPriority
    ensures Linear(d1, minPriority, maxPriority) <= Linear(d2, minPriority, maxPriority)
  {
    MulMonotone(d1 as real, d2 as real, (maxPriority - minPriority) as real / 730.0);
  }

  /** The curve never decreases with age when the range is ordered. */
  lemma PriorityMonotone(d1: int, d2: int, minPriority: int, maxPriority: int)
    requires d1 <= d2 && minPriority <= maxPriority
    ensures PriorityFunction(d1, minPriority, maxPriority) <= PriorityFunction(d2, minPriority, maxPriority)
  {
    if d2 <= HORIZON_DAYS {
      LinearMonotone(d1, d2, minPriority, maxPriority);
      TruncMonotone(Linear(d1, minPriority, maxPriority), Linear(d2, minPriority, maxPriority));
    } else if d1 <= HORIZON_DAYS {
      LinearMonotone(d1, HORIZON_DAYS, minPriority, maxPriority);
      assert Linear(HORIZON_DAYS, minPriority, maxPriority) == maxPriority as real;
      TruncMonotone(Linear(d1, minPriority, maxPriority), maxPriority as real);
    }
  }

  /** For any non-negative age the score stays inside its range. */
  lemma PriorityBounds(days: int, minPriority: int, maxPriority: int)
    requires 0 <= days && minPriority <= maxPriority
    ensures minPriority <= PriorityFunction(days, minPriority, maxPriority) <= maxPriority
  {
    PriorityMonotone(0, days, minPriority, maxPriority);
    PriorityMonotone(days, days + HORIZON_DAYS, minPriority, maxPriority);
  }

  /** The cut makes neighbouring ages tie: a Low project scores 49 at 99 days
      and at 100 days, and 155 at 365 days. */
  lemma LowScoresAreWhole()
    ensures PriorityFunction(99, 10, 300) == 49 && PriorityFunction(100, 10, 300) == 49
    ensures PriorityFunction(365, 10, 300) == 155
  {
    assert Linear(99, 10, 300) == 10.0 + 99.0 * (290.0 / 730.0);
    assert Linear(100, 10, 300) == 10.0 + 100.0 * (290.0 / 730.0);
  }

  /** priority_value: the score of a tag at an age, undefined for any other tag. */
  function PriorityValue(tag: string, days: int): (r: Option<real>)
    ensures r.Some? <==> tag in {"Low", "Medium", "High", "EMERGENCY"}
    ensures r.Some? ==> r.value == r.value.Floor as real
    ensures r.Some? && days == 0 ==> r.value == MinPriority(ParseLevel(tag).value) as real
    ensures r.Some? && days >= HORIZON_DAYS ==> r.value == MaxPriority(ParseLevel(tag).value) as real
  {
    match ParseLevel(tag)
    case None => None
    case Some(l) => Some(PriorityFunction(days, MinPriority(l), MaxPriority(l)) as real)
  }

  /** Every recognised tag scores inside its range at any non-negative age. */
  lemma PriorityValueInRange(tag: string, days: int)
    requires 0 <= days && ParseLevel(tag).Some?
    ensures var l := ParseLevel(tag).value;
            MinPriority(l) as real <= PriorityValue(tag, days).value <= MaxPriority(l) as real
  {
    var l := ParseLevel(tag).value;
    PriorityBounds(days, MinPriority(l), MaxPriority(l));
  }

  /** At any fixed non-negative age, Low < Medium < High < EMERGENCY. */
  lemma LabelsOrdered(days: int)
    requires 0 <= days
    ensures PriorityValue("Low", days).value < PriorityValue("Medium", days).value
    ensures PriorityValue("Medium", days).value < PriorityValue("High", days).value
    ensures PriorityValue("High", days).value < PriorityValue("EMERGENCY", days).value
  {
    PriorityValueInRange("Low", days);
    PriorityValueInRange("Medium", days);
    PriorityValueInRange("High", days);
    PriorityValueInRange("EMERGENCY", days);
  }

  // ---------------------------------------------------------------------
  // Cost resolution
  // ---------------------------------------------------------------------

  /** A cost cell as it arrives from the board: null, the empty text,
      text that reads as a number, or other text. */
  datatype CostCell = Null | Blank | Number(amount: real) | NonNumeric(text: string)

  /** Neither null nor "" (a literal 0 is present). */
  predicate Present(c: CostCell)
  {
    !c.Null? && !c.Blank?
  }

  /** Reference definition of a fallback chain: the first present cell, or `default`. */
  function FirstPresent(cells: seq<CostCell>, default: CostCell): CostCell
  {
    if cells == [] then default
    else if Present(cells[0]) then cells[0]
    else FirstPresent(cells[1..], default)
  }

  /** The fallback chain picks the earliest present cell and skips only absent ones. */
  lemma {:induction false} FirstPresentIsEarliest(cells: seq<CostCell>, default: CostCell, k: nat)
    requires k < |cells| && Present(cells[k])
    requires forall j :: 0 <= j < k ==> !Present(cells[j])
    ensures FirstPresent(cells, default) == cells[k]
  {
    if k > 0 {
      FirstPresentIsEarliest(cells[1..], default, k - 1);
    }
  }

  lemma {:induction false} FirstPresentNoneFound(cells: seq<CostCell>, default: CostCell)
    requires forall j :: 0 <= j < |cells| ==> !Present(cells[j])
    ensures FirstPresent(cells, default) == default
  {
    if cells != [] {
      FirstPresentNoneFound(cells[1..], default);
    }
  }

  /** find_cost: Final, then Quoted, then Estimated, then the number 0. */
  function FindCost(finalCost: CostCell, quotedCost: CostCell, estimatedCost: CostCell): (r: CostCell)
    ensures Present(r)
    ensures Present(finalCost) ==> r == finalCost
  {
    if Present(finalCost) then finalCost
    else if Present(quotedCost) then quotedCost
    else if Present(estimatedCost) then estimatedCost
    else Number(0.0)
  }

  /** find_cost is the fallback chain over (Final, Quoted, Estimated) with default 0. */
  lemma FindCostIsFallbackChain(finalCost: CostCell, quotedCost: CostCell, estimatedCost: CostCell)
    ensures FindCost(finalCost, quotedCost, estimatedCost)
            == FirstPresent([finalCost, quotedCost, estimatedCost], Number(0.0))
  {
    var cells := [finalCost, quotedCost, estimatedCost];
    if Present(finalCost) {
      FirstPresentIsEarliest(cells, Number(0.0), 0);
    } else if Present(quotedCost) {
      FirstPresentIsEarliest(cells, Number(0.0), 1);
    } else if Present(estimatedCost) {
      FirstPresentIsEarliest(cells, Number(0.0), 2);
    } else {
      FirstPresentNoneFound(cells, Number(0.0));
    }
  }

  /** pd.to_numeric(..., errors='coerce'): anything that is not a number becomes NaN. */
  function Numeric(c: CostCell): (r: Option<real>)
    ensures r.Some? <==> c.Number?
  {
    if c.Number? then Some(c.amount) else None
  }

  /** One project as fetched and parsed from the project board. */
  datatype Project = Project(
    id: string,
    rd: string,
    priority: string,
    status: string,
    openDay: int,
    finalCost: CostCell,
    quotedCost: CostCell,
    estimatedCost: CostCell)

  /** The `cost` column of calculate_costs for one row. */
  function ProjectCost(p: Project, buffer: real): (r: Option<real>)
    ensures r.Some? <==> FindCost(p.finalCost, p.quotedCost, p.estimatedCost).Number?
    ensures !Present(p.finalCost) && !Present(p.quotedCost) && !Present(p.estimatedCost) ==> r == Some(0.0)
  {
    match Numeric(FindCost(p.finalCost, p.quotedCost, p.estimatedCost))
    case None => None
    case Some(v) => Some(v * buffer)
  }

  /** calculate_costs: fills the `cost` column of a copy of the frame, row by row. */
  method CalculateCosts(df: seq<Project>, buffer: real) returns (costs: seq<Option<real>>)
    ensures |costs| == |df|
    ensures forall i :: 0 <= i < |df| ==> costs[i] == ProjectCost(df[i], buffer)
  {
    costs := [];
    var i := 0;
    while i < |df|
      invariant 0 <= i <= |df|
      invariant |costs| == i
      invariant forall j :: 0 <= j < i ==> costs[j] == ProjectCost(df[j], buffer)
    {
      costs := costs + [ProjectCost(df[i], buffer)];
      i := i + 1;
    }
  }

  // ---------------------------------------------------------------------
  // Cost-effectiveness and its normalisation
  // ---------------------------------------------------------------------

  /** score / cost, or the score itself when the cost is 0; undefined when either is. */
  function RawEffectiveness(cost: Option<real>, score: Option<real>): (r: Option<real>)
    ensures r.Some? <==> cost.Some? && score.Some?
    ensures cost == Some(0.0) ==> r == score
    ensures r.Some? && cost.value != 0.0 ==> r.value * cost.value == score.value
  {
    match (cost, score)
    case (Some(c), Some(v)) => if c == 0.0 then Some(v) else Some(v / c)
    case _ => None
  }

  /** A scored row of calc_cost_effectiveness. */
  datatype Scored = Scored(
    project: Project,
    days: int,
    cost: Option<real>,
    priorityValue: Option<real>,
    costEffectiveness: Option<real>)

  /** Rows that take part in the maximum: cost > 0 and a defined ratio. */
  predicate PositiveCost(s: Scored)
  {
    s.cost.Some? && s.cost.value > 0.0 && s.costEffectiveness.Some?
  }

  /** The row before normalisation. */
  function RawScore(p: Project, today: int): Scored
  {
    var days := today - p.openDay;
    var cost := ProjectCost(p, 1.0);
    var pv := PriorityValue(p.priority, days);
    Scored(p, days, cost, pv, RawEffectiveness(cost, pv))
  }

  function RawScores(df: seq<Project>, today: int): (r: seq<Scored>)
    ensures |r| == |df|
    ensures forall i :: 0 <= i < |df| ==> r[i] == RawScore(df[i], today)
  {
    seq(|df|, i requires 0 <= i < |df| => RawScore(df[i], today))
  }

  /** One step of the running maximum over positive-cost rows. */
  function MaxStep(best: Option<real>, s: Scored): Option<real>
  {
    if !PositiveCost(s) then best
    else if best.None? || best.value < s.costEffectiveness.value then s.costEffectiveness
    else best
  }

  /** The maximum cost-effectiveness over rows with positive cost (NaN when there is none). */
  function MaxPositive(rows: seq<Scored>): (r: Option<real>)
    ensures r.None? <==> forall i :: 0 <= i < |rows| ==> !PositiveCost(rows[i])
    ensures r.Some? ==> forall i :: 0 <= i < |rows| && PositiveCost(rows[i]) ==> rows[i].costEffectiveness.value <= r.value
    ensures r.Some? ==> exists i :: 0 <= i < |rows| && PositiveCost(rows[i]) && rows[i].costEffectiveness == r
  {
    if rows == [] then None
    else
      var front := rows[..|rows| - 1];
      assert forall i :: 0 <= i < |front| ==> front[i] == rows[i];
      MaxStep(MaxPositive(front), rows[|rows| - 1])
  }

  /** (ce / max) * 100; undefined when the maximum is undefined or zero. */
  function Normalize(ce: Option<real>, best: Option<real>): (r: Option<real>)
    ensures r.Some? <==> ce.Some? && best.Some? && best.value != 0.0
  {
    if ce.Some? && best.Some? && best.value != 0.0 then Some(ce.value / best.value * 100.0) else None
  }

  /** Every row's ratio normalised against the maximum over positive-cost rows. */
  function Normalized(raw: seq<Scored>): (r: seq<Scored>)
    ensures |r| == |raw|
  {
    NormalizeAgainst(raw, MaxPositive(raw))
  }

  function NormalizeAgainst(raw: seq<Scored>, best: Option<real>): (r: seq<Scored>)
    ensures |r| == |raw|
  {
    seq(|raw|, i requires 0 <= i < |raw| => raw[i].(costEffectiveness := Normalize(raw[i].costEffectiveness, best)))
  }

  /** The frame calc_cost_effectiveness returns. */
  function CostEffectiveness(df: seq<Project>, today: int): (r: seq<Scored>)
    ensures |r| == |df|
  {
    Normalized(RawScores(df, today))
  }

  lemma NormalizedRowAtMost100(raw: seq<Scored>, i: int)
    requires 0 <= i < |raw| && PositiveCost(raw[i]) && MaxPositive(raw).value > 0.0
    ensures Normalized(raw)[i].costEffectiveness.Some?
    ensures Normalized(raw)[i].costEffectiveness.value <= 100.0
  {
    var best := MaxPositive(raw);
    var m := best.value;
    var c := raw[i].costEffectiveness.value;
    assert c <= m;
    assert Normalized(raw)[i].costEffectiveness == Normalize(Some(c), best);
    NormalizeAtMost100(c, m);
  }

  lemma NormalizeAtMost100(c: real, m: real)
    requires c <= m && 0.0 < m
    ensures Normalize(Some(c), Some(m)).Some?
    ensures Normalize(Some(c), Some(m)).value <= 100.0
  {
    RatioAtMost100(c, m);
  }

  /** After normalisation no positive-cost row exceeds 100 (when the maximum is positive). */
  lemma NormalizedAtMost100(df: seq<Project>, today: int, i: int)
    requires 0 <= i < |df|
    requires PositiveCost(RawScores(df, today)[i])
    requires MaxPositive(RawScores(df, today)).value > 0.0
    ensures CostEffectiveness(df, today)[i].costEffectiveness.Some?
    ensures CostEffectiveness(df, today)[i].costEffectiveness.value <= 100.0
  {
    NormalizedRowAtMost100(RawScores(df, today), i);
  }

  lemma RatioAtMost100(c: real, m: real)
    requires c <= m && 0.0 < m
    ensures c / m * 100.0 <= 100.0
  {
    assert c / m <= 1.0 by {
      assert c / m * m == c;
    }
  }

  lemma NormalizedMaxRowIs100(raw: seq<Scored>)
    requires MaxPositive(raw).Some? && MaxPositive(raw).value > 0.0
    ensures exists i :: 0 <= i < |raw| && PositiveCost(raw[i]) && Normalized(raw)[i].costEffectiveness == Some(100.0)
  {
    var m := MaxPositive(raw).value;
    var i :| 0 <= i < |raw| && PositiveCost(raw[i]) && raw[i].costEffectiveness == Some(m);
    assert Normalized(raw)[i].costEffectiveness == Normalize(Some(m), Some(m));
    SelfRatioIs100(m);
  }

  lemma SelfRatioIs100(m: real)
    requires m > 0.0
    ensures m / m * 100.0 == 100.0
  {
    assert m / m == 1.0;
  }

  /** ...and the maximising row is exactly 100. */
  lemma NormalizedMaximumIs100(df: seq<Project>, today: int)
    requires MaxPositive(RawScores(df, today)).Some?
    requires MaxPositive(RawScores(df, today)).value > 0.0
    ensures exists i :: 0 <= i < |df| && PositiveCost(RawScores(df, today)[i])
                        && CostEffectiveness(df, today)[i].costEffectiveness == Some(100.0)
  {
    NormalizedMaxRowIs100(RawScores(df, today));
  }

  /** One more row of the scored frame and of its running maximum. */
  lemma ScoresStep(df: seq<Project>, today: int, i: int)
    requires 0 <= i < |df|
    ensures RawScores(df[..i + 1], today) == RawScores(df[..i], today) + [RawScore(df[i], today)]
    ensures MaxPositive(RawScores(df[..i + 1], today))
            == MaxStep(MaxPositive(RawScores(df[..i], today)), RawScore(df[i], today))
  {
    var front, s := RawScores(df[..i], today), RawScore(df[i], today);
    assert RawScores(df[..i + 1], today) == front + [s];
    assert (front + [s])[..|front|] == front;
  }

  /** The scoring pass of calc_cost_effectiveness: each row's days, cost,
      score and ratio, with the running maximum over positive-cost rows. */
  method ScoreRows(df: seq<Project>, today: int) returns (raw: seq<Scored>, best: Option<real>)
    ensures raw == RawScores(df, today) && best == MaxPositive(raw)
  {
    raw, best := [], None;
    var i := 0;
    while i < |df|
      invariant 0 <= i <= |df|
      invariant raw == RawScores(df[..i], today)
      invariant best == MaxPositive(raw)
    {
      var s := RawScore(df[i], today);
      ScoresStep(df, today, i);
      raw := raw + [s];
      best := MaxStep(best, s);
      i := i + 1;
    }
    assert df[..|df|] == df;
  }

  /** The normalising pass: every ratio divided by `best`, times 100. */
  method NormalizeRows(raw: seq<Scored>, best: Option<real>) returns (out: seq<Scored>)
    ensures out == NormalizeAgainst(raw, best)
  {
    out := [];
    var j := 0;
    while j < |raw|
      invariant 0 <= j <= |raw|
      invariant |out| == j
      invariant forall k :: 0 <= k < j ==> out[k] == raw[k].(costEffectiveness := Normalize(raw[k].costEffectiveness, best))
    {
      out := out + [raw[j].(costEffectiveness := Normalize(raw[j].costEffectiveness, best))];
      j := j + 1;
    }
  }

  /** calc_cost_effectiveness: a pass that scores each row and tracks the
      maximum, then a pass that normalises against it. */
  method CalcCostEffectiveness(df: seq<Project>, today: int) returns (out: seq<Scored>)
    ensures out == CostEffectiveness(df, today)
  {
    var raw, best := ScoreRows(df, today);
    out := NormalizeRows(raw, best);
  }
}
