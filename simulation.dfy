/**
 The year-by-year cost simulation of one asset (app.py, run_simulation).

 Each simulated year draws a minor-repair cost, picks a major-repair cost
 (forced in one chosen year, otherwise decided by a probability draw), adds
 both to a cumulative repair cost that is never reset, classifies the year
 against a replacement threshold and a review band below it, updates an
 insurance-pool balance and appends one row to a column-wise ledger.

 Randomness is not modelled: the caller supplies one `Draw` per year, holding
 the value `np.random.randint` would return and the value `np.random.rand`
 would return for that year.
 */
module Simulation {

  datatype Result<T, E> = Ok(value: T) | Err(error: E)

  /** The run's parameters, as passed to run_simulation (the two unused ones omitted). */
  datatype Params = Params(
    lifespan: int,
    majorRepairCost: real,
    repairProb: real,
    replacementCost: real,
    replacementThreshold: real,
    insuranceContribution: real,
    userIntensity: real,
    decisionMargin: real,
    specificYear: int,
    specificMajorRepairCost: real)

  /** The random values one year consumes: a minor-repair integer and a uniform number. */
  datatype Draw = Draw(minor: int, chance: real)

  /** The ValueErrors `np.random.randint(low, high)` raises for the minor-repair range. */
  datatype SimError =
    | LowOutOfBounds(low: int)
    | HighOutOfBounds(high: int)
    | EmptyMinorRange(low: int, high: int)

  /** Bounds of numpy's default integer type, int64. */
  const Int64Min: int := -0x8000_0000_0000_0000
  const Int64Max: int := 0x7FFF_FFFF_FFFF_FFFF

  /** The "Replacement Decision" column's three values. */
  datatype Decision = Yes | ReviewNeeded | No {
    /** The text the ledger shows for the decision. */
    function Label(): (s: string)
      ensures (s == "Yes") == Yes?
      ensures (s == "Review Needed") == ReviewNeeded?
      ensures (s == "No") == No?
    {
      match this
      case Yes => "Yes"
      case ReviewNeeded => "Review Needed"
      case No => "No"
    }
  }

  /** The results dictionary: seven columns, one entry per simulated year. */
  datatype Ledger = Ledger(
    year: seq<int>,
    minor: seq<int>,
    major: seq<real>,
    total: seq<real>,
    cumulative: seq<real>,
    decision: seq<Decision>,
    pool: seq<real>)

  /** Python's `int()` on a float: truncation toward zero. */
  function Trunc(x: real): (r: int)
    ensures x >= 0.0 ==> r >= 0 && r as real <= x < r as real + 1.0
    ensures x < 0.0 ==> r <= 0 && r as real - 1.0 < x <= r as real
  {
    if x >= 0.0 then x.Floor else -((-x).Floor)
  }

  /** Lower (inclusive) bound of the minor-repair draw. */
  function MinorLow(p: Params): int {
    Trunc(200.0 * p.userIntensity)
  }

  /** Upper (exclusive) bound of the minor-repair draw. */
  function MinorHigh(p: Params): int {
    Trunc(400.0 * p.userIntensity)
  }

  /** `randint(low, high)` draws from [low, high] - 1 only when both ends fit int64 and the range is non-empty. */
  predicate RandintAccepts(low: int, high: int) {
    Int64Min <= low && high - 1 <= Int64Max && low < high
  }

  /** The ValueError `randint(low, high)` raises, checked in numpy's order: low bound, high bound, empty range. */
  function RandintError(low: int, high: int): (e: SimError)
    requires !RandintAccepts(low, high)
    ensures e.LowOutOfBounds? <==> low < Int64Min
    ensures e.HighOutOfBounds? <==> Int64Min <= low && high - 1 > Int64Max
    ensures e.EmptyMinorRange? ==> low >= high
  {
    if low < Int64Min then LowOutOfBounds(low)
    else if high - 1 > Int64Max then HighOutOfBounds(high)
    else EmptyMinorRange(low, high)
  }

  /** Probability of a major repair in a year that is not the forced one. */
  function AdjustedRepairProb(p: Params): real {
    p.repairProb * p.userIntensity
  }

  function ThresholdValue(p: Params): real {
    p.replacementCost * p.replacementThreshold
  }

  function ReviewMarginValue(p: Params): real {
    ThresholdValue(p) * (1.0 - p.decisionMargin)
  }

  /** Number of iterations of `range(1, lifespan + 1)`. */
  function Years(lifespan: int): nat {
    if lifespan < 1 then 0 else lifespan
  }

  /** What the random source promises: `rand()` lies in [0, 1) and `randint` stays in its range. */
  ghost predicate ValidDraws(p: Params, draws: seq<Draw>) {
    forall i :: 0 <= i < |draws| ==>
      0.0 <= draws[i].chance < 1.0 &&
      (RandintAccepts(MinorLow(p), MinorHigh(p)) ==> MinorLow(p) <= draws[i].minor < MinorHigh(p))
  }

  /** The replacement rule; ties at a boundary go to the stricter decision. */
  function Decide(cumulative: real, thresholdValue: real, reviewMarginValue: real): (d: Decision)
    ensures d == Yes <==> cumulative >= thresholdValue
    ensures d == ReviewNeeded <==> cumulative < thresholdValue && cumulative >= reviewMarginValue
    ensures d == No <==> cumulative < thresholdValue && cumulative < reviewMarginValue
  {
    if cumulative >= thresholdValue then Yes
    else if cumulative >= reviewMarginValue then ReviewNeeded
    else No
  }

  /** The major-repair cost of a year, given that year's uniform draw. */
  function MajorRepair(p: Params, year: int, chance: real): real {
    if year == p.specificYear then p.specificMajorRepairCost
    else if chance < AdjustedRepairProb(p) then p.majorRepairCost
    else 0.0
  }

  /** Pool deduction for a replacement. */
  function ReplacementCharge(p: Params, d: Decision): real {
    if d == Yes then p.replacementCost else 0.0
  }

  /** The running value before row i of a running column: 0 before the first row. */
  function Before(column: seq<real>, i: int): real
    requires 0 <= i <= |column|
  {
    if i == 0 then 0.0 else column[i - 1]
  }

  // ---------------------------------------------------------------------
  // What a (possibly partial) ledger of a run looks like, column by column.
  // ---------------------------------------------------------------------

  /** All seven columns have `n` rows and the Year column counts 1..n. */
  ghost predicate RowsNumbered(l: Ledger, n: nat) {
    |l.year| == n && |l.minor| == n && |l.major| == n && |l.total| == n &&
    |l.cumulative| == n && |l.decision| == n && |l.pool| == n &&
    forall i :: 0 <= i < n ==> l.year[i] == i + 1
  }

  /** Row i's repairs come from draw i: the minor cost in its range, the major cost by the rule, their sum. */
  ghost predicate RepairsFollow(p: Params, draws: seq<Draw>, l: Ledger)
    requires RowsNumbered(l, |l.year|)
  {
    |l.year| <= |draws| &&
    forall i :: 0 <= i < |l.year| ==>
      l.minor[i] == draws[i].minor &&
      MinorLow(p) <= l.minor[i] < MinorHigh(p) &&
      l.major[i] == MajorRepair(p, i + 1, draws[i].chance) &&
      l.total[i] == l.minor[i] as real + l.major[i]
  }

  /** The cumulative cost starts from 0 and adds each year's total. */
  ghost predicate CumulativeFollows(l: Ledger)
    requires RowsNumbered(l, |l.year|)
  {
    forall i {:trigger l.total[i]} :: 0 <= i < |l.year| ==>
      l.cumulative[i] == Before(l.cumulative, i) + l.total[i]
  }

  /** Each year's decision is the rule applied to that year's cumulative cost. */
  ghost predicate DecisionsFollow(p: Params, l: Ledger)
    requires RowsNumbered(l, |l.year|)
  {
    forall i :: 0 <= i < |l.year| ==>
      l.decision[i] == Decide(l.cumulative[i], ThresholdValue(p), ReviewMarginValue(p))
  }

  /** The pool starts at 0; each year adds the contribution, pays the repairs and any replacement. */
  ghost predicate PoolFollows(p: Params, l: Ledger)
    requires RowsNumbered(l, |l.year|)
  {
    forall i {:trigger l.total[i]} :: 0 <= i < |l.year| ==>
      l.pool[i] == Before(l.pool, i)
                   + (p.insuranceContribution - l.total[i])
                   - ReplacementCharge(p, l.decision[i])
  }

  /** `l` is what the first |l.year| years of a run with `p` and `draws` produce. */
  ghost predicate Follows(p: Params, draws: seq<Draw>, l: Ledger) {
    RowsNumbered(l, |l.year|) &&
    RepairsFollow(p, draws, l) &&
    CumulativeFollows(l) &&
    DecisionsFollow(p, l) &&
    PoolFollows(p, l)
  }

  /** The ledger with one more row appended to every column. */
  function Append(l: Ledger, year: int, minor: int, major: real, total: real,
                  cumulative: real, decision: Decision, pool: real): Ledger
  {
    Ledger(l.year + [year], l.minor + [minor], l.major + [major], l.total + [total],
           l.cumulative + [cumulative], l.decision + [decision], l.pool + [pool])
  }

  /** One more year computed by the rules extends a ledger that follows them. */
  lemma FollowsAppend(p: Params, draws: seq<Draw>, l: Ledger, minor: int, major: real, total: real,
                      cumulative: real, decision: Decision, pool: real)
    requires Follows(p, draws, l)
    requires |l.year| < |draws|
    requires minor == draws[|l.year|].minor && MinorLow(p) <= minor < MinorHigh(p)
    requires major == MajorRepair(p, |l.year| + 1, draws[|l.year|].chance)
    requires total == minor as real + major
    requires cumulative == Before(l.cumulative, |l.year|) + total
    requires decision == Decide(cumulative, ThresholdValue(p), ReviewMarginValue(p))
    requires pool == Before(l.pool, |l.year|)
                     + (p.insuranceContribution - total) - ReplacementCharge(p, decision)
    ensures Follows(p, draws, Append(l, |l.year| + 1, minor, major, total, cumulative, decision, pool))
  {
  }

  /**
   The simulation loop. A lifespan below 1 gives an empty ledger; a
   minor-repair range that `randint` refuses makes the first year's draw fail.
   */
  method RunSimulation(p: Params, draws: seq<Draw>) returns (r: Result<Ledger, SimError>)
    requires |draws| == Years(p.lifespan)
    requires ValidDraws(p, draws)
    ensures r.Err? <==> p.lifespan >= 1 && !RandintAccepts(MinorLow(p), MinorHigh(p))
    ensures r.Err? ==> r.error == RandintError(MinorLow(p), MinorHigh(p))
    ensures r.Ok? ==> RowsNumbered(r.value, Years(p.lifespan))
    ensures r.Ok? ==> RepairsFollow(p, draws, r.value)
    ensures r.Ok? ==> CumulativeFollows(r.value)
    ensures r.Ok? ==> DecisionsFollow(p, r.value)
    ensures r.Ok? ==> PoolFollows(p, r.value)
  {
    var low := MinorLow(p);
    var high := MinorHigh(p);
    var adjustedRepairProb := AdjustedRepairProb(p);
    var cumulativeRepairs: seq<real> := [];
    var poolBalance: real := 0.0;
    var years: seq<int> := [];
    var minors: seq<int> := [];
    var majors: seq<real> := [];
    var totals: seq<real> := [];
    var cumulatives: seq<real> := [];
    var decisions: seq<Decision> := [];
    var pools: seq<real> := [];

    var year := 1;
    while year <= p.lifespan
      invariant 1 <= year <= Years(p.lifespan) + 1
      invariant year > 1 ==> RandintAccepts(low, high)
      invariant Follows(p, draws, Ledger(years, minors, majors, totals, cumulatives, decisions, pools))
      invariant |years| == year - 1
      invariant cumulativeRepairs == cumulatives
      invariant poolBalance == Before(pools, |pools|)
    {
      ghost var before := Ledger(years, minors, majors, totals, cumulatives, decisions, pools);
      if !RandintAccepts(low, high) {
        return Err(RandintError(low, high));
      }
      var minorRepair := draws[year - 1].minor;
      var majorRepair := if year == p.specificYear then p.specificMajorRepairCost
                         else if draws[year - 1].chance < adjustedRepairProb then p.majorRepairCost
                         else 0.0;
      var totalRepair := minorRepair as real + majorRepair;
      var cumulativeCost := totalRepair
        + (if |cumulativeRepairs| > 0 then cumulativeRepairs[|cumulativeRepairs| - 1] else 0.0);
      cumulativeRepairs := cumulativeRepairs + [cumulativeCost];

      var replacementThresholdValue := ThresholdValue(p);
      var reviewMarginValue := ReviewMarginValue(p);
      var replace := Decide(cumulativeCost, replacementThresholdValue, reviewMarginValue);

      poolBalance := poolBalance + (p.insuranceContribution - totalRepair);
      if replace == Yes {
        poolBalance := poolBalance - p.replacementCost;
      }

      years := years + [year];
      minors := minors + [minorRepair];
      majors := majors + [majorRepair];
      totals := totals + [totalRepair];
      cumulatives := cumulatives + [cumulativeCost];
      decisions := decisions + [replace];
      pools := pools + [poolBalance];
      FollowsAppend(p, draws, before, minorRepair, majorRepair, totalRepair,
                    cumulativeCost, replace, poolBalance);
      year := year + 1;
    }
    r := Ok(Ledger(years, minors, majors, totals, cumulatives, decisions, pools));
  }
}
