/**
 Properties of every ledger the simulation loop produces: closed forms of the
 two accumulators, monotonicity of the cumulative cost and of the decision,
 the effect of the forced year and of a zero repair probability, and the fact
 that parameters and draws determine the ledger.
 */
module SimulationProperties {
  import opened Simulation

  /** Sum of a column, added up from the first row. */
  function Sum(s: seq<real>): real {
    if s == [] then 0.0 else Sum(s[..|s| - 1]) + s[|s| - 1]
  }

  /** Number of "Yes" decisions in a column. */
  function YesCount(ds: seq<Decision>): nat {
    if ds == [] then 0 else YesCount(ds[..|ds| - 1]) + (if ds[|ds| - 1] == Yes then 1 else 0)
  }

  /** Strictness of a decision: "No" < "Review Needed" < "Yes". */
  function Rank(d: Decision): nat {
    match d
    case No => 0
    case ReviewNeeded => 1
    case Yes => 2
  }

  /** The minor-repair range [int(200u), int(400u)) is non-empty exactly when 400u >= 1. */
  lemma MinorRangeNonEmptyIff(p: Params)
    ensures MinorLow(p) < MinorHigh(p) <==> 400.0 * p.userIntensity >= 1.0
  {
  }

  /**
   `randint` accepts the minor-repair range exactly when 1 <= 400u < 2^63 + 1:
   below that the range is empty, above it the upper end overflows int64.
   */
  lemma RandintAcceptsIff(p: Params)
    ensures RandintAccepts(MinorLow(p), MinorHigh(p))
            <==> 1.0 <= 400.0 * p.userIntensity < (Int64Max + 2) as real
  {
  }

  /** Every row's repair costs are non-negative when the configured major amounts are. */
  lemma RepairsNonNegative(p: Params, draws: seq<Draw>, l: Ledger, i: int)
    requires Follows(p, draws, l)
    requires p.majorRepairCost >= 0.0 && p.specificMajorRepairCost >= 0.0
    requires 0 <= i < |l.year|
    ensures l.minor[i] >= 0 && l.major[i] >= 0.0 && l.total[i] >= l.major[i]
  {
  }

  /** The cumulative cost of year i+1 is the sum of the totals of years 1..i+1. */
  lemma {:induction false} CumulativeIsRunningSum(l: Ledger, i: int)
    requires RowsNumbered(l, |l.year|) && CumulativeFollows(l)
    requires 0 <= i < |l.year|
    ensures l.cumulative[i] == Sum(l.total[..i + 1])
  {
    var prefix := l.total[..i + 1];
    assert prefix[..i] == l.total[..i];
    assert Sum(prefix) == Sum(l.total[..i]) + l.total[i];
    assert l.cumulative[i] == Before(l.cumulative, i) + l.total[i];
    if i > 0 {
      CumulativeIsRunningSum(l, i - 1);
    }
  }

  /** With non-negative totals the cumulative cost never decreases. */
  lemma {:induction false} CumulativeNonDecreasing(l: Ledger, i: int, j: int)
    requires RowsNumbered(l, |l.year|) && CumulativeFollows(l)
    requires forall k :: 0 <= k < |l.year| ==> l.total[k] >= 0.0
    requires 0 <= i <= j < |l.year|
    ensures l.cumulative[i] <= l.cumulative[j]
  {
    if i < j {
      CumulativeNonDecreasing(l, i, j - 1);
      assert l.cumulative[j] == l.cumulative[j - 1] + l.total[j];
    }
  }

  /** A larger cumulative cost never gets a less strict decision. */
  lemma DecideMonotone(c1: real, c2: real, thresholdValue: real, reviewMarginValue: real)
    requires c1 <= c2
    ensures Rank(Decide(c1, thresholdValue, reviewMarginValue)) <= Rank(Decide(c2, thresholdValue, reviewMarginValue))
  {
  }

  /**
   Because the cumulative cost is never reset, decisions only get stricter:
   once a year is "Yes", every later year is "Yes" too.
   */
  lemma DecisionNeverRelaxes(p: Params, draws: seq<Draw>, l: Ledger, i: int, j: int)
    requires Follows(p, draws, l)
    requires p.majorRepairCost >= 0.0 && p.specificMajorRepairCost >= 0.0
    requires 0 <= i <= j < |l.year|
    ensures Rank(l.decision[i]) <= Rank(l.decision[j])
    ensures l.decision[i] == Yes ==> l.decision[j] == Yes
  {
    forall k | 0 <= k < |l.year| ensures l.total[k] >= 0.0 {
      RepairsNonNegative(p, draws, l, k);
    }
    CumulativeNonDecreasing(l, i, j);
    DecideMonotone(l.cumulative[i], l.cumulative[j], ThresholdValue(p), ReviewMarginValue(p));
  }

  /**
   After year i+1 the pool holds i+1 contributions, less every repair so far
   and one replacement cost per "Yes" year so far.
   */
  lemma {:induction false} PoolBalanceClosedForm(p: Params, l: Ledger, i: int)
    requires RowsNumbered(l, |l.year|) && CumulativeFollows(l) && PoolFollows(p, l)
    requires 0 <= i < |l.year|
    ensures l.pool[i] == (i + 1) as real * p.insuranceContribution - l.cumulative[i]
                         - YesCount(l.decision[..i + 1]) as real * p.replacementCost
  {
    assert l.decision[..i + 1][..i] == l.decision[..i];
    assert YesCount(l.decision[..i + 1]) == YesCount(l.decision[..i]) + (if l.decision[i] == Yes then 1 else 0);
    assert l.pool[i] == Before(l.pool, i) + (p.insuranceContribution - l.total[i]) - ReplacementCharge(p, l.decision[i]);
    assert l.cumulative[i] == Before(l.cumulative, i) + l.total[i];
    if i > 0 {
      PoolBalanceClosedForm(p, l, i - 1);
    }
    PoolStep(l.pool[i], Before(l.pool, i), l.cumulative[i], Before(l.cumulative, i), l.total[i],
             p.insuranceContribution, p.replacementCost, i, YesCount(l.decision[..i]), l.decision[i] == Yes);
  }

  /** The arithmetic of one year of the pool's closed form: n years' worth plus one more year. */
  lemma PoolStep(pool: real, poolBefore: real, cumulative: real, cumulativeBefore: real, total: real,
                 contribution: real, replacementCost: real, n: nat, yes: nat, replaced: bool)
    requires poolBefore == n as real * contribution - cumulativeBefore - yes as real * replacementCost
    requires cumulative == cumulativeBefore + total
    requires pool == poolBefore + (contribution - total) - (if replaced then replacementCost else 0.0)
    ensures pool == (n + 1) as real * contribution - cumulative
                    - (yes + (if replaced then 1 else 0)) as real * replacementCost
  {
  }

  /** Two ledgers of the same length that follow the rules for the same parameters and draws agree on row i. */
  lemma {:induction false} RowsAgree(p: Params, draws: seq<Draw>, l1: Ledger, l2: Ledger, i: int)
    requires Follows(p, draws, l1) && Follows(p, draws, l2)
    requires 0 <= i < |l1.year| && i < |l2.year|
    ensures l1.cumulative[i] == l2.cumulative[i] && l1.decision[i] == l2.decision[i] && l1.pool[i] == l2.pool[i]
  {
    assert l1.total[i] == l2.total[i];
    if i > 0 {
      RowsAgree(p, draws, l1, l2, i - 1);
    }
    assert Before(l1.cumulative, i) == Before(l2.cumulative, i);
    assert Before(l1.pool, i) == Before(l2.pool, i);
    assert l1.cumulative[i] == Before(l1.cumulative, i) + l1.total[i];
    assert l2.cumulative[i] == Before(l2.cumulative, i) + l2.total[i];
    assert l1.decision[i] == l2.decision[i];
  }

  /** The parameters and the draws determine the ledger completely. */
  lemma LedgerDetermined(p: Params, draws: seq<Draw>, l1: Ledger, l2: Ledger)
    requires Follows(p, draws, l1) && Follows(p, draws, l2)
    requires |l1.year| == |l2.year|
    ensures l1 == l2
  {
    forall i | 0 <= i < |l1.year|
      ensures l1.cumulative[i] == l2.cumulative[i] && l1.decision[i] == l2.decision[i] && l1.pool[i] == l2.pool[i]
    {
      RowsAgree(p, draws, l1, l2, i);
    }
    assert l1.year == l2.year && l1.minor == l2.minor && l1.major == l2.major && l1.total == l2.total;
    assert l1.cumulative == l2.cumulative && l1.decision == l2.decision && l1.pool == l2.pool;
  }

  /** In the forced year the major repair is the forced amount, whatever the draws. */
  lemma ForcedYearIgnoresDraws(p: Params, draws: seq<Draw>, l: Ledger)
    requires Follows(p, draws, l)
    requires 1 <= p.specificYear <= |l.year|
    ensures l.major[p.specificYear - 1] == p.specificMajorRepairCost
  {
  }

  /** With a zero repair probability, no year other than the forced one has a major repair. */
  lemma ZeroProbabilityNoChanceRepairs(p: Params, draws: seq<Draw>, l: Ledger)
    requires Follows(p, draws, l) && ValidDraws(p, draws)
    requires p.repairProb == 0.0
    ensures forall i :: 0 <= i < |l.year| && i + 1 != p.specificYear ==> l.major[i] == 0.0
  {
    assert AdjustedRepairProb(p) == 0.0;
  }

  /**
   One year, a forced repair of 1000 reaching a threshold of 100% of a 1000
   replacement cost with no review margin, and the narrowest non-empty
   minor-repair range [0, 1): the year is "Yes" and the pool pays both the
   repair and the replacement.
   */
  lemma SingleForcedYearReplaces(p: Params, draws: seq<Draw>, l: Ledger)
    requires Follows(p, draws, l) && |l.year| == 1
    requires p.userIntensity == 0.0025 && p.specificYear == 1 && p.specificMajorRepairCost == 1000.0
    requires p.replacementCost == 1000.0 && p.replacementThreshold == 1.0 && p.decisionMargin == 0.0
    ensures l.minor == [0] && l.total == [1000.0] && l.cumulative == [1000.0]
    ensures l.decision == [Yes]
    ensures l.pool == [p.insuranceContribution - 2000.0]
  {
    assert l.total[0] == 1000.0;
    assert l.cumulative[0] == Before(l.cumulative, 0) + l.total[0];
    assert ThresholdValue(p) == 1000.0 && ReviewMarginValue(p) == 1000.0;
    assert l.pool[0] == Before(l.pool, 0) + (p.insuranceContribution - l.total[0]) - ReplacementCharge(p, l.decision[0]);
  }
}
