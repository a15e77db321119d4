# Wheelchair cost simulation: the year-by-year engine

This project models the simulation loop of `run_simulation` in `app.py`.
The loop follows one asset (a wheelchair) through its lifespan, one year at a time. Each year it:

- draws a minor-repair cost from the integer range `[int(200·intensity), int(400·intensity))`;
- picks a major-repair cost. In the chosen `specific_year` this is the forced amount. In every other year it is the configured amount when the uniform draw is below `repair_prob · intensity`, and 0 otherwise;
- adds both to a cumulative repair cost, which is never reset;
- classifies the year as "Yes", "Review Needed" or "No". It is "Yes" at or above `replacement_cost · replacement_threshold`, and "Review Needed" at or above that value times `(1 − decision_margin)`;
- updates the insurance-pool balance: it adds the contribution, pays the repairs, and pays the replacement cost in "Yes" years;
- appends one row to the seven-column results table.

`simulation.dfy` (module `Simulation`) holds the data model and the loop.
`RunSimulation` is an imperative method. Like the source, it keeps the seven columns, the `cumulative_repairs` list and the pool balance as local state updated in a `while` loop. Its postconditions say that the resulting ledger follows the column rules: `RowsNumbered`, `RepairsFollow`, `CumulativeFollows`, `DecisionsFollow` and `PoolFollows`.
`properties.dfy` (module `SimulationProperties`) proves what those rules imply for every ledger.

Randomness is an input. The caller passes one `Draw` per year. It holds the integer `np.random.randint` would return and the number `np.random.rand` would return. The precondition `ValidDraws` states what those functions promise.

Where the code's behaviour is easy to misread, the model follows `app.py`:

- A lifespan below 1 gives an empty ledger, not an error, because `range(1, lifespan + 1)` is empty (app.py:24). No parameter is validated.
- `int()` truncates toward zero. `np.random.randint(low, high)` uses numpy's default int64 type. It raises a ValueError when `low` is below −2^63, when `high − 1` is above 2^63 − 1, or when `low >= high`, checked in that order (`RandintError`). So a run of at least one year fails exactly when `400 · intensity < 1` or `400 · intensity ≥ 2^63 + 1` (`RandintAcceptsIff`). The first case includes intensity 0 and every negative intensity (`MinorRangeNonEmptyIff`). The narrowest range that works is `[0, 1)`, at intensity 1/400.
- The cumulative cost is never reset after a "Yes" year. So with non-negative repair amounts, every year after the first "Yes" is also "Yes" and pays the replacement cost again (`DecisionNeverRelaxes`, `PoolBalanceClosedForm`).

## Model

| member | source | states |
|---|---|---|
| `Simulation.RunSimulation` | app.py:14-51 | Fails with `randint`'s error for `(int(200u), int(400u))` iff lifespan ≥ 1 and `randint` refuses that range (an end outside int64, or an empty range). Otherwise the ledger has max(lifespan, 0) rows with Year = 1..n in order. Row i's minor cost is draw i and lies in `[int(200u), int(400u))`. The major cost follows the forced-year/probability rule and the total is their sum. Cumulative = previous cumulative (0 for year 1) + total. The decision is the threshold rule on that year's cumulative cost. Pool = previous pool (0 at the start) + contribution − total − replacement cost in "Yes" years. |
| `Simulation.Decide` | app.py:31-39 | "Yes" iff cumulative ≥ threshold value; "Review Needed" iff below it and ≥ the review-margin value; "No" iff below both (ties go to the stricter decision). |
| `Simulation.Decision.Label` | app.py:35-39 | The ledger text identifies the decision: the label is "Yes", "Review Needed" or "No" exactly for the matching decision. |
| `Simulation.Trunc` | app.py:25 | Python's `int()` on a float: for x ≥ 0 the result r ≥ 0 with r ≤ x < r + 1; for x < 0, r ≤ 0 with r − 1 < x ≤ r (truncation toward zero). |
| `Simulation.RandintError` | app.py:25 | The error `randint(low, high)` raises when it refuses its range: low out of bounds iff low < −2^63; high out of bounds iff low is in bounds and high − 1 > 2^63 − 1; otherwise an empty range (low ≥ high). |
| `SimulationProperties.RandintAcceptsIff` | app.py:14-25 | `randint` accepts `[int(200u), int(400u))` iff 1 ≤ 400u < 2^63 + 1: below that the range is empty, above it the upper end overflows int64. |
| `SimulationProperties.MinorRangeNonEmptyIff` | app.py:25 | The `randint` range `[int(200u), int(400u))` is non-empty iff 400u ≥ 1, so zero or negative intensity always makes the draw fail. |
| `SimulationProperties.RepairsNonNegative` | app.py:25-27 | In any ledger that follows the rules, with non-negative configured major amounts, every minor cost is ≥ 0, every major cost is ≥ 0 and every total is ≥ the major cost. |
| `SimulationProperties.CumulativeIsRunningSum` | app.py:27-29 | The cumulative cost of year i+1 equals the sum of the totals of years 1..i+1. |
| `SimulationProperties.CumulativeNonDecreasing` | app.py:28-29 | With non-negative totals, the cumulative cost of an earlier year is at most that of any later year. |
| `SimulationProperties.DecideMonotone` | app.py:34-39 | A larger cumulative cost never gets a less strict decision ("No" < "Review Needed" < "Yes"). |
| `SimulationProperties.DecisionNeverRelaxes` | app.py:28-39 | With non-negative configured major amounts, decisions never get less strict over the years, and once a year is "Yes" every later year is "Yes". |
| `SimulationProperties.PoolBalanceClosedForm` | app.py:17-43 | After year i+1 the pool equals (i+1) contributions − the cumulative repair cost − replacement cost × (number of "Yes" years so far). |
| `SimulationProperties.LedgerDetermined` | app.py:24-51 | Two ledgers of the same length that follow the rules for the same parameters and draws are equal: parameters and draws determine the whole ledger. |
| `SimulationProperties.ForcedYearIgnoresDraws` | app.py:26 | In year `specific_year`, the major repair is the forced amount, whatever draws the run received. |
| `SimulationProperties.ZeroProbabilityNoChanceRepairs` | app.py:15-26 | With `repair_prob` = 0, every year other than `specific_year` has a major repair of 0. |
| `SimulationProperties.SingleForcedYearReplaces` | app.py:24-43 | One year at intensity 1/400, with a forced repair of 1000 against a 100% threshold of a 1000 replacement and no margin: minor 0, total 1000, cumulative 1000, decision "Yes", pool = contribution − 2000. |

## Left out

- Flask routes and form parsing (app.py:78-106): HTTP transport and string-to-number conversion.
- The pandas DataFrame, the two matplotlib charts, PNG/base64 encoding and `to_html` (app.py:53-76): rendering done by libraries outside this model. The ledger's seven columns are the data those consume.
- `np.random.randint` and `np.random.rand`: replaced by caller-supplied draws, since no distribution is part of the logic. The source calls `rand` only in years other than `specific_year`. The model gives every year its own draw and ignores the forced year's, so it does not capture how the global random stream lines up across years.
- Floating-point rounding: amounts are exact `real` numbers; `int()` on floats is modelled as exact truncation toward zero. Infinite and NaN inputs, for which `int()` itself raises, have no counterpart among reals.
- The `initial_cost` and `maintenance_budget` parameters (app.py:10): they have no effect on the computation.
- Simulation.RandintError: assumes numpy's default integer type is int64, as on Linux and macOS and in numpy 2 everywhere. Numpy 1.x on Windows uses int32, whose bounds are ±2^31.
