# Progressive bracket tax engine

A model of the tax calculator's bracket engine, `bracketCalculations`, and of
`calculateFederalTaxes` with its 2020 federal table. The engine walks a table
of `[bracketMinimum, bracketMaximum, taxRate]` rows from the highest bracket
down. It keeps the salary still to be taxed and the tax so far. A bracket
applies when it holds the remainder, both bounds included. An upper bracket
then taxes the remainder's dollars from its minimum up, which leaves exactly
one dollar below that minimum: the maximum of the next bracket down. The
lowest bracket, whose minimum is 0, taxes all that is left.

Modules:

- `Schedule` (schedule.dfy): the `Bracket` value, the `WellFormed` shape of a
  table, and what follows from it: minimums descend, and every amount from 0
  to the top maximum lies in exactly one bracket. It also reads literal rows
  of numbers into brackets (`ParseRows`).
- `Marginal` (marginal.dfy): two reference definitions of progressive tax.
  `MarginalSum` adds up each bracket's rate times the number of income
  dollars inside that bracket. `DollarTax` taxes each dollar at the rate of
  the bracket holding it. Neither walks the table the way the engine does.
- `Engine` (engine.dfy): `Step` is one call of the `reduce` callback and
  `FoldFrom`/`FoldUpTo` describe the whole pass. The method
  `BracketCalculations` is the loop with its two updated locals, and
  `ApplyBracket` is the callback. Lemmas show that the pass equals the
  marginal sum on a well-formed table, and that it is monotone and bounded.
- `Federal` (federal.dfy): the federal table as written, the corrected
  table, `CalculateFederalTaxes`, the worked values, and the two defects of
  the written top row.

Salaries are whole-dollar `int`s and rates are exact `real`s. The table and
the salary are explicit parameters.

## Departures from the code

- js/script.js:28-31 names the engine's second parameter `salaryRemaining`,
  then declares `let salaryRemaining = grossSalary`. `grossSalary` is not in
  scope there, and redeclaring a parameter with `let` is not valid
  JavaScript. js/script.js:99 passes `salaryRemaining`, which is not defined
  in `calculateFederalTaxes`. The evident intent is that the salary is passed
  in and becomes the starting remainder, so the model takes `grossSalary` as
  a parameter.
- The code taxes `salaryRemaining - (bracketMin - 1)` with both bounds
  inclusive (js/script.js:42, 59). For whole dollars this counts exactly the
  dollars inside the bracket (`Engine.EngineIsMarginalSum`).
- The code does not check for a negative salary. Such a salary falls in no
  bracket and is taxed 0 (`Engine.EngineNonPositive`).

## Model

| member | source | states |
|---|---|---|
| `Schedule.Descending` | js/script.js:89-97 | in a well-formed table, each lower bracket lies wholly below every bracket above it, so both minimums and maximums strictly descend |
| `Schedule.UpperMinsPositive` | js/script.js:48-50 | every bracket except the last starts at one dollar or more; only the lowest has minimum 0 |
| `Schedule.WellFormedIsNonNegative` | js/script.js:89-97 | a well-formed table has non-negative minimums and rates |
| `Schedule.BracketIndex` | js/script.js:42 | every amount from 0 to the top maximum lies in one bracket of a well-formed table, and in no other: an amount on a bracket edge is never counted twice |
| `Schedule.ParseRows` | js/script.js:37-39 | a literal table reads as brackets exactly when every row holds, in its first three positions, a whole-dollar minimum, a whole-dollar maximum and a rate; each bracket read writes back as the first three entries of its row |
| `Schedule.ParseToRows` | js/script.js:37-39 | writing a table out as rows and reading it back gives the same table |
| `Marginal.MarginalIsDollarTax` | js/script.js:52-64 | the per-bracket marginal sum equals the per-dollar sum (each dollar at the rate of the bracket holding it), for every income |
| `Marginal.MarginalIncrement` | js/script.js:52-64 | adding dollar x to the income adds exactly the rate of the bracket that holds x |
| `Marginal.DollarTaxBounds` | js/script.js:28-80 | per-dollar tax is non-negative and, with rates at most 1, never more than the income |
| `Marginal.DollarTaxMonotone` | js/script.js:28-80 | per-dollar tax never decreases as income grows |
| `Marginal.MarginalSumMonotone` | js/script.js:28-80 | the marginal sum is non-negative, monotone in income, and at most the income |
| `Engine.ApplyBracket` | js/script.js:34-76 | the callback's new tax and remainder are one `Step`; with a non-negative minimum and rate the tax never decreases |
| `Engine.BracketCalculations` | js/script.js:28-80 | the loop computes the pass `TotalTaxes`; the result is non-negative for non-negative tables; on a well-formed table with the salary at most the top maximum, it is the marginal sum |
| `Engine.StepOutside` | js/script.js:42-74 | a bracket that does not hold the remainder adds no tax and leaves the remainder unchanged |
| `Engine.StepUpper` | js/script.js:50-70 | after a matching upper bracket the remainder is exactly `min - 1`, the next bracket's maximum, so the next bracket holds it; the tax grows by `(remainder - min + 1) * rate` |
| `Engine.StepLowest` | js/script.js:61-70 | a matching lowest bracket taxes the whole remainder at its rate and leaves 0 |
| `Engine.StepNeverDecreases` | js/script.js:67-69 | with a non-negative minimum and rate a step never lowers the accumulated tax |
| `Engine.FoldSplit` | js/script.js:33-77 | running the first i brackets and then the rest is the whole pass |
| `Engine.MatchesInOrder` | js/script.js:42-70 | brackets above the one holding the salary leave the state untouched; from that bracket down every bracket matches in turn, each lower one receiving exactly its own maximum |
| `Engine.FoldIsMarginal` | js/script.js:42-70 | from bracket i down, the tax added is the marginal sum over those brackets and a non-negative remainder ends at 0 |
| `Engine.EngineIsMarginalSum` | js/script.js:28-80 | on a well-formed table, for every whole-dollar salary up to the top maximum, the engine's result equals the marginal sum and the per-dollar sum |
| `Engine.EngineMonotone` | js/script.js:28-80 | under the same conditions the engine's tax is non-negative, monotone in the salary, and at most the salary |
| `Engine.EngineNonPositive` | js/script.js:42-64 | a zero or negative salary is taxed 0 on a well-formed table |
| `Engine.EngineAboveTop` | js/script.js:42 | a salary above the top maximum falls in no bracket and is taxed 0 |
| `Federal.FederalScheduleWellFormed` | js/script.js:89-97 | the corrected federal table is well formed and its top maximum is `Number.MAX_SAFE_INTEGER` |
| `Federal.FederalMatchesWrittenRows` | js/script.js:91-96 | below the top bracket, the corrected table is exactly the written rows |
| `Federal.CalculateFederalTaxes` | js/script.js:85-103 | federal tax is the engine on the federal table; it is non-negative, equals the marginal sum up to the sentinel, and is never more than the salary |
| `Federal.FederalWorkedValues` | js/script.js:95-96 | salary 0 is taxed 0, the lowest bracket holds it and no other does; 9,875 is taxed 987.50; 40,125 is taxed 4,617.50 |
| `Federal.FederalMonotone` | js/script.js:85-103 | federal tax is non-negative and monotone in the salary up to the sentinel |
| `Federal.AsWrittenTopRowHasNoRate` | js/script.js:90 | the written top row has two entries, so the written table does not read as brackets; yet its bounds hold every salary from 518,400 to the sentinel |
| `Federal.AsWrittenTaxAt518400` | js/script.js:90-91 | with 0.37 supplied, the written bounds tax a salary of 518,400 two cents more than the corrected table |
| `Federal.AsWrittenOverlap` | js/script.js:90-91 | with 0.37 supplied, the written rows read back as the written bounds; the dollar 518,400 lies in two brackets, the table is not well formed, and 518,400 is taxed 0.02 more than the marginal sum |

## Findings

| source | as written | input that shows it | evidently intended | confidence | as-written member | corrected member |
|---|---|---|---|---|---|---|
| js/script.js:90 | the top row `[518400, Number.MAX_SAFE_INTEGER]` has no rate | any salary from 518,400 up to `Number.MAX_SAFE_INTEGER`: the top bracket matches and the engine multiplies by a rate that is not there | a 37% rate, the 2020 top federal rate | not executed | `Federal.AsWrittenTopRowHasNoRate` | `Federal.FederalScheduleWellFormed` |
| js/script.js:90-91 | the top minimum 518400 equals the maximum of the 35% bracket | salary 518,400: the top bracket takes one dollar at its own rate, and then the 35% bracket also holds the remainder 518,399; with 0.37 supplied, the result is 0.02 above the marginal sum | top minimum 518401, one dollar above the 35% maximum | not executed | `Federal.AsWrittenOverlap` | `Federal.FederalScheduleWellFormed` |

The rest of the model uses the corrected table `Federal.FederalSchedule`.

## Left out

- The page wiring (js/script.js:1-22): DOM lookups, the click listener,
  clearing the input and `console.log`. This is I/O.
- Reading the salary from the text field (js/script.js:7). The value is a
  string and is never converted. The model takes a whole-dollar integer.
- The medicare, social-security, total and net-pay variables
  (js/script.js:12-15). They are declared but never computed, so there is no
  behaviour to model.
- `calculateStateTaxes` (js/script.js:108-117). Its table is ascending
  rather than descending, its last row has a stray fourth entry, and it never
  calls the engine or returns a value.
- Rounding and currency formatting. The code has none.
- Floating point. Arithmetic is exact, there is no NaN, and nothing models
  the loss of precision of doubles above `Number.MAX_SAFE_INTEGER`.
- Fractional salaries. The `- 1` slice at js/script.js:59 assumes whole
  dollars: a salary such as 9875.5 falls into no bracket of the federal
  table. The model's salaries are integers.
- The bracket array. The source passes a JavaScript array that the engine
  only reads. The model passes it as an immutable sequence.
- `Schedule.ParseRows`: refuses a row whose minimum or maximum is not a whole
  number, such as the bounds 11969.99 at js/script.js:111. Bracket bounds are
  whole dollars in this model, and fractional bounds belong only to the state
  table, which is left out above.
