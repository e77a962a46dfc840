# Interest calculator — a verified model

This project models the calculation core of a single-page interest calculator
(`InterestCalculator.jsx`). The page has three independent calculators:

- the **date-range calculator** takes an amount, a rate per year or per month,
  read per hundred or as a percentage, and two dates. It derives a day count
  from the dates, computes simple interest over a 365-day year, shows interest
  and total, and prepends a history entry, keeping the ten newest;
- **calculator 1** gives monthly interest per hundred: `P·R·T/100` added to the
  principal;
- **calculator 2** gives a one-time deduction per ten thousand: `P·R/10000`
  *subtracted* from the principal.

Each calculator also has a reset, and the history has a clear button.

The model has three modules:

- `InterestEngine` (`interest_engine.dfy`) holds the pure arithmetic over exact
  reals. It covers the day count `ceil(|to − from| / 86 400 000)`, the
  monthly-to-annual rate, the three formulas and their validation, and
  `toFixed(2)` rounding: the nearest whole cent, with a tie going away from zero.
- `History` (`history.dfy`) holds the history update `[entry, ...history.slice(0, 9)]`.
  Beside it is `Recent`, a reference definition: the ten most recent entries,
  newest first.
- `Calculator` (`calculator.dfy`) holds the class `InterestCalculator`. It has one
  field per `useState` slot and one method per handler. Each method's
  `modifies` clause names exactly the fields that the handler's setters write.
  So "nothing else changes" is part of every handler's contract. The object
  invariant `Valid()` says two things. When both dates are filled in, `days`
  equals their day count. And `history` is `Recent` of a ghost log of every
  entry recorded since the last clear.

An input field is an `Option`. `None` is the empty text `""`. `Some(x)` is text
that parses to x: a number, or a date as milliseconds. The source's guards
`!amount`, `!interestRate`, `!timeMonths` and so on reject only the empty
string. So a field holding `0` passes, and the model lets `Some(0.0)` through
too. The guard `!days` is on a number, and rejects a day count of 0.

Two behaviours of the code are kept as they are:

- The guards (InterestCalculator.jsx:42, 100, 122) only test that a field is
  not empty and that the day count is not zero. So the model accepts zero and
  negative amounts and rates, as the code does.
- `days` keeps its last value when a date is cleared. The effect only writes it
  when both dates are present. So `calculate` can still succeed after a date
  has been emptied, using the old day count. The model keeps this behaviour:
  `Valid()` ties `days` to the dates only while both are present.

The alert is modelled as the boolean `alerted` that each calculate handler
returns. When it is true, the handler has changed no state.

## Model

| member | source | states |
|---|---|---|
| InterestEngine.Abs | InterestCalculator.jsx:34 | `Math.abs`: the result is non-negative and is either the difference or its negation |
| InterestEngine.Ceil | InterestCalculator.jsx:35 | `Math.ceil`: the result c is the integer with c − 1 < x ≤ c |
| InterestEngine.DayCount | InterestCalculator.jsx:34-35 | the day count d satisfies (d − 1)·86 400 000 < \|to − from\| ≤ d·86 400 000, so it is the rounded-up number of whole days; it is 0 exactly when the two dates are equal |
| InterestEngine.DayCountIsCeiling | InterestCalculator.jsx:34-35 | the integer day count equals `ceil(\|to − from\| / 86400000)` taken over the reals |
| InterestEngine.DayCountSymmetric | InterestCalculator.jsx:34 | the day count does not depend on which date is "from" and which is "to" |
| InterestEngine.DayCountNextDay | InterestCalculator.jsx:34-35 | moving the later date one full day on adds exactly one to the day count |
| InterestEngine.Cents | InterestCalculator.jsx:66-67 | the result is within half a cent of 100·x, and a tie goes away from zero: the digits `toFixed(2)` prints |
| InterestEngine.Round2 | InterestCalculator.jsx:66-67 | `toFixed(2)` is within 0.005 of its argument and is a whole number of cents |
| InterestEngine.Round2Exact | InterestCalculator.jsx:66-67 | a value that already is a whole number of cents is unchanged by rounding |
| InterestEngine.Rounded | InterestCalculator.jsx:113-117 | a stored result keeps the principal as entered and holds interest and total each within 0.005 of the exact figures |
| InterestEngine.AnnualRate | InterestCalculator.jsx:53 | an annual rate is kept, a monthly rate becomes 12 times itself |
| InterestEngine.DateRangeInterest | InterestCalculator.jsx:56-62 | under either interest type the date-range interest is P·A·D/36500 for principal P, annual rate A and D days |
| InterestEngine.DateRange | InterestCalculator.jsx:41-64 | `calculate` succeeds exactly when amount and rate are filled in and the day count is non-zero; the result's principal is the amount, its interest is amount × annual rate × days / 36500, and total = principal + interest |
| InterestEngine.InterestTypesAgree | InterestCalculator.jsx:56-62 | the per-100 formula `P·A·D/(100·365)` and the percentage formula `P·(A/100)·D/365` give the same interest for every input |
| InterestEngine.MonthlyIsTwelveTimesAnnual | InterestCalculator.jsx:53 | with everything else equal, a monthly rate R gives exactly the result of an annual rate 12·R |
| InterestEngine.FullYearEarnsAnnualRate | InterestCalculator.jsx:56-64 | 365 days at an annual rate R earn P·R/100 under either interest type, and the total is P plus that |
| InterestEngine.DateRangeInterestAdditive | InterestCalculator.jsx:58-61 | simple interest is linear in the day count: interest(d1 + d2) = interest(d1) + interest(d2) |
| InterestEngine.DateRangeTotalAtLeastPrincipal | InterestCalculator.jsx:64 | with non-negative amount and rate and a positive day count, the total is never below the amount |
| InterestEngine.PerHundredInterest | InterestCalculator.jsx:110 | calculator 1's interest is T months of R per hundred of principal per month: T·(P/100)·R |
| InterestEngine.PerHundred | InterestCalculator.jsx:99-111 | calculator 1 succeeds exactly when principal, rate and months are all filled in; its principal is the entered one, its interest T·(P/100)·R, and total = principal + interest |
| InterestEngine.PerHundredYearMatchesDateRange | InterestCalculator.jsx:105-111 | calculator 1 over 12 months gives the same figures as the date-range calculator over 365 days at the same monthly rate per hundred |
| InterestEngine.PerHundredAdditive | InterestCalculator.jsx:110 | calculator 1's interest is linear in the number of months |
| InterestEngine.PerTenThousandInterest | InterestCalculator.jsx:131 | calculator 2's deduction is R for every ten thousand of principal: (P/10000)·R |
| InterestEngine.PerTenThousand | InterestCalculator.jsx:121-132 | calculator 2 succeeds exactly when principal and rate are filled in; its principal is the entered one, its deduction (P/10000)·R, and total = principal − deduction |
| InterestEngine.DeductionBelowPrincipal | InterestCalculator.jsx:131-132 | calculator 2's total is strictly below the principal if and only if principal·rate > 0 |
| InterestEngine.DateRangeExample | InterestCalculator.jsx:56-67 | 1000 at 5 per hundred per year over 365 days shows interest 50.00 and total 1050.00 |
| InterestEngine.PerHundredExample | InterestCalculator.jsx:105-117 | 1000 at 2 per hundred per month over 3 months shows interest 60.00 and total 1060.00 |
| InterestEngine.PerTenThousandExample | InterestCalculator.jsx:127-138 | 10000 at 500 per ten thousand shows a deduction of 500.00 and a total of 9500.00 |
| History.AddEntry | InterestCalculator.jsx:83 | after an addition the new entry is first, the length is min(old length, 9) + 1 ≤ 10, and the rest is the old history's first min(old length, 9) entries in order, so only the oldest is evicted |
| History.Recent | InterestCalculator.jsx:83 | the intended history of a log of calculations holds min(log length, 10) ≤ 10 entries, the newest calculation first |
| History.AddEntryKeepsRecent | InterestCalculator.jsx:70-83 | adding an entry to the ten newest of a log gives the ten newest of the log extended by that entry: the history always holds the most recent calculations, newest first |
| Calculator.InterestCalculator.constructor | InterestCalculator.jsx:5-25 | every field starts at its `useState` initial value, and the invariant holds |
| Calculator.InterestCalculator.UpdateDays | InterestCalculator.jsx:30-38 | when both dates are present `days` becomes their day count, otherwise it keeps its value; nothing else changes |
| Calculator.InterestCalculator.SetFromDate | InterestCalculator.jsx:30-38 | editing the first date and running the effect keeps the invariant and recomputes `days` only when both dates are present |
| Calculator.InterestCalculator.SetToDate | InterestCalculator.jsx:30-38 | editing the second date and running the effect keeps the invariant and recomputes `days` only when both dates are present |
| Calculator.InterestCalculator.Calculate | InterestCalculator.jsx:41-84 | the handler alerts exactly when the guard fails, and then interest, total and history are unchanged; otherwise it shows the rounded interest and total and prepends the new entry through `AddEntry`; the invariant is kept, and no input or other calculator field changes |
| Calculator.InterestCalculator.ResetForm | InterestCalculator.jsx:86-96 | the date-range fields return to `""`, `"per100"`, `"annual"` and 0; history and the other calculators are untouched |
| Calculator.InterestCalculator.CalculateInterestPerHundred | InterestCalculator.jsx:99-118 | the handler alerts and keeps the result exactly when a field is empty; otherwise the result is the principal with the rounded `P·R·T/100` and total; only that result changes |
| Calculator.InterestCalculator.CalculateInterestPerTenThousand | InterestCalculator.jsx:121-139 | the handler alerts and keeps the result exactly when a field is empty; otherwise the result is the principal with the rounded `P·R/10000` and `P − P·R/10000`; only that result changes |
| Calculator.InterestCalculator.ClearHistory | InterestCalculator.jsx:141-143 | the history (and its log) becomes empty; nothing else changes |
| Calculator.InterestCalculator.ResetCalculator1 | InterestCalculator.jsx:151-156 | calculator 1's three fields become `""` and its result `null`; nothing else changes |
| Calculator.InterestCalculator.ResetCalculator2 | InterestCalculator.jsx:159-163 | calculator 2's two fields become `""` and its result `null`; nothing else changes |

## Left out

- Rendering, tab switching (`activeTab`), CSS classes and `formatDate`'s `toLocaleDateString` are left out. They are presentation only.
- The setters bound to the number inputs and radio buttons (`setAmount`, `setInterestType` and the rest) are not methods. A caller writes those fields directly, since no invariant depends on them. The two date setters are modelled, because they trigger the day-count effect.
- The effect runs on every date edit in the model. React runs it only when a date actually changes. Under `Valid()` a repeated run is a no-op, so both orders give the same state.
- React's asynchronous state scheduling is left out. Each handler is one atomic transition.
- `alert` is browser I/O. It is the returned flag `alerted`.
- `Date.now()` is the clock. The entry id is a parameter of `Calculate`.
- `new Date(string)` is left out. Dates arrive already parsed, as integer milliseconds.
- IEEE-754 floating point is left out: `parseFloat`, the arithmetic, and the binary tie-breaking of `toFixed(2)` (for example `1.005.toFixed(2)` is "1.00"). The model computes over exact reals and rounds a real to the nearest cent. Text that is not a number (NaN) cannot come from the number inputs and is not modelled.
- `toFixed(2)` returns a string. The model stores the real number that the string denotes. The initial `interest` and `totalAmount` are the number 0; the model stores 0.0 for them as well.
