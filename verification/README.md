# Loan amortization engine, modelled in Dafny

This project models the amortization engine of a loan calculator. The engine takes a loan's parameters and produces two things:

- a period-by-period ledger with payment, interest, principal, extra principal, escrow, total outflow and remaining balance;
- a summary record with the level payment, the periodic rate, the number of periods, five running totals and the fee split.

The model covers these parts of the engine:

- the level-payment formula `pmt`;
- the interest-only window conversion;
- the payment-date step;
- the loop of `build_schedule`, with its interest-only override, the floor on scheduled principal, the extra-payment clamp, the overshoot clamp at payoff, the payoff tolerance and the safety cap;
- the summary record.

Arithmetic is over exact `real` numbers.

Modules:

- `Annuity`:
  - `Pmt`, the level payment, with `(1+rate)^(-nper)` written as `1 / Pow(1+rate, nper)`;
  - `Remaining`, an independent reference definition of a level payment: the balance left after `k` periods of "accrue interest, then pay";
  - the facts that tie the two together.
- `Periods`:
  - `RoundHalfEven`, the host language's `round` (nearest integer, ties to even), on integer numerator and denominator;
  - `IoPeriods`, the interest-only window in payment periods.
- `Dates`:
  - dates are ordinal day numbers;
  - weekly and biweekly schedules add 7 or 14 days;
  - every other frequency steps one calendar month through a caller-supplied `addMonth`.
- `Schedule`:
  - `Loan`, `Terms` (the loop's constants), `State` (balance, period index, date and five running totals), `Row` and `Meta`;
  - `PeriodRow`, one iteration as a function, and `PayPeriod`, the same iteration with the source's in-place clamps;
  - `Run`, the loop as a recursive function;
  - `RunLoop`, the loop as a `while` with invariants;
  - `BuildSchedule`, which derives the loop's constants, runs the loop and builds the summary.

The periodic rate is an input (`rate >= 0`). The calling form guarantees these bounds, and they become the preconditions of `ValidLoan`:

- `years >= 1`;
- `payPerYear >= 1`;
- `extraPayment >= 0`.

`Ledger` states what every emitted row satisfies against its opening balance, and `Chained` states that rows link balance to balance. `Total` sums one column of the ledger.

## Model

| member | source | states |
|---|---|---|
| Annuity.Pmt | app.py:85-89 | A zero rate splits `pv` evenly, so payment × nper = pv. For `pv >= 0` the payment is non-negative and at least the first period's interest `rate*pv`, and it is strictly more when `pv > 0`. It is positive when rate and pv are positive. |
| Annuity.AnnuityFactor | app.py:89 | The divisor `1 - (1+rate)^(-nper)` lies strictly between 0 and 1. Multiplied by `(1+rate)^nper` it gives `(1+rate)^nper - 1`. |
| Annuity.RemainingClosedForm | app.py:85-89 | After `k` periods of the accrue-then-pay recurrence, `rate*balance = rate*pv*(1+rate)^k - payment*((1+rate)^k - 1)`. |
| Annuity.RemainingZeroRate | app.py:87-88 | At zero rate, the balance after `k` payments is `pv - k*payment`. |
| Annuity.PmtAmortizes | app.py:85-89 | Paying `Pmt(rate, nper, pv)` for `nper` periods of the reference recurrence leaves exactly 0, for every rate >= 0 and every pv. |
| Annuity.LastPayment | app.py:85-89 | The balance owed before the last level payment, grown by one period's interest, equals that payment. |
| Annuity.RemainingFalls | app.py:140-157 | When the payment exceeds the first period's interest, it exceeds every later period's interest, and the balance falls strictly every period. |
| Annuity.RemainingAntitone | app.py:140-157 | Under the same hypothesis, later balances are never above earlier ones. |
| Annuity.LevelPaymentTrack | app.py:85-89 | For pv > 0: the level payment exceeds the first period's interest, and it retires the loan in `nper` periods. The balance before the last payment exceeds `floor` whenever the payment exceeds `floor` grown by one period. |
| Annuity.TrackStep | app.py:140-157 | Every period before the last of a retiring level payment starts above the floor. Its payment covers the interest, and its next balance is non-negative and follows the recurrence. |
| Annuity.TrackAll | app.py:140-157 | The same, for all periods `k < n` at once. |
| Annuity.PmtStrictlyIncreasing | app.py:85-89 | A larger present value needs a strictly larger level payment, at every rate >= 0. |
| Periods.RoundHalfEven | app.py:112 | The result is a nearest integer to a/b. When a/b lies exactly halfway it is the even neighbour. |
| Periods.RoundHalfEvenUnique | app.py:112 | An integer has that property if and only if it is the result of `RoundHalfEven`. |
| Periods.IoPeriods | app.py:112 | The interest-only window is `ioMonths*payPerYear/12` rounded to nearest, ties to even. |
| Periods.IoPeriodsMonthly | app.py:112 | With 12 payments a year, the window in periods equals the number of months. |
| Periods.IoPeriodsBiweeklyTies | app.py:112 | Biweekly ties round to even: 3 months gives 6 periods (not 7), 9 months gives 20, and a year gives 26 biweekly or 52 weekly periods. |
| Dates.Advance | app.py:120-128 | Biweekly adds 14 days and weekly adds 7. Every other frequency, 12 included, takes one calendar-month step. |
| Dates.DateAt | app.py:117-186 | The date of payment `k`: the start date for the first payment, and `k` calendar-month steps after it on any schedule that is neither weekly nor biweekly. |
| Dates.FixedIntervalDates | app.py:123-126 | Weekly and biweekly payment `k` falls exactly 7k or 14k days after the first, with no drift. |
| Schedule.FeeTreatment | app.py:199-200 | Rolled and upfront fees add up to the fees. The field `roll_fees` does not select is zero, so the selected one equals the fees. |
| Schedule.PresentValue | app.py:105 | The amount financed is the principal plus the rolled fees. That is principal + fees when rolled and the bare principal otherwise. |
| Schedule.RolledFeesRaisePayment | app.py:105-109 | Rolling positive fees into the loan gives a strictly larger level payment than the bare principal's. Paying them upfront leaves the payment unchanged. |
| Schedule.EscrowPerPeriod | app.py:130 | Escrow per period × payments per year = 12 × monthly escrow, including the zero case. |
| Schedule.TermsOf | app.py:105-130 | The loop's constants are the financed amount, the rate, nper = years × frequency, the level payment, the interest-only window and the escrow per period. The level payment covers the first period's interest. |
| Schedule.Start | app.py:115-137 | Before the first period the balance is the amount financed, the index is 0, the date is the first payment date, and every running total equals its column's sum over an empty ledger. |
| Schedule.ScheduledPayment | app.py:141-146 | The scheduled payment is the interest inside the interest-only window and the level payment after it. What it leaves after the scheduled principal is the interest, or the whole level payment when that does not cover the interest. |
| Schedule.ScheduledPrincipal | app.py:141-148 | The scheduled principal is 0 inside the interest-only window. After it, it is the level payment minus the interest, floored at 0: never negative, at least that difference, and either 0 or exactly that difference. |
| Schedule.PeriodRow | app.py:140-175 | Interest is balance × rate, and the new balance is the old balance minus the principal, within [0, old balance]. Extra lies in [0, extra_payment] and is paid in full unless that would overpay. When it would, and the scheduled principal alone does not exceed the balance, the extra is cut to balance − scheduled principal and the row pays the loan off to exactly 0. The overshoot clamp fires only when the scheduled principal alone exceeds the balance, and then it zeroes the balance and the extra. Payment − principal equals scheduled payment − scheduled principal, which is the interest, or the level payment when the floor fired. In the interest-only window all principal is extra. |
| Schedule.Accumulate | app.py:179-187 | After a row the state's balance is the row's balance, the index is one more, the date is advanced one period, and each running total grows by exactly that row's amount in its column. |
| Schedule.Step | app.py:140-187 | One iteration emits the row numbered index + 1 on the current date. The new balance is that row's balance, within [0, old balance], and the principal total grows by exactly the balance repaid. Each other running total grows by the row's amount. |
| Schedule.PayPeriod | app.py:140-175 | The iteration with its in-place branches and clamps computes exactly the row `PeriodRow` describes. |
| Schedule.Summary | app.py:190-201 | The summary reports the final index as n_periods, the level payment, the rate, and each running total unchanged. Its rolled and upfront fees add up to the fees: the one `roll_fees` does not select is zero and the other equals the fees. The amount financed is the principal plus the rolled fees. |
| Schedule.Run | app.py:139-187 | The loop emits one row per period index. It never passes the safety cap `nper + 6000`. It stops only on payoff (balance ≤ 1e-6) or at the cap. The final balance lies between 0 and the starting balance, and the principal total equals the balance repaid. |
| Schedule.Telescope | app.py:179-185 | For rows chained balance to balance, the principal column totals `pv - final balance`. |
| Schedule.LedgerChained | app.py:157-185 | Every well-formed ledger is chained: each row's balance is its opening balance minus its principal. |
| Schedule.StepRowInvariant | app.py:140-175 | When the level payment covers the first period's interest, a row emitted from a balance in (1e-6, pv] satisfies the row invariant. Its payment is exactly interest + principal, because the floor never fires. |
| Schedule.ExtendLedger | app.py:166-187 | Emitting the next row keeps the ledger well formed. |
| Schedule.ConstantColumnTotal | app.py:182 | A column that is constant across rows totals to row count × that amount. |
| Schedule.ProgressStep | app.py:139-187 | One iteration preserves the loop invariant. Rows and state stay a prefix of `Run`, the ledger stays well formed, and the totals stay equal to the column sums. |
| Schedule.ProgressDone | app.py:139 | When the loop guard fails, the rows emitted so far are the whole run. |
| Schedule.RunLoop | app.py:115-187 | The `while` loop produces exactly `Run`'s rows and final state. It has at most nper + 6000 rows and stops on payoff or at the cap. When pv ≤ 1e-6 there are no rows and all totals are 0. Every row is well formed, every total is its column's sum, total principal = pv − final balance, and total payment = total interest + total principal. |
| Schedule.BuildSchedule | app.py:91-202 | The ledger and summary are those of `Run` on the loan's constants. n_periods equals the number of rows, which is at most years × frequency + 6000. The run ends by payoff or at the cap. A balance ≤ 1e-6 gives no rows and zero totals. The summary records the rate, the level payment and the fee split. The rows are chained and well formed. The totals are the column sums, total principal = pv − final balance, and total payment = total interest + total principal. |
| Schedule.LedgerEscrow | app.py:179-185 | The escrow total of a well-formed ledger is n_periods × escrow per period. |
| Schedule.LevelPeriod | app.py:145-161 | At the level payment with no extra, when the payment covers the interest and does not exceed balance plus interest, neither clamp fires. The new balance is then balance × (1+rate) − payment. |
| Schedule.LevelStep | app.py:139-187 | One such period moves the state onto the next balance of the recurrence, and the rest of the run is the run from there. |
| Schedule.RunFullTerm | app.py:139-187 | A run whose balances follow a recurrence reaching 0 at period nper stops exactly at nper, with nothing owed. |
| Schedule.TermsFullTerm | app.py:107-187 | At the level payment with no extra and no interest-only window, the run takes exactly nper periods and ends at balance 0. This holds for pv > 0 and a payment above (1+rate) × 1e-6. |
| Schedule.FullTerm | app.py:91-202 | The same for a loan with extra_payment = 0 and io_months = 0: exactly years × pay_per_year rows, ending at balance 0. |

## Left out

- Converting the APR to a periodic rate (`periodic_rate_from_apr`, app.py:79-83) is left out. It raises to fractional powers, which exact reals cannot express, so the periodic rate is an input of the loan.
- The inflation-adjusted payment column (app.py:163-164, 176) is left out for the same reason.
- Rounding each row field to 8 decimals for display (app.py:169-175) is left out. The model keeps the unrounded values, which are also what the totals accumulate.
- Floating point is not modelled. All amounts are exact reals, and the 1e-6 payoff tolerance is the exact rational 1/1000000.
- The monthly step (`relativedelta(months=+1)`, app.py:122, 128) is a date library's month arithmetic with month-end clamping. It is the caller-supplied `addMonth`.
- The calling form, charts, yearly roll-up, counterfactual run without extra payments, and CSV/Markdown export (app.py:1-74, 204 onwards) are presentation around the engine.
- The table structure of the result (`pd.DataFrame(rows)`, app.py:189) is left out. The rows are a sequence of `Row` records.
- Schedule.BuildSchedule: its contract gives the escrow total as the column sum. The product form `n_periods × escrow_per_period` is stated by `Schedule.LedgerEscrow` on the ledger `BuildSchedule` returns.
- Schedule.TermsFullTerm and Schedule.FullTerm: the full term is proved only when the last level payment exceeds `(1+rate) × 1e-6`. Below that, the balance owed before the last payment is at most the tolerance, and the loop stops at the first balance ≤ 1e-6, at least one period early (no rows at all when pv ≤ 1e-6).
- Total principal equals the present value on payoff only up to the tolerance. The loop stops on any balance ≤ 1e-6, so the model states what the code computes: total principal = pv − final balance, where the final balance can be positive but no more than 1e-6.
