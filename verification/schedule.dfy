/** The amortization engine: from a loan's parameters, the period-by-period
    ledger of payment, interest, principal, extra principal, escrow and balance,
    plus the summary totals.

    The engine is a single-pass state machine. `Step` is one iteration over a
    `State` record (balance, period index, date, five running totals); `Run` is
    the loop as a recursive function; `RunLoop` is the loop as a `while`, with
    invariants tying it to `Step` and `Run`; `BuildSchedule` derives the loop's
    constants from the loan, runs it and summarizes.
 */
module Schedule {
  import opened Annuity
  import opened Periods
  import opened Dates

  /** Balances at or below this are treated as paid off. */
  const Tolerance: real := 0.000001

  /** Periods allowed beyond the contractual term before the loop gives up. */
  const SafetyMargin: nat := 6000

  /** The inputs of one schedule. `rate` is the periodic (per-payment) rate. */
  datatype Loan = Loan(
    principal: real,
    rate: real,
    years: int,
    payPerYear: int,
    startDate: Date,
    extraPayment: real,
    ioMonths: int,
    escrowMonthly: real,
    rollFees: bool,
    fees: real)

  /** What the input form guarantees and the formulas need: a non-negative rate,
      at least one period, and a non-negative extra payment. */
  predicate ValidLoan(l: Loan)
  {
    l.rate >= 0.0 && l.years >= 1 && l.payPerYear >= 1 && l.extraPayment >= 0.0
  }

  /** How the one-time fees are accounted: added to the loan or paid upfront. */
  datatype Fees = Fees(rolled: real, upfront: real)

  function FeeTreatment(l: Loan): (f: Fees)
    ensures f.rolled + f.upfront == l.fees
    ensures l.rollFees ==> f.upfront == 0.0
    ensures !l.rollFees ==> f.rolled == 0.0
  {
    Fees(if l.rollFees then l.fees else 0.0, if !l.rollFees then l.fees else 0.0)
  }

  /** The amount financed: the principal plus the fees when they are rolled in. */
  function PresentValue(l: Loan): (pv: real)
    ensures pv == l.principal + FeeTreatment(l).rolled
    ensures l.rollFees ==> pv == l.principal + l.fees
    ensures !l.rollFees ==> pv == l.principal
  {
    l.principal + (if l.rollFees then l.fees else 0.0)
  }

  /** Rolling a positive fee into the loan raises the level payment; paying it
      upfront leaves the payment that of the bare principal. */
  lemma RolledFeesRaisePayment(l: Loan)
    requires ValidLoan(l)
    ensures l.rollFees && l.fees > 0.0 ==>
              Pmt(l.rate, l.years * l.payPerYear, PresentValue(l)) > Pmt(l.rate, l.years * l.payPerYear, l.principal)
    ensures !l.rollFees ==>
              Pmt(l.rate, l.years * l.payPerYear, PresentValue(l)) == Pmt(l.rate, l.years * l.payPerYear, l.principal)
  {
    if l.rollFees && l.fees > 0.0 {
      PmtStrictlyIncreasing(l.rate, l.years * l.payPerYear, l.principal, PresentValue(l));
    }
  }

  /** Escrow charged per payment period for a monthly escrow amount. */
  function EscrowPerPeriod(escrowMonthly: real, payPerYear: int): (perPeriod: real)
    requires payPerYear >= 1
    ensures perPeriod * payPerYear as real == 12.0 * escrowMonthly
  {
    if escrowMonthly != 0.0 then escrowMonthly * (12.0 / payPerYear as real) else 0.0
  }

  /** The constants the loop works with, derived once from the loan. */
  datatype Terms = Terms(
    pv: real,
    nper: int,
    rate: real,
    basePayment: real,
    ioPeriods: int,
    extraPayment: real,
    escrowPerPeriod: real,
    payPerYear: int,
    addMonth: Date -> Date)

  predicate ValidTerms(t: Terms)
  {
    t.rate >= 0.0 && t.nper >= 1 && t.extraPayment >= 0.0
  }

  /** The level payment is at least the interest on the amount financed. */
  predicate CoversInterest(t: Terms)
  {
    t.pv >= 0.0 ==> t.basePayment >= t.rate * t.pv
  }

  /** The number of iterations after which the loop stops whatever the balance. */
  function Cap(t: Terms): int
  {
    t.nper + SafetyMargin
  }

  function TermsOf(l: Loan, addMonth: Date -> Date): (t: Terms)
    requires ValidLoan(l)
    ensures ValidTerms(t)
    ensures t.pv == PresentValue(l) && t.rate == l.rate && t.extraPayment == l.extraPayment
    ensures t.nper == l.years * l.payPerYear && t.payPerYear == l.payPerYear && t.addMonth == addMonth
    ensures t.basePayment == Pmt(l.rate, t.nper, t.pv)
    ensures CoversInterest(t)
    ensures t.ioPeriods == IoPeriods(l.ioMonths, l.payPerYear)
    ensures t.escrowPerPeriod == EscrowPerPeriod(l.escrowMonthly, l.payPerYear)
  {
    var nper := l.years * l.payPerYear;
    var pv := PresentValue(l);
    Terms(pv, nper, l.rate, Pmt(l.rate, nper, pv), IoPeriods(l.ioMonths, l.payPerYear),
          l.extraPayment, EscrowPerPeriod(l.escrowMonthly, l.payPerYear), l.payPerYear, addMonth)
  }

  /** The loop state: balance, period index, date of the next payment, running totals. */
  datatype State = State(
    bal: real,
    i: nat,
    date: Date,
    totalInterest: real,
    totalPrincipal: real,
    totalPayment: real,
    totalEscrow: real,
    totalExtra: real)

  /** The state before the first period: the whole amount financed owed, on
      the first payment date, with every running total that of an empty ledger. */
  function Start(t: Terms, startDate: Date): (s: State)
    ensures s.bal == Closing(t.pv, []) && s.i == 0
    ensures s.date == DateAt(startDate, t.payPerYear, t.addMonth, 0)
    ensures forall c :: Running(s, c) == Total([], c)
  {
    State(t.pv, 0, startDate, 0.0, 0.0, 0.0, 0.0, 0.0)
  }

  /** One line of the ledger. `principal` includes the extra principal;
      `outflow` is payment plus escrow. */
  datatype Row = Row(
    period: int,
    date: Date,
    payment: real,
    interest: real,
    principal: real,
    extra: real,
    escrow: real,
    outflow: real,
    balance: real)

  function Max(a: real, b: real): real { if a >= b then a else b }

  function Min(a: real, b: real): real { if a <= b then a else b }

  /** Payment due before any extra: the interest alone inside the interest-only
      window, the level payment after it. */
  function ScheduledPayment(t: Terms, bal: real, i: int): (sp: real)
    ensures i < t.ioPeriods ==> sp == bal * t.rate
    ensures i >= t.ioPeriods ==> sp == t.basePayment
    // what is left after the scheduled principal: the interest, or the whole
    // level payment when it does not cover the interest
    ensures sp - ScheduledPrincipal(t, bal, i)
            == (if i < t.ioPeriods then bal * t.rate else Min(bal * t.rate, t.basePayment))
  {
    if i < t.ioPeriods then bal * t.rate else t.basePayment
  }

  /** Principal repaid by the scheduled payment, floored at zero. */
  function ScheduledPrincipal(t: Terms, bal: real, i: int): (sp: real)
    ensures sp >= 0.0
    ensures i >= t.ioPeriods ==> sp >= t.basePayment - bal * t.rate
    ensures i < t.ioPeriods ==> sp == 0.0
    ensures sp == 0.0 || sp == t.basePayment - bal * t.rate
  {
    if i < t.ioPeriods then 0.0
    else if t.basePayment - bal * t.rate < 0.0 then 0.0
    else t.basePayment - bal * t.rate
  }

  /** The state after emitting `row`: its balance carried forward, the period
      index and date advanced, its amounts added to the running totals. */
  function Accumulate(t: Terms, s: State, row: Row): (next: State)
    ensures next.bal == row.balance && next.i == s.i + 1
    ensures next.date == Advance(s.date, t.payPerYear, t.addMonth)
    ensures forall c :: Running(next, c) == Running(s, c) + Amount(row, c)
  {
    State(row.balance, s.i + 1, Advance(s.date, t.payPerYear, t.addMonth),
          s.totalInterest + row.interest,
          s.totalPrincipal + row.principal,
          s.totalPayment + row.payment,
          s.totalEscrow + row.escrow,
          s.totalExtra + row.extra)
  }

  /** The row emitted for period index `i` when the balance is `bal`. */
  function PeriodRow(t: Terms, bal: real, i: nat, date: Date): (row: Row)
    requires ValidTerms(t) && bal >= 0.0
    // the row's own arithmetic
    ensures row.period == i + 1 && row.date == date
    ensures row.interest == bal * t.rate
    ensures row.balance == bal - row.principal
    ensures 0.0 <= row.balance <= bal
    ensures row.escrow == t.escrowPerPeriod && row.outflow == row.payment + row.escrow
    // the extra payment is applied in full unless that would overpay
    ensures 0.0 <= row.extra <= t.extraPayment
    ensures ScheduledPrincipal(t, bal, i) + t.extraPayment <= bal ==> row.extra == t.extraPayment
    // otherwise the extra is cut to what is left, and the row pays the loan off
    ensures ScheduledPrincipal(t, bal, i) <= bal < ScheduledPrincipal(t, bal, i) + t.extraPayment ==>
              row.extra == bal - ScheduledPrincipal(t, bal, i) && row.balance == 0.0
    // the overshoot clamp is needed only when the scheduled principal alone exceeds the balance
    ensures ScheduledPrincipal(t, bal, i) <= bal ==> row.principal == ScheduledPrincipal(t, bal, i) + row.extra
    ensures ScheduledPrincipal(t, bal, i) > bal ==> row.principal == bal && row.balance == 0.0 && row.extra == 0.0
    // the clamp keeps payment minus principal: the interest, unless the floor fired
    ensures row.payment - row.principal == ScheduledPayment(t, bal, i) - ScheduledPrincipal(t, bal, i)
    ensures row.payment - row.principal
            == (if i < t.ioPeriods then row.interest else Min(row.interest, t.basePayment))
    // inside the interest-only window all principal is extra
    ensures i < t.ioPeriods ==> row.principal == row.extra
  {
    var interest := bal * t.rate;
    var scheduledPayment := ScheduledPayment(t, bal, i);
    var scheduledPrincipal := ScheduledPrincipal(t, bal, i);
    var extra :=
      if scheduledPrincipal + t.extraPayment > bal then Max(0.0, bal - scheduledPrincipal)
      else t.extraPayment;
    var principal := scheduledPrincipal + extra;
    var payment := scheduledPayment + extra;
    var newBal := bal - principal;
    var overshoot := if newBal < 0.0 then newBal else 0.0;
    Row(i + 1, date, payment + overshoot, interest, principal + overshoot, extra,
        t.escrowPerPeriod, payment + overshoot + t.escrowPerPeriod, newBal - overshoot)
  }

  /** One iteration of the loop: the row it emits and the state after it. */
  function Step(t: Terms, s: State): (out: (Row, State))
    requires ValidTerms(t) && s.bal >= 0.0
    ensures out.0.period == out.1.i == s.i + 1 && out.0.date == s.date
    ensures out.1.bal == out.0.balance && 0.0 <= out.1.bal <= s.bal
    ensures out.1.date == Advance(s.date, t.payPerYear, t.addMonth)
    ensures forall c :: Running(out.1, c) == Running(s, c) + Amount(out.0, c)
    ensures out.1.totalPrincipal - s.totalPrincipal == s.bal - out.1.bal
  {
    var row := PeriodRow(t, s.bal, s.i, s.date);
    (row, Accumulate(t, s, row))
  }

  /** One period computed as the calculator writes it, with in-place clamps. */
  method PayPeriod(t: Terms, bal: real, i: nat, date: Date) returns (row: Row)
    requires ValidTerms(t) && bal >= 0.0
    ensures row == PeriodRow(t, bal, i, date)
  {
    var interest := bal * t.rate;
    var scheduledPayment, scheduledPrincipal;
    if i < t.ioPeriods {
      scheduledPrincipal := 0.0;
      scheduledPayment := interest;
    } else {
      scheduledPayment := t.basePayment;
      scheduledPrincipal := scheduledPayment - interest;
      if scheduledPrincipal < 0.0 {
        scheduledPrincipal := 0.0;
      }
    }

    var extra := t.extraPayment;
    if scheduledPrincipal + extra > bal {
      extra := Max(0.0, bal - scheduledPrincipal);
    }

    var principal := scheduledPrincipal + extra;
    var payment := scheduledPayment + extra;

    var newBal := bal - principal;
    if newBal < 0.0 {
      payment := payment + newBal;
      principal := principal + newBal;
      newBal := 0.0;
    }

    row := Row(i + 1, date, payment, interest, principal, extra,
               t.escrowPerPeriod, payment + t.escrowPerPeriod, newBal);
  }

  /** The whole loop: iterate `Step` while the balance exceeds the tolerance and
      the safety cap is not reached; return the rows and the final state. */
  function Run(t: Terms, s: State): (out: (seq<Row>, State))
    requires ValidTerms(t)
    ensures |out.0| == out.1.i - s.i
    ensures s.i <= Cap(t) ==> out.1.i <= Cap(t)
    ensures out.1.bal <= Tolerance || out.1.i >= Cap(t)
    ensures s.bal >= 0.0 ==> 0.0 <= out.1.bal <= s.bal
    ensures out.1.totalPrincipal - s.totalPrincipal == s.bal - out.1.bal
    decreases Cap(t) - s.i
  {
    if s.bal > Tolerance && s.i < Cap(t) then
      var next := Step(t, s);
      var rest := Run(t, next.1);
      ([next.0] + rest.0, rest.1)
    else
      ([], s)
  }

  /** The summary record of a finished run. */
  datatype Meta = Meta(
    basePayment: real,
    periodicRate: real,
    nPeriods: nat,
    totalInterest: real,
    totalPrincipal: real,
    totalPayment: real,
    totalEscrow: real,
    totalExtra: real,
    rolledFees: real,
    feesPaidUpfront: real)

  function Summary(l: Loan, t: Terms, final: State): (m: Meta)
    ensures m.nPeriods == final.i && m.basePayment == t.basePayment && m.periodicRate == t.rate
    ensures forall c :: MetaTotal(m, c) == Running(final, c)
    ensures m.rolledFees + m.feesPaidUpfront == l.fees
    ensures PresentValue(l) == l.principal + m.rolledFees
    ensures if l.rollFees then m.feesPaidUpfront == 0.0 else m.rolledFees == 0.0
  {
    Meta(t.basePayment, t.rate, final.i, final.totalInterest, final.totalPrincipal,
         final.totalPayment, final.totalEscrow, final.totalExtra,
         FeeTreatment(l).rolled, FeeTreatment(l).upfront)
  }

  /** The ledger columns that are summed into totals. */
  datatype Column = Interest | Principal | Payment | Extra | Escrow

  function Amount(r: Row, c: Column): real
  {
    match c
    case Interest => r.interest
    case Principal => r.principal
    case Payment => r.payment
    case Extra => r.extra
    case Escrow => r.escrow
  }

  /** The running total a state keeps for one column. */
  function Running(s: State, c: Column): real
  {
    match c
    case Interest => s.totalInterest
    case Principal => s.totalPrincipal
    case Payment => s.totalPayment
    case Extra => s.totalExtra
    case Escrow => s.totalEscrow
  }

  /** The total a summary reports for one column. */
  function MetaTotal(m: Meta, c: Column): real
  {
    match c
    case Interest => m.totalInterest
    case Principal => m.totalPrincipal
    case Payment => m.totalPayment
    case Extra => m.totalExtra
    case Escrow => m.totalEscrow
  }

  /** The sum of one column over the rows. */
  function Total(rows: seq<Row>, c: Column): real
  {
    if |rows| == 0 then 0.0 else Total(rows[..|rows| - 1], c) + Amount(rows[|rows| - 1], c)
  }

  /** The balance before row `k`: the amount financed for the first row,
      the previous row's balance after that. */
  function Opening(pv: real, rows: seq<Row>, k: nat): real
    requires k < |rows|
  {
    if k == 0 then pv else rows[k - 1].balance
  }

  /** The balance after the last row (the amount financed when there are no rows). */
  function Closing(pv: real, rows: seq<Row>): real
  {
    if |rows| == 0 then pv else rows[|rows| - 1].balance
  }

  /** Each row reduces the balance by exactly its principal. */
  predicate Chained(pv: real, rows: seq<Row>)
  {
    forall k {:trigger Opening(pv, rows, k)} :: 0 <= k < |rows| ==>
      rows[k].balance == Opening(pv, rows, k) - rows[k].principal
  }

  /** What every row of a schedule satisfies, with `opening` the balance before it. */
  predicate RowInvariant(t: Terms, startDate: Date, opening: real, k: nat, row: Row)
  {
    && row.period == k + 1
    && row.date == DateAt(startDate, t.payPerYear, t.addMonth, k)
    && opening > Tolerance
    && row.interest == opening * t.rate
    && row.balance == opening - row.principal
    && 0.0 <= row.balance <= opening
    && 0.0 <= row.extra <= t.extraPayment
    && row.payment == row.interest + row.principal
    && (k < t.ioPeriods ==> row.principal == row.extra)
    && row.escrow == t.escrowPerPeriod
    && row.outflow == row.payment + row.escrow
  }

  lemma {:induction false} Telescope(pv: real, rows: seq<Row>)
    requires Chained(pv, rows)
    ensures Total(rows, Principal) == pv - Closing(pv, rows)
  {
    if |rows| > 0 {
      var front := rows[..|rows| - 1];
      assert Chained(pv, front) by {
        forall k | 0 <= k < |front|
          ensures front[k].balance == Opening(pv, front, k) - front[k].principal
        {
          assert front[k] == rows[k];
          assert Opening(pv, front, k) == Opening(pv, rows, k);
        }
      }
      Telescope(pv, front);
      assert rows[|rows| - 1].balance == Opening(pv, rows, |rows| - 1) - rows[|rows| - 1].principal;
    }
  }

  lemma TotalAppend(rows: seq<Row>, row: Row, c: Column)
    ensures Total(rows + [row], c) == Total(rows, c) + Amount(row, c)
  {
    assert (rows + [row])[..|rows|] == rows;
  }

  lemma InterestWithinPayment(rate: real, bal: real, pv: real, basePayment: real)
    requires rate >= 0.0 && 0.0 <= bal <= pv && basePayment >= rate * pv
    ensures bal * rate <= basePayment
  {
    assert (pv - bal) * rate >= 0.0;
  }

  /** Every row of `rows` satisfies the row invariant against its opening balance. */
  predicate Ledger(t: Terms, startDate: Date, rows: seq<Row>)
  {
    forall k {:trigger Opening(t.pv, rows, k)} :: 0 <= k < |rows| ==>
      RowInvariant(t, startDate, Opening(t.pv, rows, k), k, rows[k])
  }

  lemma LedgerChained(t: Terms, startDate: Date, rows: seq<Row>)
    requires Ledger(t, startDate, rows)
    ensures Chained(t.pv, rows)
  {
    forall k | 0 <= k < |rows|
      ensures rows[k].balance == Opening(t.pv, rows, k) - rows[k].principal
    {
      assert RowInvariant(t, startDate, Opening(t.pv, rows, k), k, rows[k]);
    }
  }

  /** The row a step emits is well formed, provided the level payment covers
      the interest on the amount financed and the balance has not grown past it. */
  lemma StepRowInvariant(t: Terms, startDate: Date, s: State)
    requires ValidTerms(t) && CoversInterest(t)
    requires Tolerance < s.bal <= t.pv
    requires s.date == DateAt(startDate, t.payPerYear, t.addMonth, s.i)
    ensures RowInvariant(t, startDate, s.bal, s.i, PeriodRow(t, s.bal, s.i, s.date))
  {
    InterestWithinPayment(t.rate, s.bal, t.pv, t.basePayment);
    var row := PeriodRow(t, s.bal, s.i, s.date);
    assert row.payment - row.principal == row.interest;
  }

  /** One more step of the loop extends a well-formed ledger by a well-formed row. */
  lemma ExtendLedger(t: Terms, startDate: Date, rows: seq<Row>, s: State)
    requires ValidTerms(t) && CoversInterest(t)
    requires Ledger(t, startDate, rows)
    requires s.bal == Closing(t.pv, rows) && Tolerance < s.bal <= t.pv
    requires s.i == |rows| && s.date == DateAt(startDate, t.payPerYear, t.addMonth, s.i)
    ensures Ledger(t, startDate, rows + [PeriodRow(t, s.bal, s.i, s.date)])
  {
    var row := PeriodRow(t, s.bal, s.i, s.date);
    StepRowInvariant(t, startDate, s);
    var rows' := rows + [row];
    forall k | 0 <= k < |rows'|
      ensures RowInvariant(t, startDate, Opening(t.pv, rows', k), k, rows'[k])
    {
      if k < |rows| {
        assert rows'[k] == rows[k];
        assert Opening(t.pv, rows', k) == Opening(t.pv, rows, k);
      } else {
        assert Opening(t.pv, rows', k) == s.bal;
      }
    }
  }

  /** One unfolding of `Run` while the loop guard holds. */
  lemma RunUnfold(t: Terms, s: State)
    requires ValidTerms(t) && s.bal > Tolerance && s.i < Cap(t)
    ensures var row := PeriodRow(t, s.bal, s.i, s.date);
            Run(t, s) == ([row] + Run(t, Accumulate(t, s, row)).0, Run(t, Accumulate(t, s, row)).1)
  {
  }

  /** A column that is the same in every row totals to the row count times it. */
  lemma {:induction false} ConstantColumnTotal(rows: seq<Row>, c: Column, amount: real)
    requires forall k :: 0 <= k < |rows| ==> Amount(rows[k], c) == amount
    ensures Total(rows, c) == |rows| as real * amount
  {
    if |rows| > 0 {
      var front := rows[..|rows| - 1];
      assert forall k :: 0 <= k < |front| ==> front[k] == rows[k];
      ConstantColumnTotal(front, c, amount);
      assert |rows| as real * amount == |front| as real * amount + amount;
    }
  }

  /** The loop invariant of `RunLoop`: `rows` are the rows emitted so far,
      `s` is the state after them, and `Run` from the start state is `rows`
      followed by `Run` from `s`. */
  predicate Progress(t: Terms, startDate: Date, rows: seq<Row>, s: State)
    requires ValidTerms(t)
  {
    && s.i == |rows| <= Cap(t)
    && s.bal == Closing(t.pv, rows) && s.bal <= t.pv
    && (|rows| > 0 ==> t.pv > Tolerance && s.bal >= 0.0)
    && s.date == DateAt(startDate, t.payPerYear, t.addMonth, s.i)
    && Ledger(t, startDate, rows)
    && s.totalInterest == Total(rows, Interest)
    && s.totalPrincipal == Total(rows, Principal) == t.pv - s.bal
    && s.totalPayment == Total(rows, Payment) == s.totalInterest + s.totalPrincipal
    && s.totalExtra == Total(rows, Extra)
    && s.totalEscrow == Total(rows, Escrow)
    && Run(t, Start(t, startDate)) == (rows + Run(t, s).0, Run(t, s).1)
  }

  lemma ProgressStart(t: Terms, startDate: Date)
    requires ValidTerms(t)
    ensures Progress(t, startDate, [], Start(t, startDate))
  {
    var s0 := Start(t, startDate);
    assert [] + Run(t, s0).0 == Run(t, s0).0;
  }

  /** One iteration of the loop preserves `Progress`. */
  lemma ProgressStep(t: Terms, startDate: Date, rows: seq<Row>, s: State)
    requires ValidTerms(t) && CoversInterest(t)
    requires Progress(t, startDate, rows, s)
    requires s.bal > Tolerance && s.i < Cap(t)
    ensures var row := PeriodRow(t, s.bal, s.i, s.date);
            Progress(t, startDate, rows + [row], Accumulate(t, s, row))
  {
    var row := PeriodRow(t, s.bal, s.i, s.date);
    var next := Accumulate(t, s, row);
    RunStep(t, startDate, rows, s);
    ExtendLedger(t, startDate, rows, s);
    TotalsStep(t, rows, s);
  }

  lemma RunStep(t: Terms, startDate: Date, rows: seq<Row>, s: State)
    requires ValidTerms(t) && s.bal > Tolerance && s.i < Cap(t)
    requires Run(t, Start(t, startDate)) == (rows + Run(t, s).0, Run(t, s).1)
    ensures var row := PeriodRow(t, s.bal, s.i, s.date);
            var next := Accumulate(t, s, row);
            Run(t, Start(t, startDate)) == ((rows + [row]) + Run(t, next).0, Run(t, next).1)
  {
    var row := PeriodRow(t, s.bal, s.i, s.date);
    var next := Accumulate(t, s, row);
    RunUnfold(t, s);
    assert rows + Run(t, s).0 == (rows + [row]) + Run(t, next).0;
  }

  lemma TotalsStep(t: Terms, rows: seq<Row>, s: State)
    requires ValidTerms(t) && CoversInterest(t)
    requires Tolerance < s.bal <= t.pv
    requires s.totalInterest == Total(rows, Interest)
    requires s.totalPrincipal == Total(rows, Principal) == t.pv - s.bal
    requires s.totalPayment == Total(rows, Payment) == s.totalInterest + s.totalPrincipal
    requires s.totalExtra == Total(rows, Extra)
    requires s.totalEscrow == Total(rows, Escrow)
    ensures var row := PeriodRow(t, s.bal, s.i, s.date);
            var next := Accumulate(t, s, row);
            && next.totalInterest == Total(rows + [row], Interest)
            && next.totalPrincipal == Total(rows + [row], Principal) == t.pv - next.bal
            && next.totalPayment == Total(rows + [row], Payment) == next.totalInterest + next.totalPrincipal
            && next.totalExtra == Total(rows + [row], Extra)
            && next.totalEscrow == Total(rows + [row], Escrow)
  {
    var row := PeriodRow(t, s.bal, s.i, s.date);
    InterestWithinPayment(t.rate, s.bal, t.pv, t.basePayment);
    assert row.payment == row.interest + row.principal;
    TotalAppend(rows, row, Interest);
    TotalAppend(rows, row, Principal);
    TotalAppend(rows, row, Payment);
    TotalAppend(rows, row, Extra);
    TotalAppend(rows, row, Escrow);
  }

  /** When the loop stops, the rows produced so far are the whole of `Run`. */
  lemma ProgressDone(t: Terms, startDate: Date, rows: seq<Row>, s: State)
    requires ValidTerms(t) && Progress(t, startDate, rows, s)
    requires !(s.bal > Tolerance && s.i < Cap(t))
    ensures (rows, s) == Run(t, Start(t, startDate))
    ensures s.bal <= Tolerance || s.i == Cap(t)
    ensures t.pv <= Tolerance ==> rows == [] && s == Start(t, startDate)
  {
    assert Run(t, s) == ([], s);
    assert rows + [] == rows;
  }

  /** The loop of the engine: while the balance exceeds the tolerance and the
      cap is not reached, compute the period's row (interest, scheduled split,
      extra clamp, overshoot clamp), then add it to the totals and advance. */
  method RunLoop(t: Terms, startDate: Date) returns (rows: seq<Row>, final: State)
    requires ValidTerms(t) && CoversInterest(t)
    ensures (rows, final) == Run(t, Start(t, startDate))
    ensures final.i == |rows| <= Cap(t)
    ensures final.bal == Closing(t.pv, rows)
    ensures final.bal <= Tolerance || final.i == Cap(t)
    ensures t.pv <= Tolerance ==> rows == [] && final == Start(t, startDate)
    ensures Ledger(t, startDate, rows)
    ensures final.totalInterest == Total(rows, Interest)
    ensures final.totalPrincipal == Total(rows, Principal) == t.pv - final.bal
    ensures final.totalPayment == Total(rows, Payment) == final.totalInterest + final.totalPrincipal
    ensures final.totalExtra == Total(rows, Extra)
    ensures final.totalEscrow == Total(rows, Escrow)
  {
    rows := [];
    var s := Start(t, startDate);
    ProgressStart(t, startDate);

    while s.bal > Tolerance && s.i < t.nper + SafetyMargin
      invariant Progress(t, startDate, rows, s)
      decreases t.nper + SafetyMargin - s.i
    {
      var row := PayPeriod(t, s.bal, s.i, s.date);
      ProgressStep(t, startDate, rows, s);
      rows := rows + [row];
      s := Accumulate(t, s, row);
    }
    final := s;
    ProgressDone(t, startDate, rows, final);
  }

  /** The engine: derive the loop constants from the loan (fees, level payment,
      interest-only window, escrow per period), run the loop, and summarize. */
  method BuildSchedule(l: Loan, addMonth: Date -> Date) returns (rows: seq<Row>, meta: Meta)
    requires ValidLoan(l)
    ensures var t := TermsOf(l, addMonth);
            var out := Run(t, Start(t, l.startDate));
            rows == out.0 && meta == Summary(l, t, out.1)
    // the number of rows and the safety cap
    ensures meta.nPeriods == |rows| <= l.years * l.payPerYear + SafetyMargin
    ensures Closing(PresentValue(l), rows) <= Tolerance
            || meta.nPeriods == l.years * l.payPerYear + SafetyMargin
    // nothing to amortize: no rows, all totals zero
    ensures PresentValue(l) <= Tolerance ==>
              && rows == []
              && meta.totalInterest == 0.0 && meta.totalPrincipal == 0.0 && meta.totalPayment == 0.0
              && meta.totalEscrow == 0.0 && meta.totalExtra == 0.0
    // the summary's rate, level payment and fee split
    ensures meta.periodicRate == l.rate
    ensures meta.basePayment == Pmt(l.rate, l.years * l.payPerYear, PresentValue(l))
    ensures meta.rolledFees + meta.feesPaidUpfront == l.fees
    ensures PresentValue(l) == l.principal + meta.rolledFees
    ensures if l.rollFees then meta.feesPaidUpfront == 0.0 else meta.rolledFees == 0.0
    // every row
    ensures Chained(PresentValue(l), rows)
    ensures Ledger(TermsOf(l, addMonth), l.startDate, rows)
    // the totals
    ensures meta.totalInterest == Total(rows, Interest)
    ensures meta.totalPrincipal == Total(rows, Principal)
    ensures meta.totalPayment == Total(rows, Payment)
    ensures meta.totalExtra == Total(rows, Extra)
    ensures meta.totalEscrow == Total(rows, Escrow)
    ensures meta.totalPrincipal == PresentValue(l) - Closing(PresentValue(l), rows)
    ensures meta.totalPayment == meta.totalInterest + meta.totalPrincipal
  {
    var t := TermsOf(l, addMonth);
    var final;
    rows, final := RunLoop(t, l.startDate);
    LedgerChained(t, l.startDate, rows);
    meta := Meta(t.basePayment, t.rate, final.i, final.totalInterest, final.totalPrincipal,
                 final.totalPayment, final.totalEscrow, final.totalExtra,
                 FeeTreatment(l).rolled, FeeTreatment(l).upfront);
  }

  lemma LedgerEscrow(t: Terms, startDate: Date, rows: seq<Row>)
    requires Ledger(t, startDate, rows)
    ensures Total(rows, Escrow) == |rows| as real * t.escrowPerPeriod
  {
    forall k | 0 <= k < |rows|
      ensures Amount(rows[k], Escrow) == t.escrowPerPeriod
    {
      assert RowInvariant(t, startDate, Opening(t.pv, rows, k), k, rows[k]);
    }
    ConstantColumnTotal(rows, Escrow, t.escrowPerPeriod);
  }

  /** A period paid at the level payment with no extra, when the payment covers
      the interest and does not exceed the balance plus interest: no floor and no
      clamp fires, so the balance follows the annuity recurrence. */
  lemma LevelPeriod(t: Terms, bal: real, i: nat, date: Date)
    requires ValidTerms(t) && bal >= 0.0
    requires i >= t.ioPeriods && t.extraPayment == 0.0
    requires t.rate * bal <= t.basePayment
    requires bal * (1.0 + t.rate) - t.basePayment >= 0.0
    ensures PeriodRow(t, bal, i, date).balance == bal * (1.0 + t.rate) - t.basePayment
  {
    assert bal * (1.0 + t.rate) == bal + bal * t.rate;
    assert ScheduledPrincipal(t, bal, i) == t.basePayment - bal * t.rate;
  }

  /** One period of a full-term run, on the state: the balance moves from
      `before` to `after` and the rest of the run is the run from there. */
  lemma LevelStep(t: Terms, s: State, after: real)
    requires ValidTerms(t) && t.ioPeriods <= 0 && t.extraPayment == 0.0 && s.i < Cap(t)
    requires LevelPeriodFrom(t.rate, t.basePayment, Tolerance, s.bal, after)
    ensures var next := Accumulate(t, s, PeriodRow(t, s.bal, s.i, s.date));
            next.i == s.i + 1 && next.bal == after && Run(t, s).1 == Run(t, next).1
  {
    LevelPeriod(t, s.bal, s.i, s.date);
    RunUnfold(t, s);
  }

  /** A run whose balances follow `track` period by period, with `track`
      reaching 0 at period `nper`, stops exactly there with nothing owed. */
  lemma {:induction false} RunFullTerm(t: Terms, s: State, track: nat -> real)
    requires ValidTerms(t) && t.ioPeriods <= 0 && t.extraPayment == 0.0
    requires s.i <= t.nper && s.bal == track(s.i) && track(t.nper) == 0.0
    requires forall k: nat {:trigger LevelPeriodFrom(t.rate, t.basePayment, Tolerance, track(k), track(k + 1))} ::
               s.i <= k < t.nper ==> LevelPeriodFrom(t.rate, t.basePayment, Tolerance, track(k), track(k + 1))
    ensures Run(t, s).1.i == t.nper && Run(t, s).1.bal == 0.0
    decreases t.nper - s.i
  {
    if s.i < t.nper {
      assert LevelPeriodFrom(t.rate, t.basePayment, Tolerance, track(s.i), track(s.i + 1));
      LevelStep(t, s, track(s.i + 1));
      RunFullTerm(t, Accumulate(t, s, PeriodRow(t, s.bal, s.i, s.date)), track);
    }
  }

  /** The full-term theorem over the loop constants: level payment, no extra,
      no interest-only window. */
  lemma TermsFullTerm(t: Terms, startDate: Date)
    requires ValidTerms(t) && t.ioPeriods <= 0 && t.extraPayment == 0.0 && t.pv > 0.0
    requires t.basePayment == Pmt(t.rate, t.nper, t.pv)
    requires t.basePayment > (1.0 + t.rate) * Tolerance
    ensures Run(t, Start(t, startDate)).1.i == t.nper && Run(t, Start(t, startDate)).1.bal == 0.0
  {
    LevelPaymentTrack(t.rate, t.nper, t.pv, Tolerance);
    TrackAll(t.rate, t.basePayment, t.pv, t.nper, Tolerance);
    RunFullTerm(t, Start(t, startDate), (k: nat) => Remaining(t.rate, t.basePayment, t.pv, k));
  }

  /** Without extra payments or an interest-only window, the schedule runs the
      full `years * payPerYear` periods and retires the loan exactly, provided
      the last level payment is above the payoff tolerance (otherwise the loop
      stops at the first balance within the tolerance, at least one period
      early, and emits no rows at all when the amount financed is within it). */
  lemma FullTerm(l: Loan, addMonth: Date -> Date)
    requires ValidLoan(l) && l.extraPayment == 0.0 && l.ioMonths == 0
    requires PresentValue(l) > 0.0
    requires Pmt(l.rate, l.years * l.payPerYear, PresentValue(l)) > (1.0 + l.rate) * Tolerance
    ensures var t := TermsOf(l, addMonth);
            var out := Run(t, Start(t, l.startDate));
            |out.0| == out.1.i == l.years * l.payPerYear && out.1.bal == 0.0
  {
    var t := TermsOf(l, addMonth);
    assert t.ioPeriods == 0;
    TermsFullTerm(t, l.startDate);
  }
}
