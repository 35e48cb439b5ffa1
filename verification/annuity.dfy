/** The level-payment (annuity) formula of the loan calculator, over exact reals.

    `Pmt` is the closed form used to size the scheduled payment; `Remaining` is an
    independent reference definition of what a level payment means: the balance
    left after `k` periods of "accrue interest, then pay". The central fact is
    `PmtAmortizes`: paying `Pmt(rate, n, pv)` for `n` periods leaves exactly 0.
 */
module Annuity {

  /** x raised to a natural power. */
  function Pow(x: real, n: nat): real
  {
    if n == 0 then 1.0 else x * Pow(x, n - 1)
  }

  lemma {:induction false} PowAboveOne(x: real, n: nat)
    requires x > 1.0 && n >= 1
    ensures Pow(x, n) > 1.0
  {
    if n > 1 {
      PowAboveOne(x, n - 1);
      var p := Pow(x, n - 1);
      assert x * p - p == (x - 1.0) * p;
      assert (x - 1.0) * p > 0.0;
    }
  }

  /** The divisor 1 - (1+rate)^(-nper) of the annuity formula; it lies strictly
      between 0 and 1, and multiplying it by (1+rate)^nper gives (1+rate)^nper - 1. */
  function AnnuityFactor(rate: real, nper: int): (d: real)
    requires rate > 0.0 && nper >= 1
    ensures 0.0 < d < 1.0
    ensures d * Pow(1.0 + rate, nper) == Pow(1.0 + rate, nper) - 1.0
  {
    var p := Pow(1.0 + rate, nper);
    PowAboveOne(1.0 + rate, nper);
    FractionBelowOne(p);
    1.0 - 1.0 / p
  }

  lemma FractionBelowOne(p: real)
    requires p > 1.0
    ensures 0.0 < 1.0 / p < 1.0
    ensures (1.0 - 1.0 / p) * p == p - 1.0
  {
    assert (1.0 / p) * p == 1.0;
  }

  /** Dividing a non-negative amount by a fraction in (0, 1) does not shrink it,
      and strictly grows a positive one. */
  lemma DivideByFraction(x: real, d: real)
    requires 0.0 < d < 1.0
    ensures x >= 0.0 ==> x / d >= x
    ensures x > 0.0 ==> x / d > x
    ensures x > 0.0 ==> x / d > 0.0
  {
    if x >= 0.0 {
      var q := x / d;
      assert q * d == x;
      assert q - x == q * (1.0 - d);
      assert q * (1.0 - d) >= 0.0;
      if x > 0.0 {
        assert q > 0.0;
        assert q * (1.0 - d) > 0.0;
      }
    }
  }

  /** The payment that amortizes `pv` over `nper` periods at periodic rate `rate`.
      A zero rate divides evenly; otherwise rate*pv / (1 - (1+rate)^(-nper)). */
  function Pmt(rate: real, nper: int, pv: real): (payment: real)
    requires rate >= 0.0 && nper >= 1
    ensures rate == 0.0 ==> payment * nper as real == pv
    ensures pv >= 0.0 ==> payment >= rate * pv
    ensures pv > 0.0 ==> payment > rate * pv
    ensures pv >= 0.0 ==> payment >= 0.0
    ensures rate > 0.0 && pv > 0.0 ==> payment > 0.0
  {
    if rate == 0.0 then
      pv / nper as real
    else
      var d := AnnuityFactor(rate, nper);
      DivideByFraction(rate * pv, d);
      (rate * pv) / d
  }

  /** Reference definition: the balance after `k` periods in which interest
      accrues at `rate` and then `payment` is paid. */
  function Remaining(rate: real, payment: real, pv: real, k: nat): real
  {
    if k == 0 then pv else Remaining(rate, payment, pv, k - 1) * (1.0 + rate) - payment
  }

  lemma {:induction false} RemainingClosedForm(rate: real, payment: real, pv: real, k: nat)
    ensures rate * Remaining(rate, payment, pv, k)
         == rate * pv * Pow(1.0 + rate, k) - payment * (Pow(1.0 + rate, k) - 1.0)
  {
    if k > 0 {
      RemainingClosedForm(rate, payment, pv, k - 1);
      ClosedFormStep(rate, payment, pv, Remaining(rate, payment, pv, k - 1), Pow(1.0 + rate, k - 1));
    }
  }

  /** One period of the closed form: if rate*r = rate*pv*p - payment*(p-1) holds
      before a period, it holds after it with p scaled by 1+rate. */
  lemma ClosedFormStep(rate: real, payment: real, pv: real, r: real, p: real)
    requires rate * r == rate * pv * p - payment * (p - 1.0)
    ensures rate * (r * (1.0 + rate) - payment)
         == rate * pv * ((1.0 + rate) * p) - payment * ((1.0 + rate) * p - 1.0)
  {
    calc {
      rate * (r * (1.0 + rate) - payment);
      (1.0 + rate) * (rate * r) - rate * payment;
      (1.0 + rate) * (rate * pv * p - payment * (p - 1.0)) - rate * payment;
      rate * pv * ((1.0 + rate) * p) - payment * ((1.0 + rate) * p - 1.0);
    }
  }

  lemma {:induction false} RemainingZeroRate(payment: real, pv: real, k: nat)
    ensures Remaining(0.0, payment, pv, k) == pv - k as real * payment
  {
    if k > 0 {
      RemainingZeroRate(payment, pv, k - 1);
    }
  }

  /** Paying the level payment for the whole term retires the loan exactly. */
  lemma PmtAmortizes(rate: real, nper: int, pv: real)
    requires rate >= 0.0 && nper >= 1
    ensures Remaining(rate, Pmt(rate, nper, pv), pv, nper) == 0.0
  {
    var payment := Pmt(rate, nper, pv);
    if rate == 0.0 {
      RemainingZeroRate(payment, pv, nper);
    } else {
      var p := Pow(1.0 + rate, nper);
      var d := AnnuityFactor(rate, nper);
      assert payment * d == rate * pv;
      assert payment * (p - 1.0) == rate * pv * p by {
        calc {
          payment * (p - 1.0);
          payment * (d * p);
          (payment * d) * p;
        }
      }
      RemainingClosedForm(rate, payment, pv, nper);
      var r := Remaining(rate, payment, pv, nper);
      assert rate * r == 0.0;
    }
  }

  /** The balance owed before the last payment is that payment discounted by one period. */
  lemma LastPayment(rate: real, nper: int, pv: real)
    requires rate >= 0.0 && nper >= 1
    ensures Remaining(rate, Pmt(rate, nper, pv), pv, nper - 1) * (1.0 + rate) == Pmt(rate, nper, pv)
  {
    PmtAmortizes(rate, nper, pv);
  }

  /** One period of a payment that exceeds the interest: the balance falls, and
      the payment still exceeds the interest on the lower balance. */
  lemma FallStep(rate: real, q: real, payment: real)
    requires rate >= 0.0 && rate * q < payment
    ensures q * (1.0 + rate) - payment < q
    ensures rate * (q * (1.0 + rate) - payment) < payment
  {
    assert q * (1.0 + rate) - payment == q + (rate * q - payment);
    assert rate * (rate * q - payment) <= 0.0;
    assert rate * (q + (rate * q - payment)) == rate * q + rate * (rate * q - payment);
  }

  /** A payment above the first period's interest exceeds every later period's
      interest, so the balance strictly falls every period. */
  lemma {:induction false} RemainingFalls(rate: real, payment: real, pv: real, k: nat)
    requires rate >= 0.0 && rate * pv < payment
    ensures rate * Remaining(rate, payment, pv, k) < payment
    ensures Remaining(rate, payment, pv, k + 1) < Remaining(rate, payment, pv, k)
  {
    if k > 0 {
      RemainingFalls(rate, payment, pv, k - 1);
      FallStep(rate, Remaining(rate, payment, pv, k - 1), payment);
    }
    FallStep(rate, Remaining(rate, payment, pv, k), payment);
  }

  lemma {:induction false} RemainingAntitone(rate: real, payment: real, pv: real, j: nat, k: nat)
    requires rate >= 0.0 && rate * pv < payment
    requires j <= k
    ensures Remaining(rate, payment, pv, k) <= Remaining(rate, payment, pv, j)
  {
    if j < k {
      RemainingAntitone(rate, payment, pv, j, k - 1);
      RemainingFalls(rate, payment, pv, k - 1);
    }
  }

  /** The level payment exceeds the first period's interest, retires the loan
      after `nper` periods, and the balance before the last payment is above
      `floor` whenever the payment is above `floor` grown by one period. */
  lemma LevelPaymentTrack(rate: real, nper: int, pv: real, floor: real)
    requires rate >= 0.0 && nper >= 1 && pv > 0.0
    requires Pmt(rate, nper, pv) > (1.0 + rate) * floor
    ensures rate * pv < Pmt(rate, nper, pv)
    ensures Remaining(rate, Pmt(rate, nper, pv), pv, nper) == 0.0
    ensures floor < Remaining(rate, Pmt(rate, nper, pv), pv, nper - 1)
  {
    PmtAmortizes(rate, nper, pv);
    LastPayment(rate, nper, pv);
    Discounted(Remaining(rate, Pmt(rate, nper, pv), pv, nper - 1), 1.0 + rate, Pmt(rate, nper, pv), floor);
  }

  lemma Discounted(x: real, c: real, b: real, floor: real)
    requires c > 0.0 && x * c == b && b > c * floor
    ensures x > floor
  {
    assert (x - floor) * c == b - c * floor;
  }

  /** One period of a level-payment run, on the balance: above `floor`, the
      payment covers the interest and leaves a non-negative balance. */
  predicate LevelPeriodFrom(rate: real, payment: real, floor: real, before: real, after: real)
  {
    && before > floor && rate * before < payment
    && after == before * (1.0 + rate) - payment && after >= 0.0
  }

  /** Every period before the last of a level payment that retires the loan
      after `n` periods is a level period, when the balance before the last
      payment is above `floor`. */
  lemma TrackStep(rate: real, payment: real, pv: real, n: nat, k: nat, floor: real)
    requires rate >= 0.0 && rate * pv < payment
    requires n >= 1 && Remaining(rate, payment, pv, n) == 0.0
    requires floor < Remaining(rate, payment, pv, n - 1)
    requires k < n
    ensures LevelPeriodFrom(rate, payment, floor, Remaining(rate, payment, pv, k), Remaining(rate, payment, pv, k + 1))
  {
    RemainingAntitone(rate, payment, pv, k, n - 1);
    RemainingAntitone(rate, payment, pv, k + 1, n);
    RemainingFalls(rate, payment, pv, k);
  }

  lemma TrackAll(rate: real, payment: real, pv: real, n: nat, floor: real)
    requires rate >= 0.0 && rate * pv < payment
    requires n >= 1 && Remaining(rate, payment, pv, n) == 0.0
    requires floor < Remaining(rate, payment, pv, n - 1)
    ensures forall k: nat :: k < n ==>
              LevelPeriodFrom(rate, payment, floor, Remaining(rate, payment, pv, k), Remaining(rate, payment, pv, k + 1))
  {
    forall k: nat | k < n
      ensures LevelPeriodFrom(rate, payment, floor, Remaining(rate, payment, pv, k), Remaining(rate, payment, pv, k + 1))
    {
      TrackStep(rate, payment, pv, n, k, floor);
    }
  }

  lemma DivideMonotone(x: real, y: real, d: real)
    requires x < y && d > 0.0
    ensures x / d < y / d
  {
    assert y / d - x / d == (y - x) / d;
  }

  lemma ScaledDivideMonotone(c: real, x: real, y: real, d: real)
    requires c > 0.0 && x < y && d > 0.0
    ensures (c * x) / d < (c * y) / d
  {
    assert c * y - c * x == c * (y - x);
    DivideMonotone(c * x, c * y, d);
  }

  /** A larger present value needs a strictly larger level payment. */
  lemma PmtStrictlyIncreasing(rate: real, nper: int, pv1: real, pv2: real)
    requires rate >= 0.0 && nper >= 1
    requires pv1 < pv2
    ensures Pmt(rate, nper, pv1) < Pmt(rate, nper, pv2)
  {
    if rate > 0.0 {
      ScaledDivideMonotone(rate, pv1, pv2, AnnuityFactor(rate, nper));
    } else {
      DivideMonotone(pv1, pv2, nper as real);
    }
  }
}
