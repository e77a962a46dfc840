/** The arithmetic of the interest calculator: the day count derived from a
    pair of dates, the three interest formulas, and the two-decimal rounding
    that `toFixed(2)` applies before a figure is shown or stored.
    Everything here is a pure function over exact reals and integers. */
module InterestEngine {

  /** An input field: `None` is the empty text "", `Some(x)` a field whose
      text parses to the number x (or, for a date field, to x milliseconds). */
  datatype Option<T> = None | Some(value: T)

  /** How the date-range rate is quoted ("per year" / "per month"). */
  datatype RateType = Annual | Monthly

  /** How the date-range rate is read: rupees per hundred, or a percentage. */
  datatype InterestType = Per100 | Percentage

  /** The exact outcome of one calculation, before any rounding. */
  datatype Figures = Figures(principal: real, interest: real, total: real)

  /** A calculation either produces its value or is refused because a
      required field is empty (the "Please fill all fields" alert). */
  datatype Checked<T> = Ok(value: T) | MissingField

  /** Milliseconds in a day: 1000 * 60 * 60 * 24. */
  const MsPerDay: int := 1000 * 60 * 60 * 24

  /** `Math.abs` on the difference of two dates. */
  function Abs(x: int): (r: nat)
    ensures r == x || r == -x
  {
    if x < 0 then -x else x
  }

  /** The least integer not below x (`Math.ceil`). */
  function Ceil(x: real): (c: int)
    ensures (c - 1) as real < x <= c as real
  {
    -((-x).Floor)
  }

  // ---------------------------------------------------------------------
  // Day count
  // ---------------------------------------------------------------------

  /** Whole days between two instants, rounded up: the number of days the
      date-range calculator charges for. */
  function DayCount(from: int, to: int): (d: nat)
    ensures (d - 1) * MsPerDay < Abs(to - from) <= d * MsPerDay
    ensures d == 0 <==> from == to
  {
    (Abs(to - from) + MsPerDay - 1) / MsPerDay
  }

  /** The integer day count is `Math.ceil(|to - from| / 86400000)` computed
      over the reals. */
  lemma DayCountIsCeiling(from: int, to: int)
    ensures DayCount(from, to) == Ceil(Abs(to - from) as real / MsPerDay as real)
  {
    var d := DayCount(from, to);
    var x := Abs(to - from) as real / MsPerDay as real;
    var c := Ceil(x);
    assert (d - 1) as real < x <= d as real by {
      assert ((d - 1) * MsPerDay) as real < Abs(to - from) as real <= (d * MsPerDay) as real;
    }
    CeilUnique(x, d, c);
  }

  /** Only one integer c satisfies c - 1 < x <= c. */
  lemma CeilUnique(x: real, i: int, j: int)
    requires (i - 1) as real < x <= i as real
    requires (j - 1) as real < x <= j as real
    ensures i == j
  {
  }

  /** The day count does not depend on the order of the two dates. */
  lemma DayCountSymmetric(a: int, b: int)
    ensures DayCount(a, b) == DayCount(b, a)
  {
  }

  /** Moving the later date by one full day adds exactly one day. */
  lemma DayCountNextDay(from: int, to: int)
    requires from <= to
    ensures DayCount(from, to + MsPerDay) == DayCount(from, to) + 1
  {
    var d := DayCount(from, to);
    var e := DayCount(from, to + MsPerDay);
    assert (e - 1) * MsPerDay < to - from + MsPerDay <= e * MsPerDay;
    assert (d - 1) * MsPerDay < to - from <= d * MsPerDay;
    assert (e - 2) * MsPerDay < to - from <= (e - 1) * MsPerDay;
  }

  // ---------------------------------------------------------------------
  // Rounding to two decimals
  // ---------------------------------------------------------------------

  /** The whole number of cents nearest to x, a tie going away from zero:
      the digits `x.toFixed(2)` prints, read as hundredths. */
  function Cents(x: real): (c: int)
    ensures -0.5 <= c as real - 100.0 * x <= 0.5
    ensures c as real - 100.0 * x == 0.5 ==> x >= 0.0
    ensures 100.0 * x - c as real == 0.5 ==> x < 0.0
  {
    if x >= 0.0 then (100.0 * x + 0.5).Floor else -((0.5 - 100.0 * x).Floor)
  }

  /** The value of `x.toFixed(2)`. */
  function Round2(x: real): (r: real)
    ensures -0.005 <= r - x <= 0.005
    ensures (100.0 * r).Floor as real == 100.0 * r
  {
    Cents(x) as real / 100.0
  }

  /** A figure that already is a whole number of cents is left as it is. */
  lemma Round2Exact(n: int)
    ensures Round2(n as real / 100.0) == n as real / 100.0
  {
    var x := n as real / 100.0;
    var c := Cents(x);
    assert 100.0 * x == n as real;
    assert -0.5 <= (c - n) as real <= 0.5;
    assert c == n;
    assert Round2(x) == c as real / 100.0;
  }

  /** The three stored figures of a result: the principal as entered, the
      interest and the total each passed through `toFixed(2)`. */
  function Rounded(f: Figures): (g: Figures)
    ensures g.principal == f.principal
    ensures -0.005 <= g.interest - f.interest <= 0.005
    ensures -0.005 <= g.total - f.total <= 0.005
  {
    Figures(f.principal, Round2(f.interest), Round2(f.total))
  }

  // ---------------------------------------------------------------------
  // Date-range simple interest (the "original" calculator)
  // ---------------------------------------------------------------------

  /** The rate per year: a monthly rate is multiplied by 12. */
  function AnnualRate(rate: real, rateType: RateType): (a: real)
    ensures rateType == Annual ==> a == rate
    ensures rateType == Monthly ==> a == 12.0 * rate
  {
    if rateType == Monthly then rate * 12.0 else rate
  }

  /** Simple interest on `principal` at `annualRate` for `days` days of a
      365-day year, the rate read per hundred or as a percentage. Whichever
      reading is chosen, the interest is principal times annual rate times
      days over 36500. */
  function DateRangeInterest(principal: real, annualRate: real, days: int, interestType: InterestType): (r: real)
    ensures r == principal * annualRate * days as real / 36500.0
  {
    match interestType
    case Per100 => principal * annualRate * days as real / (100.0 * 365.0)
    case Percentage =>
      assert principal * (annualRate / 100.0) * days as real == principal * annualRate * days as real / 100.0;
      principal * (annualRate / 100.0) * days as real / 365.0
  }

  /** `calculate`: refused unless amount and rate are filled in and the day
      count is not zero; otherwise the interest and principal plus interest. */
  function DateRange(amount: Option<real>, rate: Option<real>, rateType: RateType,
                     interestType: InterestType, days: int): (r: Checked<Figures>)
    ensures r.Ok? <==> amount.Some? && rate.Some? && days != 0
    ensures r.Ok? ==> r.value.principal == amount.value
    ensures r.Ok? ==> r.value.interest == amount.value * AnnualRate(rate.value, rateType) * days as real / 36500.0
    ensures r.Ok? ==> r.value.total == r.value.principal + r.value.interest
  {
    if amount.None? || rate.None? || days == 0 then MissingField
    else
      var interest := DateRangeInterest(amount.value, AnnualRate(rate.value, rateType), days, interestType);
      Ok(Figures(amount.value, interest, amount.value + interest))
  }

  /** The per-hundred and the percentage reading of a rate give the same
      interest: the two branches of `calculate` agree over the reals. */
  lemma InterestTypesAgree(principal: real, annualRate: real, days: int)
    ensures DateRangeInterest(principal, annualRate, days, Per100)
         == DateRangeInterest(principal, annualRate, days, Percentage)
  {
    var p, a, d := principal, annualRate, days as real;
    calc {
      p * a * d / (100.0 * 365.0);
      (p * a * d / 100.0) / 365.0;
      { assert p * a * d / 100.0 == p * (a / 100.0) * d; }
      p * (a / 100.0) * d / 365.0;
    }
  }

  /** A monthly rate R behaves exactly like an annual rate 12 R. */
  lemma MonthlyIsTwelveTimesAnnual(amount: Option<real>, rate: real, interestType: InterestType, days: int)
    ensures DateRange(amount, Some(rate), Monthly, interestType, days)
         == DateRange(amount, Some(12.0 * rate), Annual, interestType, days)
  {
  }

  /** A full 365-day year at an annual rate of R per hundred earns R per
      hundred of the principal. */
  lemma FullYearEarnsAnnualRate(principal: real, rate: real, interestType: InterestType)
    ensures DateRange(Some(principal), Some(rate), Annual, interestType, 365)
         == Ok(Figures(principal, principal * rate / 100.0, principal + principal * rate / 100.0))
  {
    InterestTypesAgree(principal, rate, 365);
    assert AnnualRate(rate, Annual) == rate;
    assert DateRangeInterest(principal, rate, 365, Per100) == principal * rate / 100.0 by {
      assert principal * rate * (365 as real) / (100.0 * 365.0) == principal * rate / 100.0;
    }
  }

  /** Simple interest accrues linearly: the interest for d1 + d2 days is
      the interest for d1 days plus the interest for d2 days. */
  lemma DateRangeInterestAdditive(principal: real, annualRate: real, d1: int, d2: int, interestType: InterestType)
    ensures DateRangeInterest(principal, annualRate, d1 + d2, interestType)
         == DateRangeInterest(principal, annualRate, d1, interestType)
          + DateRangeInterest(principal, annualRate, d2, interestType)
  {
    var k := principal * annualRate / 36500.0;
    InterestTypesAgree(principal, annualRate, d1);
    InterestTypesAgree(principal, annualRate, d2);
    InterestTypesAgree(principal, annualRate, d1 + d2);
    assert forall d: int {:trigger DateRangeInterest(principal, annualRate, d, Per100)} ::
      DateRangeInterest(principal, annualRate, d, Per100) == k * d as real;
    assert k * (d1 + d2) as real == k * d1 as real + k * d2 as real;
  }

  /** With a non-negative principal, rate and day count the total is never
      below the principal: this mode adds interest. */
  lemma DateRangeTotalAtLeastPrincipal(amount: real, rate: real, rateType: RateType,
                                       interestType: InterestType, days: int)
    requires amount >= 0.0 && rate >= 0.0 && days > 0
    ensures DateRange(Some(amount), Some(rate), rateType, interestType, days).value.total >= amount
  {
    var a := AnnualRate(rate, rateType);
    InterestTypesAgree(amount, a, days);
    assert amount * a >= 0.0;
    assert amount * a * days as real >= 0.0;
  }

  // ---------------------------------------------------------------------
  // Monthly per-hundred interest (calculator 1)
  // ---------------------------------------------------------------------

  /** Interest at R rupees per hundred per month for T months: T times the
      interest of one month, which is R for every hundred of principal. */
  function PerHundredInterest(principal: real, rate: real, months: real): (r: real)
    ensures r == months * ((principal / 100.0) * rate)
  {
    principal * rate * months / 100.0
  }

  /** `calculateInterestPerHundred`: refused unless all three fields are
      filled in; otherwise the interest and principal plus interest. */
  function PerHundred(principal: Option<real>, rate: Option<real>, months: Option<real>): (r: Checked<Figures>)
    ensures r.Ok? <==> principal.Some? && rate.Some? && months.Some?
    ensures r.Ok? ==> r.value.principal == principal.value
    ensures r.Ok? ==> r.value.interest == months.value * ((principal.value / 100.0) * rate.value)
    ensures r.Ok? ==> r.value.total == r.value.principal + r.value.interest
  {
    if principal.None? || rate.None? || months.None? then MissingField
    else
      var interest := PerHundredInterest(principal.value, rate.value, months.value);
      Ok(Figures(principal.value, interest, principal.value + interest))
  }

  /** Calculator 1 over twelve months agrees with the date-range calculator
      over a 365-day year at the same rate quoted per month, per hundred. */
  lemma PerHundredYearMatchesDateRange(principal: real, rate: real)
    ensures PerHundred(Some(principal), Some(rate), Some(12.0))
         == DateRange(Some(principal), Some(rate), Monthly, Per100, 365)
  {
    assert AnnualRate(rate, Monthly) == rate * 12.0;
    assert DateRangeInterest(principal, rate * 12.0, 365, Per100) == PerHundredInterest(principal, rate, 12.0) by {
      assert principal * (rate * 12.0) * (365 as real) / (100.0 * 365.0)
          == principal * rate * 12.0 / 100.0;
    }
  }

  /** Interest grows linearly with the number of months. */
  lemma PerHundredAdditive(principal: real, rate: real, t1: real, t2: real)
    ensures PerHundredInterest(principal, rate, t1 + t2)
         == PerHundredInterest(principal, rate, t1) + PerHundredInterest(principal, rate, t2)
  {
    var k := principal * rate;
    assert k * (t1 + t2) == k * t1 + k * t2;
  }

  // ---------------------------------------------------------------------
  // One-time per-ten-thousand deduction (calculator 2)
  // ---------------------------------------------------------------------

  /** The deduction at R rupees per ten thousand: R for every ten thousand
      of principal. */
  function PerTenThousandInterest(principal: real, rate: real): (r: real)
    ensures r == (principal / 10000.0) * rate
  {
    principal * rate / 10000.0
  }

  /** `calculateInterestPerTenThousand`: refused unless both fields are
      filled in; otherwise the deduction and principal MINUS deduction. */
  function PerTenThousand(principal: Option<real>, rate: Option<real>): (r: Checked<Figures>)
    ensures r.Ok? <==> principal.Some? && rate.Some?
    ensures r.Ok? ==> r.value.principal == principal.value
    ensures r.Ok? ==> r.value.interest == (principal.value / 10000.0) * rate.value
    ensures r.Ok? ==> r.value.total == r.value.principal - r.value.interest
  {
    if principal.None? || rate.None? then MissingField
    else
      var interest := PerTenThousandInterest(principal.value, rate.value);
      Ok(Figures(principal.value, interest, principal.value - interest))
  }

  /** The total of calculator 2 lies strictly below the principal exactly
      when the product of principal and rate is positive. */
  lemma DeductionBelowPrincipal(principal: real, rate: real)
    ensures PerTenThousand(Some(principal), Some(rate)).value.total < principal
        <==> principal * rate > 0.0
  {
  }

  // ---------------------------------------------------------------------
  // The worked examples
  // ---------------------------------------------------------------------

  /** 1000 at 5 per hundred per year for 365 days: 50.00 interest, 1050.00 total. */
  lemma DateRangeExample()
    ensures var r := DateRange(Some(1000.0), Some(5.0), Annual, Per100, 365);
            r.Ok? && Rounded(r.value) == Figures(1000.0, 50.0, 1050.0)
  {
    FullYearEarnsAnnualRate(1000.0, 5.0, Per100);
    Round2Exact(5000);
    Round2Exact(105000);
  }

  /** 1000 at 2 per hundred per month for 3 months: 60.00 interest, 1060.00 total. */
  lemma PerHundredExample()
    ensures var r := PerHundred(Some(1000.0), Some(2.0), Some(3.0));
            r.Ok? && Rounded(r.value) == Figures(1000.0, 60.0, 1060.0)
  {
    Round2Exact(6000);
    Round2Exact(106000);
  }

  /** 10000 at 500 per ten thousand: 500.00 deducted, 9500.00 total. */
  lemma PerTenThousandExample()
    ensures var r := PerTenThousand(Some(10000.0), Some(500.0));
            r.Ok? && Rounded(r.value) == Figures(10000.0, 500.0, 9500.0)
  {
    Round2Exact(50000);
    Round2Exact(950000);
  }
}
