/** The component's state and its event handlers. Every `useState` slot of
    the three calculators is a field; every handler is one atomic method that
    updates only the fields its setters write. */
module Calculator {
  import opened InterestEngine
  import opened History

  class InterestCalculator {
    // The date-range ("original") calculator.
    var amount: Option<real>
    var interestType: InterestType
    var interestRate: Option<real>
    var rateType: RateType
    var fromDate: Option<int>
    var toDate: Option<int>
    var days: int
    var interest: real
    var totalAmount: real
    var history: seq<Entry>

    /** Every entry `calculate` recorded since the history was last
        cleared, oldest first. */
    ghost var log: seq<Entry>

    // Calculator 1: monthly interest per hundred.
    var principalPerHundred: Option<real>
    var ratePerHundred: Option<real>
    var timeMonths: Option<real>
    var resultPerHundred: Option<Figures>

    // Calculator 2: one-time deduction per ten thousand.
    var principalTenThousand: Option<real>
    var ratePerTenThousand: Option<real>
    var resultTenThousand: Option<Figures>

    /** What the handlers keep true: the day count matches the two dates
        whenever both are filled in, and the history is the ten most recent
        calculations since the last clear, newest first. */
    ghost predicate Valid()
      reads this
    {
      && days >= 0
      && (fromDate.Some? && toDate.Some? ==> days == DayCount(fromDate.value, toDate.value))
      && history == Recent(log)
    }

    /** The initial state of every `useState` slot. */
    constructor ()
      ensures Valid()
      ensures amount == None && interestType == Per100 && interestRate == None && rateType == Annual
      ensures fromDate == None && toDate == None && days == 0
      ensures interest == 0.0 && totalAmount == 0.0 && history == [] && log == []
      ensures principalPerHundred == None && ratePerHundred == None && timeMonths == None
      ensures resultPerHundred == None
      ensures principalTenThousand == None && ratePerTenThousand == None && resultTenThousand == None
    {
      amount, interestType, interestRate, rateType := None, Per100, None, Annual;
      fromDate, toDate, days := None, None, 0;
      interest, totalAmount, history, log := 0.0, 0.0, [], [];
      principalPerHundred, ratePerHundred, timeMonths, resultPerHundred := None, None, None, None;
      principalTenThousand, ratePerTenThousand, resultTenThousand := None, None, None;
    }

    /** The date effect: once both dates are filled in, `days` becomes the
        day count between them; otherwise it keeps its previous value. */
    method UpdateDays()
      modifies this`days
      ensures fromDate.Some? && toDate.Some? ==> days == DayCount(fromDate.value, toDate.value)
      ensures !(fromDate.Some? && toDate.Some?) ==> days == old(days)
    {
      if fromDate.Some? && toDate.Some? {
        days := DayCount(fromDate.value, toDate.value);
      }
    }

    /** Editing the "from" date, followed by the date effect. */
    method SetFromDate(d: Option<int>)
      requires Valid()
      modifies this`fromDate, this`days
      ensures Valid()
      ensures fromDate == d
      ensures d.Some? && toDate.Some? ==> days == DayCount(d.value, toDate.value)
      ensures !(d.Some? && toDate.Some?) ==> days == old(days)
    {
      fromDate := d;
      UpdateDays();
    }

    /** Editing the "to" date, followed by the date effect. */
    method SetToDate(d: Option<int>)
      requires Valid()
      modifies this`toDate, this`days
      ensures Valid()
      ensures toDate == d
      ensures fromDate.Some? && d.Some? ==> days == DayCount(fromDate.value, d.value)
      ensures !(fromDate.Some? && d.Some?) ==> days == old(days)
    {
      toDate := d;
      UpdateDays();
    }

    /** `calculate`, given the entry's timestamp `id`. With amount, rate or
        day count missing it raises the alert and changes nothing; otherwise
        it shows the rounded interest and total and records them as the
        newest history entry. */
    method Calculate(id: int) returns (alerted: bool)
      requires Valid()
      modifies this`interest, this`totalAmount, this`history, this`log
      ensures Valid()
      ensures alerted <==> DateRange(amount, interestRate, rateType, interestType, days).MissingField?
      ensures alerted ==> interest == old(interest) && totalAmount == old(totalAmount)
                          && history == old(history) && log == old(log)
      ensures !alerted ==>
        var f := DateRange(amount, interestRate, rateType, interestType, days).value;
        var e := Entry(id, amount.value, interestRate.value, rateType, interestType,
                       fromDate, toDate, days, Round2(f.interest), Round2(f.total));
        && interest == Round2(f.interest)
        && totalAmount == Round2(f.total)
        && history == AddEntry(old(history), e)
        && log == old(log) + [e]
    {
      var r := DateRange(amount, interestRate, rateType, interestType, days);
      if r.MissingField? {
        return true;
      }
      var f := r.value;
      interest := Round2(f.interest);
      totalAmount := Round2(f.total);
      var e := Entry(id, amount.value, interestRate.value, rateType, interestType,
                     fromDate, toDate, days, interest, totalAmount);
      AddEntryKeepsRecent(log, e);
      history := AddEntry(history, e);
      log := log + [e];
      return false;
    }

    /** `resetForm`: the date-range calculator's fields return to their
        initial values; its history and the other calculators are kept. */
    method ResetForm()
      requires Valid()
      modifies this`amount, this`interestRate, this`interestType, this`rateType,
               this`fromDate, this`toDate, this`days, this`interest, this`totalAmount
      ensures Valid()
      ensures amount == None && interestRate == None && interestType == Per100 && rateType == Annual
      ensures fromDate == None && toDate == None && days == 0
      ensures interest == 0.0 && totalAmount == 0.0
    {
      amount := None;
      interestRate := None;
      interestType := Per100;
      rateType := Annual;
      fromDate := None;
      toDate := None;
      days := 0;
      interest := 0.0;
      totalAmount := 0.0;
    }

    /** `calculateInterestPerHundred`: alerts and changes nothing when a
        field is empty; otherwise shows the principal with the rounded
        interest and total. The history is not touched. */
    method CalculateInterestPerHundred() returns (alerted: bool)
      modifies this`resultPerHundred
      ensures alerted <==> PerHundred(principalPerHundred, ratePerHundred, timeMonths).MissingField?
      ensures alerted ==> resultPerHundred == old(resultPerHundred)
      ensures !alerted ==>
        resultPerHundred == Some(Rounded(PerHundred(principalPerHundred, ratePerHundred, timeMonths).value))
    {
      var r := PerHundred(principalPerHundred, ratePerHundred, timeMonths);
      if r.MissingField? {
        return true;
      }
      resultPerHundred := Some(Rounded(r.value));
      return false;
    }

    /** `calculateInterestPerTenThousand`: alerts and changes nothing when a
        field is empty; otherwise shows the principal with the rounded
        deduction and remainder. The history is not touched. */
    method CalculateInterestPerTenThousand() returns (alerted: bool)
      modifies this`resultTenThousand
      ensures alerted <==> PerTenThousand(principalTenThousand, ratePerTenThousand).MissingField?
      ensures alerted ==> resultTenThousand == old(resultTenThousand)
      ensures !alerted ==>
        resultTenThousand == Some(Rounded(PerTenThousand(principalTenThousand, ratePerTenThousand).value))
    {
      var r := PerTenThousand(principalTenThousand, ratePerTenThousand);
      if r.MissingField? {
        return true;
      }
      resultTenThousand := Some(Rounded(r.value));
      return false;
    }

    /** `clearHistory`: the history becomes empty. */
    method ClearHistory()
      requires Valid()
      modifies this`history, this`log
      ensures Valid()
      ensures history == [] && log == []
    {
      history := [];
      log := [];
    }

    /** `resetCalculator1`: calculator 1's fields return to their initial values. */
    method ResetCalculator1()
      modifies this`principalPerHundred, this`ratePerHundred, this`timeMonths, this`resultPerHundred
      ensures principalPerHundred == None && ratePerHundred == None && timeMonths == None
      ensures resultPerHundred == None
    {
      principalPerHundred := None;
      ratePerHundred := None;
      timeMonths := None;
      resultPerHundred := None;
    }

    /** `resetCalculator2`: calculator 2's fields return to their initial values. */
    method ResetCalculator2()
      modifies this`principalTenThousand, this`ratePerTenThousand, this`resultTenThousand
      ensures principalTenThousand == None && ratePerTenThousand == None && resultTenThousand == None
    {
      principalTenThousand := None;
      ratePerTenThousand := None;
      resultTenThousand := None;
    }
  }

  /** A session as a user runs it: two dates a year apart, an amount and a
      rate, then `calculate`. Everything asserted here follows from the
      handlers' contracts alone. */
  method Session(id: int, from: int)
  {
    var c := new InterestCalculator();
    c.amount := Some(1000.0);
    c.interestRate := Some(5.0);
    c.SetFromDate(Some(from));
    assert c.days == 0;
    c.SetToDate(Some(from + 365 * MsPerDay));
    assert c.days == 365;
    var alerted := c.Calculate(id);
    DateRangeExample();
    assert !alerted && c.interest == 50.0 && c.totalAmount == 1050.0;
    assert |c.history| == 1 && c.history[0].id == id;
    c.ResetForm();
    alerted := c.Calculate(id + 1);
    assert alerted && |c.history| == 1;
    c.ClearHistory();
    assert c.history == [];
  }
}
