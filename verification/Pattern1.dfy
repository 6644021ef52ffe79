/** Charge pattern 1: calendar days, with time borrowed from one day to the next. */
module Pattern1 {
  import opened Wrappers
  import opened Arithmetic
  import opened Periods
  import opened Rules
  import opened Days
  import opened ParkingTimes
  import opened Bills

  /** What one day hands to the next: borrowed seconds, whether free time is still due, and the
      bill's free duration. */
  datatype Carry = Carry(borrowed: int, firstDay: bool, freeDuration: int)

  /** Both sides of a day after completion, and the loan that the next day must repay. */
  datatype Completed = Completed(daylightMinutes: int, nightMinutes: int, borrowed: int) {
    function Minutes(): int { daylightMinutes + nightMinutes }
  }

  /** Daylight fills its last unit from the night, then the night fills its own from tomorrow.
      When the night is too short for daylight's loan the old debt stays. */
  function Complete(time: Split, tariff: Tariff, owed: int): Completed {
    var loan := 60 * CompleteTime(TruncDiv(time.daylight, 60), tariff.dayUnit);
    var daylight, night := time.daylight + loan, time.night - loan;
    if night < 0 then
      Completed(TruncDiv(daylight, 60), 0, owed)
    else
      var next := 60 * CompleteTime(TruncDiv(night, 60), tariff.nightUnit);
      Completed(TruncDiv(daylight, 60), TruncDiv(night + next, 60), next)
  }

  datatype Visit = Visit(carry: Carry, fee: real, ruleId: string, minutes: int)

  /** One day of the loop: what is carried on, and what is billed. */
  ghost function VisitDay(book: RuleBook, stay: Stay, period: Period, carry: Carry): Visit {
    var begin := period.begin + carry.borrowed;
    if begin >= period.end then Visit(carry, 0.0, "", 0)
    else match book.on(DateOf(begin))
      case None => Visit(carry, 0.0, "", 0)
      case Some(rule) =>
        var free := if carry.firstDay then rule.freeTimeLength else carry.freeDuration;
        var start := if carry.firstDay && stay.mode == FREE_TIME_NO_CHARGE then begin + free * 60 else begin;
        if start >= period.end then Visit(Carry(carry.borrowed, false, free), 0.0, rule.id, 0)
        else
          var tariff := rule.For(stay.vehicleType);
          var day := Complete(Chargeable(rule, start, period.end), tariff, carry.borrowed);
          Visit(Carry(day.borrowed, false, free),
                CalOneDayCharge(day.daylightMinutes, day.nightMinutes, tariff), rule.id, day.Minutes())
  }

  function DayDetail(period: Period, borrowed: int, visit: Visit): Detail {
    DetailOf(period, Some(TruncDiv(borrowed, 60)), visit.fee, visit.ruleId)
  }

  datatype Progress = Progress(carry: Carry, details: seq<Detail>, minutes: int)

  /** The loop after its first n days. */
  ghost function Run(book: RuleBook, stay: Stay, freeDuration: int, n: nat): (run: Progress)
    ensures |run.details| == n
  {
    if n == 0 then Progress(Carry(0, true, freeDuration), [], 0)
    else
      var before := Run(book, stay, freeDuration, n - 1);
      var period := CalendarDay(stay.enter, stay.exit, n - 1);
      var visit := VisitDay(book, stay, period, before.carry);
      Progress(visit.carry,
               before.details + [DayDetail(period, before.carry.borrowed, visit)],
               before.minutes + visit.minutes)
  }

  /** A bill after the loop has written its details. */
  function Recorded(bill: Ledger, run: Progress): Ledger {
    bill.Add(run.details).(freeDuration := run.carry.freeDuration)
  }

  ghost function Charge1(book: RuleBook, stay: Stay, discount: real, bill: Ledger): Ledger {
    var n := CalendarCount(stay.enter, stay.exit);
    if n > MAX_PERIODS then TooDays(book, stay, n, bill)
    else
      var run := Run(book, stay, bill.freeDuration, n);
      Settle(Recorded(bill, run), SumFees(run.details), discount)
  }

  /** The body of the day loop. */
  method ChargeDay(book: RuleBook, stay: Stay, period: Period, borrowed: int, firstDay: bool, bill: Bill)
    returns (borrowed': int, firstDay': bool, fee: real, ghost visit: Visit)
    requires borrowed >= 0
    requires period.begin < period.end ==> period.end <= DayStart(DateOf(period.begin) + 1)
    modifies bill
    ensures visit == VisitDay(book, stay, period, Carry(borrowed, firstDay, old(bill.freeDuration)))
    ensures visit.carry == Carry(borrowed', firstDay', bill.freeDuration) && visit.fee == fee
    ensures borrowed' >= 0
    ensures bill.View() ==
      old(bill.View()).Add([DayDetail(period, borrowed, visit)]).(freeDuration := bill.freeDuration)
    ensures bill.feeExemption == old(bill.feeExemption)
  {
    hide TruncDiv, Chargeable, CalOneDayCharge, Complete, DateOf, DayStart;
    ghost var carry := Carry(borrowed, firstDay, bill.freeDuration);
    visit := VisitDay(book, stay, period, carry);
    borrowed', firstDay', fee := borrowed, firstDay, 0.0;
    var detail := DetailOf(period, Some(TruncDiv(borrowed, 60)), 0.0, "");
    var periodBegin, periodEnd := period.begin + borrowed, period.end;
    if periodBegin >= periodEnd {
      bill.details := bill.details + [detail];
      return;
    }
    var date := DateOf(periodBegin);
    SameDate(period, periodBegin);
    if book.on(date).None? {
      bill.details := bill.details + [detail];
      return;
    }
    var rule := book.on(date).value;
    detail := detail.(ruleId := rule.id);
    if firstDay {
      firstDay' := false;
      bill.freeDuration := rule.freeTimeLength;
      if stay.mode == FREE_TIME_NO_CHARGE {
        periodBegin := periodBegin + rule.freeTimeLength * 60;
        if periodBegin >= periodEnd {
          bill.details := bill.details + [detail];
          return;
        }
      }
    }
    var daylight, night;
    daylight, night, borrowed' := CompleteDay(Period(periodBegin, periodEnd), date, rule, stay.vehicleType, borrowed);
    if stay.vehicleType == LARGE_VEHICLE {
      fee := CalOneDayCharge(daylight, night, rule.big);
    } else {
      fee := CalOneDayCharge(daylight, night, rule.small);
    }
    bill.details := bill.details + [detail.(fee := fee)];
  }

  /** The minutes one day is charged for, and the time it borrows from the next. */
  method CompleteDay(period: Period, date: int, rule: Rule, vehicleType: int, borrowed: int)
    returns (daylightMinutes: int, nightMinutes: int, borrowed': int)
    requires period.begin <= period.end && 0 <= borrowed
    requires DayStart(date) <= period.begin && period.end <= DayStart(date + 1)
    ensures Completed(daylightMinutes, nightMinutes, borrowed') ==
            Complete(Chargeable(rule, period.begin, period.end), rule.For(vehicleType), borrowed)
    ensures borrowed' >= 0
  {
    hide TruncDiv, Chargeable, CompleteTime, DayStart;
    TruncZero();
    var daylight, night := CalDayParkingTime(period, date, rule);
    borrowed' := borrowed;
    var dayUnit := if vehicleType == LARGE_VEHICLE then rule.big.dayUnit else rule.small.dayUnit;
    var daylightBorrowed := CompleteTime(TruncDiv(daylight, 60), dayUnit);
    daylight := daylight + daylightBorrowed * 60;
    night := night - daylightBorrowed * 60;
    if night < 0 {
      night := 0;
    } else {
      var nightUnit := if vehicleType == LARGE_VEHICLE then rule.big.nightUnit else rule.small.nightUnit;
      var nightBorrowed := CompleteTime(TruncDiv(night, 60), nightUnit);
      CompleteTimeFills(TruncDiv(night, 60), nightUnit);
      borrowed' := nightBorrowed * 60;
      night := night + borrowed';
    }
    daylightMinutes, nightMinutes := TruncDiv(daylight, 60), TruncDiv(night, 60);
  }

  /** Borrowed time never moves the begin of a charged period to another date. */
  lemma SameDate(period: Period, begin: int)
    requires period.begin <= begin < period.end <= DayStart(DateOf(period.begin) + 1)
    ensures DateOf(begin) == DateOf(period.begin)
    ensures DayStart(DateOf(begin)) <= begin && period.end <= DayStart(DateOf(begin) + 1)
  {
  }

  lemma TruncZero()
    ensures TruncDiv(0, 60) == 0
  {
  }

  lemma RunEmpty(book: RuleBook, stay: Stay, free: int)
    ensures var run := Run(book, stay, free, 0);
      run == Progress(Carry(0, true, free), [], 0) && SumFees(run.details) == 0.0
  {
  }

  lemma RecordedNothing(bill: Ledger)
    ensures Recorded(bill, Progress(Carry(0, true, bill.freeDuration), [], 0)) == bill
  {
    assert bill.details + [] == bill.details;
  }

  lemma RunStep(book: RuleBook, stay: Stay, free: int, n: nat, bill: Ledger)
    ensures var before, after := Run(book, stay, free, n), Run(book, stay, free, n + 1);
      var period := CalendarDay(stay.enter, stay.exit, n);
      var visit := VisitDay(book, stay, period, before.carry);
      var detail := DayDetail(period, before.carry.borrowed, visit);
      && after.carry == visit.carry
      && after.details == before.details + [detail]
      && Recorded(bill, before).Add([detail]).(freeDuration := visit.carry.freeDuration) == Recorded(bill, after)
      && SumFees(after.details) == SumFees(before.details) + visit.fee
      && after.minutes == before.minutes + visit.minutes
  {
    hide VisitDay, CalendarDay, TruncDiv;
    var before, after := Run(book, stay, free, n), Run(book, stay, free, n + 1);
    assert after.details[..n] == before.details;
    assert bill.details + before.details + [after.details[n]] == bill.details + after.details;
  }

  method ChargeByTime1(book: RuleBook, stay: Stay, discount: real, bill: Bill) returns (fee: real)
    modifies bill
    ensures bill.View() == Charge1(book, stay, discount, old(bill.View()))
    ensures bill.feeExemption == old(bill.feeExemption)
    ensures fee == bill.totalFee
  {
    hide Run, SumFees, CalendarCount, CalendarDay, TooDays;
    var periods := DivideTimeByDay1(stay.enter, stay.exit);
    if |periods| > MAX_PERIODS {
      fee := CalChargeTooDays(book, stay, |periods|, bill);
      return;
    }
    var total := ChargeDays(book, stay, periods, bill);
    fee := total * discount;
    bill.beforeDiscount := total;
    bill.totalFee := fee;
  }

  lemma CalendarDayFits(begin: int, end: int, i: nat)
    requires i < CalendarCount(begin, end)
    ensures var p := CalendarDay(begin, end, i);
      p.begin < p.end ==> p.end <= DayStart(DateOf(p.begin) + 1)
  {
  }

  method ChargeDays(book: RuleBook, stay: Stay, periods: seq<Period>, bill: Bill) returns (total: real)
    requires periods == CalendarDays(stay.enter, stay.exit)
    modifies bill
    ensures var run := Run(book, stay, old(bill.freeDuration), |periods|);
      && bill.View() == Recorded(old(bill.View()), run)
      && total == SumFees(run.details)
    ensures bill.feeExemption == old(bill.feeExemption)
  {
    hide Run, VisitDay, SumFees, DayDetail, CalendarDay, CalendarCount, DateOf, DayStart, Recorded;
    total := 0.0;
    var borrowed, firstDay := 0, true;
    ghost var start := bill.View();
    ghost var run := Run(book, stay, start.freeDuration, 0);
    RunEmpty(book, stay, start.freeDuration);
    RecordedNothing(start);
    for i := 0 to |periods|
      invariant run == Run(book, stay, start.freeDuration, i)
      invariant run.carry == Carry(borrowed, firstDay, bill.freeDuration) && borrowed >= 0
      invariant bill.View() == Recorded(start, run)
      invariant bill.feeExemption == old(bill.feeExemption)
      invariant total == SumFees(run.details)
    {
      CalendarDayFits(stay.enter, stay.exit, i);
      RunStep(book, stay, start.freeDuration, i, start);
      var fee;
      ghost var visit;
      borrowed, firstDay, fee, visit := ChargeDay(book, stay, periods[i], borrowed, firstDay, bill);
      total := total + fee;
      run := Run(book, stay, start.freeDuration, i + 1);
    }
  }

  // ---------- the bill's free duration ----------

  /** What the bill said before only shows in the free duration that is carried on. */
  lemma {:induction false} RunIgnoresBill(book: RuleBook, stay: Stay, free: int, free': int, n: nat)
    ensures var a, b := Run(book, stay, free, n), Run(book, stay, free', n);
      a.details == b.details && b.carry == a.carry.(freeDuration := b.carry.freeDuration)
  {
    hide VisitDay, CalendarDay, DayDetail;
    if n > 0 {
      RunIgnoresBill(book, stay, free, free', n - 1);
      var a, b := Run(book, stay, free, n - 1), Run(book, stay, free', n - 1);
      VisitIgnoresBill(book, stay, CalendarDay(stay.enter, stay.exit, n - 1), a.carry, b.carry.freeDuration);
    }
  }

  lemma VisitIgnoresBill(book: RuleBook, stay: Stay, period: Period, carry: Carry, free: int)
    ensures var a := VisitDay(book, stay, period, carry);
      var b := VisitDay(book, stay, period, carry.(freeDuration := free));
      b == a.(carry := a.carry.(freeDuration := b.carry.freeDuration))
      && forall borrowed :: DayDetail(period, borrowed, a) == DayDetail(period, borrowed, b)
  {
    hide Chargeable, Complete, CalOneDayCharge, DateOf, TruncDiv;
  }
}
