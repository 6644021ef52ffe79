/** Charge pattern 0: rolling periods of 24 hours from the moment of entry. */
module Pattern0 {
  import opened Wrappers
  import opened Arithmetic
  import opened Periods
  import opened Rules
  import opened Days
  import opened ParkingTimes
  import opened Bills

  /** Where charging begins: the first day's free time is skipped in the mode that does not charge it. */
  function ChargedFrom(rule: Rule, period: Period, mode: int, firstDay: bool): int {
    if firstDay && mode == FREE_TIME_NO_CHARGE then period.begin + rule.freeTimeLength * 60 else period.begin
  }

  /** The fee of one period charged on its own. */
  ghost function PeriodFee(rule: Rule, period: Period, mode: int, vehicleType: int, firstDay: bool): real {
    var begin := ChargedFrom(rule, period, mode, firstDay);
    if begin >= period.end then 0.0 else
      var tariff := rule.For(vehicleType);
      var time := Borrowed(Chargeable(rule, begin, period.end), BandAt(rule, begin), tariff);
      CalOneDayCharge(TruncDiv(time.daylight, 60), TruncDiv(time.night, 60), tariff)
  }

  /** What charging a stretch of time would cost without the cap. */
  ghost function UncappedPeriodFee(rule: Rule, charged: Period, vehicleType: int): real {
    if charged.begin >= charged.end then 0.0 else
      var tariff := rule.For(vehicleType);
      var time := Borrowed(Chargeable(rule, charged.begin, charged.end), BandAt(rule, charged.begin), tariff);
      UncappedFee(TruncDiv(time.daylight, 60), TruncDiv(time.night, 60), tariff)
  }

  lemma CappedPeriodFee(rule: Rule, period: Period, mode: int, vehicleType: int, firstDay: bool)
    ensures var charged := Period(ChargedFrom(rule, period, mode, firstDay), period.end);
      var fee, cap := UncappedPeriodFee(rule, charged, vehicleType), rule.For(vehicleType).maxFee;
      PeriodFee(rule, period, mode, vehicleType, firstDay) == if fee > cap then cap else fee
  {
    hide Chargeable, Borrowed, TruncDiv, UncappedFee;
  }

  method CalChargeByTime(rule: Rule, period: Period, mode: int, vehicleType: int, firstDay: bool, bill: Bill)
    returns (fee: real)
    requires period.begin < period.end <= period.begin + DAY
    modifies bill
    ensures fee == PeriodFee(rule, period, mode, vehicleType, firstDay)
    ensures bill.View() ==
      old(bill.View()).Add([DetailOf(period, None, fee, rule.id)])
        .(freeDuration := if firstDay then rule.freeTimeLength else old(bill.freeDuration))
    ensures bill.feeExemption == old(bill.feeExemption)
  {
    hide Chargeable, CalOneDayCharge, Lend, TruncDiv;
    var periodBegin, periodEnd := period.begin, period.end;
    var detail := DetailOf(period, None, 0.0, rule.id);
    if firstDay {
      bill.freeDuration := rule.freeTimeLength;
      if mode == FREE_TIME_NO_CHARGE {
        periodBegin := periodBegin + rule.freeTimeLength * 60;
        if periodBegin >= periodEnd {
          bill.details := bill.details + [detail];
          return 0.0;
        }
      }
    }
    var date := DateOf(periodBegin);
    var time := CalInvalidParkingTime(Period(periodBegin, periodEnd), date, date + 1, rule);
    assert TimeOfDay(TimeOfDay(periodBegin)) == TimeOfDay(periodBegin);
    time.BorrowTime(vehicleType, TimeOfDay(periodBegin), rule);
    var daylightMinutes := TruncDiv(time.daylight, 60);
    var nightMinutes := TruncDiv(time.night, 60);
    if vehicleType == LARGE_VEHICLE {
      fee := CalOneDayCharge(daylightMinutes, nightMinutes, rule.big);
    } else {
      fee := CalOneDayCharge(daylightMinutes, nightMinutes, rule.small);
    }
    bill.details := bill.details + [detail.(fee := fee)];
  }

  // ---------- the whole stay ----------

  /** Every full period is charged the way the first one is; the last one never loses free time. */
  ghost function Fee0(rule: Rule, stay: Stay, i: nat): real {
    PeriodFee(rule, RollingDay(stay.enter, stay.exit, i), stay.mode, stay.vehicleType,
              i == 0 || i < RollingCount(stay.enter, stay.exit) - 1)
  }

  ghost function Detail0(rule: Rule, stay: Stay, i: nat): Detail {
    DetailOf(RollingDay(stay.enter, stay.exit, i), None, Fee0(rule, stay, i), rule.id)
  }

  /** The details of the first n periods, each with its own fee. */
  ghost function Details0(rule: Rule, stay: Stay, n: nat): (details: seq<Detail>)
    ensures |details| == n
    ensures forall i | 0 <= i < n :: details[i] == Detail0(rule, stay, i)
  {
    if n == 0 then [] else Details0(rule, stay, n - 1) + [Detail0(rule, stay, n - 1)]
  }

  ghost function Charge0(book: RuleBook, stay: Stay, discount: real, bill: Ledger): Ledger {
    var n := RollingCount(stay.enter, stay.exit);
    if n == 0 then NoCharge(stay, bill)
    else if n > MAX_PERIODS then TooDays(book, stay, n, bill)
    else match book.at(stay.enter)
      case None => NoCharge(stay, bill)
      case Some(rule) =>
        Settle(bill.Add(Details0(rule, stay, n)).(freeDuration := rule.freeTimeLength),
               SumFees(Details0(rule, stay, n)), discount)
  }

  lemma DetailsStep(rule: Rule, stay: Stay, n: nat, bill: Ledger)
    ensures bill.Add(Details0(rule, stay, n)).Add([Detail0(rule, stay, n)]) == bill.Add(Details0(rule, stay, n + 1))
    ensures SumFees(Details0(rule, stay, n + 1)) == SumFees(Details0(rule, stay, n)) + Fee0(rule, stay, n)
  {
    hide PeriodFee, RollingDay, RollingCount;
    var less, more := Details0(rule, stay, n), Details0(rule, stay, n + 1);
    assert more[..n] == less;
    assert bill.details + less + [Detail0(rule, stay, n)] == bill.details + more;
  }

  /** The loop reuses the first period's fee for the middle periods; the contract charges each
      period on its own. */
  method ChargeByTime0(book: RuleBook, stay: Stay, discount: real, bill: Bill) returns (fee: real)
    modifies bill
    ensures bill.View() == Charge0(book, stay, discount, old(bill.View()))
    ensures bill.feeExemption == old(bill.feeExemption)
    ensures fee == bill.totalFee
  {
    hide PeriodFee, SumFees, Details0, RollingDay, RollingCount, CalOneDayCharge, TooDaysFee;
    var periods := DivideTimeByDay0(stay.enter, stay.exit);
    if |periods| == 0 {
      NoChargeBill(stay, bill);
      return 0.0;
    }
    if |periods| > MAX_PERIODS {
      fee := CalChargeTooDays(book, stay, |periods|, bill);
      return;
    }
    if book.at(stay.enter).None? {
      NoChargeBill(stay, bill);
      return 0.0;
    }
    var total := ChargePeriods(book.at(stay.enter).value, stay, periods, bill);
    fee := total * discount;
    bill.beforeDiscount := total;
    bill.totalFee := fee;
  }

  method ChargePeriods(rule: Rule, stay: Stay, periods: seq<Period>, bill: Bill) returns (total: real)
    requires periods == RollingDays(stay.enter, stay.exit) && 0 < |periods|
    modifies bill
    ensures bill.View() == old(bill.View()).Add(Details0(rule, stay, |periods|))
                             .(freeDuration := rule.freeTimeLength)
    ensures bill.feeExemption == old(bill.feeExemption)
    ensures total == SumFees(Details0(rule, stay, |periods|))
  {
    assert SumFees(Details0(rule, stay, 0)) == 0.0;
    hide PeriodFee, RollingCount, RollingDay, SumFees;
    RollingDayFits(stay.enter, stay.exit, 0);
    RollingDayFits(stay.enter, stay.exit, |periods| - 1);
    bill.freeDuration := rule.freeTimeLength;
    ghost var start := bill.View();
    DetailsStep(rule, stay, 0, start);
    var firstDayFee := CalChargeByTime(rule, periods[0], stay.mode, stay.vehicleType, true, bill);
    assert bill.View() == start.Add([]).Add([Detail0(rule, stay, 0)]);
    total := firstDayFee;
    if |periods| > 1 {
      assert SumFees(Details0(rule, stay, 1)) == firstDayFee;
      total := ChargeMiddleDays(rule, stay, periods, firstDayFee, start, bill);
      DetailsStep(rule, stay, |periods| - 1, start);
      var lastDayFee :=
        CalChargeByTime(rule, periods[|periods| - 1], stay.mode, stay.vehicleType, false, bill);
      total := total + lastDayFee;
    }
  }

  method ChargeMiddleDays(rule: Rule, stay: Stay, periods: seq<Period>, firstDayFee: real, ghost start: Ledger,
                          bill: Bill)
    returns (total: real)
    requires periods == RollingDays(stay.enter, stay.exit) && 1 < |periods|
    requires firstDayFee == Fee0(rule, stay, 0) == SumFees(Details0(rule, stay, 1))
    requires bill.View() == start.Add(Details0(rule, stay, 1))
    modifies bill
    ensures bill.View() == start.Add(Details0(rule, stay, |periods| - 1))
    ensures bill.feeExemption == old(bill.feeExemption)
    ensures total == SumFees(Details0(rule, stay, |periods| - 1))
  {
    hide PeriodFee, Fee0, RollingCount, RollingDay, SumFees, Details0, DetailOf;
    total := firstDayFee;
    for i := 1 to |periods| - 1
      invariant total == SumFees(Details0(rule, stay, i))
      invariant bill.View() == start.Add(Details0(rule, stay, i))
      invariant bill.feeExemption == old(bill.feeExemption)
    {
      var detail := DetailOf(periods[i], None, firstDayFee, rule.id);
      MiddleDay(rule, stay, i, start, firstDayFee, detail);
      bill.details := bill.details + [detail];
      total := total + firstDayFee;
    }
  }

  lemma MiddleDay(rule: Rule, stay: Stay, i: nat, bill: Ledger, fee: real, detail: Detail)
    requires i < RollingCount(stay.enter, stay.exit) - 1 && fee == Fee0(rule, stay, 0)
    requires detail == DetailOf(RollingDay(stay.enter, stay.exit, i), None, fee, rule.id)
    ensures bill.Add(Details0(rule, stay, i)).Add([detail]) == bill.Add(Details0(rule, stay, i + 1))
    ensures SumFees(Details0(rule, stay, i)) + fee == SumFees(Details0(rule, stay, i + 1))
  {
    FullDaysAlike(rule, stay, i);
    hide PeriodFee, RollingDay, RollingCount, SumFees, Details0;
    DetailsStep(rule, stay, i, bill);
  }

  /** A period moved by whole days costs the same. */
  lemma PeriodFeeShift(rule: Rule, period: Period, mode: int, vehicleType: int, firstDay: bool, days: int)
    ensures PeriodFee(rule, Period(period.begin + days * DAY, period.end + days * DAY), mode, vehicleType, firstDay)
            == PeriodFee(rule, period, mode, vehicleType, firstDay)
  {
    hide Chargeable, CalOneDayCharge, Borrowed, TruncDiv;
    var begin := ChargedFrom(rule, period, mode, firstDay);
    ChargeableShift(rule, begin, period.end, days);
    DivModUnique(begin + days * DAY, DAY, begin / DAY + days, begin % DAY);
  }

  /** All full periods of a stay have the first period's fee. */
  lemma FullDaysAlike(rule: Rule, stay: Stay, i: nat)
    requires i < RollingCount(stay.enter, stay.exit) - 1
    ensures Fee0(rule, stay, i) == Fee0(rule, stay, 0)
  {
    hide PeriodFee;
    PeriodFeeShift(rule, RollingDay(stay.enter, stay.exit, 0), stay.mode, stay.vehicleType, true, i);
    assert RollingDay(stay.enter, stay.exit, i) == Period(stay.enter + i * DAY, stay.enter + DAY + i * DAY);
  }

  // ---------- reusing the first day's fee ----------

  /** Period i charged on its own, with free time taken off the first period only. */
  ghost function SeparateFee(rule: Rule, stay: Stay, i: nat): real {
    PeriodFee(rule, RollingDay(stay.enter, stay.exit, i), stay.mode, stay.vehicleType, i == 0)
  }

  ghost function SeparateFees(rule: Rule, stay: Stay, n: nat): real {
    if n == 0 then 0.0 else SeparateFees(rule, stay, n - 1) + SeparateFee(rule, stay, n - 1)
  }

  /** A full day from the time of day of entry, losing no free time. */
  ghost function FullDayFee(rule: Rule, stay: Stay): real {
    PeriodFee(rule, Period(stay.enter, stay.enter + DAY), stay.mode, stay.vehicleType, false)
  }

  lemma SeparateFullDay(rule: Rule, stay: Stay, i: nat)
    requires 0 < i < RollingCount(stay.enter, stay.exit) - 1
    ensures SeparateFee(rule, stay, i) == FullDayFee(rule, stay)
  {
    hide PeriodFee;
    PeriodFeeShift(rule, Period(stay.enter, stay.enter + DAY), stay.mode, stay.vehicleType, false, i);
    assert RollingDay(stay.enter, stay.exit, i) == Period(stay.enter + i * DAY, stay.enter + DAY + i * DAY);
  }

  /** The gap of every period that lies strictly between the first and the last. */
  function Gaps(n: nat, count: nat, gap: real): real {
    if n < 2 || n == count then (if n == 0 || n == 1 then 0.0 else Gaps(n - 1, count, gap))
    else Gaps(n - 1, count, gap) + gap
  }

  /** Every reused fee misses the separate charge by the same amount. */
  lemma {:induction false} ReuseGap(rule: Rule, stay: Stay, n: nat)
    requires n <= RollingCount(stay.enter, stay.exit)
    ensures SeparateFees(rule, stay, n) == SumFees(Details0(rule, stay, n)) +
            Gaps(n, RollingCount(stay.enter, stay.exit), FullDayFee(rule, stay) - Fee0(rule, stay, 0))
  {
    hide PeriodFee, RollingDay, RollingCount, SeparateFee, Fee0, FullDayFee, Details0, SumFees, DetailOf;
    NothingReused(rule, stay);
    if n > 0 {
      var count := RollingCount(stay.enter, stay.exit);
      ReuseGap(rule, stay, n - 1);
      DetailsStep(rule, stay, n - 1, Ledger([], 0, 0.0, 0.0, 1.0));
      if 1 < n < count {
        FullDaysAlike(rule, stay, n - 1);
        SeparateFullDay(rule, stay, n - 1);
      } else {
        SeparateEnds(rule, stay, n - 1);
      }
    }
  }

  lemma NothingReused(rule: Rule, stay: Stay)
    ensures SumFees(Details0(rule, stay, 0)) == 0.0
  {
  }

  lemma SeparateEnds(rule: Rule, stay: Stay, i: nat)
    requires i == 0 || i == RollingCount(stay.enter, stay.exit) - 1
    ensures Fee0(rule, stay, i) == SeparateFee(rule, stay, i)
  {
    hide PeriodFee, RollingDay, RollingCount;
  }

  lemma {:induction false} GapsVanish(n: nat, count: nat, gap: real)
    requires n <= count
    ensures Gaps(n, count, gap) == 0.0 <==> n < 2 || (n == count == 2) || gap == 0.0
    ensures gap >= 0.0 ==> Gaps(n, count, gap) >= 0.0
    ensures gap <= 0.0 ==> Gaps(n, count, gap) <= 0.0
  {
    if n > 0 {
      GapsVanish(n - 1, count, gap);
    }
  }

  lemma NoGap(rule: Rule, stay: Stay)
    requires stay.mode != FREE_TIME_NO_CHARGE && stay.enter + DAY <= stay.exit
    ensures FullDayFee(rule, stay) == Fee0(rule, stay, 0)
  {
    hide Chargeable, CalOneDayCharge, Borrowed, TruncDiv;
  }

  /** The total is the sum of separately charged periods exactly when nothing is reused, or what
      is reused is a full day's fee. */
  lemma ReuseSoundFees(rule: Rule, stay: Stay)
    requires stay.enter < stay.exit
    ensures var n := RollingCount(stay.enter, stay.exit);
      SumFees(Details0(rule, stay, n)) == SeparateFees(rule, stay, n)
      <==> (|| stay.mode != FREE_TIME_NO_CHARGE
            || stay.exit - stay.enter <= 2 * DAY
            || PeriodFee(rule, Period(stay.enter, stay.enter + DAY), stay.mode, stay.vehicleType, true)
               == FullDayFee(rule, stay))
  {
    hide PeriodFee, Details0, SumFees, SeparateFees;
    var n := RollingCount(stay.enter, stay.exit);
    var gap := FullDayFee(rule, stay) - Fee0(rule, stay, 0);
    if stay.mode != FREE_TIME_NO_CHARGE && n > 2 {
      NoGap(rule, stay);
    }
    ReuseGap(rule, stay, n);
    GapsVanish(n, n, gap);
  }

  /** It is exactly when no free time is taken off, no period lies strictly between the first and
      the last, or the free time does not show: a full day costs as much without it before the
      cap, or reaches the cap either way. A rule without free time always does. */
  lemma ReuseSound(rule: Rule, stay: Stay)
    requires stay.enter < stay.exit
    ensures var n := RollingCount(stay.enter, stay.exit);
      var whole, cap := Period(stay.enter, stay.enter + DAY), rule.For(stay.vehicleType).maxFee;
      var full := UncappedPeriodFee(rule, whole, stay.vehicleType);
      var rest := UncappedPeriodFee(rule, Period(stay.enter + rule.freeTimeLength * 60, whole.end), stay.vehicleType);
      && (SumFees(Details0(rule, stay, n)) == SeparateFees(rule, stay, n)
          <==> (|| stay.mode != FREE_TIME_NO_CHARGE
                || stay.exit - stay.enter <= 2 * DAY
                || full == rest
                || (full >= cap && rest >= cap)))
      && (rule.freeTimeLength == 0 ==> full == rest)
  {
    hide PeriodFee, UncappedPeriodFee, SumFees, Details0, SeparateFees;
    var whole := Period(stay.enter, stay.enter + DAY);
    ReuseSoundFees(rule, stay);
    CappedPeriodFee(rule, whole, stay.mode, stay.vehicleType, true);
    CappedPeriodFee(rule, whole, stay.mode, stay.vehicleType, false);
  }
}
