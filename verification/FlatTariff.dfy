/** When day and night share one unit u and one rate r and the daily cap cannot bind, both
    charge patterns are the tariff "r for every unit begun". */
module FlatTariff {
  import opened Arithmetic
  import opened Periods
  import opened Rules
  import opened Days
  import opened ParkingTimes
  import opened Bills
  import opened Conservation
  import Pattern0
  import opened Pattern1
  import Charges

  /** One unit, one rate, and a cap that leaves room for every unit a day can hold. */
  predicate Flat(tariff: Tariff, u: Unit, r: Money) {
    && tariff.dayUnit == tariff.nightUnit == u
    && tariff.dayRate == tariff.nightRate == r
    && tariff.maxFee >= Times(CeilDiv(MINUTES_PER_DAY, u), r)
  }

  /** A day that bills whole units under a flat tariff costs r for each. */
  lemma FlatFee(daylight: int, night: int, tariff: Tariff, u: Unit, r: Money, i: int, j: int)
    requires Flat(tariff, u, r)
    requires i == CeilDiv(daylight, u) && j == CeilDiv(night, u) && i + j <= CeilDiv(MINUTES_PER_DAY, u)
    ensures CalOneDayCharge(daylight, night, tariff) == Times(i + j, r)
  {
    hide CeilDiv, Times;
    TimesAdds(i, j, r);
    TimesAdds(i + j, CeilDiv(MINUTES_PER_DAY, u), r);
  }

  // ---------- pattern 1 ----------

  ghost predicate FlatBook(book: RuleBook, vehicleType: int, u: Unit, r: Money) {
    forall date :: book.on(date).Some? && Flat(book.on(date).value.For(vehicleType), u, r)
  }

  /** The units of a completed day: i of daylight and j of night. */
  lemma FlatUnits(d: nat, n: nat, tariff: Tariff, u: Unit, owed: int) returns (i: int, j: int)
    requires tariff.dayUnit == tariff.nightUnit == u && d + n <= MINUTES_PER_DAY
    ensures var day := Complete(Split(60 * d, 60 * n), tariff, owed);
      && day.daylightMinutes == Multiple(u, i) && i == CeilDiv(day.daylightMinutes, u)
      && day.nightMinutes == Multiple(u, j) && j == CeilDiv(day.nightMinutes, u)
      && i + j <= CeilDiv(MINUTES_PER_DAY, u)
  {
    CompleteMinutes(d, n, tariff, owed);
    CompleteTimeFills(d, u);
    hide Complete, CompleteTime;
    var c := CompleteTime(d, u);
    i, j := CeilDiv(d, u), 0;
    CeilDivUnique(d + c, u, i);
    CeilDivUnique(0, u, 0);
    if n < c {
      CeilMonotone(d, MINUTES_PER_DAY, u);
    } else {
      CompleteTimeFills(n - c, u);
      j := CeilDiv(n - c, u);
      CeilDivUnique(n - c + CompleteTime(n - c, u), u, j);
      MultipleAdds(u, i, j);
      CeilDivUnique(d + n, u, i + j);
      CeilMonotone(d + n, MINUTES_PER_DAY, u);
    }
  }

  lemma FlatVisit(book: RuleBook, stay: Stay, b: int, e: int, date: int, carry: Carry, w: nat, u: Unit, r: Money)
    returns (q: int)
    requires MinuteBook(book) && FlatBook(book, stay.vehicleType, u, r)
    requires MINUTES_PER_DAY * date <= b < e <= MINUTES_PER_DAY * (date + 1)
    requires carry.borrowed == 60 * w
    ensures var visit := VisitDay(book, stay, Period(60 * b, 60 * e), carry);
      visit.minutes == Multiple(u, q) && visit.fee == Times(q, r)
  {
    hide VisitDay, InMinutes, DaylightMinutes, Complete, CalOneDayCharge, CeilDiv, Times, Multiple;
    MultipleAdds(u, 0, 0);
    TimesAdds(0, 0, r);
    q := 0;
    if b + w >= e {
      SkippedVisit(book, stay, Period(60 * b, 60 * e), carry);
    } else {
      var rule := book.on(date).value;
      var tariff := rule.For(stay.vehicleType);
      var start := b + w + FreeMinutes(rule, stay, carry);
      VisitInMinutes(book, rule, stay, b, e, date, carry, w);
      if start < e {
        var d := DaylightMinutes(rule, start, e, date);
        var n := e - start - d;
        var i, j := FlatUnits(d, n, tariff, u, carry.borrowed);
        var day := Complete(Split(60 * d, 60 * n), tariff, carry.borrowed);
        FlatFee(day.daylightMinutes, day.nightMinutes, tariff, u, r, i, j);
        q := i + j;
        MultipleAdds(u, i, j);
      }
    }
  }

  /** After k days the fees are r for each unit billed, whether or not the rules conserve. */
  lemma {:induction false} FlatRun(book: RuleBook, stay: Stay, free: int, u: Unit, r: Money, k: nat) returns (q: int)
    requires MinuteBook(book) && FlatBook(book, stay.vehicleType, u, r) && WholeMinutes(stay)
    requires k <= CalendarCount(stay.enter, stay.exit)
    ensures var run := Run(book, stay, free, k);
      run.minutes == Multiple(u, q) && SumFees(run.details) == Times(q, r)
  {
    hide MinuteBook, FlatBook, VisitDay, CalendarDay, CalendarCount, DateOf, SumFees, Run, WholeMinutes,
         Times, Multiple, DayBegin, DayEnd;
    RunEmpty(book, stay, free);
    TimesAdds(0, 0, r);
    MultipleAdds(u, 0, 0);
    if k == 0 {
      q := 0;
    } else {
      var before := Run(book, stay, free, k - 1);
      var p := FlatRun(book, stay, free, u, r, k - 1);
      var w := WholeDebt(book, stay, free, k - 1);
      DayInMinutes(stay, k - 1);
      RunStep(book, stay, free, k - 1, Ledger([], 0, 0.0, 0.0, 1.0));
      var q' := FlatVisit(book, stay, DayBegin(stay, k - 1), DayEnd(stay, k - 1), DateOf(stay.enter) + k - 1,
                          before.carry, w, u, r);
      q := p + q';
      TimesAdds(p, q', r);
      MultipleAdds(u, p, q');
    }
  }

  lemma FlatUnitsWithin(book: RuleBook, vehicleType: int, u: Unit, r: Money)
    requires FlatBook(book, vehicleType, u, r)
    ensures UnitsWithin(book, vehicleType, u)
  {
  }

  /** What the stay costs when r is charged for every unit begun of the time that is not forgiven. */
  ghost predicate FlatlyCharged(book: RuleBook, stay: Stay, free: int, u: Unit, r: Money) {
    SumFees(Run(book, stay, free, CalendarCount(stay.enter, stay.exit)).details) ==
    Times(CeilDiv((stay.exit - stay.enter) / 60 - Forgiven(book, stay), u), r)
  }

  /** Pattern 1 charges r for every unit begun since entry. */
  lemma Flat1(book: RuleBook, stay: Stay, free: int, u: Unit, r: Money)
    requires MinuteBook(book) && ConservingBook(book, stay.vehicleType) && WholeMinutes(stay)
    requires FlatBook(book, stay.vehicleType, u, r)
    ensures FlatlyCharged(book, stay, free, u, r)
  {
    hide Run, CalendarCount, SumFees, CeilDiv, Times, FlatBook, MinuteBook, ConservingBook, Forgiven;
    FlatUnitsWithin(book, stay.vehicleType, u, r);
    var n := CalendarCount(stay.enter, stay.exit);
    var q := FlatRun(book, stay, free, u, r, n);
    BilledMinutes(book, stay, free, u);
    CeilDivUnique((stay.exit - stay.enter) / 60 - Forgiven(book, stay), u, q);
  }

  /** At a positive rate it does so for every stay exactly when the rules conserve. */
  lemma Flat1Iff(book: RuleBook, vehicleType: int, free: int, u: Unit, r: Money)
    requires MinuteBook(book) && FlatBook(book, vehicleType, u, r) && r > 0.0
    ensures (forall stay: Stay | stay.vehicleType == vehicleType && WholeMinutes(stay) ::
               FlatlyCharged(book, stay, free, u, r))
       <==> ConservingBook(book, vehicleType)
  {
    hide FlatlyCharged, WholeMinutes, FlatBook, MinuteBook, Conserving;
    if ConservingBook(book, vehicleType) {
      forall stay: Stay | stay.vehicleType == vehicleType && WholeMinutes(stay)
        ensures FlatlyCharged(book, stay, free, u, r)
      {
        Flat1(book, stay, free, u, r);
      }
    } else {
      var date :| book.on(date).Some? && !Conserving(book.on(date).value, book.on(date).value.For(vehicleType));
      var stay := MischargedStay(book, vehicleType, free, u, r, date);
    }
  }

  /** A stay from a bad minute to one minute past midnight, or past the end of a debt that is
      never repaid. */
  lemma MischargedStay(book: RuleBook, vehicleType: int, free: int, u: Unit, r: Money, date: int) returns (stay: Stay)
    requires MinuteBook(book) && FlatBook(book, vehicleType, u, r) && r > 0.0
    requires !Conserving(book.on(date).value, book.on(date).value.For(vehicleType))
    ensures stay.vehicleType == vehicleType && WholeMinutes(stay) && !FlatlyCharged(book, stay, free, u, r)
  {
    hide Run, SumFees, InMinutes, Flat, Conserving, ConservesFrom, DebtFrom, WholeMinutes, CalendarCount, DateOf,
         CeilDiv, Times, Multiple, FlatlyCharged;
    var rule := book.on(date).value;
    var b := BadMinute(rule, rule.For(vehicleType), date);
    var midnight, debt := MINUTES_PER_DAY * (date + 1), DebtFrom(rule, rule.For(vehicleType), b, date);
    DebtNotNegative(rule, rule.For(vehicleType), b, date);
    stay := Stay(60 * b, 60 * (midnight + debt + 1), 0, vehicleType);
    EnteredAt(stay, b, midnight + debt + 1);
    FirstDayFails(book, rule, stay, free, b, date);
    FirstDate(stay, b, date);
    var n := CalendarCount(stay.enter, stay.exit);
    var q := FlatRun(book, stay, free, u, r, n);
    if debt == 0 {
      TwoDayStay(stay, b, date);
      SecondDayBills(book, stay, free, u, r, date);
    } else {
      DebtOutlasts(book, stay, free, n);
    }
    WrongUnits(book, stay, free, u, r, q);
  }

  lemma DebtNotNegative(rule: Rule, tariff: Tariff, b: int, date: int)
    ensures DebtFrom(rule, tariff, b, date) >= 0
  {
    hide CompleteTime, DaylightMinutes;
    var e := MINUTES_PER_DAY * (date + 1);
    var d := DaylightMinutes(rule, b, e, date);
    CompleteTimeFills(e - b - d - CompleteTime(d, tariff.dayUnit), tariff.nightUnit);
  }

  lemma TwoDayStay(stay: Stay, b: int, date: int)
    requires MINUTES_PER_DAY * date <= b < MINUTES_PER_DAY * (date + 1) && stay.enter == 60 * b
    requires stay.exit == 60 * (MINUTES_PER_DAY * (date + 1) + 1)
    ensures CalendarCount(stay.enter, stay.exit) == 2
  {
  }

  /** Units billed that do not cover the time, or exceed it by a unit, cost the wrong fee. */
  lemma WrongUnits(book: RuleBook, stay: Stay, free: int, u: Unit, r: Money, q: int)
    requires WholeMinutes(stay) && r > 0.0 && stay.mode != FREE_TIME_NO_CHARGE
    requires var run := Run(book, stay, free, CalendarCount(stay.enter, stay.exit));
      var parked := (stay.exit - stay.enter) / 60;
      && run.minutes == Multiple(u, q) && SumFees(run.details) == Times(q, r)
      && !(parked <= run.minutes < parked + u)
    ensures !FlatlyCharged(book, stay, free, u, r)
  {
    hide Run, SumFees, CalendarCount, CeilDiv;
    var parked := (stay.exit - stay.enter) / 60;
    CeilDivUnique(parked, u, q);
    TimesDiffer(q, CeilDiv(parked, u), r);
  }

  /** A minute after midnight without a debt costs another unit. */
  lemma SecondDayBills(book: RuleBook, stay: Stay, free: int, u: Unit, r: Money, date: int)
    requires MinuteBook(book) && FlatBook(book, stay.vehicleType, u, r) && WholeMinutes(stay)
    requires stay.mode != FREE_TIME_NO_CHARGE && CalendarCount(stay.enter, stay.exit) == 2
    requires DateOf(stay.enter) == date && stay.exit == 60 * (MINUTES_PER_DAY * (date + 1) + 1)
    requires Run(book, stay, free, 1).carry.borrowed == 0
    ensures Run(book, stay, free, 2).minutes >= Run(book, stay, free, 1).minutes + u
  {
    hide Run, VisitDay, SumFees, InMinutes, Flat, CompleteTime, Complete, DaylightMinutes, CalendarCount, DateOf,
         CalendarDay, CalOneDayCharge, Times;
    var b, carry := MINUTES_PER_DAY * (date + 1), Run(book, stay, free, 1).carry;
    var rule := book.on(date + 1).value;
    var tariff := rule.For(stay.vehicleType);
    DayInMinutes(stay, 1);
    RunStep(book, stay, free, 1, Ledger([], 0, 0.0, 0.0, 1.0));
    var q := FlatVisit(book, stay, b, b + 1, date + 1, carry, 0, u, r);
    VisitInMinutes(book, rule, stay, b, b + 1, date + 1, carry, 0);
    var d := DaylightMinutes(rule, b, b + 1, date + 1);
    CompleteMinutes(d, 1 - d, tariff, 0);
    MultipleAtLeast(u, q);
  }

  // ---------- pattern 0 ----------

  /** Minutes of a period of at most a day that may cross one midnight. */
  lemma PeriodMinutes(rule: Rule, b: int, e: int) returns (d: nat)
    requires InMinutes(rule)
    requires b <= e <= b + MINUTES_PER_DAY
    ensures d <= e - b && Chargeable(rule, 60 * b, 60 * e) == Split(60 * d, 60 * (e - b - d))
  {
    var date := DateOf(60 * b);
    MinuteBounds(60 * b, b, 0);
    var midnight := MINUTES_PER_DAY * (date + 1);
    hide DateOf;
    if e <= midnight {
      DayMinutes(rule, b, e, date);
      d := DaylightMinutes(rule, b, e, date);
    } else {
      DayMinutes(rule, b, midnight, date);
      DayMinutes(rule, midnight, e, date + 1);
      ChargeableSplits(rule, 60 * b, 60 * midnight, 60 * e);
      var whole := Chargeable(rule, 60 * b, 60 * e);
      assert whole == Split(whole.Of(Daylight), whole.Of(Night));
      d := DaylightMinutes(rule, b, midnight, date) + DaylightMinutes(rule, midnight, e, date + 1);
    }
  }

  /** Borrowing never changes the number of units begun. */
  lemma FlatLend(own: nat, lender: nat, u: Unit)
    ensures var (own', lender') := Lend(60 * own, 60 * lender, u);
      CeilDiv(TruncDiv(own', 60), u) + CeilDiv(TruncDiv(lender', 60), u) == CeilDiv(own + lender, u)
  {
    var c := CompleteTime(own, u);
    var i := CeilDiv(own, u);
    CompleteTimeFills(own, u);
    MinutesOf(own);
    MinutesOf(own + c);
    CeilDivUnique(own + c, u, i);
    if lender >= c {
      var j := CeilDiv(lender - c, u);
      MinutesOf(lender - c);
      CeilDivUnique(lender - c, u, j);
      assert u * (i + j) == u * i + u * j;
      CeilDivUnique(own + lender, u, i + j);
    } else {
      MinutesOf(0);
      CeilDivUnique(0, u, 0);
      CeilDivUnique(own + lender, u, i);
    }
    hide CeilDiv, TruncDiv, CompleteTime;
  }

  /** A period of at most a day costs r for every unit begun in it, less the free time. */
  lemma FlatPeriod(rule: Rule, b: int, e: int, mode: int, vehicleType: int, first: bool, u: Unit, r: Money)
    requires InMinutes(rule) && Flat(rule.For(vehicleType), u, r)
    requires b < e <= b + MINUTES_PER_DAY
    ensures var free := if first && mode == FREE_TIME_NO_CHARGE then rule.freeTimeLength else 0;
      Pattern0.PeriodFee(rule, Period(60 * b, 60 * e), mode, vehicleType, first) ==
      Times(CeilDiv(Max(e - b - free, 0), u), r)
  {
    hide Lend, CeilDiv, TruncDiv, Chargeable, CalOneDayCharge, BandAt, Times;
    var start := b + if first && mode == FREE_TIME_NO_CHARGE then rule.freeTimeLength else 0;
    if start >= e {
      CeilDivUnique(0, u, 0);
      TimesAdds(0, 0, r);
    } else {
      var tariff := rule.For(vehicleType);
      var d := PeriodMinutes(rule, start, e);
      var n := e - start - d;
      FlatLend(d, n, u);
      FlatLend(n, d, u);
      CeilMonotone(e - start, MINUTES_PER_DAY, u);
      var time := Borrowed(Split(60 * d, 60 * n), BandAt(rule, 60 * start), tariff);
      var day, night := TruncDiv(time.daylight, 60), TruncDiv(time.night, 60);
      FlatFee(day, night, tariff, u, r, CeilDiv(day, u), CeilDiv(night, u));
    }
  }

  /** Pattern 0 charges every period on its own: r for every unit begun in it. */
  lemma {:induction false} FlatPeriods(rule: Rule, stay: Stay, u: Unit, r: Money, k: nat)
    requires InMinutes(rule)
    requires Flat(rule.For(stay.vehicleType), u, r) && stay.mode != FREE_TIME_NO_CHARGE && WholeMinutes(stay)
    requires k <= RollingCount(stay.enter, stay.exit)
    ensures var parked := (stay.exit - stay.enter) / 60;
      SumFees(Pattern0.Details0(rule, stay, k)) == Times(UnitsBegun(parked, k, u), r)
  {
    hide Flat, CeilDiv, Pattern0.Details0, SumFees, Pattern0.PeriodFee, RollingDay, RollingCount, WholeMinutes, Times,
         DetailOf;
    var parked := (stay.exit - stay.enter) / 60;
    TimesAdds(0, 0, r);
    NoDetails(rule, stay);
    if k > 0 {
      FlatPeriods(rule, stay, u, r, k - 1);
      Pattern0.DetailsStep(rule, stay, k - 1, Ledger([], 0, 0.0, 0.0, 1.0));
      PeriodInMinutes(stay, k - 1);
      var en := stay.enter / 60;
      var b, e := en + (k - 1) * MINUTES_PER_DAY, en + Min(k * MINUTES_PER_DAY, parked);
      FlatPeriod(rule, b, e, stay.mode, stay.vehicleType, k == 1 || k < RollingCount(stay.enter, stay.exit), u, r);
      TimesAdds(UnitsBegun(parked, k - 1, u), CeilDiv(e - b, u), r);
    }
  }

  lemma NoDetails(rule: Rule, stay: Stay)
    ensures SumFees(Pattern0.Details0(rule, stay, 0)) == 0.0
  {
  }

  lemma PeriodInMinutes(stay: Stay, i: nat)
    requires WholeMinutes(stay) && i < RollingCount(stay.enter, stay.exit)
    ensures var en, parked := stay.enter / 60, (stay.exit - stay.enter) / 60;
      var b, e := en + i * MINUTES_PER_DAY, en + Min((i + 1) * MINUTES_PER_DAY, parked);
      b < e <= b + MINUTES_PER_DAY && RollingDay(stay.enter, stay.exit, i) == Period(60 * b, 60 * e)
  {
    assert (stay.exit - stay.enter) / 60 == stay.exit / 60 - stay.enter / 60;
  }

  /** The units begun in the first k rolling days, each day counted on its own. */
  function UnitsBegun(parked: int, k: nat, u: Unit): int {
    if k == 0 then 0 else
      UnitsBegun(parked, k - 1, u) + CeilDiv(Min(k * MINUTES_PER_DAY, parked) - (k - 1) * MINUTES_PER_DAY, u)
  }

  /** When the unit divides the day nothing is lost at the period boundaries. */
  lemma {:induction false} WholeDaysBegun(parked: int, k: nat, u: Unit)
    requires Whole(MINUTES_PER_DAY, u)
    requires k > 0 ==> (k - 1) * MINUTES_PER_DAY < parked
    ensures UnitsBegun(parked, k, u) == CeilDiv(Min(k * MINUTES_PER_DAY, Max(parked, 0)), u)
  {
    if k == 0 {
      CeilDivUnique(0, u, 0);
    } else {
      WholeDaysBegun(parked, k - 1, u);
      UnitsJoin((k - 1) * MINUTES_PER_DAY, Min(k * MINUTES_PER_DAY, parked), k - 1, u);
    }
  }

  lemma UnitsJoin(done: int, all: int, days: nat, u: Unit)
    requires Whole(MINUTES_PER_DAY, u) && done == days * MINUTES_PER_DAY
    ensures CeilDiv(done, u) + CeilDiv(all - done, u) == CeilDiv(all, u)
  {
    var perDay := MINUTES_PER_DAY / u;
    assert u * (perDay * days) == done;
    CeilDivUnique(done, u, perDay * days);
    var i, j := CeilDiv(done, u), CeilDiv(all - done, u);
    CeilDivUnique(all - done, u, j);
    MultipleAdds(u, i, j);
    CeilDivUnique(all, u, i + j);
  }

  /** Pattern 0 charges r for every unit begun since entry when the unit divides the day. */
  lemma Flat0(rule: Rule, stay: Stay, u: Unit, r: Money)
    requires InMinutes(rule)
    requires Flat(rule.For(stay.vehicleType), u, r) && stay.mode != FREE_TIME_NO_CHARGE && WholeMinutes(stay)
    requires Whole(MINUTES_PER_DAY, u)
    ensures SumFees(Pattern0.Details0(rule, stay, RollingCount(stay.enter, stay.exit))) ==
            Times(CeilDiv((stay.exit - stay.enter) / 60, u), r)
  {
    hide Flat, CeilDiv, Pattern0.Details0, SumFees, UnitsBegun, Times;
    var n, parked := RollingCount(stay.enter, stay.exit), (stay.exit - stay.enter) / 60;
    PeriodInMinutes(stay, n - 1);
    FlatPeriods(rule, stay, u, r, n);
    WholeDaysBegun(parked, n, u);
  }

  /** Reusing the first day's fee is sound exactly when, of a day longer than the free time, the
      free time takes no unit off. */
  lemma FlatReuseSound(rule: Rule, stay: Stay, u: Unit, r: Money)
    requires InMinutes(rule) && Flat(rule.For(stay.vehicleType), u, r)
    requires stay.enter % 60 == 0 && stay.enter < stay.exit
    ensures var n := RollingCount(stay.enter, stay.exit);
      SumFees(Pattern0.Details0(rule, stay, n)) == Pattern0.SeparateFees(rule, stay, n)
      <==> (|| stay.mode != FREE_TIME_NO_CHARGE
            || stay.exit - stay.enter <= 2 * DAY
            || r == 0.0
            || CeilDiv(Max(MINUTES_PER_DAY - rule.freeTimeLength, 0), u) == CeilDiv(MINUTES_PER_DAY, u))
  {
    hide CeilDiv, Times, Flat, InMinutes, SumFees, Pattern0.Details0, Pattern0.SeparateFees, Pattern0.PeriodFee;
    Pattern0.ReuseSoundFees(rule, stay);
    var b, free := stay.enter / 60, rule.freeTimeLength;
    if stay.mode == FREE_TIME_NO_CHARGE && stay.exit - stay.enter > 2 * DAY {
      assert Period(stay.enter, stay.enter + DAY) == Period(60 * b, 60 * (b + MINUTES_PER_DAY));
      FlatPeriod(rule, b, b + MINUTES_PER_DAY, stay.mode, stay.vehicleType, true, u, r);
      FlatPeriod(rule, b, b + MINUTES_PER_DAY, stay.mode, stay.vehicleType, false, u, r);
      TimesDiffer(CeilDiv(Max(MINUTES_PER_DAY - free, 0), u), CeilDiv(MINUTES_PER_DAY, u), r);
    }
  }

  /** A whole-minute stay, within 30 periods, that the pattern charges by flat rules: pattern 1 by
      those of the dates, pattern 0 by that in force on entry. */
  ghost predicate FlatStay(book: RuleBook, pattern: int, stay: Stay, u: Unit, r: Money) {
    && WholeMinutes(stay) && stay.mode != FREE_TIME_NO_CHARGE
    && if pattern == 1 then
         && MinuteBook(book) && ConservingBook(book, stay.vehicleType) && FlatBook(book, stay.vehicleType, u, r)
         && CalendarCount(stay.enter, stay.exit) <= MAX_PERIODS
       else
         && book.at(stay.enter).Some? && InMinutes(book.at(stay.enter).value)
         && Flat(book.at(stay.enter).value.For(stay.vehicleType), u, r)
         && Whole(MINUTES_PER_DAY, u) && RollingCount(stay.enter, stay.exit) <= MAX_PERIODS
  }

  /** The two patterns agree, and both are the simple tariff: nothing within the free time, else
      r for every unit begun, discounted. */
  lemma PatternsAgree(book: RuleBook, pattern: int, stay: Stay, discount: real, bill: Ledger, u: Unit, r: Money)
    requires FlatStay(book, pattern, stay, u, r)
    ensures Charges.Charge(book, pattern, stay, discount, bill).totalFee ==
      if Charges.InFreeTime(book, stay) then 0.0
      else Times(CeilDiv((stay.exit - stay.enter) / 60, u), r) * discount
  {
    hide CeilDiv, Times, SumFees, Run, Pattern0.Details0, MinuteBook, ConservingBook, FlatBook, Flat,
         CalendarCount;
    if pattern == 1 {
      Flat1(book, stay, bill.freeDuration, u, r);
    } else {
      assert RollingCount(stay.enter, stay.exit) > 0;
      Flat0(book.at(stay.enter).value, stay, u, r);
    }
  }

  lemma UnitsCost(m: int, u: Unit, r: Money)
    requires m >= 1 && r > 0.0
    ensures Times(CeilDiv(m, u), r) > 0.0
  {
    hide CeilDiv, Times;
    CeilDivUnique(m, u, CeilDiv(m, u));
    MultipleAtLeast(u, CeilDiv(m, u));
    TimesAdds(1, CeilDiv(m, u), r);
    TimesOne(r);
  }

  /** Such a stay's undiscounted fee is positive outside the free time, at a positive rate. */
  lemma FlatFeePositive(book: RuleBook, pattern: int, stay: Stay, discount: real, bill: Ledger, u: Unit, r: Money)
    requires FlatStay(book, pattern, stay, u, r) && r > 0.0 && !Charges.InFreeTime(book, stay)
    ensures Charges.Charge(book, pattern, stay, discount, bill).beforeDiscount > 0.0
  {
    hide CeilDiv, Times, Charges.Charge, FlatStay, Charges.Lines, Charges.OneLine, Charges.Spans, SumFees,
         Charges.InFreeTime;
    PatternsAgree(book, pattern, stay, 1.0, bill, u, r);
    Charges.BillBalances(book, pattern, stay, 1.0, bill);
    Charges.UndiscountedFee(book, pattern, stay, discount, 1.0, bill);
    assert stay.exit > stay.enter && (stay.exit - stay.enter) / 60 >= 1 by {
      WholeMinute(book, pattern, stay, u, r);
    }
    UnitsCost((stay.exit - stay.enter) / 60, u, r);
  }

  lemma WholeMinute(book: RuleBook, pattern: int, stay: Stay, u: Unit, r: Money)
    requires FlatStay(book, pattern, stay, u, r)
    ensures stay.exit > stay.enter && (stay.exit - stay.enter) / 60 >= 1
  {
    assert (stay.exit - stay.enter) / 60 == stay.exit / 60 - stay.enter / 60;
  }

  /** Such a stay costs nothing exactly when it is shorter than the free time of the rule in force
      on entry. */
  lemma FlatFreeIff(book: RuleBook, pattern: int, stay: Stay, discount: real, bill: Ledger, u: Unit, r: Money)
    requires FlatStay(book, pattern, stay, u, r) && r > 0.0 && discount > 0.0
    ensures Charges.Charge(book, pattern, stay, discount, bill).totalFee == 0.0 <==>
            var rule := book.at(stay.enter);
            rule.Some? && stay.exit - stay.enter < 60 * rule.value.freeTimeLength
  {
    hide Charges.Charge, FlatStay, CeilDiv, Times;
    PatternsAgree(book, pattern, stay, discount, bill, u, r);
    WholeMinute(book, pattern, stay, u, r);
    UnitsCost((stay.exit - stay.enter) / 60, u, r);
    assert Times(CeilDiv((stay.exit - stay.enter) / 60, u), r) * discount > 0.0;
  }

  /** Then the recorded discount explains the total exactly when the charge is on one line or the
      bill came with the discount that is applied. */
  lemma FlatDiscountExplains(book: RuleBook, pattern: int, stay: Stay, discount: real, bill: Ledger, u: Unit, r: Money)
    requires FlatStay(book, pattern, stay, u, r) && r > 0.0
    ensures var after := Charges.Charge(book, pattern, stay, discount, bill);
      after.totalFee == after.beforeDiscount * after.discount
      <==> Charges.OneLine(book, pattern, stay) || bill.discount == discount
  {
    hide Charges.Charge, FlatStay, Charges.InFreeTime;
    Charges.DiscountExplains(book, pattern, stay, discount, bill);
    if !Charges.InFreeTime(book, stay) {
      FlatFeePositive(book, pattern, stay, discount, bill, u, r);
    }
  }
}
