/** Pattern 1: when another minute of parking lowers the fee of a day, and of a stay. */
module LongerDays {
  import opened Wrappers
  import opened Arithmetic
  import opened Periods
  import opened Rules
  import opened Days
  import opened ParkingTimes
  import opened Bills
  import opened Conservation
  import opened LentMinutes
  import opened Pattern1
  import Caps

  // ---------- one day ----------

  /** A completed day costs what its daylight costs when it borrows from the night. */
  lemma CompletedFee(daylight: nat, night: nat, tariff: Tariff, owed: int)
    ensures var day := Complete(Split(daylight, night), tariff, owed);
      UncappedFee(day.daylightMinutes, day.nightMinutes, tariff)
      == LentFee(daylight / 60, night / 60, SideOf(tariff, Daylight), SideOf(tariff, Night))
  {
    hide Complete, CompleteTime, CeilDiv, Times;
    var d, n := daylight / 60, night / 60;
    var c := CompleteTime(d, tariff.dayUnit);
    CompleteSeconds(daylight, night, tariff, owed);
    CompleteTimeFills(d, tariff.dayUnit);
    CeilDivUnique(d + c, tariff.dayUnit, CeilDiv(d, tariff.dayUnit));
    if c <= n {
      var next := CompleteTime(n - c, tariff.nightUnit);
      CompleteTimeFills(n - c, tariff.nightUnit);
      CeilDivUnique(n - c + next, tariff.nightUnit, CeilDiv(n - c, tariff.nightUnit));
    }
  }

  lemma DaylightGrows(rule: Rule, s: int, e: int, date: int)
    requires s <= e
    ensures s == e ==> DaylightMinutes(rule, s, e, date) == 0
    ensures DaylightMinutes(rule, s, e + 1, date) ==
            DaylightMinutes(rule, s, e, date) + DaylightMinutes(rule, e, e + 1, date)
  {
  }

  /** The uncapped fee of the minutes from s to e of one date. */
  ghost function MinutesFee(rule: Rule, tariff: Tariff, s: int, e: int, date: int): real
    requires s <= e
  {
    var d := DaylightMinutes(rule, s, e, date);
    LentFee(d, e - s - d, SideOf(tariff, Daylight), SideOf(tariff, Night))
  }

  /** Where charging begins on a day, in minutes. */
  function ChargedFrom(rule: Rule, stay: Stay, b: int, carry: Carry, w: nat): int {
    b + w + FreeMinutes(rule, stay, carry)
  }

  lemma VisitFee(book: RuleBook, rule: Rule, stay: Stay, b: int, e: int, date: int, carry: Carry, w: nat)
    requires book.on(date) == Some(rule) && InMinutes(rule) && carry.borrowed == 60 * w
    requires MINUTES_PER_DAY * date <= b < e <= MINUTES_PER_DAY * (date + 1)
    ensures var s, tariff := ChargedFrom(rule, stay, b, carry, w), rule.For(stay.vehicleType);
      VisitDay(book, stay, Period(60 * b, 60 * e), carry).fee ==
        if s > e then 0.0
        else
          var fee := MinutesFee(rule, tariff, s, e, date);
          if fee > tariff.maxFee then tariff.maxFee else fee
  {
    hide VisitDay, InMinutes, DaylightMinutes, Complete, UncappedFee, LentFee;
    var s, tariff := ChargedFrom(rule, stay, b, carry, w), rule.For(stay.vehicleType);
    if s < e {
      VisitInMinutes(book, rule, stay, b, e, date, carry, w);
      var d := DaylightMinutes(rule, s, e, date);
      CompletedFee(60 * d, 60 * (e - s - d), tariff, carry.borrowed);
    } else {
      NothingVisited(book, rule, stay, b, e, date, carry, w);
      DaylightGrows(rule, e, e, date);
      LentNothing(SideOf(tariff, Daylight), SideOf(tariff, Night));
    }
  }

  lemma NothingVisited(book: RuleBook, rule: Rule, stay: Stay, b: int, e: int, date: int, carry: Carry, w: nat)
    requires book.on(date) == Some(rule) && InMinutes(rule) && carry.borrowed == 60 * w
    requires MINUTES_PER_DAY * date <= b < e <= MINUTES_PER_DAY * (date + 1)
    requires ChargedFrom(rule, stay, b, carry, w) >= e
    ensures VisitDay(book, stay, Period(60 * b, 60 * e), carry).fee == 0.0
  {
    hide VisitDay, InMinutes, DaylightMinutes, Complete, CalOneDayCharge;
    if b + w < e {
      VisitInMinutes(book, rule, stay, b, e, date, carry, w);
    } else {
      SkippedVisit(book, stay, Period(60 * b, 60 * e), carry);
    }
  }

  /** One more minute lowers the fee of a day exactly when it is a minute of daylight, it undercuts
      the night already charged, and the new fee is below the cap. */
  lemma OneMoreMinute(book: RuleBook, rule: Rule, stay: Stay, b: int, e: int, date: int, carry: Carry, w: nat)
    requires book.on(date) == Some(rule) && InMinutes(rule) && carry.borrowed == 60 * w
    requires MINUTES_PER_DAY * date <= b < e < MINUTES_PER_DAY * (date + 1)
    ensures var s, tariff := ChargedFrom(rule, stay, b, carry, w), rule.For(stay.vehicleType);
      var day, night := SideOf(tariff, Daylight), SideOf(tariff, Night);
      VisitDay(book, stay, Period(60 * b, 60 * (e + 1)), carry).fee
      < VisitDay(book, stay, Period(60 * b, 60 * e), carry).fee
      <==>
      && s < e
      && BandAt(rule, 60 * e) == Daylight
      && var d := DaylightMinutes(rule, s, e, date);
      && Undercuts(d, e - s - d, day, night)
      && LentFee(d + 1, e - s - d, day, night) < tariff.maxFee
  {
    hide VisitDay, InMinutes, DaylightMinutes, BandAt, Undercuts, LentFee, ChargedFrom;
    var s, tariff := ChargedFrom(rule, stay, b, carry, w), rule.For(stay.vehicleType);
    var day, night := SideOf(tariff, Daylight), SideOf(tariff, Night);
    VisitFee(book, rule, stay, b, e, date, carry, w);
    VisitFee(book, rule, stay, b, e + 1, date, carry, w);
    if s <= e {
      DaylightGrows(rule, s, e, date);
      DaylightGrows(rule, s, e + 1, date);
      MinuteBand(rule, e, date);
      var d := DaylightMinutes(rule, s, e, date);
      OneMoreOwn(d, e - s - d, day, night);
      OneMoreLender(d, e - s - d, day, night);
      NothingToUndercut(day, night);
    } else if s == e + 1 {
      DaylightGrows(rule, s, s, date);
      LentNothing(day, night);
    }
  }

  /** When daylight outweighs the night the fee of a day never falls with its end. */
  lemma {:induction false} DayFeeMonotone(book: RuleBook, rule: Rule, stay: Stay, b: int, e: int, e': int, date: int,
                                          carry: Carry, w: nat)
    requires book.on(date) == Some(rule) && InMinutes(rule) && carry.borrowed == 60 * w
    requires MINUTES_PER_DAY * date <= b < e <= e' <= MINUTES_PER_DAY * (date + 1)
    requires var tariff := rule.For(stay.vehicleType); Outweighs(SideOf(tariff, Daylight), SideOf(tariff, Night))
    ensures VisitDay(book, stay, Period(60 * b, 60 * e), carry).fee
            <= VisitDay(book, stay, Period(60 * b, 60 * e'), carry).fee
    decreases e' - e
  {
    hide VisitDay, InMinutes, DaylightMinutes, BandAt, Undercuts, LentFee, ChargedFrom, Outweighs;
    if e < e' {
      DayFeeMonotone(book, rule, stay, b, e, e' - 1, date, carry, w);
      OneMoreMinute(book, rule, stay, b, e' - 1, date, carry, w);
      var tariff := rule.For(stay.vehicleType);
      OutweighsIff(SideOf(tariff, Daylight), SideOf(tariff, Night));
    }
  }

  // ---------- the whole stay ----------

  /** Under the rule of every date daylight outweighs the night. */
  ghost predicate DaylightOutweighs(book: RuleBook, vehicleType: int) {
    forall date :: book.on(date).Some? ==>
      var tariff := book.on(date).value.For(vehicleType);
      Outweighs(SideOf(tariff, Daylight), SideOf(tariff, Night))
  }

  predicate Longer(stay: Stay, longer: Stay) {
    && WholeMinutes(stay) && WholeMinutes(longer)
    && longer == stay.(exit := longer.exit) && stay.exit <= longer.exit
  }

  lemma SameVisit(book: RuleBook, stay: Stay, longer: Stay, period: Period, carry: Carry)
    requires longer == stay.(exit := longer.exit)
    ensures VisitDay(book, stay, period, carry) == VisitDay(book, longer, period, carry)
  {
    hide Chargeable, Complete, CalOneDayCharge;
  }

  lemma SameDays(stay: Stay, longer: Stay, i: nat)
    requires Longer(stay, longer)
    ensures 1 <= CalendarCount(stay.enter, stay.exit) <= CalendarCount(longer.enter, longer.exit)
    ensures i + 1 < CalendarCount(stay.enter, stay.exit) ==>
            CalendarDay(stay.enter, stay.exit, i) == CalendarDay(longer.enter, longer.exit, i)
  {
  }

  /** Before the last day of a stay, a longer one is charged the same. */
  lemma {:induction false} SameRun(book: RuleBook, stay: Stay, longer: Stay, free: int, k: nat)
    requires Longer(stay, longer) && k < CalendarCount(stay.enter, stay.exit)
    ensures Run(book, stay, free, k) == Run(book, longer, free, k)
  {
    hide VisitDay, CalendarDay, CalendarCount, Longer, DayDetail;
    if k > 0 {
      SameRun(book, stay, longer, free, k - 1);
      SameDays(stay, longer, k - 1);
      SameExceptExit(stay, longer);
      SameVisit(book, stay, longer, CalendarDay(stay.enter, stay.exit, k - 1), Run(book, stay, free, k - 1).carry);
    }
  }

  lemma SameExceptExit(stay: Stay, longer: Stay)
    requires Longer(stay, longer)
    ensures longer == stay.(exit := longer.exit) && WholeMinutes(stay) && WholeMinutes(longer)
    ensures stay.exit <= longer.exit
  {
  }

  /** The last day of the stay costs no more than the same day of the longer one. */
  lemma LastDayMonotone(book: RuleBook, stay: Stay, longer: Stay, free: int)
    requires Longer(stay, longer) && MinuteBook(book) && DaylightOutweighs(book, stay.vehicleType)
    ensures var n := CalendarCount(stay.enter, stay.exit);
      SumFees(Run(book, stay, free, n).details) <= SumFees(Run(book, longer, free, n).details)
  {
    hide Run, SumFees, VisitDay, CalendarDay, CalendarCount, Longer, WholeMinutes, DateOf, Outweighs, InMinutes;
    SameDays(stay, longer, 0);
    SameExceptExit(stay, longer);
    var k := CalendarCount(stay.enter, stay.exit) - 1;
    var date := DateOf(stay.enter) + k;
    SameRun(book, stay, longer, free, k);
    RunStep(book, stay, free, k, Ledger([], 0, 0.0, 0.0, 1.0));
    RunStep(book, longer, free, k, Ledger([], 0, 0.0, 0.0, 1.0));
    var carry := Run(book, stay, free, k).carry;
    var w := WholeDebt(book, stay, free, k);
    DayInMinutes(stay, k);
    DayInMinutes(longer, k);
    SameVisit(book, stay, longer, CalendarDay(longer.enter, longer.exit, k), carry);
    LongerDay(stay, longer, k);
    DayFeeMonotone(book, book.on(date).value, stay, DayBegin(stay, k), DayEnd(stay, k), DayEnd(longer, k), date,
                   carry, w);
  }

  lemma LongerDay(stay: Stay, longer: Stay, k: nat)
    requires Longer(stay, longer)
    ensures DayBegin(stay, k) == DayBegin(longer, k) && DayEnd(stay, k) <= DayEnd(longer, k)
  {
    hide DateOf;
  }

  /** And the days after it cost something or nothing. */
  lemma {:induction false} RunMonotone(book: RuleBook, stay: Stay, longer: Stay, free: int, n: nat)
    requires Longer(stay, longer) && MinuteBook(book) && DaylightOutweighs(book, stay.vehicleType)
    requires CalendarCount(stay.enter, stay.exit) <= n <= CalendarCount(longer.enter, longer.exit)
    ensures SumFees(Run(book, stay, free, CalendarCount(stay.enter, stay.exit)).details)
            <= SumFees(Run(book, longer, free, n).details)
  {
    hide Run, SumFees, VisitDay, CalendarDay, CalendarCount, Longer, DaylightOutweighs, MinuteBook, DateOf, DayStart,
         Caps.UsedCap, Caps.UsedCaps, Caps.DisjointBook;
    if n == CalendarCount(stay.enter, stay.exit) {
      LastDayMonotone(book, stay, longer, free);
    } else {
      RunMonotone(book, stay, longer, free, n - 1);
      RunStep(book, longer, free, n - 1, Ledger([], 0, 0.0, 0.0, 1.0));
      MinuteBookDisjoint(book);
      Caps.CapBound1(book, longer, free, n - 1);
      CalendarDayFits(longer.enter, longer.exit, n - 1);
      Caps.VisitFeeBounds(book, longer, CalendarDay(longer.enter, longer.exit, n - 1),
                          Run(book, longer, free, n - 1).carry);
    }
  }

  lemma MinuteBookDisjoint(book: RuleBook)
    requires MinuteBook(book)
    ensures Caps.DisjointBook(book)
  {
  }
}
