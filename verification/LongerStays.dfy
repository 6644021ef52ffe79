/** When staying longer never costs less. */
module LongerStays {
  import opened Arithmetic
  import opened Rules
  import opened Days
  import opened Bills
  import opened Conservation
  import opened LentMinutes
  import opened LongerPeriods
  import opened LongerDays
  import opened Charges
  import opened Caps
  import P0 = Pattern0
  import P1 = Pattern1

  /** Pattern 1: under the rule of every date daylight outweighs the night. Pattern 0: under the
      rule in force on entry, if there is one, each side outweighs the other, and free time is
      charged. */
  ghost predicate Fair(book: RuleBook, pattern: int, stay: Stay) {
    if pattern == 1 then MinuteBook(book) && DaylightOutweighs(book, stay.vehicleType)
    else
      book.at(stay.enter).Some? ==>
        var rule := book.at(stay.enter).value;
        stay.mode != FREE_TIME_NO_CHARGE && InMinutes(rule) && Monotone(rule.For(stay.vehicleType))
  }

  /** Then staying longer never costs less; over 30 periods when no cap exceeds that of the rule of
      least priority. */
  lemma LongerStayCostsMore(book: RuleBook, pattern: int, stay: Stay, longer: Stay, discount: real, bill: Ledger,
                            bill': Ledger)
    requires Longer(stay, longer) && Fair(book, pattern, stay) && 0.0 <= discount
    requires PeriodCount(pattern, longer) > MAX_PERIODS ==>
               discount <= 1.0 && LeastCapDominates(book, stay.vehicleType)
    ensures Charge(book, pattern, stay, discount, bill).totalFee
            <= Charge(book, pattern, longer, discount, bill').totalFee
  {
    hide Charge, Fair, PeriodCount, LeastCapDominates;
    StillFree(book, stay, longer);
    MorePeriods(pattern, stay, longer);
    if InFreeTime(book, longer) {
      FreeCostsNothing(book, pattern, stay, discount, bill);
      FreeCostsNothing(book, pattern, longer, discount, bill');
    } else if PeriodCount(pattern, longer) > MAX_PERIODS {
      if PeriodCount(pattern, stay) > MAX_PERIODS && !InFreeTime(book, stay) {
        MoreDaysCostMore(book, pattern, stay, longer, discount, bill, bill');
      } else if InFreeTime(book, stay) {
        FreeCostsNothing(book, pattern, stay, discount, bill);
        LongCostsSomething(book, pattern, longer, discount, bill');
      } else {
        LongStaysCostMost(book, pattern, stay, pattern, longer, discount, bill, bill');
      }
    } else if pattern == 1 {
      LongerStay1(book, stay, longer, discount, bill, bill');
    } else {
      LongerStay0(book, pattern, stay, longer, discount, bill, bill');
    }
  }

  lemma StillFree(book: RuleBook, stay: Stay, longer: Stay)
    requires Longer(stay, longer)
    ensures InFreeTime(book, longer) ==> InFreeTime(book, stay)
    ensures stay.vehicleType == longer.vehicleType
  {
  }

  lemma MorePeriods(pattern: int, stay: Stay, longer: Stay)
    requires Longer(stay, longer)
    ensures 0 < PeriodCount(pattern, stay) <= PeriodCount(pattern, longer)
  {
  }

  lemma FreeCostsNothing(book: RuleBook, pattern: int, stay: Stay, discount: real, bill: Ledger)
    requires InFreeTime(book, stay)
    ensures Charge(book, pattern, stay, discount, bill).totalFee == 0.0
  {
    hide P0.Charge0, P1.Charge1;
  }

  /** A stay of more than 30 periods costs, for each of them, the cap of the rule of least priority,
      whatever the discount. */
  lemma LongFee(book: RuleBook, pattern: int, stay: Stay, discount: real, bill: Ledger)
    requires PeriodCount(pattern, stay) > 30 && !InFreeTime(book, stay)
    ensures Charge(book, pattern, stay, discount, bill).totalFee ==
            if book.least.None? then 0.0
            else PeriodCount(pattern, stay) as real * book.least.value.For(stay.vehicleType).maxFee
  {
    hide P1.Run, P0.Details0, CalendarCount, RollingCount, SumFees, InFreeTime;
  }

  lemma LongCostsSomething(book: RuleBook, pattern: int, stay: Stay, discount: real, bill: Ledger)
    requires PeriodCount(pattern, stay) > MAX_PERIODS && !InFreeTime(book, stay)
    ensures Charge(book, pattern, stay, discount, bill).totalFee >= 0.0
  {
    hide Charge, PeriodCount, InFreeTime;
    LongFee(book, pattern, stay, discount, bill);
    if book.least.Some? {
      MoreOf(0, PeriodCount(pattern, stay), book.least.value.For(stay.vehicleType).maxFee);
    }
  }

  lemma MoreOf(i: nat, j: nat, x: Money)
    requires i <= j
    ensures 0.0 <= i as real * x <= j as real * x
  {
    assert (j - i) as real * x >= 0.0 && (j - i) as real == j as real - i as real;
  }

  lemma MoreDaysCostMore(book: RuleBook, pattern: int, stay: Stay, longer: Stay, discount: real, bill: Ledger,
                         bill': Ledger)
    requires MAX_PERIODS < PeriodCount(pattern, stay) <= PeriodCount(pattern, longer)
    requires !InFreeTime(book, stay) && !InFreeTime(book, longer) && stay.vehicleType == longer.vehicleType
    ensures Charge(book, pattern, stay, discount, bill).totalFee
            <= Charge(book, pattern, longer, discount, bill').totalFee
  {
    hide Charge, PeriodCount, InFreeTime;
    LongFee(book, pattern, stay, discount, bill);
    LongFee(book, pattern, longer, discount, bill');
    if book.least.Some? {
      MoreOf(PeriodCount(pattern, stay), PeriodCount(pattern, longer), book.least.value.For(stay.vehicleType).maxFee);
    }
  }

  /** Within 30 periods pattern 1 costs what the day loop adds up to. */
  lemma DayLoopTotal(book: RuleBook, stay: Stay, discount: real, bill: Ledger)
    requires PeriodCount(1, stay) <= MAX_PERIODS
    ensures Charge(book, 1, stay, discount, bill).totalFee ==
      if InFreeTime(book, stay) then 0.0
      else SumFees(P1.Run(book, stay, bill.freeDuration, CalendarCount(stay.enter, stay.exit)).details) * discount
  {
    hide P1.Run, CalendarCount, SumFees, TruncDiv, InFreeTime;
  }

  lemma LongerStay1(book: RuleBook, stay: Stay, longer: Stay, discount: real, bill: Ledger, bill': Ledger)
    requires Longer(stay, longer) && Fair(book, 1, stay) && 0.0 <= discount
    requires PeriodCount(1, stay) <= PeriodCount(1, longer) <= MAX_PERIODS && !InFreeTime(book, longer)
    ensures Charge(book, 1, stay, discount, bill).totalFee <= Charge(book, 1, longer, discount, bill').totalFee
  {
    hide Charge, P1.Run, CalendarCount, SumFees, MinuteBook, DaylightOutweighs, Longer, InFreeTime;
    var n, free := CalendarCount(longer.enter, longer.exit), bill.freeDuration;
    DayLoopTotal(book, stay, discount, bill);
    DayLoopTotal(book, longer, discount, bill');
    RunMonotone(book, stay, longer, free, n);
    P1.RunIgnoresBill(book, longer, free, bill'.freeDuration, n);
    MinuteBookDisjoint(book);
    CapBound1(book, longer, free, n);
    DiscountKeepsOrder(SumFees(P1.Run(book, stay, free, CalendarCount(stay.enter, stay.exit)).details),
                       SumFees(P1.Run(book, longer, free, n).details), discount);
  }

  lemma LongerStay0(book: RuleBook, pattern: int, stay: Stay, longer: Stay, discount: real, bill: Ledger, bill': Ledger)
    requires Longer(stay, longer) && pattern != 1 && Fair(book, pattern, stay) && 0.0 <= discount
    requires 0 < PeriodCount(pattern, stay) <= PeriodCount(pattern, longer) <= MAX_PERIODS
    requires !InFreeTime(book, longer)
    ensures Charge(book, pattern, stay, discount, bill).totalFee
            <= Charge(book, pattern, longer, discount, bill').totalFee
  {
    hide Charge, Longer, InMinutes, Monotone, RollingCount, SumFees, P0.Details0;
    SameExceptExit(stay, longer);
    PeriodLoopTotal(book, pattern, stay, discount, bill);
    PeriodLoopTotal(book, pattern, longer, discount, bill');
    StillFree(book, stay, longer);
    if book.at(stay.enter).Some? {
      var rule := book.at(stay.enter).value;
      var m, n := RollingCount(stay.enter, stay.exit), RollingCount(longer.enter, longer.exit);
      PeriodsMonotone(rule, stay, longer, n);
      NoSectionsDisjoint(rule);
      CapBound0(rule, longer, n);
      DiscountKeepsOrder(SumFees(P0.Details0(rule, stay, m)), SumFees(P0.Details0(rule, longer, n)), discount);
    }
  }

  /** Within 30 periods pattern 0 costs what its periods add up to. */
  lemma PeriodLoopTotal(book: RuleBook, pattern: int, stay: Stay, discount: real, bill: Ledger)
    requires pattern != 1 && 0 < PeriodCount(pattern, stay) <= MAX_PERIODS
    ensures Charge(book, pattern, stay, discount, bill).totalFee ==
      if InFreeTime(book, stay) || book.at(stay.enter).None? then 0.0
      else
        SumFees(P0.Details0(book.at(stay.enter).value, stay, RollingCount(stay.enter, stay.exit))) * discount
  {
    hide P0.Details0, RollingCount, SumFees, TruncDiv, InFreeTime;
  }

  lemma DiscountKeepsOrder(fee: real, fee': real, discount: real)
    requires fee <= fee' && 0.0 <= discount
    ensures fee * discount <= fee' * discount
    ensures fee' >= 0.0 ==> fee' * discount >= 0.0
  {
    assert (fee' - fee) * discount >= 0.0;
  }
}
