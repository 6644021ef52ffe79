/** Daily caps: what bounds a charge from both sides, and why a stay of more than 30 periods is
    never cheaper than one of at most 30. */
module Caps {
  import opened Arithmetic
  import opened Periods
  import opened Rules
  import opened Days
  import opened ParkingTimes
  import opened Bills
  import P0 = Pattern0
  import P1 = Pattern1
  import Conservation
  import Charges

  // ---------- one period ----------

  /** One period never costs more than its rule's cap; with disjoint sections never less than 0. */
  lemma PeriodFeeBounds(rule: Rule, period: Period, mode: int, vehicleType: int, first: bool)
    ensures P0.PeriodFee(rule, period, mode, vehicleType, first) <= rule.For(vehicleType).maxFee
    ensures Disjoint(rule.freeSections) ==> 0.0 <= P0.PeriodFee(rule, period, mode, vehicleType, first)
  {
    hide Chargeable, CalOneDayCharge, Disjoint, BandAt, Borrowed, TruncDiv;
    var begin := P0.ChargedFrom(rule, period, mode, first);
    var tariff := rule.For(vehicleType);
    var time := Borrowed(Chargeable(rule, begin, period.end), BandAt(rule, begin), tariff);
    DayChargeBounds(TruncDiv(time.daylight, 60), TruncDiv(time.night, 60), tariff);
    if Disjoint(rule.freeSections) {
      BorrowedNonNegative(rule, begin, period.end, BandAt(rule, begin), tariff);
    }
  }

  lemma BorrowedNonNegative(rule: Rule, lo: int, hi: int, start: Band, tariff: Tariff)
    requires Disjoint(rule.freeSections)
    ensures var time := Borrowed(Chargeable(rule, lo, hi), start, tariff);
      TruncDiv(time.daylight, 60) >= 0 && TruncDiv(time.night, 60) >= 0
  {
    hide CompleteTime, Sum;
    DisjointRemaining(rule, Daylight, lo, hi);
    DisjointRemaining(rule, Night, lo, hi);
    var time := Chargeable(rule, lo, hi);
    CompleteTimeFills(TruncDiv(time.night, 60), tariff.nightUnit);
    CompleteTimeFills(TruncDiv(time.daylight, 60), tariff.dayUnit);
  }

  /** The cap that a day of pattern 1 uses: that of its rule, when it has one and something of the
      day is left after the debt and the free time; else nothing. */
  function UsedCap(book: RuleBook, stay: Stay, period: Period, carry: P1.Carry): real {
    var begin := period.begin + carry.borrowed;
    match book.on(DateOf(period.begin))
    case None => 0.0
    case Some(rule) =>
      var free := if carry.firstDay && stay.mode == FREE_TIME_NO_CHARGE then rule.freeTimeLength * 60 else 0;
      if begin + free < period.end then rule.For(stay.vehicleType).maxFee else 0.0
  }

  ghost predicate DisjointBook(book: RuleBook) {
    forall date :: book.on(date).Some? ==> Disjoint(book.on(date).value.freeSections)
  }

  lemma VisitFeeBounds(book: RuleBook, stay: Stay, period: Period, carry: P1.Carry)
    requires 0 <= carry.borrowed
    requires period.begin < period.end ==> period.end <= DayStart(DateOf(period.begin) + 1)
    ensures P1.VisitDay(book, stay, period, carry).fee <= UsedCap(book, stay, period, carry)
    ensures DisjointBook(book) ==> 0.0 <= P1.VisitDay(book, stay, period, carry).fee
  {
    hide Chargeable, CalOneDayCharge, P1.Complete, DateOf, DayStart, Disjoint;
    var begin := period.begin + carry.borrowed;
    if begin < period.end && book.on(DateOf(begin)).Some? {
      P1.SameDate(period, begin);
      var rule := book.on(DateOf(begin)).value;
      var tariff := rule.For(stay.vehicleType);
      var free := if carry.firstDay then rule.freeTimeLength else carry.freeDuration;
      var start := if carry.firstDay && stay.mode == FREE_TIME_NO_CHARGE then begin + free * 60 else begin;
      var day := P1.Complete(Chargeable(rule, start, period.end), tariff, carry.borrowed);
      DayChargeBounds(day.daylightMinutes, day.nightMinutes, tariff);
      if DisjointBook(book) {
        Conservation.CompletedDaysAreWhole(rule, start, period.end, tariff, carry.borrowed);
      }
    }
  }

  // ---------- whole stays ----------

  /** Pattern 0: between nothing and the cap for every period. */
  lemma {:induction false} CapBound0(rule: Rule, stay: Stay, n: nat)
    ensures SumFees(P0.Details0(rule, stay, n)) <= Times(n, rule.For(stay.vehicleType).maxFee)
    ensures Disjoint(rule.freeSections) ==> 0.0 <= SumFees(P0.Details0(rule, stay, n))
  {
    hide P0.PeriodFee, RollingDay, RollingCount, Times, SumFees, P0.Details0, Disjoint, DetailOf;
    var cap := rule.For(stay.vehicleType).maxFee;
    if n == 0 {
      TimesAdds(0, 0, cap);
      Empty0(rule, stay);
    } else {
      CapBound0(rule, stay, n - 1);
      P0.DetailsStep(rule, stay, n - 1, Ledger([], 0, 0.0, 0.0, 1.0));
      PeriodFeeBounds(rule, RollingDay(stay.enter, stay.exit, n - 1), stay.mode, stay.vehicleType,
                      n == 1 || n < RollingCount(stay.enter, stay.exit));
      TimesAdds(n - 1, 1, cap);
      TimesOne(cap);
    }
  }

  lemma Empty0(rule: Rule, stay: Stay)
    ensures SumFees(P0.Details0(rule, stay, 0)) == 0.0
  {
  }

  /** The caps used on the first n days. */
  ghost function UsedCaps(book: RuleBook, stay: Stay, free: int, n: nat): real {
    if n == 0 then 0.0 else
      UsedCaps(book, stay, free, n - 1) +
      UsedCap(book, stay, CalendarDay(stay.enter, stay.exit, n - 1), P1.Run(book, stay, free, n - 1).carry)
  }

  /** Pattern 1: between nothing and the sum of the caps of the days that are charged. */
  lemma {:induction false} CapBound1(book: RuleBook, stay: Stay, free: int, n: nat)
    requires n <= CalendarCount(stay.enter, stay.exit)
    ensures SumFees(P1.Run(book, stay, free, n).details) <= UsedCaps(book, stay, free, n)
    ensures DisjointBook(book) ==> 0.0 <= SumFees(P1.Run(book, stay, free, n).details)
    ensures 0 <= P1.Run(book, stay, free, n).carry.borrowed
  {
    hide P1.Run, P1.VisitDay, SumFees, CalendarDay, CalendarCount, DisjointBook, UsedCap, DateOf, DayStart;
    if n == 0 {
      P1.RunEmpty(book, stay, free);
    } else {
      CapBound1(book, stay, free, n - 1);
      var period := CalendarDay(stay.enter, stay.exit, n - 1);
      var before := P1.Run(book, stay, free, n - 1);
      P1.RunStep(book, stay, free, n - 1, Ledger([], 0, 0.0, 0.0, 1.0));
      P1.CalendarDayFits(stay.enter, stay.exit, n - 1);
      VisitFeeBounds(book, stay, period, before.carry);
      Conservation.VisitKeepsDebt(book, stay, period, before.carry);
    }
  }

  // ---------- stays of more than 30 periods ----------

  function PeriodCount(pattern: int, stay: Stay): nat {
    if pattern == 1 then CalendarCount(stay.enter, stay.exit) else RollingCount(stay.enter, stay.exit)
  }

  /** No rule's cap exceeds that of the rule of least priority. */
  ghost predicate LeastCapDominates(book: RuleBook, vehicleType: int) {
    && book.least.Some?
    && (forall t :: book.at(t).Some? ==>
          book.at(t).value.For(vehicleType).maxFee <= LeastCap(book, vehicleType))
    && (forall date :: book.on(date).Some? ==>
          book.on(date).value.For(vehicleType).maxFee <= LeastCap(book, vehicleType))
  }

  function LeastCap(book: RuleBook, vehicleType: int): Money
    requires book.least.Some?
  {
    book.least.value.For(vehicleType).maxFee
  }

  lemma {:induction false} UsedCapsBound(book: RuleBook, stay: Stay, free: int, n: nat)
    requires LeastCapDominates(book, stay.vehicleType)
    ensures UsedCaps(book, stay, free, n) <= Times(n, LeastCap(book, stay.vehicleType))
  {
    hide Times, CalendarDay, DateOf, P1.Run;
    var cap := LeastCap(book, stay.vehicleType);
    if n == 0 {
      TimesAdds(0, 0, cap);
    } else {
      UsedCapsBound(book, stay, free, n - 1);
      TimesAdds(n - 1, 1, cap);
      TimesOne(cap);
    }
  }

  /** A stay of at most 30 periods costs at most 30 least caps. */
  lemma ShortStayBound(book: RuleBook, pattern: int, stay: Stay, discount: real, bill: Ledger)
    requires LeastCapDominates(book, stay.vehicleType) && 0.0 <= discount <= 1.0
    requires PeriodCount(pattern, stay) <= MAX_PERIODS
    ensures Charges.Charge(book, pattern, stay, discount, bill).totalFee
            <= Times(MAX_PERIODS, LeastCap(book, stay.vehicleType))
  {
    hide Times, SumFees, P1.Run, P0.Details0, CalendarCount, RollingCount, UsedCaps, TruncDiv;
    var cap := LeastCap(book, stay.vehicleType);
    var n := PeriodCount(pattern, stay);
    TimesAdds(0, 0, cap);
    TimesAdds(n, MAX_PERIODS, cap);
    TimesAdds(0, MAX_PERIODS, cap);
    if Charges.InFreeTime(book, stay) {
    } else if pattern == 1 {
      CapBound1(book, stay, bill.freeDuration, n);
      UsedCapsBound(book, stay, bill.freeDuration, n);
      Discounted(SumFees(P1.Run(book, stay, bill.freeDuration, n).details), discount);
    } else if n > 0 && book.at(stay.enter).Some? {
      var rule := book.at(stay.enter).value;
      CapBound0(rule, stay, n);
      TimesBound(n, rule.For(stay.vehicleType).maxFee, cap);
      Discounted(SumFees(P0.Details0(rule, stay, n)), discount);
    }
  }

  lemma Discounted(fee: real, discount: real)
    requires 0.0 <= discount <= 1.0
    ensures fee * discount <= if fee >= 0.0 then fee else 0.0
  {
    if fee >= 0.0 {
      assert fee * (1.0 - discount) >= 0.0;
    } else {
      assert (-fee) * discount >= 0.0;
    }
  }

  lemma TimesBound(n: nat, x: real, y: real)
    requires x <= y
    ensures Times(n, x) <= Times(n, y)
  {
    assert n as real * (y - x) >= 0.0;
  }

  /** Any stay over 30 periods outside its free time costs at least as much as any stay of the
      same kind of vehicle within 30 periods, under either pattern. */
  lemma LongStaysCostMost(book: RuleBook, pattern: int, short: Stay, pattern': int, long: Stay,
                          discount: real, bill: Ledger, bill': Ledger)
    requires LeastCapDominates(book, short.vehicleType) && 0.0 <= discount <= 1.0
    requires short.vehicleType == long.vehicleType
    requires PeriodCount(pattern, short) <= MAX_PERIODS < PeriodCount(pattern', long)
    requires !Charges.InFreeTime(book, long)
    ensures Charges.Charge(book, pattern, short, discount, bill).totalFee
            <= Charges.Charge(book, pattern', long, discount, bill').totalFee
  {
    hide Times, SumFees, P1.Run, P0.Details0, CalendarCount, RollingCount, TruncDiv, Charges.InFreeTime;
    ShortStayBound(book, pattern, short, discount, bill);
    TimesAdds(MAX_PERIODS, PeriodCount(pattern', long), LeastCap(book, short.vehicleType));
  }
}
