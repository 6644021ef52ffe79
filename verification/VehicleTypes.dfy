/** Which tariff charges which vehicle: type 1 by the big one, every other type by the small one. */
module VehicleTypes {
  import opened Wrappers
  import opened Periods
  import opened Rules
  import opened Days
  import opened ParkingTimes
  import opened Bills
  import Charges
  import P0 = Pattern0
  import P1 = Pattern1

  /** The rules differ at most in the tariff of the other vehicles. */
  predicate SameFor(vehicleType: int, r: Rule, r': Rule) {
    if vehicleType == 1 then r' == r.(small := r'.small) else r' == r.(big := r'.big)
  }

  predicate BothFor(vehicleType: int, r: Option<Rule>, r': Option<Rule>) {
    if r.None? || r'.None? then r.None? && r'.None? else SameFor(vehicleType, r.value, r'.value)
  }

  ghost predicate SameBook(vehicleType: int, book: RuleBook, book': RuleBook) {
    && (forall t :: BothFor(vehicleType, book.at(t), book'.at(t)))
    && (forall date :: BothFor(vehicleType, book.on(date), book'.on(date)))
    && BothFor(vehicleType, book.least, book'.least)
  }

  lemma {:induction false} SameSum(rule: Rule, rule': Rule, band: Band, lo: int, hi: int)
    requires rule'.daylightBegin == rule.daylightBegin && rule'.nightBegin == rule.nightBegin
    requires rule'.freeSections == rule.freeSections
    ensures Remaining(rule, band, lo, hi) == Remaining(rule', band, lo, hi)
    decreases hi - lo
  {
    if lo < hi {
      SameSum(rule, rule', band, lo, hi - 1);
    }
  }

  /** Both measure, start, lose free time and are charged alike. */
  lemma SameRule(vehicleType: int, r: Rule, r': Rule, lo: int, hi: int)
    requires SameFor(vehicleType, r, r')
    ensures r.For(vehicleType) == r'.For(vehicleType)
    ensures Chargeable(r, lo, hi) == Chargeable(r', lo, hi) && BandAt(r, lo) == BandAt(r', lo)
    ensures r.id == r'.id && r.freeTimeLength == r'.freeTimeLength
  {
    hide Remaining;
    SameSum(r, r', Daylight, lo, hi);
    SameSum(r, r', Night, lo, hi);
  }

  lemma SamePeriod(r: Rule, r': Rule, period: Period, mode: int, vehicleType: int, first: bool)
    requires SameFor(vehicleType, r, r')
    ensures P0.PeriodFee(r, period, mode, vehicleType, first) == P0.PeriodFee(r', period, mode, vehicleType, first)
  {
    hide Chargeable, Borrowed, CalOneDayCharge, BandAt, SameFor;
    SameRule(vehicleType, r, r', P0.ChargedFrom(r, period, mode, first), period.end);
  }

  lemma {:induction false} SameDetails(r: Rule, r': Rule, stay: Stay, n: nat)
    requires SameFor(stay.vehicleType, r, r')
    ensures P0.Details0(r, stay, n) == P0.Details0(r', stay, n)
  {
    hide P0.PeriodFee, RollingDay, RollingCount, SameFor;
    if n > 0 {
      SameDetails(r, r', stay, n - 1);
      SamePeriod(r, r', RollingDay(stay.enter, stay.exit, n - 1), stay.mode, stay.vehicleType,
                 n == 1 || n < RollingCount(stay.enter, stay.exit));
      SameRule(stay.vehicleType, r, r', 0, 0);
    }
  }

  lemma SameVisit(book: RuleBook, book': RuleBook, stay: Stay, period: Period, carry: P1.Carry)
    requires SameBook(stay.vehicleType, book, book')
    ensures P1.VisitDay(book, stay, period, carry) == P1.VisitDay(book', stay, period, carry)
  {
    hide Chargeable, P1.Complete, CalOneDayCharge, DateOf, SameFor;
    var begin := period.begin + carry.borrowed;
    var rule, rule' := book.on(DateOf(begin)), book'.on(DateOf(begin));
    assert BothFor(stay.vehicleType, rule, rule');
    if rule.Some? {
      SameRule(stay.vehicleType, rule.value, rule'.value, begin, period.end);
      SameRule(stay.vehicleType, rule.value, rule'.value, begin + rule.value.freeTimeLength * 60, period.end);
    }
  }

  lemma {:induction false} SameRun(book: RuleBook, book': RuleBook, stay: Stay, free: int, n: nat)
    requires SameBook(stay.vehicleType, book, book')
    ensures P1.Run(book, stay, free, n) == P1.Run(book', stay, free, n)
  {
    hide SameBook, P1.VisitDay, CalendarDay;
    if n > 0 {
      SameRun(book, book', stay, free, n - 1);
      SameVisit(book, book', stay, CalendarDay(stay.enter, stay.exit, n - 1), P1.Run(book, stay, free, n - 1).carry);
    }
  }

  /** Changing the small tariff of every rule does not change what a vehicle of type 1 is charged,
      and changing the big one does not change what any other is: in both patterns, over 30
      periods, and line by line. */
  lemma VehicleTypeDecides(book: RuleBook, book': RuleBook, pattern: int, stay: Stay, discount: real, bill: Ledger)
    requires SameBook(stay.vehicleType, book, book')
    ensures Charges.Charge(book, pattern, stay, discount, bill) == Charges.Charge(book', pattern, stay, discount, bill)
  {
    hide P1.Run, P0.Details0, CalendarCount, RollingCount, SumFees, SameFor;
    SameRun(book, book', stay, bill.freeDuration, CalendarCount(stay.enter, stay.exit));
    var rule, rule' := book.at(stay.enter), book'.at(stay.enter);
    assert BothFor(stay.vehicleType, rule, rule');
    if rule.Some? {
      SameDetails(rule.value, rule'.value, stay, RollingCount(stay.enter, stay.exit));
      SameRule(stay.vehicleType, rule.value, rule'.value, 0, 0);
    }
    if book.least.Some? {
      SameRule(stay.vehicleType, book.least.value, book'.least.value, 0, 0);
    }
  }
}
