/** Concrete inputs that show where the tariff does not do the obvious thing. */
module EdgeCases {
  import opened Wrappers
  import opened Arithmetic
  import opened Periods
  import opened Rules
  import opened Days
  import opened ParkingTimes
  import opened Bills
  import opened Conservation
  import opened FlatTariff
  import opened Seconds
  import opened WholeBills
  import Charges
  import P0 = Pattern0
  import P1 = Pattern1

  const HOUR := 3600

  function Plain(tariff: Tariff, daylightBegin: int, nightBegin: int, free: int, sections: seq<Section>): RuleData {
    RuleData("", daylightBegin, nightBegin, free, tariff, tariff, sections)
  }

  const WHOLE_DAY_TWICE := [Section(0, DAY), Section(0, DAY)]

  function TwiceFree(): Rule {
    Plain(Tariff(1, 1.0, 1, 1.0, 100.0), 0, DAY, 0, WHOLE_DAY_TWICE)
  }

  lemma CountedTwice(t: int)
    ensures FreeCount(WHOLE_DAY_TWICE, t) == 2 && BandAt(TwiceFree(), t) == Daylight
  {
    assert WHOLE_DAY_TWICE[..1] == [Section(0, DAY)];
    assert FreeCount([Section(0, DAY)][..0], t) == 0;
    assert FreeCount([Section(0, DAY)], t) == 1;
  }

  /** With one free section listed twice an hour of parking costs minus sixty: the code's test
      for a negative remainder does not change it. */
  lemma OverlapRefunds()
    ensures P0.PeriodFee(TwiceFree(), Period(0, HOUR), 0, 0, true) == -60.0
  {
    hide Chargeable, CalOneDayCharge, Borrowed, TruncDiv, BandAt;
    TwiceFreeHour();
    CountedTwice(0);
    NegativeHour(TwiceFree().small);
  }

  lemma NegativeHour(tariff: Tariff)
    requires tariff == TwiceFree().small
    ensures Borrowed(Split(-HOUR, 0), Daylight, tariff) == Split(-HOUR, 0)
    ensures TruncDiv(-HOUR, 60) == -60 && TruncDiv(0, 60) == 0
    ensures CalOneDayCharge(-60, 0, tariff) == -60.0
  {
    hide CalOneDayCharge;
    assert TruncDiv(-HOUR, 60) == -60 && CompleteTime(-60, 1) == 0;
    NegativeFee(tariff);
  }

  lemma NegativeFee(tariff: Tariff)
    requires tariff == TwiceFree().small
    ensures CalOneDayCharge(-60, 0, tariff) == -60.0
  {
    CeilDivUnique(-60, 1, -60);
    CeilDivUnique(0, 1, 0);
    assert UncappedFee(-60, 0, tariff) == -60.0;
  }

  lemma TwiceFreeHour()
    ensures Chargeable(TwiceFree(), 0, HOUR) == Split(-HOUR, 0)
  {
    hide FreeCount, BandAt, Chargeable;
    forall t: int
      ensures FreeCount(WHOLE_DAY_TWICE, t) == 2 && BandAt(TwiceFree(), t) == Daylight
    {
      CountedTwice(t);
    }
    UniformDay(TwiceFree(), 2, 0, HOUR);
  }

  /** All daylight, and every second in the same number of free sections. */
  lemma UniformDay(rule: Rule, count: int, lo: int, hi: int)
    requires lo <= hi
    requires forall t: int :: BandAt(rule, t) == Daylight
    requires forall t: int :: FreeCount(rule.freeSections, t) == count
    ensures Chargeable(rule, lo, hi) == Split((1 - count) * (hi - lo), 0)
  {
    hide FreeCount, BandAt, Sum;
    var day, dayFree := BandWeight(rule, Daylight), FreeWeight(rule, Daylight, rule.freeSections);
    var night, nightFree := BandWeight(rule, Night), FreeWeight(rule, Night, rule.freeSections);
    SumConstant(day, 1, lo, hi);
    SumConstant(dayFree, count, lo, hi);
    SumConstant(night, 0, lo, hi);
    SumConstant(nightFree, 0, lo, hi);
  }

  function ShortNight(): Rule {
    Plain(Tariff(100, 1.0, 1, 1.0, 1000.0), 0, DAY - 300, 0, [])
  }

  /** A day unit of 100 minutes and a night of 5 before midnight make pattern 1 bill 120 minutes
      too many in two days, more than either unit. */
  lemma ShortNightOverbills()
    ensures var book := RuleBook(_ => None, _ => Some(ShortNight()), None);
      var stay := Stay(0, 2 * DAY, 0, 0);
      P1.Run(book, stay, 0, CalendarCount(0, 2 * DAY)).minutes == (stay.exit - stay.enter) / 60 + 120
  {
    hide P1.Run, P1.VisitDay, CalendarDay, CalendarCount, ShortNight;
    var book := RuleBook(_ => None, _ => Some(ShortNight()), None);
    var stay := Stay(0, 2 * DAY, 0, 0);
    TwoDays();
    ShortNightDay(book, stay, 0, P1.Carry(0, true, 0));
    ShortNightDay(book, stay, 1, P1.Carry(0, false, 0));
    P1.RunEmpty(book, stay, 0);
    P1.RunStep(book, stay, 0, 0, Ledger([], 0, 0.0, 0.0, 1.0));
    P1.RunStep(book, stay, 0, 1, Ledger([], 0, 0.0, 0.0, 1.0));
  }

  lemma TwoDays()
    ensures CalendarCount(0, 2 * DAY) == 2
    ensures CalendarDay(0, 2 * DAY, 0) == Period(0, DAY) && CalendarDay(0, 2 * DAY, 1) == Period(DAY, 2 * DAY)
  {
  }

  lemma ShortNightDay(book: RuleBook, stay: Stay, date: nat, carry: P1.Carry)
    requires book.on(date) == Some(ShortNight()) && stay == Stay(0, 2 * DAY, 0, 0)
    requires carry == P1.Carry(0, date == 0, 0)
    ensures var visit := P1.VisitDay(book, stay, Period(date * DAY, (date + 1) * DAY), carry);
      visit.carry == P1.Carry(0, false, 0) && visit.minutes == 1500
  {
    hide Chargeable, P1.Complete, CalOneDayCharge;
    DateWithin(date * DAY, date);
    DayMinutes(ShortNight(), date * 1440, (date + 1) * 1440, date);
    CompleteMinutes(1435, 5, ShortNight().small, 0);
    assert CompleteTime(1435, 100) == 65;
  }

  function LunchHour(): Rule {
    Plain(Tariff(60, 1.0, 60, 1.0, 100.0), 6 * HOUR, 18 * HOUR, 0, [Section(12 * HOUR, 13 * HOUR)])
  }

  /** An hour that lies in a free section costs nothing, in both patterns. */
  lemma LunchHourIsFree(pattern: int)
    ensures var book := RuleBook(_ => Some(LunchHour()), _ => Some(LunchHour()), None);
      Charges.Charge(book, pattern, Stay(12 * HOUR, 13 * HOUR, 0, 0), 1.0, Ledger([], 0, 0.0, 0.0, 1.0)).totalFee == 0.0
  {
    hide Charges.Charge, CalendarCount, RollingCount;
    var book := RuleBook(_ => Some(LunchHour()), _ => Some(LunchHour()), None);
    forall t | 12 * HOUR <= t < 13 * HOUR
      ensures IsFree(LunchHour(), t)
    {
      assert Section(12 * HOUR, 13 * HOUR) in LunchHour().freeSections;
    }
    WhollyFreeCostsNothing(book, pattern, Stay(12 * HOUR, 13 * HOUR, 0, 0), 1.0, Ledger([], 0, 0.0, 0.0, 1.0));
  }

  function TwoTariffs(): Rule {
    RuleData("", 6 * HOUR, 18 * HOUR, 0, Tariff(60, 5.0, 60, 5.0, 200.0), Tariff(60, 10.0, 60, 10.0, 300.0), [])
  }

  /** An hour costs a vehicle of type 1 the big tariff's 10, and any other the small one's 5. */
  lemma HourByVehicle(pattern: int, vehicleType: int)
    ensures var book := RuleBook(_ => Some(TwoTariffs()), _ => Some(TwoTariffs()), None);
      Charges.Charge(book, pattern, Stay(0, HOUR, 0, vehicleType), 1.0, Ledger([], 0, 0.0, 0.0, 1.0)).totalFee
      == if vehicleType == 1 then 10.0 else 5.0
  {
    hide Charges.Charge, CeilDiv;
    var book := RuleBook(_ => Some(TwoTariffs()), _ => Some(TwoTariffs()), None);
    var stay, rate := Stay(0, HOUR, 0, vehicleType), if vehicleType == 1 then 10.0 else 5.0;
    CeilDivUnique(MINUTES_PER_DAY, 60, 24);
    CeilDivUnique(60, 60, 1);
    assert Flat(TwoTariffs().For(vehicleType), 60, rate);
    PatternsAgree(book, pattern, stay, 1.0, Ledger([], 0, 0.0, 0.0, 1.0), 60, rate);
  }

  function HalfHourFree(): Rule {
    Plain(Tariff(60, 5.0, 60, 5.0, 200.0), 6 * HOUR, 18 * HOUR, 30, [])
  }

  /** Free time is minutes: 20 of 30 cost nothing, 40 cost the hour. */
  lemma FreeTimeIsMinutes(pattern: int, minutes: nat)
    requires minutes == 20 || minutes == 40
    ensures var book := RuleBook(_ => Some(HalfHourFree()), _ => Some(HalfHourFree()), None);
      Charges.Charge(book, pattern, Stay(0, 60 * minutes, 0, 0), 1.0, Ledger([], 0, 0.0, 0.0, 1.0)).totalFee
      == if minutes == 20 then 0.0 else 5.0
  {
    hide Charges.Charge, CeilDiv;
    var book := RuleBook(_ => Some(HalfHourFree()), _ => Some(HalfHourFree()), None);
    CeilDivUnique(MINUTES_PER_DAY, 60, 24);
    CeilDivUnique(40, 60, 1);
    PatternsAgree(book, pattern, Stay(0, 60 * minutes, 0, 0), 1.0, Ledger([], 0, 0.0, 0.0, 1.0), 60, 5.0);
  }

  function CheapNight(): Rule {
    Plain(Tariff(1, 1.0, 60, 0.0, 10000.0), 6 * HOUR, 18 * HOUR, 0, [])
  }

  /** Pattern 0: staying one minute into the evening is cheaper, because the new night minute
      borrows 59 minutes of daylight. */
  lemma LongerStayCheaper()
    ensures P0.PeriodFee(CheapNight(), Period(5 * HOUR, 18 * HOUR), 0, 0, true) == 720.0
    ensures P0.PeriodFee(CheapNight(), Period(5 * HOUR, 18 * HOUR + 60), 0, 0, true) == 661.0
  {
    hide Chargeable, CalOneDayCharge, Borrowed, TruncDiv;
    assert BandAt(CheapNight(), 5 * HOUR) == Night;
    DayMinutes(CheapNight(), 300, 1080, 0);
    DayMinutes(CheapNight(), 300, 1081, 0);
    EveningFee(60, 0, CheapNight().small);
    EveningFee(61, 59, CheapNight().small);
  }

  /** Twelve hours of daylight, and minutes of night that borrow `loan` of them. */
  lemma EveningFee(night: nat, loan: nat, tariff: Tariff)
    requires tariff == CheapNight().small && ((night == 60 && loan == 0) || (night == 61 && loan == 59))
    ensures var time := Borrowed(Split(60 * 720, 60 * night), Night, tariff);
      CalOneDayCharge(TruncDiv(time.daylight, 60), TruncDiv(time.night, 60), tariff) == (720 - loan) as real
  {
    hide CalOneDayCharge;
    assert CompleteTime(night, 60) == loan;
    MinutesOf(night);
    MinutesOf(720 - loan);
    MinutesOf(night + loan);
    DaylightOnly(720 - loan, night + loan, tariff);
    hide CompleteTime, TruncDiv;
  }

  lemma DaylightOnly(daylight: nat, night: nat, tariff: Tariff)
    requires tariff == CheapNight().small && daylight <= 720
    ensures CalOneDayCharge(daylight, night, tariff) == daylight as real
  {
    CeilDivUnique(daylight, 1, daylight);
    assert UncappedFee(daylight, night, tariff) == daylight as real;
  }

  function CheapDay(): Rule {
    Plain(Tariff(60, 0.0, 1, 1.0, 10000.0), 6 * HOUR, 18 * HOUR, 0, [])
  }

  /** Pattern 1: staying one minute into the morning is cheaper, because the new daylight minute
      borrows 59 minutes of the night before it. */
  lemma LongerMorningCheaper(book: RuleBook, stay: Stay)
    requires book.on(0) == Some(CheapDay()) && stay.mode == 0 && stay.vehicleType == 0
    ensures P1.VisitDay(book, stay, Period(5 * HOUR, 6 * HOUR), P1.Carry(0, true, 0)).fee == 60.0
    ensures P1.VisitDay(book, stay, Period(5 * HOUR, 6 * HOUR + 60), P1.Carry(0, true, 0)).fee == 1.0
  {
    hide P1.VisitDay, P1.Complete, CompleteTime, CalOneDayCharge, DaylightMinutes;
    var rule, carry := CheapDay(), P1.Carry(0, true, 0);
    MorningMinutes();
    VisitInMinutes(book, rule, stay, 300, 360, 0, carry, 0);
    VisitInMinutes(book, rule, stay, 300, 361, 0, carry, 0);
    CompleteMinutes(0, 60, rule.small, 0);
    CompleteMinutes(1, 60, rule.small, 0);
    MorningLoans();
    NightOnly(0, 60, rule.small);
    NightOnly(60, 1, rule.small);
  }

  lemma MorningMinutes()
    ensures DaylightMinutes(CheapDay(), 300, 360, 0) == 0 && DaylightMinutes(CheapDay(), 300, 361, 0) == 1
  {
  }

  lemma MorningLoans()
    ensures CompleteTime(1, 60) == 59 && CompleteTime(60, 1) == 0 && CompleteTime(1, 1) == 0
  {
  }

  lemma NightOnly(daylight: nat, night: nat, tariff: Tariff)
    requires tariff == CheapDay().small && night <= 720
    ensures CalOneDayCharge(daylight, night, tariff) == night as real
  {
    CeilDivUnique(night, 1, night);
    assert UncappedFee(daylight, night, tariff) == night as real;
  }

  function FreeHour(): Rule {
    Plain(Tariff(60, 1.0, 60, 1.0, 100.0), 0, DAY, 60, [])
  }

  /** In the mode that does not charge free time a three-day stay in pattern 0 gets the free hour
      twice. */
  lemma ReuseUndercharges()
    ensures var stay := Stay(0, 3 * DAY, 1, 0);
      SumFees(P0.Details0(FreeHour(), stay, 3)) == P0.SeparateFees(FreeHour(), stay, 3) - 1.0
  {
    hide P0.Fee0, P0.FullDayFee, P0.Details0, SumFees, P0.SeparateFees, RollingCount;
    var rule, stay := FreeHour(), Stay(0, 3 * DAY, 1, 0);
    FreeHourFees(stay);
    P0.ReuseGap(rule, stay, 3);
  }

  lemma FreeHourFees(stay: Stay)
    requires stay == Stay(0, 3 * DAY, 1, 0)
    ensures RollingCount(0, 3 * DAY) == 3
    ensures P0.Fee0(FreeHour(), stay, 0) == 23.0 && P0.FullDayFee(FreeHour(), stay) == 24.0
  {
    hide Chargeable, CalOneDayCharge, Borrowed, TruncDiv;
    assert RollingDay(0, 3 * DAY, 0) == Period(0, DAY) && RollingCount(0, 3 * DAY) == 3;
    DaylightHours(60, 23);
    DaylightHours(0, 24);
  }

  lemma DaylightHours(b: nat, hours: nat)
    requires b + 60 * hours == 1440
    ensures var rule := FreeHour();
      var time := Borrowed(Chargeable(rule, 60 * b, DAY), BandAt(rule, 60 * b), rule.small);
      CalOneDayCharge(TruncDiv(time.daylight, 60), TruncDiv(time.night, 60), rule.small) == hours as real
  {
    hide Chargeable, CalOneDayCharge, CompleteTime, TruncDiv;
    var rule := FreeHour();
    DayMinutes(rule, b, 1440, 0);
    MinutesOf(60 * hours);
    MinutesOf(0);
    WholeHours(hours, rule.small);
  }

  lemma WholeHours(hours: nat, tariff: Tariff)
    requires hours <= 24 && tariff == FreeHour().small
    ensures CompleteTime(60 * hours, 60) == 0
    ensures CalOneDayCharge(60 * hours, 0, tariff) == hours as real
  {
    CeilDivUnique(60 * hours, 60, hours);
    CeilDivUnique(0, 60, 0);
    assert UncappedFee(60 * hours, 0, tariff) == hours as real;
  }
}
