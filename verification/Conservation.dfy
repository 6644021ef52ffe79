/** Pattern 1 neither loses nor invents minutes: what it bills is the time parked, rounded up
    by less than one unit, however many midnights the borrowed time crosses. */
module Conservation {
  import opened Wrappers
  import opened Arithmetic
  import opened Periods
  import opened Rules
  import opened Days
  import opened ParkingTimes
  import opened Bills
  import opened Pattern1

  const MINUTES_PER_DAY := 1440

  /** Whole-minute bands and no free sections. */
  predicate InMinutes(rule: Rule) {
    rule.freeSections == [] && rule.daylightBegin % 60 == 0 && rule.nightBegin % 60 == 0
  }

  ghost predicate MinuteBook(book: RuleBook) {
    forall date :: book.on(date).Some? && InMinutes(book.on(date).value)
  }

  /** The day unit is at most a minute longer than the night before midnight, or there is no
      daylight; the night unit is at most a day, or there is no night. */
  predicate Conserving(rule: Rule, tariff: Tariff) {
    && (tariff.dayUnit * 60 <= DAY - rule.nightBegin + 60 || rule.daylightBegin == rule.nightBegin)
    && (tariff.nightUnit <= MINUTES_PER_DAY || (rule.daylightBegin == 0 && rule.nightBegin == DAY))
  }

  ghost predicate ConservingBook(book: RuleBook, vehicleType: int) {
    forall date :: book.on(date).Some? ==> Conserving(book.on(date).value, book.on(date).value.For(vehicleType))
  }

  ghost predicate UnitsWithin(book: RuleBook, vehicleType: int, unit: Unit) {
    forall date :: book.on(date).Some? ==>
      var tariff := book.on(date).value.For(vehicleType);
      tariff.dayUnit <= unit && tariff.nightUnit <= unit
  }

  predicate WholeMinutes(stay: Stay) {
    stay.enter % 60 == 0 && stay.exit % 60 == 0 && stay.enter < stay.exit
  }

  // ---------- one day, in minutes ----------

  lemma DateWithin(t: int, date: int)
    requires DayStart(date) <= t < DayStart(date + 1)
    ensures DateOf(t) == date
  {
  }

  /** The minutes of daylight and of night between minutes b and e of one date. */
  lemma DayMinutes(rule: Rule, b: int, e: int, date: int)
    requires InMinutes(rule)
    requires MINUTES_PER_DAY * date <= b <= e <= MINUTES_PER_DAY * (date + 1)
    ensures var d := DaylightMinutes(rule, b, e, date);
      0 <= d <= e - b && Chargeable(rule, 60 * b, 60 * e) == Split(60 * d, 60 * (e - b - d))
  {
    var dawn, dusk := rule.daylightBegin / 60, rule.nightBegin / 60;
    var period := Period(60 * b, 60 * e);
    var light := Period(60 * (MINUTES_PER_DAY * date + dawn), 60 * (MINUTES_PER_DAY * date + dusk));
    assert light == Period(DayStart(date) + rule.daylightBegin, DayStart(date) + rule.nightBegin);
    assert period.Shared(light) == 60 * DaylightMinutes(rule, b, e, date);
    DayBands(period, date, rule);
    NoSectionsConserve(rule, period.begin, period.end);
    var split := Chargeable(rule, period.begin, period.end);
    assert split.daylight == split.Of(Daylight) && split.night == split.Of(Night);
    hide Chargeable, Sum, DaylightMinutes;
  }

  function DaylightMinutes(rule: Rule, b: int, e: int, date: int): (d: int)
    ensures 0 <= d && (b <= e ==> d <= e - b)
  {
    var midnight := MINUTES_PER_DAY * date;
    Max(0, Min(e, midnight + rule.nightBegin / 60) - Max(b, midnight + rule.daylightBegin / 60))
  }

  lemma MinuteBand(rule: Rule, e: int, date: int)
    requires InMinutes(rule) && MINUTES_PER_DAY * date <= e < MINUTES_PER_DAY * (date + 1)
    ensures DaylightMinutes(rule, e, e + 1, date) == if BandAt(rule, 60 * e) == Daylight then 1 else 0
  {
    hide BandAt;
    BandOfSecond(rule, date, 60 * e);
  }

  /** Completion of seconds, counted in minutes. */
  lemma CompleteSeconds(daylight: nat, night: nat, tariff: Tariff, owed: int)
    ensures var d, n := daylight / 60, night / 60;
      var c := CompleteTime(d, tariff.dayUnit);
      0 <= c < tariff.dayUnit &&
      Complete(Split(daylight, night), tariff, owed) ==
        if n < c then Completed(d + c, 0, owed)
        else
          var next := CompleteTime(n - c, tariff.nightUnit);
          Completed(d + c, n - c + next, 60 * next)
  {
    var d, n := daylight / 60, night / 60;
    var c := CompleteTime(d, tariff.dayUnit);
    CompleteTimeFills(d, tariff.dayUnit);
    MinutesMore(daylight, 0);
    MinutesMore(daylight, c);
    MinutesMore(night, -c);
    if c <= n {
      var next := CompleteTime(n - c, tariff.nightUnit);
      CompleteTimeFills(n - c, tariff.nightUnit);
      MinutesMore(night, next - c);
    }
    hide CompleteTime, TruncDiv;
  }

  /** Completion counted in minutes. */
  lemma CompleteMinutes(d: nat, n: nat, tariff: Tariff, owed: int)
    ensures var c := CompleteTime(d, tariff.dayUnit);
      0 <= c < tariff.dayUnit &&
      Complete(Split(60 * d, 60 * n), tariff, owed) ==
        if n < c then Completed(d + c, 0, owed)
        else
          var next := CompleteTime(n - c, tariff.nightUnit);
          Completed(d + c, n - c + next, 60 * next)
    ensures var c := CompleteTime(d, tariff.dayUnit);
      c <= n ==> 0 <= CompleteTime(n - c, tariff.nightUnit) < tariff.nightUnit
    ensures d == 0 ==> CompleteTime(d, tariff.dayUnit) == 0
  {
    hide CompleteTime, Complete;
    CompleteSeconds(60 * d, 60 * n, tariff, owed);
    var c := CompleteTime(d, tariff.dayUnit);
    if c <= n {
      CompleteTimeFills(n - c, tariff.nightUnit);
    }
    NothingToFill(tariff.dayUnit);
  }

  lemma MinutesOf(m: int)
    ensures TruncDiv(60 * m, 60) == m
  {
  }

  /** Whole minutes added to seconds. */
  lemma MinutesMore(seconds: nat, m: int)
    ensures seconds + 60 * m >= 0 <==> seconds / 60 + m >= 0
    ensures seconds + 60 * m >= 0 ==> TruncDiv(seconds + 60 * m, 60) == seconds / 60 + m
  {
  }

  /** The free minutes that this day does not charge. */
  function FreeMinutes(rule: Rule, stay: Stay, carry: Carry): nat {
    if carry.firstDay && stay.mode == FREE_TIME_NO_CHARGE then rule.freeTimeLength else 0
  }

  /** A day that is not skipped completes the minutes left after the debt of w minutes and the
      free time, if any are left. */
  lemma VisitInMinutes(book: RuleBook, rule: Rule, stay: Stay, b: int, e: int, date: int, carry: Carry, w: nat)
    requires book.on(date) == Some(rule) && InMinutes(rule)
    requires MINUTES_PER_DAY * date <= b < e <= MINUTES_PER_DAY * (date + 1)
    requires carry.borrowed == 60 * w && b + w < e
    ensures var visit := VisitDay(book, stay, Period(60 * b, 60 * e), carry);
      var start := b + w + FreeMinutes(rule, stay, carry);
      && !visit.carry.firstDay
      && (start >= e ==> visit.carry.borrowed == carry.borrowed && visit.minutes == 0 && visit.fee == 0.0)
      && (start < e ==>
            var tariff := rule.For(stay.vehicleType);
            var d := DaylightMinutes(rule, start, e, date);
            && 0 <= d <= e - start
            && var day := Complete(Split(60 * d, 60 * (e - start - d)), tariff, carry.borrowed);
            && visit.carry.borrowed == day.borrowed
            && visit.minutes == day.Minutes()
            && visit.fee == CalOneDayCharge(day.daylightMinutes, day.nightMinutes, tariff))
  {
    hide DateOf, Complete, Chargeable, DaylightMinutes, CalOneDayCharge, InMinutes;
    DateWithin(60 * (b + w), date);
    var start := b + w + FreeMinutes(rule, stay, carry);
    if start < e {
      DayMinutes(rule, start, e, date);
    }
  }

  /** It repays its debt and bills the rest, plus the loan it takes itself; only a day that ends
      before midnight may instead round up on its own. */
  lemma VisitConserves(book: RuleBook, rule: Rule, stay: Stay, b: int, e: int, date: int, carry: Carry, w: nat)
    returns (w': int)
    requires book.on(date) == Some(rule) && InMinutes(rule) && Conserving(rule, rule.For(stay.vehicleType))
    requires MINUTES_PER_DAY * date <= b < e <= MINUTES_PER_DAY * (date + 1)
    requires carry.borrowed == 60 * w && b + w < e && (carry.firstDay ==> w == 0)
    ensures var visit := VisitDay(book, stay, Period(60 * b, 60 * e), carry);
      var tariff := rule.For(stay.vehicleType);
      var due := e - Min(e, b + w + FreeMinutes(rule, stay, carry));
      && !visit.carry.firstDay
      && (|| (&& visit.carry.borrowed == 60 * w'
              && visit.minutes == due + w'
              && 0 <= w' < tariff.nightUnit && w' < MINUTES_PER_DAY)
          || (e != MINUTES_PER_DAY * (date + 1) &&
              due <= visit.minutes < due + Max(tariff.dayUnit, tariff.nightUnit)))
  {
    hide VisitDay, InMinutes, Conserving, Complete, CompleteTime, DaylightMinutes, CalOneDayCharge;
    VisitInMinutes(book, rule, stay, b, e, date, carry, w);
    var tariff := rule.For(stay.vehicleType);
    var start := b + w + FreeMinutes(rule, stay, carry);
    w' := 0;
    if start < e {
      var d := DaylightMinutes(rule, start, e, date);
      var n := e - start - d;
      var c := CompleteTime(d, tariff.dayUnit);
      CompleteMinutes(d, n, tariff, carry.borrowed);
      NightCoversLoan(rule, tariff, start, e, date);
      if c <= n {
        w' := CompleteTime(n - c, tariff.nightUnit);
      }
    }
  }

  /** A period that reaches midnight holds all of the night before it, or no daylight; what the
      night borrows is less than a day. */
  lemma NightCoversLoan(rule: Rule, tariff: Tariff, b: int, e: int, date: int)
    requires InMinutes(rule) && Conserving(rule, tariff)
    requires MINUTES_PER_DAY * date <= b <= e <= MINUTES_PER_DAY * (date + 1)
    ensures var d := DaylightMinutes(rule, b, e, date);
      var c := CompleteTime(d, tariff.dayUnit);
      && d >= 0
      && (e == MINUTES_PER_DAY * (date + 1) ==> c <= e - b - d)
      && (c <= e - b - d ==> CompleteTime(e - b - d - c, tariff.nightUnit) < MINUTES_PER_DAY)
  {
    hide CompleteTime, Complete;
    var d := DaylightMinutes(rule, b, e, date);
    var c := CompleteTime(d, tariff.dayUnit);
    CompleteMinutes(d, 0, tariff, 0);
    NothingToFill(tariff.nightUnit);
    if c <= e - b - d {
      CompleteTimeFills(e - b - d - c, tariff.nightUnit);
    }
  }

  lemma NothingToFill(unit: Unit)
    ensures CompleteTime(0, unit) == 0
  {
    DivModUnique(0, unit, 0, 0);
  }

  // ---------- which rules conserve ----------

  /** Charged from minute b to midnight: the night covers daylight's loan, and what the night
      borrows leaves something of the next day. */
  predicate ConservesFrom(rule: Rule, tariff: Tariff, b: int, date: int) {
    var e := MINUTES_PER_DAY * (date + 1);
    var d := DaylightMinutes(rule, b, e, date);
    var spare := e - b - d - CompleteTime(d, tariff.dayUnit);
    0 <= spare && CompleteTime(spare, tariff.nightUnit) < MINUTES_PER_DAY
  }

  /** The condition on the rule is exact. */
  lemma ConservesFromIff(rule: Rule, tariff: Tariff, date: int)
    requires InMinutes(rule)
    ensures (forall b | MINUTES_PER_DAY * date <= b < MINUTES_PER_DAY * (date + 1) ::
               ConservesFrom(rule, tariff, b, date))
       <==> Conserving(rule, tariff)
  {
    hide CompleteTime, DaylightMinutes, Conserving, InMinutes;
    if Conserving(rule, tariff) {
      forall b | MINUTES_PER_DAY * date <= b < MINUTES_PER_DAY * (date + 1)
        ensures ConservesFrom(rule, tariff, b, date)
      {
        NightCoversLoan(rule, tariff, b, MINUTES_PER_DAY * (date + 1), date);
      }
    } else {
      var b := BadMinute(rule, tariff, date);
      assert !ConservesFrom(rule, tariff, b, date);
    }
  }

  /** A minute of entry from which another rule does not conserve: the last one of daylight or
      the last one of night. */
  lemma BadMinute(rule: Rule, tariff: Tariff, date: int) returns (b: int)
    requires InMinutes(rule) && !Conserving(rule, tariff)
    ensures MINUTES_PER_DAY * date <= b < MINUTES_PER_DAY * (date + 1)
    ensures !ConservesFrom(rule, tariff, b, date)
  {
    hide CompleteTime;
    NothingToFill(tariff.dayUnit);
    OneToFill(tariff.dayUnit);
    OneToFill(tariff.nightUnit);
    var midnight := MINUTES_PER_DAY * date;
    var dawn, dusk := rule.daylightBegin / 60, rule.nightBegin / 60;
    if tariff.dayUnit * 60 > DAY - rule.nightBegin + 60 && dawn < dusk {
      b := midnight + dusk - 1;
      assert DaylightMinutes(rule, b, midnight + MINUTES_PER_DAY, date) == 1;
    } else if dawn < dusk == MINUTES_PER_DAY {
      b := midnight + dawn - 1;
      assert DaylightMinutes(rule, b, midnight + MINUTES_PER_DAY, date) == MINUTES_PER_DAY - dawn;
      UnitOne(MINUTES_PER_DAY - dawn, tariff.dayUnit);
    } else {
      b := midnight + MINUTES_PER_DAY - 1;
      assert DaylightMinutes(rule, b, midnight + MINUTES_PER_DAY, date) == 0;
    }
  }

  lemma OneToFill(unit: Unit)
    ensures CompleteTime(1, unit) == unit - 1
  {
  }

  lemma UnitOne(m: nat, unit: Unit)
    requires unit == 1
    ensures CompleteTime(m, unit) == 0
  {
  }

  // ---------- the whole stay ----------

  /** The free minutes that are not charged, if the stay is long enough. */
  function FreeTime(book: RuleBook, stay: Stay): nat {
    var rule := book.on(DateOf(stay.enter));
    if stay.mode != FREE_TIME_NO_CHARGE || rule.None? then 0 else rule.value.freeTimeLength
  }

  /** Of those, what is not used up on the first day is lost. */
  function Forgiven(book: RuleBook, stay: Stay): int {
    Min(FreeTime(book, stay), DayEnd(stay, 0) - stay.enter / 60)
  }

  /** The minutes of day k that are to be charged after a debt of w. */
  function Due(book: RuleBook, stay: Stay, k: nat, w: nat): int {
    DayEnd(stay, k) - Min(DayEnd(stay, k), DayBegin(stay, k) + w + if k == 0 then FreeTime(book, stay) else 0)
  }

  /** The minutes before day k that are to be charged. */
  function Elapsed(book: RuleBook, stay: Stay, k: nat): int {
    DayBegin(stay, k) - stay.enter / 60 - if k == 0 then 0 else Forgiven(book, stay)
  }

  /** The minutes billed before day k are the minutes elapsed plus the debt. */
  ghost predicate Telescoped(book: RuleBook, stay: Stay, free: int, k: nat) {
    var run := Run(book, stay, free, k);
    60 * run.minutes == 60 * Elapsed(book, stay, k) + run.carry.borrowed
  }

  /** Until the last day the minutes billed so far are the time elapsed plus the debt w. */
  lemma {:induction false} Telescopes(book: RuleBook, stay: Stay, free: int, k: nat) returns (w: nat)
    requires MinuteBook(book) && ConservingBook(book, stay.vehicleType) && WholeMinutes(stay)
    requires k < CalendarCount(stay.enter, stay.exit)
    ensures Telescoped(book, stay, free, k)
    ensures var run := Run(book, stay, free, k);
      && run.carry.borrowed == 60 * w
      && run.minutes == Elapsed(book, stay, k) + w
      && run.carry.firstDay == (k == 0)
      && w < MINUTES_PER_DAY && (k == 0 ==> w == 0)
  {
    hide Run, MinuteBook, ConservingBook, WholeMinutes, CalendarCount, Elapsed, Due, DayBegin, DayEnd;
    RunEmpty(book, stay, free);
    if k == 0 {
      w := 0;
      NothingElapsed(book, stay);
    } else {
      var v := Telescopes(book, stay, free, k - 1);
      DueAdds(book, stay, k - 1, v);
      w := DayConserves(book, stay, free, k - 1, v);
    }
  }

  lemma NothingElapsed(book: RuleBook, stay: Stay)
    requires WholeMinutes(stay)
    ensures Elapsed(book, stay, 0) == 0
  {
    DayCountPositive(stay);
    DayInMinutes(stay, 0);
  }

  /** What is due on a day that is not the last, over what was due before it. */
  lemma DueAdds(book: RuleBook, stay: Stay, k: nat, w: nat)
    requires WholeMinutes(stay) && k + 1 < CalendarCount(stay.enter, stay.exit)
    requires w < MINUTES_PER_DAY && (k == 0 ==> w == 0)
    ensures DayBegin(stay, k) + w < DayEnd(stay, k)
    ensures Elapsed(book, stay, k) + w + Due(book, stay, k, w) == Elapsed(book, stay, k + 1)
  {
    hide WholeMinutes, CalendarCount, CalendarDay, DateOf, DayBegin, DayEnd, FreeTime;
    DayInMinutes(stay, k);
  }

  /** And on the last one. */
  lemma DueLast(book: RuleBook, stay: Stay, k: nat, w: nat)
    requires WholeMinutes(stay) && k + 1 == CalendarCount(stay.enter, stay.exit) && (k == 0 ==> w == 0)
    ensures var due := (stay.exit - stay.enter) / 60 - Forgiven(book, stay);
      if DayBegin(stay, k) + w < DayEnd(stay, k) then Elapsed(book, stay, k) + w + Due(book, stay, k, w) == due
      else due <= Elapsed(book, stay, k) + w < due + w
  {
    hide CalendarCount, CalendarDay, DateOf, DayBegin, DayEnd, FreeTime;
    DayInMinutes(stay, k);
    assert (stay.exit - stay.enter) / 60 == stay.exit / 60 - stay.enter / 60;
  }

  /** Day k bills what is due on it plus the debt that it hands on. */
  lemma DayConserves(book: RuleBook, stay: Stay, free: int, k: nat, w: nat) returns (w': int)
    requires MinuteBook(book) && ConservingBook(book, stay.vehicleType) && WholeMinutes(stay)
    requires k < CalendarCount(stay.enter, stay.exit) && DayBegin(stay, k) + w < DayEnd(stay, k)
    requires var carry := Run(book, stay, free, k).carry;
      carry.borrowed == 60 * w && carry.firstDay == (k == 0) && (k == 0 ==> w == 0)
    ensures var rule := book.on(DateOf(stay.enter) + k);
      && rule.Some?
      && var before, after, tariff :=
           Run(book, stay, free, k), Run(book, stay, free, k + 1), rule.value.For(stay.vehicleType);
      var billed, due := after.minutes - before.minutes, Due(book, stay, k, w);
      && !after.carry.firstDay
      && (|| (&& after.carry.borrowed == 60 * w' && billed == due + w'
              && 0 <= w' < tariff.nightUnit && w' < MINUTES_PER_DAY)
          || (&& k + 1 == CalendarCount(stay.enter, stay.exit)
              && due <= billed < due + Max(tariff.dayUnit, tariff.nightUnit)))
  {
    hide Run, VisitDay, CalendarDay, CalendarCount, DateOf, DayBegin, DayEnd, WholeMinutes, Conserving, InMinutes;
    DayInMinutes(stay, k);
    RunStep(book, stay, free, k, Ledger([], 0, 0.0, 0.0, 1.0));
    var date := DateOf(stay.enter) + k;
    w' := VisitConserves(book, book.on(date).value, stay, DayBegin(stay, k), DayEnd(stay, k), date,
                         Run(book, stay, free, k).carry, w);
  }

  /** Every whole-minute stay keeps the identity before each of its days exactly when the rule of
      every date conserves. */
  lemma TelescopesIff(book: RuleBook, vehicleType: int, free: int)
    requires MinuteBook(book)
    ensures (forall stay: Stay, k: nat | && stay.vehicleType == vehicleType && WholeMinutes(stay)
                                         && k < CalendarCount(stay.enter, stay.exit) ::
               Telescoped(book, stay, free, k))
       <==> ConservingBook(book, vehicleType)
  {
    hide Run, WholeMinutes, CalendarCount, Telescoped, Conserving, InMinutes;
    if ConservingBook(book, vehicleType) {
      forall stay: Stay, k: nat | && stay.vehicleType == vehicleType && WholeMinutes(stay)
                                  && k < CalendarCount(stay.enter, stay.exit)
        ensures Telescoped(book, stay, free, k)
      {
        var w := Telescopes(book, stay, free, k);
      }
    } else {
      var date :| book.on(date).Some? && !Conserving(book.on(date).value, book.on(date).value.For(vehicleType));
      var stay, k := BadStay(book, vehicleType, free, date);
    }
  }

  /** The stay that enters at a bad minute, once it is over the midnight where the rule fails. */
  lemma BadStay(book: RuleBook, vehicleType: int, free: int, date: int) returns (stay: Stay, k: nat)
    requires MinuteBook(book)
    requires !Conserving(book.on(date).value, book.on(date).value.For(vehicleType))
    ensures stay.vehicleType == vehicleType && WholeMinutes(stay) && k < CalendarCount(stay.enter, stay.exit)
    ensures !Telescoped(book, stay, free, k)
  {
    hide Run, InMinutes, Conserving, ConservesFrom, DebtFrom, WholeMinutes, CalendarCount, DateOf, Elapsed;
    var rule := book.on(date).value;
    var b := BadMinute(rule, rule.For(vehicleType), date);
    stay := Stay(60 * b, 60 * (MINUTES_PER_DAY * (date + 2) + 1), 0, vehicleType);
    EnteredAt(stay, b, MINUTES_PER_DAY * (date + 2) + 1);
    FirstDate(stay, b, date);
    FirstDayFails(book, rule, stay, free, b, date);
    ElapsedDays(book, stay, b, date);
    if Run(book, stay, free, 1).carry.borrowed > 0 {
      k := 2;
      DebtOutlasts(book, stay, free, 2);
    } else {
      k := 1;
    }
  }

  lemma EnteredAt(stay: Stay, b: int, x: int)
    requires stay.enter == 60 * b && stay.exit == 60 * x && b < x
    ensures WholeMinutes(stay)
    ensures (stay.exit - stay.enter) / 60 == x - b
  {
  }

  lemma ElapsedDays(book: RuleBook, stay: Stay, b: int, date: int)
    requires MINUTES_PER_DAY * date <= b < MINUTES_PER_DAY * (date + 1) && stay.mode != FREE_TIME_NO_CHARGE
    requires stay.enter == 60 * b && stay.exit == 60 * (MINUTES_PER_DAY * (date + 2) + 1)
    ensures Elapsed(book, stay, 1) == MINUTES_PER_DAY * (date + 1) - b
    ensures Elapsed(book, stay, 2) == MINUTES_PER_DAY * (date + 2) - b
  {
    hide DateOf;
    FirstDate(stay, b, date);
  }

  lemma FirstDate(stay: Stay, b: int, date: int)
    requires MINUTES_PER_DAY * date <= b < MINUTES_PER_DAY * (date + 1) && stay.enter == 60 * b
    ensures DateOf(stay.enter) == date
    ensures stay.exit > DAY * (date + 1) ==> CalendarCount(stay.enter, stay.exit) >= 2
    ensures stay.exit > DAY * (date + 2) ==> CalendarCount(stay.enter, stay.exit) >= 3
  {
  }

  /** The first day of a stay that enters at minute b and stays over midnight. */
  lemma FirstDay(book: RuleBook, rule: Rule, stay: Stay, free: int, b: int, date: int)
    requires book.on(date) == Some(rule) && InMinutes(rule) && stay.mode != FREE_TIME_NO_CHARGE
    requires WholeMinutes(stay) && stay.enter == 60 * b && stay.exit > DAY * (date + 1)
    requires MINUTES_PER_DAY * date <= b < MINUTES_PER_DAY * (date + 1)
    ensures var run, tariff := Run(book, stay, free, 1), rule.For(stay.vehicleType);
      var e := MINUTES_PER_DAY * (date + 1);
      var d := DaylightMinutes(rule, b, e, date);
      var c := CompleteTime(d, tariff.dayUnit);
      && 0 <= d <= e - b && 0 <= c < tariff.dayUnit && !run.carry.firstDay
      && if c > e - b - d then run.carry.borrowed == 0 && run.minutes == d + c
         else
           var next := CompleteTime(e - b - d - c, tariff.nightUnit);
           run.carry.borrowed == 60 * next && run.minutes == e - b + next
  {
    hide Run, VisitDay, CalendarDay, CalendarCount, DateOf, DayBegin, DayEnd, InMinutes, CompleteTime,
         DaylightMinutes, Complete, CalOneDayCharge;
    var e := MINUTES_PER_DAY * (date + 1);
    FirstDate(stay, b, date);
    DayInMinutes(stay, 0);
    RunEmpty(book, stay, free);
    RunStep(book, stay, free, 0, Ledger([], 0, 0.0, 0.0, 1.0));
    VisitInMinutes(book, rule, stay, b, e, date, Carry(0, true, free), 0);
    var d := DaylightMinutes(rule, b, e, date);
    CompleteMinutes(d, e - b - d, rule.For(stay.vehicleType), 0);
  }

  /** What a day charged from minute b to midnight borrows from the next, owing nothing before. */
  function DebtFrom(rule: Rule, tariff: Tariff, b: int, date: int): int {
    var e := MINUTES_PER_DAY * (date + 1);
    var d := DaylightMinutes(rule, b, e, date);
    var spare := e - b - d - CompleteTime(d, tariff.dayUnit);
    if spare < 0 then 0 else CompleteTime(spare, tariff.nightUnit)
  }

  /** From a bad minute the first day either bills too much, or borrows a day or more. */
  lemma FirstDayFails(book: RuleBook, rule: Rule, stay: Stay, free: int, b: int, date: int)
    requires book.on(date) == Some(rule) && InMinutes(rule) && stay.mode != FREE_TIME_NO_CHARGE
    requires WholeMinutes(stay) && stay.enter == 60 * b && stay.exit > DAY * (date + 1)
    requires MINUTES_PER_DAY * date <= b < MINUTES_PER_DAY * (date + 1)
    requires !ConservesFrom(rule, rule.For(stay.vehicleType), b, date)
    ensures var run, parked := Run(book, stay, free, 1), MINUTES_PER_DAY * (date + 1) - b;
      var debt := DebtFrom(rule, rule.For(stay.vehicleType), b, date);
      && run.carry.borrowed == 60 * debt
      && if debt == 0 then run.minutes > parked else debt >= MINUTES_PER_DAY && run.minutes == parked + debt
  {
    hide Run, InMinutes, WholeMinutes, CompleteTime, DaylightMinutes;
    FirstDay(book, rule, stay, free, b, date);
  }

  lemma SkippedVisit(book: RuleBook, stay: Stay, period: Period, carry: Carry)
    requires period.begin + carry.borrowed >= period.end
    ensures VisitDay(book, stay, period, carry) == Visit(carry, 0.0, "", 0)
  {
  }

  /** A debt of a whole day or more is never repaid: every day that it reaches is skipped. */
  lemma {:induction false} DebtOutlasts(book: RuleBook, stay: Stay, free: int, k: nat)
    requires WholeMinutes(stay) && 1 <= k <= CalendarCount(stay.enter, stay.exit)
    requires Run(book, stay, free, 1).carry.borrowed >= 60 * MINUTES_PER_DAY
    ensures var one, run := Run(book, stay, free, 1), Run(book, stay, free, k);
      run.carry == one.carry && run.minutes == one.minutes && SumFees(run.details) == SumFees(one.details)
  {
    hide Run, SumFees, VisitDay, CalendarDay, CalendarCount, DateOf, DayBegin, DayEnd, WholeMinutes;
    if k > 1 {
      DebtOutlasts(book, stay, free, k - 1);
      DayInMinutes(stay, k - 1);
      SkippedDay(book, stay, free, k - 1);
    }
  }

  function DayBegin(stay: Stay, k: nat): int {
    Max(stay.enter / 60, MINUTES_PER_DAY * (DateOf(stay.enter) + k))
  }

  function DayEnd(stay: Stay, k: nat): int {
    Min(stay.exit / 60, MINUTES_PER_DAY * (DateOf(stay.enter) + k + 1))
  }

  /** Every day but the last ends at midnight, where the next begins; all but the first and the
      last are full. */
  lemma DayInMinutes(stay: Stay, k: nat)
    requires WholeMinutes(stay) && k < CalendarCount(stay.enter, stay.exit)
    ensures CalendarDay(stay.enter, stay.exit, k) == Period(60 * DayBegin(stay, k), 60 * DayEnd(stay, k))
    ensures var midnight := MINUTES_PER_DAY * (DateOf(stay.enter) + k);
      && midnight <= DayBegin(stay, k) < DayEnd(stay, k) <= midnight + MINUTES_PER_DAY
      && DayBegin(stay, k) == (if k > 0 then midnight else stay.enter / 60)
      && (k + 1 < CalendarCount(stay.enter, stay.exit) ==>
            DayEnd(stay, k) == midnight + MINUTES_PER_DAY == DayBegin(stay, k + 1))
      && (k + 1 == CalendarCount(stay.enter, stay.exit) ==> DayEnd(stay, k) == stay.exit / 60)
  {
    var en, ex, date := stay.enter / 60, stay.exit / 60, DateOf(stay.enter) + k;
    assert stay.enter == 60 * en && stay.exit == 60 * ex;
    MinuteBounds(stay.enter, en, k);
    MinuteBounds(stay.exit - 1, (stay.exit - 1) / 60, 0);
    hide DateOf;
  }

  lemma MinuteBounds(t: int, minute: int, k: nat)
    requires 60 * minute <= t < 60 * minute + 60
    ensures MINUTES_PER_DAY * DateOf(t) <= minute < MINUTES_PER_DAY * (DateOf(t) + 1)
  {
  }

  /** The minutes billed over all days are at least those to be charged, and exceed them by less
      than a unit. */
  lemma BilledMinutes(book: RuleBook, stay: Stay, free: int, unit: Unit)
    requires MinuteBook(book) && ConservingBook(book, stay.vehicleType) && WholeMinutes(stay)
    requires UnitsWithin(book, stay.vehicleType, unit)
    ensures var minutes := Run(book, stay, free, CalendarCount(stay.enter, stay.exit)).minutes;
      var due := (stay.exit - stay.enter) / 60 - Forgiven(book, stay);
      due <= minutes < due + unit
  {
    hide Run, MinuteBook, ConservingBook, CalendarCount, DateOf, DayBegin, DayEnd, Elapsed, Due, Forgiven;
    DayCountPositive(stay);
    var k := CalendarCount(stay.enter, stay.exit) - 1;
    var w := Telescopes(book, stay, free, k);
    DebtBounded(book, stay, free, unit, k);
    DueLast(book, stay, k, w);
    if DayBegin(stay, k) + w < DayEnd(stay, k) {
      var w' := DayConserves(book, stay, free, k, w);
    } else {
      SkippedDay(book, stay, free, k);
    }
  }

  lemma SkippedDay(book: RuleBook, stay: Stay, free: int, k: nat)
    requires WholeMinutes(stay) && k < CalendarCount(stay.enter, stay.exit)
    requires 60 * DayBegin(stay, k) + Run(book, stay, free, k).carry.borrowed >= 60 * DayEnd(stay, k)
    ensures var before, after := Run(book, stay, free, k), Run(book, stay, free, k + 1);
      after.carry == before.carry && after.minutes == before.minutes
      && SumFees(after.details) == SumFees(before.details)
  {
    hide Run, VisitDay, CalendarCount, CalendarDay, DateOf, DayBegin, DayEnd, WholeMinutes, SumFees;
    DayInMinutes(stay, k);
    RunStep(book, stay, free, k, Ledger([], 0, 0.0, 0.0, 1.0));
    SkippedVisit(book, stay, CalendarDay(stay.enter, stay.exit, k), Run(book, stay, free, k).carry);
  }

  lemma DayCountPositive(stay: Stay)
    requires stay.enter < stay.exit
    ensures CalendarCount(stay.enter, stay.exit) >= 1
  {
  }

  // ---------- what holds without those hypotheses ----------

  /** The debt is always whole minutes. */
  lemma {:induction false} WholeDebt(book: RuleBook, stay: Stay, free: int, k: nat) returns (w: nat)
    requires MinuteBook(book) && WholeMinutes(stay) && k <= CalendarCount(stay.enter, stay.exit)
    ensures Run(book, stay, free, k).carry.borrowed == 60 * w
  {
    hide Run, VisitDay, MinuteBook, CalendarDay, CalendarCount, DateOf, DayBegin, DayEnd, WholeMinutes;
    RunEmpty(book, stay, free);
    w := 0;
    if k > 0 {
      var v := WholeDebt(book, stay, free, k - 1);
      DayInMinutes(stay, k - 1);
      RunStep(book, stay, free, k - 1, Ledger([], 0, 0.0, 0.0, 1.0));
      w := DebtAfter(book, stay, DayBegin(stay, k - 1), DayEnd(stay, k - 1), DateOf(stay.enter) + k - 1,
                     Run(book, stay, free, k - 1).carry, v);
    }
  }

  lemma DebtAfter(book: RuleBook, stay: Stay, b: int, e: int, date: int, carry: Carry, w: nat) returns (w': nat)
    requires MinuteBook(book) && carry.borrowed == 60 * w
    requires MINUTES_PER_DAY * date <= b < e <= MINUTES_PER_DAY * (date + 1)
    ensures VisitDay(book, stay, Period(60 * b, 60 * e), carry).carry.borrowed == 60 * w'
  {
    hide VisitDay, InMinutes, Complete, CompleteTime, DaylightMinutes, CalOneDayCharge;
    w' := w;
    if b + w >= e {
      SkippedVisit(book, stay, Period(60 * b, 60 * e), carry);
    } else {
      var rule := book.on(date).value;
      var start := b + w + FreeMinutes(rule, stay, carry);
      VisitInMinutes(book, rule, stay, b, e, date, carry, w);
      if start < e {
        var tariff := rule.For(stay.vehicleType);
        var d := DaylightMinutes(rule, start, e, date);
        var spare := e - start - d - CompleteTime(d, tariff.dayUnit);
        CompleteMinutes(d, e - start - d, tariff, carry.borrowed);
        w' := if spare < 0 then w else CompleteTime(spare, tariff.nightUnit);
      }
    }
  }

  /** Whatever the rules, the debt is never negative and less than a night unit. */
  lemma {:induction false} DebtBounded(book: RuleBook, stay: Stay, free: int, unit: Unit, n: nat)
    requires forall date :: book.on(date).Some? ==> book.on(date).value.For(stay.vehicleType).nightUnit <= unit
    ensures 0 <= Run(book, stay, free, n).carry.borrowed < 60 * unit
  {
    if n > 0 {
      DebtBounded(book, stay, free, unit, n - 1);
      RunStep(book, stay, free, n - 1, Ledger([], 0, 0.0, 0.0, 1.0));
      var before := Run(book, stay, free, n - 1);
      VisitDebt(book, stay, CalendarDay(stay.enter, stay.exit, n - 1), before.carry, unit);
      hide VisitDay, Run, CalendarDay;
    }
  }

  lemma VisitKeepsDebt(book: RuleBook, stay: Stay, period: Period, carry: Carry)
    requires 0 <= carry.borrowed
    ensures 0 <= VisitDay(book, stay, period, carry).carry.borrowed
  {
    hide Chargeable, CalOneDayCharge, CompleteTime, TruncDiv;
    forall minutes: int, unit: Unit
      ensures CompleteTime(minutes, unit) >= 0
    {
      CompleteTimeFills(minutes, unit);
    }
  }

  lemma VisitDebt(book: RuleBook, stay: Stay, period: Period, carry: Carry, unit: Unit)
    requires forall date :: book.on(date).Some? ==> book.on(date).value.For(stay.vehicleType).nightUnit <= unit
    requires 0 <= carry.borrowed < 60 * unit
    ensures 0 <= VisitDay(book, stay, period, carry).carry.borrowed < 60 * unit
  {
    forall time: Split, tariff: Tariff
      ensures var debt := Complete(time, tariff, carry.borrowed).borrowed;
        debt == carry.borrowed || 0 <= debt < 60 * tariff.nightUnit
    {
      var night := time.night - 60 * CompleteTime(TruncDiv(time.daylight, 60), tariff.dayUnit);
      if night >= 0 {
        CompleteTimeFills(TruncDiv(night, 60), tariff.nightUnit);
      }
    }
    hide Complete, Chargeable, CalOneDayCharge;
  }

  /** With disjoint free sections a completed day is whole units on both sides, so the fee's
      rounding up never rounds. */
  lemma CompletedDaysAreWhole(rule: Rule, lo: int, hi: int, tariff: Tariff, owed: int)
    requires Disjoint(rule.freeSections)
    ensures var day := Complete(Chargeable(rule, lo, hi), tariff, owed);
      && 0 <= day.daylightMinutes && 0 <= day.nightMinutes
      && tariff.dayUnit * CeilDiv(day.daylightMinutes, tariff.dayUnit) == day.daylightMinutes
      && tariff.nightUnit * CeilDiv(day.nightMinutes, tariff.nightUnit) == day.nightMinutes
  {
    DisjointRemaining(rule, Daylight, lo, hi);
    DisjointRemaining(rule, Night, lo, hi);
    var time := Chargeable(rule, lo, hi);
    hide Chargeable, CeilDiv, Sum;
    FilledUp(time.daylight, tariff.dayUnit);
    var night := time.night - 60 * CompleteTime(TruncDiv(time.daylight, 60), tariff.dayUnit);
    if night >= 0 {
      FilledUp(night, tariff.nightUnit);
    } else {
      CeilDivUnique(0, tariff.nightUnit, 0);
    }
  }

  lemma FilledUp(seconds: nat, unit: Unit)
    ensures var filled := TruncDiv(seconds + 60 * CompleteTime(TruncDiv(seconds, 60), unit), 60);
      && filled == TruncDiv(seconds, 60) + CompleteTime(TruncDiv(seconds, 60), unit)
      && 0 <= filled == unit * CeilDiv(filled, unit)
  {
    var m := seconds / 60;
    CompleteTimeFills(m, unit);
    var filled := m + CompleteTime(m, unit);
    CeilDivUnique(filled, unit, filled / unit);
  }
}
