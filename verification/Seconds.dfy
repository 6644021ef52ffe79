/** The fee of a stretch of time told from scratch: its charged seconds as sets, and what their
    minutes cost. Both patterns' arithmetic is proved to come to this. */
module Seconds {
  import opened Arithmetic
  import opened Periods
  import opened Rules
  import opened ParkingTimes
  import opened Bills
  import opened Conservation
  import opened LentMinutes
  import LongerDays
  import P0 = Pattern0
  import P1 = Pattern1

  // ---------- which seconds are charged ----------

  predicate IsDay(rule: Rule, t: int) {
    rule.daylightBegin <= t % 86400 < rule.nightBegin
  }

  predicate IsFree(rule: Rule, t: int) {
    exists s :: s in rule.freeSections && s.begin <= t % 86400 < s.end
  }

  /** The seconds of [lo, hi) that are by day, or by night, and not free. */
  function Charged(rule: Rule, day: bool, lo: int, hi: int): set<int> {
    set t | lo <= t < hi && IsDay(rule, t) == day && !IsFree(rule, t)
  }

  lemma {:induction false} ChargedIsSum(rule: Rule, band: Band, lo: int, hi: int)
    ensures |Charged(rule, band == Daylight, lo, hi)| == Sum(ChargedWeight(rule, band), lo, hi)
    decreases hi - lo
  {
    hide Charged, FreeCount, BandAt, IsDay, IsFree;
    if lo < hi {
      ChargedIsSum(rule, band, lo, hi - 1);
      SecondIsCharged(rule, band, hi - 1);
      OneMoreSecond(rule, band == Daylight, lo, hi);
    } else {
      NoSecond(rule, band == Daylight, lo, hi);
    }
  }

  lemma OneMoreSecond(rule: Rule, day: bool, lo: int, hi: int)
    requires lo < hi
    ensures |Charged(rule, day, lo, hi)| ==
            |Charged(rule, day, lo, hi - 1)| + if IsDay(rule, hi - 1) == day && !IsFree(rule, hi - 1) then 1 else 0
  {
    hide IsDay, IsFree;
    var t := hi - 1;
    var before, after := Charged(rule, day, lo, t), Charged(rule, day, lo, hi);
    if IsDay(rule, t) == day && !IsFree(rule, t) {
      assert after == before + {t};
    } else {
      assert after == before;
    }
  }

  lemma NoSecond(rule: Rule, day: bool, lo: int, hi: int)
    requires lo >= hi
    ensures Charged(rule, day, lo, hi) == {}
  {
  }

  lemma SecondIsCharged(rule: Rule, band: Band, t: int)
    ensures IsDay(rule, t) == (BandAt(rule, t) == Daylight)
    ensures IsFree(rule, t) <==> FreeCount(rule.freeSections, t) > 0
  {
    FreeCountPositive(rule.freeSections, t);
  }

  lemma ChargedSeconds(rule: Rule, lo: int, hi: int)
    requires Disjoint(rule.freeSections)
    ensures Chargeable(rule, lo, hi) == Split(|Charged(rule, true, lo, hi)|, |Charged(rule, false, lo, hi)|)
  {
    hide Sum, Charged, Disjoint;
    ChargedIsSum(rule, Daylight, lo, hi);
    ChargedIsSum(rule, Night, lo, hi);
    DisjointRemaining(rule, Daylight, lo, hi);
    DisjointRemaining(rule, Night, lo, hi);
  }

  // ---------- what their minutes cost ----------

  /** Type 1 is the large vehicle. */
  function TariffOf(rule: Rule, vehicleType: int): Tariff {
    if vehicleType == 1 then rule.big else rule.small
  }

  function Units(minutes: nat, unit: Unit): nat {
    (minutes + unit - 1) / unit
  }

  /** The minutes that fill the last unit. */
  function Missing(minutes: nat, unit: Unit): int {
    Units(minutes, unit) * unit - minutes
  }

  function Left(minutes: nat, loan: int): nat {
    if loan <= minutes then minutes - loan else 0
  }

  function Capped(fee: real, cap: real): real {
    if fee > cap then cap else fee
  }

  function Cost(minutes: nat, unit: Unit, rate: Money): real {
    Units(minutes, unit) as real * rate
  }

  /** Daylight pays for every unit begun and fills its last one from the night, which pays for what
      is left of it. */
  function DayBorrows(d: nat, n: nat, tariff: Tariff): real {
    Cost(d, tariff.dayUnit, tariff.dayRate) +
    Cost(Left(n, Missing(d, tariff.dayUnit)), tariff.nightUnit, tariff.nightRate)
  }

  function NightBorrows(d: nat, n: nat, tariff: Tariff): real {
    Cost(n, tariff.nightUnit, tariff.nightRate) +
    Cost(Left(d, Missing(n, tariff.nightUnit)), tariff.dayUnit, tariff.dayRate)
  }

  /** Pattern 0: the side the stretch begins in borrows from the other. */
  function PeriodCost(rule: Rule, vehicleType: int, lo: int, hi: int): real {
    if lo >= hi then 0.0 else
      var tariff := TariffOf(rule, vehicleType);
      var d, n := |Charged(rule, true, lo, hi)| / 60, |Charged(rule, false, lo, hi)| / 60;
      Capped(if IsDay(rule, lo) then DayBorrows(d, n, tariff) else NightBorrows(d, n, tariff), tariff.maxFee)
  }

  /** Pattern 1: daylight always borrows from the night. */
  function DayCost(rule: Rule, vehicleType: int, lo: int, hi: int): real {
    if lo >= hi then 0.0 else
      var tariff := TariffOf(rule, vehicleType);
      var d, n := |Charged(rule, true, lo, hi)| / 60, |Charged(rule, false, lo, hi)| / 60;
      Capped(DayBorrows(d, n, tariff), tariff.maxFee)
  }

  /** Pattern 1: the minutes that the night borrows from tomorrow; what was owed before stays owed
      when the night does not cover daylight's loan. */
  function DayDebt(rule: Rule, vehicleType: int, lo: int, hi: int, owed: int): int {
    if lo >= hi then owed else
      var tariff := TariffOf(rule, vehicleType);
      var d, n := |Charged(rule, true, lo, hi)| / 60, |Charged(rule, false, lo, hi)| / 60;
      var loan := Missing(d, tariff.dayUnit);
      if n < loan then owed else Missing(Left(n, loan), tariff.nightUnit)
  }

  lemma UnitsAreCeil(minutes: nat, unit: Unit)
    ensures Units(minutes, unit) == CeilDiv(minutes, unit)
    ensures Missing(minutes, unit) == CompleteTime(minutes, unit) >= 0
  {
    var k := (minutes + unit - 1) / unit;
    assert minutes + unit - 1 == unit * k + (minutes + unit - 1) % unit;
    CeilDivUnique(minutes, unit, k);
    CompleteTimeFills(minutes, unit);
    hide CeilDiv, CompleteTime;
  }

  lemma DayBorrowsIsLent(d: nat, n: nat, tariff: Tariff)
    ensures DayBorrows(d, n, tariff) == LentFee(d, n, SideOf(tariff, Daylight), SideOf(tariff, Night))
  {
    hide CeilDiv, CompleteTime, Units, Missing;
    UnitsAreCeil(d, tariff.dayUnit);
    UnitsAreCeil(Left(n, Missing(d, tariff.dayUnit)), tariff.nightUnit);
  }

  lemma NightBorrowsIsLent(d: nat, n: nat, tariff: Tariff)
    ensures NightBorrows(d, n, tariff) == LentFee(n, d, SideOf(tariff, Night), SideOf(tariff, Daylight))
  {
    hide CeilDiv, CompleteTime, Units, Missing;
    UnitsAreCeil(n, tariff.nightUnit);
    UnitsAreCeil(Left(d, Missing(n, tariff.nightUnit)), tariff.dayUnit);
  }

  // ---------- both patterns cost that ----------

  lemma TariffChosen(rule: Rule, vehicleType: int)
    ensures rule.For(vehicleType) == TariffOf(rule, vehicleType)
  {
  }

  /** A period of pattern 0, with the free time of a first period in mode 1 taken off its begin. */
  lemma PeriodCosts(rule: Rule, period: Period, mode: int, vehicleType: int, first: bool)
    requires Disjoint(rule.freeSections)
    ensures P0.PeriodFee(rule, period, mode, vehicleType, first) ==
      PeriodCost(rule, vehicleType, period.begin + if first && mode == 1 then 60 * rule.freeTimeLength else 0,
                 period.end)
  {
    hide Chargeable, Charged, Borrowed, TruncDiv, UncappedFee, LentFee, DayBorrows, NightBorrows, BandAt, IsDay,
         Disjoint;
    var lo := P0.ChargedFrom(rule, period, mode, first);
    var tariff := TariffOf(rule, vehicleType);
    var day, night := |Charged(rule, true, lo, period.end)|, |Charged(rule, false, lo, period.end)|;
    TariffChosen(rule, vehicleType);
    ChargedSeconds(rule, lo, period.end);
    SecondIsCharged(rule, Daylight, lo);
    LentFeeIsCharged(day, night, BandAt(rule, lo), tariff);
    DayBorrowsIsLent(day / 60, night / 60, tariff);
    NightBorrowsIsLent(day / 60, night / 60, tariff);
  }

  /** What is left of a day of pattern 1 after the debt and the free time. */
  lemma DayCosts(rule: Rule, vehicleType: int, lo: int, hi: int, owed: int)
    requires Disjoint(rule.freeSections) && lo < hi
    ensures var tariff := rule.For(vehicleType);
      var day := P1.Complete(Chargeable(rule, lo, hi), tariff, 60 * owed);
      && CalOneDayCharge(day.daylightMinutes, day.nightMinutes, tariff) == DayCost(rule, vehicleType, lo, hi)
      && day.borrowed == 60 * DayDebt(rule, vehicleType, lo, hi, owed)
  {
    hide Chargeable, Charged, P1.Complete, CompleteTime, Missing, UncappedFee, LentFee, DayBorrows, Disjoint;
    var tariff := TariffOf(rule, vehicleType);
    var day, night := |Charged(rule, true, lo, hi)|, |Charged(rule, false, lo, hi)|;
    TariffChosen(rule, vehicleType);
    ChargedSeconds(rule, lo, hi);
    LongerDays.CompletedFee(day, night, tariff, 60 * owed);
    DayBorrowsIsLent(day / 60, night / 60, tariff);
    CompleteSeconds(day, night, tariff, 60 * owed);
    UnitsAreCeil(day / 60, tariff.dayUnit);
    UnitsAreCeil(Left(night / 60, Missing(day / 60, tariff.dayUnit)), tariff.nightUnit);
  }

  // ---------- time that is free costs nothing ----------

  /** A stretch whose seconds all lie in free sections costs nothing in either pattern. */
  lemma FreeStretch(rule: Rule, vehicleType: int, lo: int, hi: int, owed: int)
    requires forall t | lo <= t < hi :: IsFree(rule, t)
    ensures PeriodCost(rule, vehicleType, lo, hi) == 0.0 == DayCost(rule, vehicleType, lo, hi)
    ensures lo < hi ==> DayDebt(rule, vehicleType, lo, hi, owed) == 0
  {
    hide IsFree, IsDay;
    assert Charged(rule, true, lo, hi) == {} && Charged(rule, false, lo, hi) == {};
    NoUnits(TariffOf(rule, vehicleType).dayUnit);
    NoUnits(TariffOf(rule, vehicleType).nightUnit);
  }

  lemma NoUnits(unit: Unit)
    ensures Units(0, unit) == 0 && Missing(0, unit) == 0
  {
    DivModUnique(unit - 1, unit, 0, unit - 1);
  }
}
