/** Pattern 0: when another minute of parking lowers the fee of a period, and of a stay. */
module LongerPeriods {
  import opened Arithmetic
  import opened Periods
  import opened Rules
  import opened Days
  import opened ParkingTimes
  import opened Bills
  import opened Conservation
  import opened FlatTariff
  import opened LentMinutes
  import Caps
  import P0 = Pattern0

  // ---------- one more minute of a period ----------

  /** The minutes of a band between minutes b and e. */
  ghost function BandMinutes(rule: Rule, band: Band, b: int, e: int): nat
    requires InMinutes(rule) && b <= e <= b + MINUTES_PER_DAY
  {
    WholeBands(rule, b, e);
    Chargeable(rule, 60 * b, 60 * e).Of(band) / 60
  }

  lemma WholeBands(rule: Rule, b: int, e: int)
    requires InMinutes(rule) && b <= e <= b + MINUTES_PER_DAY
    ensures forall band :: Chargeable(rule, 60 * b, 60 * e).Of(band) >= 0
  {
    hide Chargeable, InMinutes;
    var d := PeriodMinutes(rule, b, e);
  }

  lemma BandMinutesSplit(rule: Rule, b: int, e: int)
    requires InMinutes(rule) && b <= e <= b + MINUTES_PER_DAY
    ensures var d, n := BandMinutes(rule, Daylight, b, e), BandMinutes(rule, Night, b, e);
      Chargeable(rule, 60 * b, 60 * e) == Split(60 * d, 60 * n)
  {
    hide Chargeable, InMinutes;
    var d := PeriodMinutes(rule, b, e);
  }

  /** A minute belongs to the band of its first second. */
  lemma MinuteAdds(rule: Rule, band: Band, b: int, e: int)
    requires InMinutes(rule) && b <= e < b + MINUTES_PER_DAY
    ensures BandMinutes(rule, band, b, e + 1) ==
            BandMinutes(rule, band, b, e) + if BandAt(rule, 60 * e) == band then 1 else 0
  {
    hide Chargeable, DaylightMinutes, InMinutes, BandAt, DateOf;
    BandMinutesSplit(rule, b, e);
    ChargeableSplits(rule, 60 * b, 60 * e, 60 * (e + 1));
    var date := DateOf(60 * e);
    MinuteBounds(60 * e, e, 0);
    DayMinutes(rule, e, e + 1, date);
    MinuteBand(rule, e, date);
  }

  /** The uncapped fee of the minutes between b and e. */
  ghost function MinutesFee(rule: Rule, tariff: Tariff, b: int, e: int): real
    requires InMinutes(rule) && b <= e <= b + MINUTES_PER_DAY
  {
    var start := BandAt(rule, 60 * b);
    LentFee(BandMinutes(rule, start, b, e), BandMinutes(rule, Other(start), b, e),
            SideOf(tariff, start), SideOf(tariff, Other(start)))
  }

  lemma MinutesFeeIsCharged(rule: Rule, vehicleType: int, b: int, e: int)
    requires InMinutes(rule) && b <= e <= b + MINUTES_PER_DAY
    ensures P0.UncappedPeriodFee(rule, Period(60 * b, 60 * e), vehicleType) ==
            MinutesFee(rule, rule.For(vehicleType), b, e)
  {
    hide Chargeable, BandAt, Borrowed, UncappedFee, TruncDiv, LentFee, InMinutes, BandMinutes;
    var tariff, start := rule.For(vehicleType), BandAt(rule, 60 * b);
    var d, n := BandMinutes(rule, Daylight, b, e), BandMinutes(rule, Night, b, e);
    BandMinutesSplit(rule, b, e);
    LentFeeIsCharged(60 * d, 60 * n, start, tariff);
    if b == e {
      NothingParked(rule, b);
      LentNothing(SideOf(tariff, start), SideOf(tariff, Other(start)));
    }
  }

  lemma NothingParked(rule: Rule, b: int)
    requires InMinutes(rule)
    ensures forall band :: BandMinutes(rule, band, b, b) == 0
  {
    forall band: Band
      ensures BandMinutes(rule, band, b, b) == 0
    {
      assert Sum(BandWeight(rule, band), 60 * b, 60 * b) == 0;
    }
  }

  /** One more minute lowers the fee of a period exactly when it falls on the side the charged
      time starts in, it undercuts there, and the new fee is below the cap. */
  lemma OneMoreMinute(rule: Rule, b: int, e: int, mode: int, vehicleType: int, first: bool)
    requires InMinutes(rule) && b < e < b + MINUTES_PER_DAY
    ensures var charged := b + if first && mode == FREE_TIME_NO_CHARGE then rule.freeTimeLength else 0;
      var tariff, start := rule.For(vehicleType), BandAt(rule, 60 * charged);
      P0.PeriodFee(rule, Period(60 * b, 60 * (e + 1)), mode, vehicleType, first)
      < P0.PeriodFee(rule, Period(60 * b, 60 * e), mode, vehicleType, first)
      <==>
      && charged < e
      && BandAt(rule, 60 * e) == start
      && var own, lender := BandMinutes(rule, start, charged, e), BandMinutes(rule, Other(start), charged, e);
      && Undercuts(own, lender, SideOf(tariff, start), SideOf(tariff, Other(start)))
      && LentFee(own + 1, lender, SideOf(tariff, start), SideOf(tariff, Other(start))) < tariff.maxFee
  {
    hide P0.PeriodFee, P0.UncappedPeriodFee, BandAt, LentFee, Undercuts, InMinutes, BandMinutes;
    var charged := b + if first && mode == FREE_TIME_NO_CHARGE then rule.freeTimeLength else 0;
    var tariff := rule.For(vehicleType);
    P0.CappedPeriodFee(rule, Period(60 * b, 60 * e), mode, vehicleType, first);
    P0.CappedPeriodFee(rule, Period(60 * b, 60 * (e + 1)), mode, vehicleType, first);
    if charged <= e {
      MinutesFeeIsCharged(rule, vehicleType, charged, e);
      MinutesFeeIsCharged(rule, vehicleType, charged, e + 1);
      NextMinutesFee(rule, tariff, charged, e);
    } else {
      NothingCharged(rule, Period(60 * charged, 60 * e), vehicleType);
      NothingCharged(rule, Period(60 * charged, 60 * (e + 1)), vehicleType);
    }
  }

  lemma NothingCharged(rule: Rule, charged: Period, vehicleType: int)
    requires charged.end <= charged.begin
    ensures P0.UncappedPeriodFee(rule, charged, vehicleType) == 0.0
  {
  }

  lemma NextMinutesFee(rule: Rule, tariff: Tariff, b: int, e: int)
    requires InMinutes(rule) && b <= e < b + MINUTES_PER_DAY
    ensures var start := BandAt(rule, 60 * b);
      var own, lender := BandMinutes(rule, start, b, e), BandMinutes(rule, Other(start), b, e);
      var o, l := SideOf(tariff, start), SideOf(tariff, Other(start));
      && MinutesFee(rule, tariff, b, e + 1) ==
         (if BandAt(rule, 60 * e) == start then LentFee(own + 1, lender, o, l) else LentFee(own, lender + 1, o, l))
      && (MinutesFee(rule, tariff, b, e + 1) < MinutesFee(rule, tariff, b, e)
          <==> BandAt(rule, 60 * e) == start && Undercuts(own, lender, o, l))
      && (b == e ==> !Undercuts(own, lender, o, l))
  {
    hide BandAt, LentFee, Undercuts, InMinutes, BandMinutes;
    var start := BandAt(rule, 60 * b);
    var o, l := SideOf(tariff, start), SideOf(tariff, Other(start));
    BandMinutesSplit(rule, b, e);
    MinuteAdds(rule, start, b, e);
    MinuteAdds(rule, Other(start), b, e);
    var own, lender := BandMinutes(rule, start, b, e), BandMinutes(rule, Other(start), b, e);
    OneMoreOwn(own, lender, o, l);
    OneMoreLender(own, lender, o, l);
    if b == e {
      NothingParked(rule, b);
      NothingToUndercut(o, l);
    }
  }

  /** When both sides outweigh each other the fee of a period never falls with its end. */
  lemma {:induction false} PeriodFeeMonotone(rule: Rule, b: int, e: int, e': int, mode: int, vehicleType: int,
                                             first: bool)
    requires InMinutes(rule) && Monotone(rule.For(vehicleType)) && b < e <= e' <= b + MINUTES_PER_DAY
    ensures P0.PeriodFee(rule, Period(60 * b, 60 * e), mode, vehicleType, first)
            <= P0.PeriodFee(rule, Period(60 * b, 60 * e'), mode, vehicleType, first)
    decreases e' - e
  {
    hide P0.PeriodFee, InMinutes, Outweighs, Undercuts, LentFee, BandMinutes, BandAt;
    if e < e' {
      PeriodFeeMonotone(rule, b, e, e' - 1, mode, vehicleType, first);
      OneMoreMinute(rule, b, e' - 1, mode, vehicleType, first);
      var tariff := rule.For(vehicleType);
      OutweighsIff(SideOf(tariff, Daylight), SideOf(tariff, Night));
      OutweighsIff(SideOf(tariff, Night), SideOf(tariff, Daylight));
    }
  }

  /** The first n periods of the longer stay cost no less. */
  lemma {:induction false} PeriodsMonotone(rule: Rule, stay: Stay, longer: Stay, n: nat)
    requires InMinutes(rule) && Monotone(rule.For(stay.vehicleType)) && stay.mode != FREE_TIME_NO_CHARGE
    requires WholeMinutes(stay) && WholeMinutes(longer) && longer == stay.(exit := longer.exit)
    requires stay.exit <= longer.exit && n <= RollingCount(stay.enter, longer.exit)
    ensures SumFees(P0.Details0(rule, stay, Min(n, RollingCount(stay.enter, stay.exit))))
            <= SumFees(P0.Details0(rule, longer, n))
  {
    hide InMinutes, Monotone, WholeMinutes, RollingCount, RollingDay, SumFees, P0.Details0, P0.PeriodFee, DetailOf;
    NoDetails(rule, stay);
    NoDetails(rule, longer);
    if n > 0 {
      PeriodsMonotone(rule, stay, longer, n - 1);
      P0.DetailsStep(rule, longer, n - 1, Ledger([], 0, 0.0, 0.0, 1.0));
      if n <= RollingCount(stay.enter, stay.exit) {
        P0.DetailsStep(rule, stay, n - 1, Ledger([], 0, 0.0, 0.0, 1.0));
        LongerPeriod(rule, stay, longer, n - 1);
      } else {
        NoSectionsDisjoint(rule);
        Caps.PeriodFeeBounds(rule, RollingDay(longer.enter, longer.exit, n - 1), longer.mode, longer.vehicleType,
                             n == 1 || n < RollingCount(longer.enter, longer.exit));
      }
    }
  }

  lemma NoSectionsDisjoint(rule: Rule)
    requires InMinutes(rule)
    ensures Disjoint(rule.freeSections)
  {
  }

  lemma LongerPeriod(rule: Rule, stay: Stay, longer: Stay, i: nat)
    requires InMinutes(rule) && Monotone(rule.For(stay.vehicleType)) && stay.mode != FREE_TIME_NO_CHARGE
    requires WholeMinutes(stay) && WholeMinutes(longer) && longer == stay.(exit := longer.exit)
    requires stay.exit <= longer.exit && i < RollingCount(stay.enter, stay.exit)
    requires i < RollingCount(longer.enter, longer.exit)
    ensures P0.Fee0(rule, stay, i) <= P0.Fee0(rule, longer, i)
  {
    hide InMinutes, Monotone, RollingCount, RollingDay, P0.PeriodFee;
    PeriodInMinutes(stay, i);
    PeriodInMinutes(longer, i);
    var en := stay.enter / 60;
    var b, parked, parked' := en + i * MINUTES_PER_DAY, (stay.exit - stay.enter) / 60, (longer.exit - stay.enter) / 60;
    var e, e' := en + Min((i + 1) * MINUTES_PER_DAY, parked), en + Min((i + 1) * MINUTES_PER_DAY, parked');
    PeriodFeeMonotone(rule, b, e, e', stay.mode, stay.vehicleType, true);
    FirstOrNot(rule, Period(60 * b, 60 * e), stay.mode, stay.vehicleType);
    FirstOrNot(rule, Period(60 * b, 60 * e'), stay.mode, stay.vehicleType);
  }

  lemma FirstOrNot(rule: Rule, period: Period, mode: int, vehicleType: int)
    requires mode != FREE_TIME_NO_CHARGE
    ensures P0.PeriodFee(rule, period, mode, vehicleType, true) == P0.PeriodFee(rule, period, mode, vehicleType, false)
  {
  }

  // ---------- free time that is not charged ----------

  /** In the other mode a third day, at the reused fee, can make two days cheaper: under a flat
      tariff exactly when the free time is worth two units or more. */
  lemma ThirdDayCheaper(rule: Rule, stay: Stay, longer: Stay, u: Unit, r: Money)
    requires InMinutes(rule) && Flat(rule.For(stay.vehicleType), u, r) && stay.mode == FREE_TIME_NO_CHARGE
    requires stay.enter % 60 == 0 && stay.exit == stay.enter + 2 * DAY && longer == stay.(exit := stay.exit + 60)
    ensures SumFees(P0.Details0(rule, longer, RollingCount(longer.enter, longer.exit)))
            < SumFees(P0.Details0(rule, stay, RollingCount(stay.enter, stay.exit)))
       <==> r > 0.0 && CeilDiv(Max(MINUTES_PER_DAY - rule.freeTimeLength, 0), u) + 1 < CeilDiv(MINUTES_PER_DAY, u)
  {
    hide InMinutes, Flat, SumFees, P0.Details0, P0.PeriodFee, RollingCount, RollingDay, CeilDiv, Times, P0.Detail0;
    var first, full := CeilDiv(Max(MINUTES_PER_DAY - rule.freeTimeLength, 0), u), CeilDiv(MINUTES_PER_DAY, u);
    TwoDays(rule, stay, u, r);
    ThreeDays(rule, longer, u, r);
    TimesAdds(first, 1, r);
    TimesAdds(full, first + 1, r);
    TimesAdds(first + 1, full, r);
    TimesDiffer(full, first + 1, r);
    TimesOne(r);
  }

  lemma TwoDays(rule: Rule, stay: Stay, u: Unit, r: Money)
    requires InMinutes(rule) && Flat(rule.For(stay.vehicleType), u, r) && stay.mode == FREE_TIME_NO_CHARGE
    requires stay.enter % 60 == 0 && stay.exit == stay.enter + 2 * DAY
    ensures RollingCount(stay.enter, stay.exit) == 2
    ensures SumFees(P0.Details0(rule, stay, 2)) ==
      Times(CeilDiv(Max(MINUTES_PER_DAY - rule.freeTimeLength, 0), u), r) + Times(CeilDiv(MINUTES_PER_DAY, u), r)
  {
    hide InMinutes, Flat, SumFees, P0.Details0, P0.PeriodFee, CeilDiv, Times, P0.Detail0;
    var b := stay.enter / 60;
    RollingMinutes(stay, b);
    NoDetails(rule, stay);
    P0.DetailsStep(rule, stay, 0, Ledger([], 0, 0.0, 0.0, 1.0));
    P0.DetailsStep(rule, stay, 1, Ledger([], 0, 0.0, 0.0, 1.0));
    FlatPeriod(rule, b, b + MINUTES_PER_DAY, stay.mode, stay.vehicleType, true, u, r);
    FlatPeriod(rule, b + MINUTES_PER_DAY, b + 2 * MINUTES_PER_DAY, stay.mode, stay.vehicleType, false, u, r);
  }

  lemma ThreeDays(rule: Rule, stay: Stay, u: Unit, r: Money)
    requires InMinutes(rule) && Flat(rule.For(stay.vehicleType), u, r) && stay.mode == FREE_TIME_NO_CHARGE
    requires stay.enter % 60 == 0 && stay.exit == stay.enter + 2 * DAY + 60
    ensures RollingCount(stay.enter, stay.exit) == 3
    ensures SumFees(P0.Details0(rule, stay, 3)) ==
      Times(CeilDiv(Max(MINUTES_PER_DAY - rule.freeTimeLength, 0), u), r)
      + Times(CeilDiv(Max(MINUTES_PER_DAY - rule.freeTimeLength, 0), u), r) + r
  {
    hide InMinutes, Flat, SumFees, P0.Details0, P0.PeriodFee, CeilDiv, Times, P0.Detail0;
    var b := stay.enter / 60;
    RollingMinutes(stay, b);
    NoDetails(rule, stay);
    P0.DetailsStep(rule, stay, 0, Ledger([], 0, 0.0, 0.0, 1.0));
    P0.DetailsStep(rule, stay, 1, Ledger([], 0, 0.0, 0.0, 1.0));
    P0.DetailsStep(rule, stay, 2, Ledger([], 0, 0.0, 0.0, 1.0));
    P0.FullDaysAlike(rule, stay, 1);
    FlatPeriod(rule, b, b + MINUTES_PER_DAY, stay.mode, stay.vehicleType, true, u, r);
    FlatPeriod(rule, b + 2 * MINUTES_PER_DAY, b + 2 * MINUTES_PER_DAY + 1, stay.mode, stay.vehicleType, false, u, r);
    CeilDivUnique(1, u, 1);
    TimesOne(r);
  }

  lemma RollingMinutes(stay: Stay, b: int)
    requires stay.enter == 60 * b && 2 * DAY <= stay.exit - stay.enter <= 2 * DAY + 60
    ensures RollingDay(stay.enter, stay.exit, 0) == Period(60 * b, 60 * (b + MINUTES_PER_DAY))
    ensures stay.exit == stay.enter + 2 * DAY ==>
      && RollingCount(stay.enter, stay.exit) == 2
      && RollingDay(stay.enter, stay.exit, 1) ==
         Period(60 * (b + MINUTES_PER_DAY), 60 * (b + 2 * MINUTES_PER_DAY))
    ensures stay.exit == stay.enter + 2 * DAY + 60 ==>
      && RollingCount(stay.enter, stay.exit) == 3
      && RollingDay(stay.enter, stay.exit, 2) ==
         Period(60 * (b + 2 * MINUTES_PER_DAY), 60 * (b + 2 * MINUTES_PER_DAY + 1))
  {
  }
}
