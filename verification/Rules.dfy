/** Charge rules, and the time of a stay they make chargeable, second by second. */
module Rules {
  import opened Arithmetic
  import opened Periods

  type Money = r: real | 0.0 <= r

  const LARGE_VEHICLE := 1
  const FREE_TIME_NO_CHARGE := 1

  /** A daily stretch of free time, as times of day. */
  datatype Section = Section(begin: int, end: int)

  /** Units are in minutes. */
  datatype Tariff = Tariff(dayUnit: Unit, dayRate: Money, nightUnit: Unit, nightRate: Money, maxFee: Money)

  datatype RuleData = RuleData(
    id: string,
    daylightBegin: int,
    nightBegin: int,
    freeTimeLength: int,
    small: Tariff,
    big: Tariff,
    freeSections: seq<Section>)
  {
    predicate WellFormed() {
      && 0 <= daylightBegin <= nightBegin <= DAY
      && 0 <= freeTimeLength
      && forall s | s in freeSections :: 0 <= s.begin <= s.end <= DAY
    }

    function For(vehicleType: int): Tariff {
      if vehicleType == LARGE_VEHICLE then big else small
    }
  }

  const DEFAULT_TARIFF := Tariff(1, 0.0, 1, 0.0, 0.0)

  type Rule = r: RuleData | r.WellFormed()
    witness RuleData("", 0, 0, 0, DEFAULT_TARIFF, DEFAULT_TARIFF, [])

  datatype Band = Daylight | Night

  function BandAt(rule: Rule, t: int): Band {
    if rule.daylightBegin <= TimeOfDay(t) < rule.nightBegin then Daylight else Night
  }

  /** How many of the sections are free at t. */
  function FreeCount(sections: seq<Section>, t: int): nat {
    if sections == [] then 0 else
      var last := sections[|sections| - 1];
      FreeCount(sections[..|sections| - 1], t) + if last.begin <= TimeOfDay(t) < last.end then 1 else 0
  }

  // ---------- measures ----------

  /** Seconds of daylight and of night time. */
  datatype Split = Split(daylight: int, night: int) {
    function Of(band: Band): int { if band == Daylight then daylight else night }
    function Total(): int { daylight + night }
  }

  ghost function BandWeight(rule: Rule, band: Band): int -> int {
    (t: int) => if BandAt(rule, t) == band then 1 else 0
  }

  ghost function FreeWeight(rule: Rule, band: Band, sections: seq<Section>): int -> int {
    (t: int) => if BandAt(rule, t) == band then FreeCount(sections, t) else 0
  }

  /** Weight 1 for the seconds of a band that no section makes free. */
  ghost function ChargedWeight(rule: Rule, band: Band): int -> int {
    (t: int) => if BandAt(rule, t) == band && FreeCount(rule.freeSections, t) == 0 then 1 else 0
  }

  ghost function FreeSeconds(rule: Rule): int -> int {
    (t: int) => if FreeCount(rule.freeSections, t) == 0 then 0 else 1
  }

  ghost function Remaining(rule: Rule, band: Band, lo: int, hi: int): int {
    Sum(BandWeight(rule, band), lo, hi) - Sum(FreeWeight(rule, band, rule.freeSections), lo, hi)
  }

  /** What is left of [lo, hi) in each band once every free section is taken off it,
      a second in k sections counting k times. */
  ghost function Chargeable(rule: Rule, lo: int, hi: int): Split {
    Split(Remaining(rule, Daylight, lo, hi), Remaining(rule, Night, lo, hi))
  }

  lemma ChargeableShift(rule: Rule, lo: int, hi: int, days: int)
    ensures Chargeable(rule, lo + days * DAY, hi + days * DAY) == Chargeable(rule, lo, hi)
  {
    hide Sum;
    var d := days * DAY;
    forall t: int
      ensures TimeOfDay(t + d) == TimeOfDay(t)
    {
      DivModUnique(t + d, DAY, t / DAY + days, t % DAY);
    }
    forall band: Band
      ensures Remaining(rule, band, lo + d, hi + d) == Remaining(rule, band, lo, hi)
    {
      var b, f := BandWeight(rule, band), FreeWeight(rule, band, rule.freeSections);
      SumShift(b, b, lo, hi, d);
      forall t: int
        ensures f(t) == f(t + d)
      {
        FreeCountPeriodic(rule.freeSections, t, d);
      }
      SumShift(f, f, lo, hi, d);
    }
  }

  lemma {:induction false} FreeCountPeriodic(sections: seq<Section>, t: int, d: int)
    requires TimeOfDay(t + d) == TimeOfDay(t)
    ensures FreeCount(sections, t + d) == FreeCount(sections, t)
  {
    if sections != [] {
      FreeCountPeriodic(sections[..|sections| - 1], t, d);
    }
  }

  lemma ChargeableSplits(rule: Rule, lo: int, mid: int, hi: int)
    requires lo <= mid <= hi
    ensures forall band :: Chargeable(rule, lo, hi).Of(band) ==
                           Chargeable(rule, lo, mid).Of(band) + Chargeable(rule, mid, hi).Of(band)
  {
    forall band: Band
      ensures Remaining(rule, band, lo, hi) == Remaining(rule, band, lo, mid) + Remaining(rule, band, mid, hi)
    {
      SumSplit(BandWeight(rule, band), lo, mid, hi);
      SumSplit(FreeWeight(rule, band, rule.freeSections), lo, mid, hi);
    }
  }

  // ---------- disjoint free sections ----------

  predicate Meet(a: Section, b: Section) {
    Max(a.begin, b.begin) < Min(a.end, b.end)
  }

  predicate Disjoint(sections: seq<Section>) {
    forall i, j | 0 <= i < j < |sections| :: !Meet(sections[i], sections[j])
  }

  lemma {:induction false} FreeCountPositive(sections: seq<Section>, t: int)
    ensures FreeCount(sections, t) > 0 <==> exists s :: s in sections && s.begin <= TimeOfDay(t) < s.end
  {
    if sections != [] {
      var init, last := sections[..|sections| - 1], sections[|sections| - 1];
      assert sections == init + [last];
      FreeCountPositive(init, t);
    }
  }

  lemma {:induction false} DisjointCountsOnce(sections: seq<Section>, t: int)
    requires Disjoint(sections)
    ensures FreeCount(sections, t) <= 1
  {
    if sections != [] {
      var init, last := sections[..|sections| - 1], sections[|sections| - 1];
      DisjointCountsOnce(init, t);
      FreeCountPositive(init, t);
    }
  }

  lemma {:induction false} MeetingCountsTwice(sections: seq<Section>, i: nat, j: nat, t: int)
    requires i < j < |sections|
    requires sections[i].begin <= TimeOfDay(t) < sections[i].end
    requires sections[j].begin <= TimeOfDay(t) < sections[j].end
    ensures FreeCount(sections, t) >= 2
  {
    var init := sections[..|sections| - 1];
    if j < |init| {
      MeetingCountsTwice(init, i, j, t);
    } else {
      FreeCountPositive(init, t);
      assert init[i] in init;
    }
  }

  /** With disjoint sections the remaining time counts each unfree second of its band once. */
  lemma DisjointRemaining(rule: Rule, band: Band, lo: int, hi: int)
    requires Disjoint(rule.freeSections)
    ensures Remaining(rule, band, lo, hi) == Sum(ChargedWeight(rule, band), lo, hi) >= 0
  {
    hide Sum;
    var b, f, c := BandWeight(rule, band), FreeWeight(rule, band, rule.freeSections), ChargedWeight(rule, band);
    forall t: int
      ensures b(t) == c(t) + f(t)
    {
      DisjointCountsOnce(rule.freeSections, t);
    }
    SumAdd(c, f, b, lo, hi);
    SumNonNegative(c, lo, hi);
  }

  /** The stay's length is daylight, night and the union of the free sections, with nothing
      counted twice. */
  lemma DisjointConserves(rule: Rule, lo: int, hi: int)
    requires lo <= hi && Disjoint(rule.freeSections)
    ensures Chargeable(rule, lo, hi).Total() == hi - lo - Sum(FreeSeconds(rule), lo, hi)
  {
    hide Sum;
    DisjointRemaining(rule, Daylight, lo, hi);
    DisjointRemaining(rule, Night, lo, hi);
    var d, n, f := ChargedWeight(rule, Daylight), ChargedWeight(rule, Night), FreeSeconds(rule);
    var dn, one := (t: int) => d(t) + n(t), (t: int) => 1;
    SumAdd(d, n, dn, lo, hi);
    SumAdd(dn, f, one, lo, hi);
    SumConstant(one, 1, lo, hi);
  }

  /** The remaining times of every stay are non-negative exactly when no two sections meet. */
  lemma NonNegativeIffDisjoint(rule: Rule)
    ensures Disjoint(rule.freeSections) <==>
            forall lo, hi, band | lo <= hi :: Chargeable(rule, lo, hi).Of(band) >= 0
  {
    if Disjoint(rule.freeSections) {
      forall lo, hi, band: Band | lo <= hi
        ensures Chargeable(rule, lo, hi).Of(band) >= 0
      {
        DisjointRemaining(rule, band, lo, hi);
      }
    } else {
      var i, j :| 0 <= i < j < |rule.freeSections| && Meet(rule.freeSections[i], rule.freeSections[j]);
      var a, b := rule.freeSections[i], rule.freeSections[j];
      assert a in rule.freeSections && b in rule.freeSections;
      var t := Max(a.begin, b.begin);
      assert TimeOfDay(t) == t;
      MeetingCountsTwice(rule.freeSections, i, j, t);
      var band := BandAt(rule, t);
      OneSecond(BandWeight(rule, band), t);
      OneSecond(FreeWeight(rule, band, rule.freeSections), t);
      assert Chargeable(rule, t, t + 1).Of(band) < 0;
    }
  }

  lemma OneSecond(f: int -> int, t: int)
    ensures Sum(f, t, t + 1) == f(t)
  {
    assert Sum(f, t, t) == 0;
  }

  lemma NothingFree(rule: Rule, t: int)
    requires rule.freeSections == []
    ensures FreeCount(rule.freeSections, t) == 0
  {
  }

  /** Without free sections the two bands share out the whole stay. */
  lemma NoSectionsConserve(rule: Rule, lo: int, hi: int)
    requires lo <= hi && rule.freeSections == []
    ensures Chargeable(rule, lo, hi).Total() == hi - lo
    ensures forall band :: 0 <= Chargeable(rule, lo, hi).Of(band) == Sum(BandWeight(rule, band), lo, hi)
  {
    hide Sum, BandAt, FreeCount;
    DisjointConserves(rule, lo, hi);
    forall t: int
      ensures FreeCount(rule.freeSections, t) == 0
    {
      NothingFree(rule, t);
    }
    SumConstant(FreeSeconds(rule), 0, lo, hi);
    forall band: Band
      ensures 0 <= Remaining(rule, band, lo, hi) == Sum(BandWeight(rule, band), lo, hi)
    {
      DisjointRemaining(rule, band, lo, hi);
      SumConstant(FreeWeight(rule, band, rule.freeSections), 0, lo, hi);
    }
  }
}
