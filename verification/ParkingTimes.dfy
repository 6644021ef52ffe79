/** How each charge pattern measures the chargeable daylight and night time of one period.
    Pattern 0 collects pieces and subtracts every piece of every section; pattern 1 splits
    each section by hand. Both are proved to give the same second-by-second measure. */
module ParkingTimes {
  import opened Arithmetic
  import opened Periods
  import opened Rules

  // ---------- pieces of a period ----------

  /** The non-empty-or-touching pieces that a period has in some bands. */
  function Cut(park: Period, bands: seq<Period>): seq<Period> {
    if bands == [] then [] else
      var init, last := bands[..|bands| - 1], bands[|bands| - 1];
      Cut(park, init) + if park.Intersects(last) then [park.Intersection(last)] else []
  }

  ghost function PieceSum(f: int -> int, pieces: seq<Period>): int {
    if pieces == [] then 0 else
      var init, last := pieces[..|pieces| - 1], pieces[|pieces| - 1];
      PieceSum(f, init) + Sum(f, last.begin, last.end)
  }

  ghost function One(): int -> int { (t: int) => 1 }

  /** A free section on one date. */
  function OnDate(s: Section, date: int): Period {
    Period(DayStart(date) + s.begin, DayStart(date) + s.end)
  }

  ghost function Indicator(p: Period): int -> int {
    (t: int) => if p.Contains(t) then 1 else 0
  }

  ghost predicate InSome(bands: seq<Period>, t: int) {
    exists i :: 0 <= i < |bands| && bands[i].Contains(t)
  }

  ghost function Within(f: int -> int, bands: seq<Period>): int -> int {
    (t: int) => if InSome(bands, t) then f(t) else 0
  }

  /** Bands in order, none overlapping the next. */
  predicate Ordered(bands: seq<Period>) {
    && (forall p | p in bands :: p.begin <= p.end)
    && forall i, j | 0 <= i < j < |bands| :: bands[i].end <= bands[j].begin
  }

  predicate Proper(pieces: seq<Period>) {
    forall p | p in pieces :: p.begin <= p.end
  }

  lemma InSomeLast(bands: seq<Period>, t: int)
    requires Ordered(bands) && 0 < |bands|
    ensures var init, last := bands[..|bands| - 1], bands[|bands| - 1];
      && InSome(bands, t) == (InSome(init, t) || last.Contains(t))
      && !(InSome(init, t) && last.Contains(t))
      && InSome([last], t) == last.Contains(t)
  {
    var init, last := bands[..|bands| - 1], bands[|bands| - 1];
    assert bands[|bands| - 1].Contains(t) == [last][0].Contains(t);
    assert forall i | 0 <= i < |init| :: init[i] == bands[i];
  }

  lemma {:induction false} CutSums(f: int -> int, park: Period, bands: seq<Period>)
    requires park.begin <= park.end && Ordered(bands)
    ensures Proper(Cut(park, bands))
    ensures PieceSum(f, Cut(park, bands)) == Sum(Within(f, bands), park.begin, park.end)
  {
    if bands == [] {
      assert forall t :: !InSome(bands, t);
      assert forall t :: Within(f, bands)(t) == 0;
      SumConstant(Within(f, bands), 0, park.begin, park.end);
    } else {
      var init, last := bands[..|bands| - 1], bands[|bands| - 1];
      CutSums(f, park, init);
      LastBandSums(f, park, bands);
      var pieces := Cut(park, bands);
      hide Sum, InSome;
      if park.Intersects(last) {
        assert pieces[..|pieces| - 1] == Cut(park, init);
      } else {
        assert pieces == Cut(park, init);
      }
    }
  }

  /** The last band contributes the weight of its piece. */
  lemma LastBandSums(f: int -> int, park: Period, bands: seq<Period>)
    requires park.begin <= park.end && Ordered(bands) && 0 < |bands|
    ensures var last := bands[|bands| - 1];
      var i := park.Intersection(last);
      && (park.Intersects(last) ==> i.begin <= i.end)
      && Sum(Within(f, bands), park.begin, park.end) ==
         Sum(Within(f, bands[..|bands| - 1]), park.begin, park.end) +
         if park.Intersects(last) then Sum(f, i.begin, i.end) else 0
  {
    var init, last := bands[..|bands| - 1], bands[|bands| - 1];
    var all, most, rest := Within(f, bands), Within(f, init), Within(f, [last]);
    forall t: int
      ensures all(t) == most(t) + rest(t)
      ensures rest(t) == if last.Contains(t) then f(t) else 0
    {
      InSomeLast(bands, t);
    }
    hide Sum, InSome, Within;
    SumAdd(most, rest, all, park.begin, park.end);
    SumRestricted(rest, park, last);
    if park.Intersects(last) {
      var i := park.Intersection(last);
      SumEqual(rest, f, i.begin, i.end);
    }
  }

  /** The seconds that sections take off some pieces on one date. */
  ghost function Taken(pieces: seq<Period>, sections: seq<Section>, date: int): int {
    if sections == [] then 0 else
      var init, last := sections[..|sections| - 1], sections[|sections| - 1];
      Taken(pieces, init, date) + PieceSum(Indicator(OnDate(last, date)), pieces)
  }

  // ---------- pattern 0 ----------

  lemma NothingTaken(pieces: seq<Period>, date: int)
    ensures Taken(pieces, [], date) == 0
  {
  }

  lemma OneMoreTaken(pieces: seq<Period>, sections: seq<Section>, i: nat, date: int)
    requires i < |sections|
    ensures Taken(pieces, sections[..i + 1], date) ==
            Taken(pieces, sections[..i], date) + PieceSum(Indicator(OnDate(sections[i], date)), pieces)
  {
    assert sections[..i + 1][..i] == sections[..i];
  }

  lemma NoPieces(free: Period)
    ensures PieceSum(Indicator(free), []) == 0
  {
  }

  /** A piece loses what it shares with the free section. */
  lemma OneMorePiece(free: Period, pieces: seq<Period>, j: nat)
    requires j < |pieces| && Proper(pieces) && free.begin <= free.end
    ensures PieceSum(Indicator(free), pieces[..j + 1]) ==
            PieceSum(Indicator(free), pieces[..j]) + pieces[j].Shared(free)
  {
    assert pieces[..j + 1][..j] == pieces[..j];
    SharedIsSum(Indicator(free), pieces[j], free);
  }

  class ParkingTime {
    var daylight: int
    var night: int

    constructor (daylight: int, night: int)
      ensures View() == Split(daylight, night)
    {
      this.daylight, this.night := daylight, night;
    }

    ghost function View(): Split
      reads this
    {
      Split(daylight, night)
    }

    method SubtractFreeTimeSection(date: int, daylightPieces: seq<Period>, nightPieces: seq<Period>, rule: Rule)
      requires Proper(daylightPieces) && Proper(nightPieces)
      modifies this
      ensures View() == Split(old(daylight) - Taken(daylightPieces, rule.freeSections, date),
                              old(night) - Taken(nightPieces, rule.freeSections, date))
    {
      hide Sum, PieceSum, Taken, Proper;
      var sections := rule.freeSections;
      NothingTaken(daylightPieces, date);
      NothingTaken(nightPieces, date);
      for i := 0 to |sections|
        invariant View() == Split(old(daylight) - Taken(daylightPieces, sections[..i], date),
                                  old(night) - Taken(nightPieces, sections[..i], date))
      {
        assert sections[i] in sections;
        var free := OnDate(sections[i], date);
        ghost var before := View();
        OneMoreTaken(daylightPieces, sections, i, date);
        OneMoreTaken(nightPieces, sections, i, date);
        NoPieces(free);
        for j := 0 to |daylightPieces|
          invariant View() == Split(before.daylight - PieceSum(Indicator(free), daylightPieces[..j]), before.night)
        {
          OneMorePiece(free, daylightPieces, j);
          if daylightPieces[j].Intersects(free) {
            daylight := daylight - daylightPieces[j].Intersection(free).Length();
          }
        }
        assert daylightPieces[..|daylightPieces|] == daylightPieces;
        before := View();
        for j := 0 to |nightPieces|
          invariant View() == Split(before.daylight, before.night - PieceSum(Indicator(free), nightPieces[..j]))
        {
          OneMorePiece(free, nightPieces, j);
          if nightPieces[j].Intersects(free) {
            night := night - nightPieces[j].Intersection(free).Length();
          }
        }
        assert nightPieces[..|nightPieces|] == nightPieces;
      }
      assert sections[..|sections|] == sections;
    }

    /** Fill the last unit of the side the period starts in with minutes of the other side. */
    method BorrowTime(vehicleType: int, timeOfDay: int, rule: Rule)
      requires 0 <= timeOfDay < DAY
      modifies this
      ensures View() == Borrowed(old(View()), BandAt(rule, timeOfDay), rule.For(vehicleType))
    {
      hide CompleteTime, TruncDiv;
      var daylightMinutes := TruncDiv(daylight, 60);
      var nightMinutes := TruncDiv(night, 60);
      if timeOfDay < rule.daylightBegin || timeOfDay >= rule.nightBegin {
        var unit := if vehicleType == LARGE_VEHICLE then rule.big.nightUnit else rule.small.nightUnit;
        var borrowTime := CompleteTime(nightMinutes, unit);
        night := night + borrowTime * 60;
        daylight := daylight - borrowTime * 60;
        if daylight < 0 {
          daylight := 0;
        }
      } else {
        var unit := if vehicleType == LARGE_VEHICLE then rule.big.dayUnit else rule.small.dayUnit;
        var borrowTime := CompleteTime(daylightMinutes, unit);
        daylight := daylight + borrowTime * 60;
        night := night - borrowTime * 60;
        if night < 0 {
          night := 0;
        }
      }
    }
  }

  /** One side takes what it needs to fill its last unit; the lender never goes below zero. */
  function Lend(own: int, lender: int, unit: Unit): (int, int) {
    var loan := 60 * CompleteTime(TruncDiv(own, 60), unit);
    (own + loan, Max(lender - loan, 0))
  }

  /** The borrowing side ends on a whole number of units. The total is unchanged when the lender
      covers the loan, and otherwise grows by less than a unit while the lender ends at nothing. */
  lemma LendConserves(own: nat, lender: nat, unit: Unit)
    ensures var (own', lender') := Lend(own, lender, unit);
      && Whole(TruncDiv(own', 60), unit)
      && own <= own' < own + 60 * unit
      && (if own' - own <= lender then own' + lender' == own + lender
          else lender' == 0 && own + lender < own' + lender' < own + lender + 60 * unit)
  {
    var m := own / 60;
    var c := CompleteTime(m, unit);
    CompleteTimeFills(m, unit);
    assert TruncDiv(own + 60 * c, 60) == m + c;
    hide CompleteTime, Whole;
  }

  /** The side the period starts in borrows from the other. */
  function Borrowed(time: Split, start: Band, tariff: Tariff): Split {
    if start == Night then
      var (night, daylight) := Lend(time.night, time.daylight, tariff.nightUnit);
      Split(daylight, night)
    else
      var (daylight, night) := Lend(time.daylight, time.night, tariff.dayUnit);
      Split(daylight, night)
  }

  function NightBands(date: int, rule: Rule): seq<Period> {
    [Period(DayStart(date), DayStart(date) + rule.daylightBegin),
     Period(DayStart(date) + rule.nightBegin, DayStart(date + 1) + rule.daylightBegin),
     Period(DayStart(date + 1) + rule.nightBegin, DayStart(date + 2))]
  }

  function DaylightBands(date: int, rule: Rule): seq<Period> {
    [Period(DayStart(date) + rule.daylightBegin, DayStart(date) + rule.nightBegin),
     Period(DayStart(date + 1) + rule.daylightBegin, DayStart(date + 1) + rule.nightBegin)]
  }

  method CutPieces(park: Period, bands: seq<Period>) returns (pieces: seq<Period>, total: int)
    requires park.begin <= park.end && Ordered(bands)
    ensures pieces == Cut(park, bands) && Proper(pieces)
    ensures total == PieceSum(One(), pieces)
  {
    pieces, total := [], 0;
    for i := 0 to |bands|
      invariant pieces == Cut(park, bands[..i]) && Proper(pieces)
      invariant total == PieceSum(One(), pieces)
    {
      assert bands[..i + 1][..i] == bands[..i];
      CutSums(One(), park, bands[..i + 1]);
      if park.Intersects(bands[i]) {
        var section := park.Intersection(bands[i]);
        assert (pieces + [section])[..|pieces|] == pieces;
        assert section in Cut(park, bands[..i + 1]) by {
          assert Cut(park, bands[..i + 1]) == pieces + [section];
        }
        SumConstant(One(), 1, section.begin, section.end);
        pieces := pieces + [section];
        total := total + section.Length();
      }
    }
    assert bands[..|bands|] == bands;
  }

  /** Pattern 0's measure of a period that starts on `today` and ends by the end of tomorrow. */
  method CalInvalidParkingTime(park: Period, today: int, tomorrow: int, rule: Rule) returns (time: ParkingTime)
    requires park.begin <= park.end && tomorrow == today + 1
    requires DayStart(today) <= park.begin && park.end <= DayStart(tomorrow + 1)
    ensures fresh(time)
    ensures time.View() == Chargeable(rule, park.begin, park.end)
  {
    hide Chargeable, Taken, PieceSum, Cut;
    var nightBands, daylightBands := NightBands(today, rule), DaylightBands(today, rule);
    var nightPieces, nightTotal := CutPieces(park, nightBands);
    var daylightPieces, daylightTotal := CutPieces(park, daylightBands);
    time := new ParkingTime(daylightTotal, nightTotal);
    time.SubtractFreeTimeSection(today, daylightPieces, nightPieces, rule);
    time.SubtractFreeTimeSection(tomorrow, daylightPieces, nightPieces, rule);
    PiecesMeasure(park, today, rule, Night);
    PiecesMeasure(park, today, rule, Daylight);
  }

  function Bands(date: int, rule: Rule, band: Band): seq<Period> {
    if band == Night then NightBands(date, rule) else DaylightBands(date, rule)
  }

  /** The five bands of two days tell daylight from night. */
  lemma BandsTile(date: int, rule: Rule, band: Band, t: int)
    requires DayStart(date) <= t < DayStart(date + 2)
    ensures InSome(Bands(date, rule, band), t) <==> BandAt(rule, t) == band
  {
    var bands := Bands(date, rule, band);
    assert band == Night ==> InSome(bands, t) == (bands[0].Contains(t) || bands[1].Contains(t) || bands[2].Contains(t));
    assert band == Daylight ==> InSome(bands, t) == (bands[0].Contains(t) || bands[1].Contains(t));
    if t < DayStart(date + 1) {
      assert TimeOfDay(t) == t - DayStart(date);
    } else {
      assert TimeOfDay(t) == t - DayStart(date + 1);
    }
  }

  lemma PiecesMeasure(park: Period, date: int, rule: Rule, band: Band)
    requires park.begin <= park.end
    requires DayStart(date) <= park.begin && park.end <= DayStart(date + 2)
    ensures var pieces := Cut(park, Bands(date, rule, band));
      PieceSum(One(), pieces) - Taken(pieces, rule.freeSections, date) - Taken(pieces, rule.freeSections, date + 1)
      == Chargeable(rule, park.begin, park.end).Of(band)
  {
    var bands := Bands(date, rule, band);
    CutSums(One(), park, bands);
    forall t | park.begin <= t < park.end
      ensures Within(One(), bands)(t) == BandWeight(rule, band)(t)
    {
      BandsTile(date, rule, band, t);
    }
    SumEqual(Within(One(), bands), BandWeight(rule, band), park.begin, park.end);
    TakenMeasure(park, date, rule, band, rule.freeSections);
  }

  lemma {:induction false} TakenMeasure(park: Period, date: int, rule: Rule, band: Band, sections: seq<Section>)
    requires park.begin <= park.end
    requires DayStart(date) <= park.begin && park.end <= DayStart(date + 2)
    requires forall s | s in sections :: 0 <= s.begin <= s.end <= DAY
    ensures var pieces := Cut(park, Bands(date, rule, band));
      Taken(pieces, sections, date) + Taken(pieces, sections, date + 1)
      == Sum(FreeWeight(rule, band, sections), park.begin, park.end)
  {
    if sections == [] {
      SumConstant(FreeWeight(rule, band, sections), 0, park.begin, park.end);
    } else {
      var init, last := sections[..|sections| - 1], sections[|sections| - 1];
      var less, more := FreeWeight(rule, band, init), FreeWeight(rule, band, sections);
      var one := SectionWeight(rule, band, last);
      assert forall t :: more(t) == less(t) + one(t);
      hide Sum, Cut, PieceSum, FreeWeight, SectionWeight;
      TakenMeasure(park, date, rule, band, init);
      SectionTaken(park, date, rule, band, last);
      SumAdd(less, one, more, park.begin, park.end);
    }
  }

  /** One section takes off its own seconds, today's and tomorrow's. */
  lemma SectionTaken(park: Period, date: int, rule: Rule, band: Band, s: Section)
    requires park.begin <= park.end && 0 <= s.begin <= s.end <= DAY
    requires DayStart(date) <= park.begin && park.end <= DayStart(date + 2)
    ensures var pieces := Cut(park, Bands(date, rule, band));
      PieceSum(Indicator(OnDate(s, date)), pieces) + PieceSum(Indicator(OnDate(s, date + 1)), pieces)
      == Sum(SectionWeight(rule, band, s), park.begin, park.end)
  {
    hide TimeOfDay, BandAt, InSome, PieceSum, Sum, Cut, Bands, Ordered;
    var bands := Bands(date, rule, band);
    var first, second := Indicator(OnDate(s, date)), Indicator(OnDate(s, date + 1));
    BandsOrdered(date, rule, band);
    CutSums(first, park, bands);
    CutSums(second, park, bands);
    var first', second', both := Within(first, bands), Within(second, bands), SectionWeight(rule, band, s);
    forall t | park.begin <= t < park.end
      ensures both(t) == first'(t) + second'(t)
    {
      BandsTile(date, rule, band, t);
      SectionOnDates(date, s, t);
    }
    SumAdd(first', second', both, park.begin, park.end);
  }

  lemma BandsOrdered(date: int, rule: Rule, band: Band)
    ensures Ordered(Bands(date, rule, band))
  {
  }

  /** Weight 1 where a band and a section meet. */
  ghost function SectionWeight(rule: Rule, band: Band, s: Section): int -> int {
    (t: int) => if BandAt(rule, t) == band && s.begin <= TimeOfDay(t) < s.end then 1 else 0
  }

  lemma SectionOnDates(date: int, s: Section, t: int)
    requires DayStart(date) <= t < DayStart(date + 2) && 0 <= s.begin <= s.end <= DAY
    ensures (s.begin <= TimeOfDay(t) < s.end) == (OnDate(s, date).Contains(t) || OnDate(s, date + 1).Contains(t))
    ensures !(OnDate(s, date).Contains(t) && OnDate(s, date + 1).Contains(t))
  {
    if t < DayStart(date + 1) {
      assert TimeOfDay(t) == t - DayStart(date);
    } else {
      assert TimeOfDay(t) == t - DayStart(date + 1);
    }
  }

  // ---------- pattern 1 ----------

  /** Pattern 1's case split of one free section against one day. */
  method SplitFreeSection(period: Period, date: int, section: Section, rule: Rule)
    returns (daylightFree: int, nightFree: int)
    requires period.begin <= period.end
    requires DayStart(date) <= period.begin && period.end <= DayStart(date + 1)
    requires section in rule.freeSections
    ensures daylightFree == Sum(SectionWeight(rule, Daylight, section), period.begin, period.end)
    ensures nightFree == Sum(SectionWeight(rule, Night, section), period.begin, period.end)
  {
    var midnight := DayStart(date);
    var free := OnDate(section, date);
    var daylight := Period(midnight + rule.daylightBegin, midnight + rule.nightBegin);
    ghost var nothing := Period(midnight, midnight);
    daylightFree, nightFree := 0, 0;
    if section.begin < rule.daylightBegin {
      if section.end <= rule.daylightBegin {
        nightFree := period.Shared(free);
        SectionPieces(period, date, section, rule, nothing, free, nothing);
      } else if section.end > rule.nightBegin {
        var before := Period(midnight + section.begin, midnight + rule.daylightBegin);
        var after := Period(midnight + rule.nightBegin, midnight + section.end);
        nightFree := period.Shared(before);
        daylightFree := period.Shared(daylight);
        nightFree := nightFree + period.Shared(after);
        SectionPieces(period, date, section, rule, daylight, before, after);
      } else {
        var before := Period(midnight + section.begin, midnight + rule.daylightBegin);
        var inside := Period(midnight + rule.daylightBegin, midnight + section.end);
        nightFree := period.Shared(before);
        daylightFree := period.Shared(inside);
        SectionPieces(period, date, section, rule, inside, before, nothing);
      }
    } else if section.begin < rule.nightBegin {
      if section.end <= rule.nightBegin {
        daylightFree := period.Shared(free);
        SectionPieces(period, date, section, rule, free, nothing, nothing);
      } else {
        var inside := Period(midnight + section.begin, midnight + rule.nightBegin);
        var after := Period(midnight + rule.nightBegin, midnight + section.end);
        daylightFree := period.Shared(inside);
        nightFree := period.Shared(after);
        SectionPieces(period, date, section, rule, inside, after, nothing);
      }
    } else {
      nightFree := period.Shared(free);
      SectionPieces(period, date, section, rule, nothing, free, nothing);
    }
  }

  /** A daylight piece and two separate night pieces that make up a section measure it. */
  lemma SectionPieces(period: Period, date: int, s: Section, rule: Rule, day: Period, night: Period, night': Period)
    requires period.begin <= period.end
    requires DayStart(date) <= period.begin && period.end <= DayStart(date + 1)
    requires day.begin <= day.end && night.begin <= night.end && night'.begin <= night'.end
    requires forall t | DayStart(date) <= t < DayStart(date + 1) ::
      var tod := t - DayStart(date);
      && (day.Contains(t) <==> s.begin <= tod < s.end && rule.daylightBegin <= tod < rule.nightBegin)
      && (night.Contains(t) || night'.Contains(t) <==>
          s.begin <= tod < s.end && !(rule.daylightBegin <= tod < rule.nightBegin))
      && !(night.Contains(t) && night'.Contains(t))
    ensures period.Shared(day) == Sum(SectionWeight(rule, Daylight, s), period.begin, period.end)
    ensures period.Shared(night) + period.Shared(night') == Sum(SectionWeight(rule, Night, s), period.begin, period.end)
  {
    assert forall t | DayStart(date) <= t < DayStart(date + 1) :: TimeOfDay(t) == t - DayStart(date);
    SharedIsSum(SectionWeight(rule, Daylight, s), period, day);
    SharedIsSum(Indicator(night), period, night);
    SharedIsSum(Indicator(night'), period, night');
    SumAdd(Indicator(night), Indicator(night'), SectionWeight(rule, Night, s), period.begin, period.end);
  }

  /** Pattern 1's measure of a period inside one date. */
  method CalDayParkingTime(period: Period, date: int, rule: Rule) returns (daylight: int, night: int)
    requires period.begin <= period.end
    requires DayStart(date) <= period.begin && period.end <= DayStart(date + 1)
    ensures Split(daylight, night) == Chargeable(rule, period.begin, period.end)
  {
    hide Sum, FreeWeight, SectionWeight, BandWeight;
    var midnight := DayStart(date);
    var afterMidnight := Period(midnight, midnight + rule.daylightBegin);
    var beforeMidnight := Period(midnight + rule.nightBegin, midnight + DAY);
    var daylightPeriod := Period(midnight + rule.daylightBegin, midnight + rule.nightBegin);
    night, daylight := 0, 0;
    if period.Intersects(afterMidnight) {
      night := period.Intersection(afterMidnight).Length();
    }
    if period.Intersects(beforeMidnight) {
      night := night + period.Intersection(beforeMidnight).Length();
    }
    if period.Intersects(daylightPeriod) {
      daylight := period.Intersection(daylightPeriod).Length();
    }
    DayBands(period, date, rule);

    var sections := rule.freeSections;
    var daylightFree, nightFree := 0, 0;
    NoSectionYet(rule, Daylight, period);
    NoSectionYet(rule, Night, period);
    assert sections[..0] == [];
    for i := 0 to |sections|
      invariant daylightFree == Sum(FreeWeight(rule, Daylight, sections[..i]), period.begin, period.end)
      invariant nightFree == Sum(FreeWeight(rule, Night, sections[..i]), period.begin, period.end)
    {
      var d, n := SplitFreeSection(period, date, sections[i], rule);
      daylightFree, nightFree := daylightFree + d, nightFree + n;
      OneMoreSection(rule, Daylight, sections[..i], sections[i], period);
      OneMoreSection(rule, Night, sections[..i], sections[i], period);
      assert sections[..i + 1] == sections[..i] + [sections[i]];
    }
    assert sections[..|sections|] == sections;
    daylight := daylight - daylightFree;
    night := night - nightFree;
  }

  lemma NoSectionYet(rule: Rule, band: Band, period: Period)
    requires period.begin <= period.end
    ensures Sum(FreeWeight(rule, band, []), period.begin, period.end) == 0
  {
    SumConstant(FreeWeight(rule, band, []), 0, period.begin, period.end);
  }

  lemma OneMoreSection(rule: Rule, band: Band, init: seq<Section>, s: Section, period: Period)
    ensures Sum(FreeWeight(rule, band, init + [s]), period.begin, period.end) ==
            Sum(FreeWeight(rule, band, init), period.begin, period.end) +
            Sum(SectionWeight(rule, band, s), period.begin, period.end)
  {
    assert (init + [s])[..|init|] == init;
    SumAdd(FreeWeight(rule, band, init), SectionWeight(rule, band, s), FreeWeight(rule, band, init + [s]),
           period.begin, period.end);
  }

  lemma DayBands(period: Period, date: int, rule: Rule)
    requires period.begin <= period.end
    requires DayStart(date) <= period.begin && period.end <= DayStart(date + 1)
    ensures var midnight := DayStart(date);
      && period.Shared(Period(midnight + rule.daylightBegin, midnight + rule.nightBegin))
         == Sum(BandWeight(rule, Daylight), period.begin, period.end)
      && period.Shared(Period(midnight, midnight + rule.daylightBegin))
         + period.Shared(Period(midnight + rule.nightBegin, midnight + DAY))
         == Sum(BandWeight(rule, Night), period.begin, period.end)
  {
    hide Sum, TimeOfDay, BandAt;
    var midnight := DayStart(date);
    var early := Period(midnight, midnight + rule.daylightBegin);
    var late := Period(midnight + rule.nightBegin, midnight + DAY);
    forall t | period.begin <= t < period.end
      ensures BandWeight(rule, Night)(t) == Indicator(early)(t) + Indicator(late)(t)
    {
      BandOfSecond(rule, date, t);
    }
    SumAdd(Indicator(early), Indicator(late), BandWeight(rule, Night), period.begin, period.end);
    SharedSum(period, early);
    SharedSum(period, late);
    DaylightShared(period, date, rule);
  }

  lemma DaylightShared(period: Period, date: int, rule: Rule)
    requires period.begin <= period.end
    requires DayStart(date) <= period.begin && period.end <= DayStart(date + 1)
    ensures period.Shared(Period(DayStart(date) + rule.daylightBegin, DayStart(date) + rule.nightBegin))
            == Sum(BandWeight(rule, Daylight), period.begin, period.end)
  {
    hide Sum, TimeOfDay, BandAt;
    var light := Period(DayStart(date) + rule.daylightBegin, DayStart(date) + rule.nightBegin);
    forall t | period.Contains(t)
      ensures BandWeight(rule, Daylight)(t) == if light.Contains(t) then 1 else 0
    {
      BandOfSecond(rule, date, t);
    }
    SharedIsSum(BandWeight(rule, Daylight), period, light);
  }

  /** Where the second lies among the three stretches of its own date. */
  lemma BandOfSecond(rule: Rule, date: int, t: int)
    requires DayStart(date) <= t < DayStart(date + 1)
    ensures BandAt(rule, t) ==
      if DayStart(date) + rule.daylightBegin <= t < DayStart(date) + rule.nightBegin then Daylight else Night
  {
    assert TimeOfDay(t) == t - DayStart(date);
  }

  lemma SharedSum(p: Period, q: Period)
    requires p.begin <= p.end && q.begin <= q.end
    ensures p.Shared(q) == Sum(Indicator(q), p.begin, p.end)
  {
    SharedIsSum(Indicator(q), p, q);
  }
}
