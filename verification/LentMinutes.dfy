/** What a unit that borrows its missing minutes from the other side costs, and when another
    minute makes it cheaper. */
module LentMinutes {
  import opened Arithmetic
  import opened Periods
  import opened Rules
  import opened Conservation
  import opened ParkingTimes
  import opened Bills

  // ---------- minutes of the two sides ----------

  datatype Side = Side(unit: Unit, rate: Money)

  function SideOf(tariff: Tariff, band: Band): Side {
    if band == Daylight then Side(tariff.dayUnit, tariff.dayRate) else Side(tariff.nightUnit, tariff.nightRate)
  }

  function Other(band: Band): Band {
    if band == Daylight then Night else Daylight
  }

  /** What is left of the lender's minutes when own minutes have filled their last unit. */
  function Spared(own: nat, lender: nat, unit: Unit): nat {
    Max(lender - CompleteTime(own, unit), 0)
  }

  /** The uncapped fee of minutes on the side the period starts in, and on the other one. */
  function LentFee(own: nat, lender: nat, o: Side, l: Side): real {
    Times(CeilDiv(own, o.unit), o.rate) + Times(CeilDiv(Spared(own, lender, o.unit), l.unit), l.rate)
  }

  lemma LentFeeIsCharged(daylight: nat, night: nat, start: Band, tariff: Tariff)
    ensures var time := Borrowed(Split(daylight, night), start, tariff);
      var d, n := daylight / 60, night / 60;
      UncappedFee(TruncDiv(time.daylight, 60), TruncDiv(time.night, 60), tariff)
      == LentFee(if start == Daylight then d else n, if start == Daylight then n else d,
                 SideOf(tariff, start), SideOf(tariff, Other(start)))
  {
    hide CompleteTime, CeilDiv, TruncDiv, Times;
    var own, lender := if start == Daylight then daylight else night, if start == Daylight then night else daylight;
    var unit := SideOf(tariff, start).unit;
    var c := CompleteTime(own / 60, unit);
    CompleteTimeFills(own / 60, unit);
    CeilDivUnique(own / 60 + c, unit, CeilDiv(own / 60, unit));
    MinutesMore(own, 0);
    MinutesMore(own, c);
    MinutesMore(lender, -c);
    MinutesOf(0);
  }

  // ---------- one more minute ----------

  /** The new own minute begins a unit, which takes more units from the lender than it is worth. */
  predicate Undercuts(own: nat, lender: nat, o: Side, l: Side) {
    && Whole(own, o.unit)
    && o.rate < Times(CeilDiv(lender, l.unit) - CeilDiv(Max(lender - (o.unit - 1), 0), l.unit), l.rate)
  }

  /** Within a unit another minute is lent back; at the end of one a whole unit is begun. */
  lemma NextCompletion(own: nat, unit: Unit)
    ensures var c := CompleteTime(own, unit);
      && (Whole(own, unit) <==> c == 0)
      && (c == 0 ==> CompleteTime(own + 1, unit) == unit - 1
                     && CeilDiv(own + 1, unit) == CeilDiv(own, unit) + 1)
      && (c > 0 ==> CompleteTime(own + 1, unit) == c - 1 && CeilDiv(own + 1, unit) == CeilDiv(own, unit))
  {
    hide CeilDiv;
    var c, k := CompleteTime(own, unit), CeilDiv(own, unit);
    CompleteTimeFills(own, unit);
    CompleteTimeFills(own + 1, unit);
    if c == 0 {
      assert unit * (k + 1) == unit * k + unit;
      CeilDivUnique(own + 1, unit, k + 1);
    } else {
      CeilDivUnique(own + 1, unit, k);
    }
    hide CompleteTime;
  }

  /** One more own minute lowers the uncapped fee exactly when it undercuts. */
  lemma OneMoreOwn(own: nat, lender: nat, o: Side, l: Side)
    ensures LentFee(own + 1, lender, o, l) < LentFee(own, lender, o, l) <==> Undercuts(own, lender, o, l)
  {
    hide CompleteTime, CeilDiv, Times, Whole;
    NextCompletion(own, o.unit);
    CompleteTimeFills(own, o.unit);
    var before, after := Spared(own, lender, o.unit), Spared(own + 1, lender, o.unit);
    var i, j := CeilDiv(before, l.unit), CeilDiv(after, l.unit);
    if CompleteTime(own, o.unit) == 0 {
      TimesAdds(CeilDiv(own, o.unit), 1, o.rate);
      TimesOne(o.rate);
      TimesAdds(i - j, j, l.rate);
    } else {
      CeilMonotone(before, after, l.unit);
      TimesAdds(i, j, l.rate);
    }
  }

  /** A lender's minute never lowers it. */
  lemma OneMoreLender(own: nat, lender: nat, o: Side, l: Side)
    ensures LentFee(own, lender + 1, o, l) >= LentFee(own, lender, o, l)
  {
    hide CompleteTime, CeilDiv, Times;
    var before, after := Spared(own, lender, o.unit), Spared(own, lender + 1, o.unit);
    CeilMonotone(before, after, l.unit);
    TimesAdds(CeilDiv(before, l.unit), CeilDiv(after, l.unit), l.rate);
  }

  lemma LentNothing(o: Side, l: Side)
    ensures LentFee(0, 0, o, l) == 0.0
  {
    CeilDivUnique(0, o.unit, 0);
    CeilDivUnique(0, l.unit, 0);
    NothingToFill(o.unit);
    TimesAdds(0, 0, o.rate);
    TimesAdds(0, 0, l.rate);
  }

  lemma NothingToUndercut(o: Side, l: Side)
    ensures !Undercuts(0, 0, o, l)
  {
    TimesAdds(0, 0, l.rate);
  }

  // ---------- tariffs under which a longer stay never costs less ----------

  /** A unit of one side costs at least what it can take from the other. */
  predicate Outweighs(o: Side, l: Side) {
    o.rate >= Times(CeilDiv(o.unit - 1, l.unit), l.rate)
  }

  predicate Monotone(tariff: Tariff) {
    && Outweighs(SideOf(tariff, Daylight), SideOf(tariff, Night))
    && Outweighs(SideOf(tariff, Night), SideOf(tariff, Daylight))
  }

  /** The condition on a side is exact: it holds just when no minutes of it ever undercut. */
  lemma OutweighsIff(o: Side, l: Side)
    ensures (forall own: nat, lender: nat :: !Undercuts(own, lender, o, l)) <==> Outweighs(o, l)
  {
    hide CeilDiv, Times;
    if Outweighs(o, l) {
      forall own: nat, lender: nat
        ensures !Undercuts(own, lender, o, l)
      {
        TakesAtMost(lender, o.unit - 1, l.unit);
        var taken := CeilDiv(lender, l.unit) - CeilDiv(Max(lender - (o.unit - 1), 0), l.unit);
        TimesAdds(taken, CeilDiv(o.unit - 1, l.unit), l.rate);
      }
    } else {
      CeilDivUnique(0, l.unit, 0);
      assert Undercuts(0, o.unit - 1, o, l);
    }
  }

  lemma TakesAtMost(lender: nat, loan: nat, unit: Unit)
    ensures CeilDiv(lender, unit) - CeilDiv(Max(lender - loan, 0), unit) <= CeilDiv(loan, unit)
  {
    hide CeilDiv;
    var left := Max(lender - loan, 0);
    var i, j := CeilDiv(left, unit), CeilDiv(loan, unit);
    CeilDivUnique(left, unit, i);
    CeilDivUnique(loan, unit, j);
    MultipleAdds(unit, i, j);
    CeilDivUnique(unit * (i + j), unit, i + j);
    CeilMonotone(lender, unit * (i + j), unit);
  }
}
