/** Cutting a stay into the periods that are charged one by one. */
module Days {
  import opened Arithmetic
  import opened Periods

  // ---------- pattern 0: rolling periods of 24 hours ----------

  function RollingCount(begin: int, end: int): nat {
    if begin < end then (end - begin + DAY - 1) / DAY else 0
  }

  function RollingDay(begin: int, end: int, i: int): Period {
    Period(begin + i * DAY, Min(begin + (i + 1) * DAY, end))
  }

  function RollingDays(begin: int, end: int): (periods: seq<Period>) {
    seq(RollingCount(begin, end), i => RollingDay(begin, end, i))
  }

  method DivideTimeByDay0(begin: int, end: int) returns (periods: seq<Period>)
    ensures periods == RollingDays(begin, end)
  {
    periods := [];
    var period := Period(begin, end);
    var dayBegin := begin;
    while dayBegin < end
      invariant dayBegin == begin + |periods| * DAY
      invariant |periods| <= RollingCount(begin, end)
      invariant periods == RollingDays(begin, end)[..|periods|]
      decreases end - dayBegin
    {
      var dayEnd := dayBegin + DAY;
      var dayPeriod := Period(dayBegin, dayEnd);
      if period.Intersects(dayPeriod) {
        periods := periods + [period.Intersection(dayPeriod)];
      }
      dayBegin := dayEnd;
    }
  }

  // ---------- pattern 1: calendar days ----------

  function CalendarCount(begin: int, end: int): nat {
    if begin < end then DateOf(end - 1) - DateOf(begin) + 1
    else if DateOf(begin) == DateOf(end) then 1
    else 0
  }

  function CalendarDay(begin: int, end: int, i: int): Period {
    if begin < end then
      var date := DateOf(begin) + i;
      Period(Max(begin, DayStart(date)), Min(end, DayStart(date + 1)))
    else
      Period(begin, end)
  }

  function CalendarDays(begin: int, end: int): seq<Period> {
    seq(CalendarCount(begin, end), i => CalendarDay(begin, end, i))
  }

  method DivideTimeByDay1(begin: int, end: int) returns (periods: seq<Period>)
    ensures periods == CalendarDays(begin, end)
  {
    periods := [];
    var beginDate, endDate := DateOf(begin), DateOf(end);
    var period := Period(begin, end);
    var date := beginDate;
    while date <= endDate
      invariant beginDate <= date
      invariant |periods| == Min(date - beginDate, CalendarCount(begin, end))
      invariant periods == CalendarDays(begin, end)[..|periods|]
      decreases endDate - date
    {
      var dayPeriod := Period(DayStart(date), DayStart(date + 1));
      if period.Intersects(dayPeriod) {
        periods := periods + [period.Intersection(dayPeriod)];
      }
      date := date + 1;
    }
  }

  // ---------- tiling ----------

  /** Consecutive, non-empty periods from begin to end. */
  predicate Chains(periods: seq<Period>, begin: int, end: int) {
    && 0 < |periods|
    && periods[0].begin == begin
    && periods[|periods| - 1].end == end
    && (forall i | 0 <= i < |periods| :: periods[i].begin < periods[i].end)
    && (forall i | 0 <= i < |periods| - 1 :: periods[i].end == periods[i + 1].begin)
  }

  lemma RollingDayFits(begin: int, end: int, i: nat)
    requires i < RollingCount(begin, end)
    ensures var p := RollingDay(begin, end, i); p.begin < p.end <= p.begin + DAY
  {
  }

  lemma RollingDaysChain(begin: int, end: int)
    requires begin < end
    ensures Chains(RollingDays(begin, end), begin, end)
    ensures |RollingDays(begin, end)| == CeilDiv(end - begin, DAY)
    ensures forall i | 0 <= i < |RollingDays(begin, end)| - 1 :: RollingDays(begin, end)[i].Length() == DAY
    ensures RollingDays(begin, end)[|RollingDays(begin, end)| - 1].Length() <= DAY
  {
    CeilDivUnique(end - begin, DAY, RollingCount(begin, end));
  }

  lemma CalendarDaysChain(begin: int, end: int)
    requires begin < end
    ensures Chains(CalendarDays(begin, end), begin, end)
    ensures forall i | 0 <= i < |CalendarDays(begin, end)| ::
              var p := CalendarDays(begin, end)[i];
              DayStart(DateOf(begin) + i) <= p.begin && p.end <= DayStart(DateOf(begin) + i + 1)
    ensures forall i | 0 < i < |CalendarDays(begin, end)| ::
              CalendarDays(begin, end)[i].begin == DayStart(DateOf(begin) + i)
  {
  }

  lemma {:induction false} ChainAdvances(periods: seq<Period>, begin: int, end: int)
    requires Chains(periods, begin, end)
    ensures begin < end
  {
    var n := |periods| - 1;
    if n > 0 {
      ChainAdvances(periods[..n], begin, periods[n].begin);
    }
  }

  /** In a chain every instant of [begin, end), and no other, lies in exactly one period. */
  lemma {:induction false} ChainTiles(periods: seq<Period>, begin: int, end: int, t: int)
    requires Chains(periods, begin, end)
    ensures (exists i :: 0 <= i < |periods| && periods[i].Contains(t)) <==> begin <= t < end
    ensures forall i, j | 0 <= i < j < |periods| :: !(periods[i].Contains(t) && periods[j].Contains(t))
  {
    var n := |periods| - 1;
    if n > 0 {
      var init := periods[..n];
      assert Chains(init, begin, periods[n].begin);
      ChainAdvances(init, begin, periods[n].begin);
      ChainTiles(init, begin, periods[n].begin, t);
      assert forall i | 0 <= i < n :: init[i] == periods[i];
      if begin <= t < periods[n].begin {
        var i :| 0 <= i < |init| && init[i].Contains(t);
        assert periods[i].Contains(t);
      } else if periods[n].begin <= t < end {
        assert periods[n].Contains(t);
      }
      if i :| 0 <= i < |periods| && periods[i].Contains(t) {
        assert i < n ==> init[i].Contains(t);
      }
    } else {
      assert periods[0].Contains(t) <==> begin <= t < end;
    }
  }
}
