/** The whole bill of a stay told from scratch, line by line, and the proof that the entry point
    writes it, in both patterns and on every path. */
module WholeBills {
  import opened Wrappers
  import opened Arithmetic
  import opened Periods
  import opened Rules
  import opened Days
  import opened ParkingTimes
  import opened Bills
  import opened Seconds
  import opened Caps
  import opened Conservation
  import Charges
  import P0 = Pattern0
  import P1 = Pattern1

  // ---------- lines ----------

  function Minutes(seconds: int): int {
    if seconds >= 0 then seconds / 60 else -((-seconds) / 60)
  }

  function LineOf(begin: int, end: int, owed: Option<int>, fee: real, ruleId: string): Detail {
    Detail(begin, end, Minutes(end - begin), owed, fee, ruleId)
  }

  function TotalOf(lines: seq<Detail>): real {
    if lines == [] then 0.0 else lines[0].fee + TotalOf(lines[1..])
  }

  lemma {:induction false} TotalIsSum(lines: seq<Detail>)
    ensures TotalOf(lines) == SumFees(lines)
  {
    if lines != [] {
      TotalIsSum(lines[1..]);
      FirstFee(lines);
    }
  }

  lemma {:induction false} FirstFee(lines: seq<Detail>)
    requires lines != []
    ensures SumFees(lines) == lines[0].fee + SumFees(lines[1..])
  {
    var n := |lines| - 1;
    if n > 0 {
      FirstFee(lines[..n]);
      assert lines[1..][..n - 1] == lines[..n][1..];
    } else {
      assert lines[..0] == [];
    }
  }

  // ---------- pattern 0 ----------

  function RollingSpans(enter: int, exit: int): nat {
    if enter < exit then (exit - enter + 86399) / 86400 else 0
  }

  /** The first period and every reused one lose the free time in mode 1; the last of several is
      charged from its own begin. */
  function Fee0(rule: Rule, stay: Stay, i: nat): real {
    var n := RollingSpans(stay.enter, stay.exit);
    if i == 0 || i < n - 1 then
      PeriodCost(rule, stay.vehicleType, stay.enter + if stay.mode == 1 then 60 * rule.freeTimeLength else 0,
                 Min(stay.enter + 86400, stay.exit))
    else
      PeriodCost(rule, stay.vehicleType, stay.enter + 86400 * i, stay.exit)
  }

  function Line0(rule: Rule, stay: Stay, i: nat): Detail {
    LineOf(stay.enter + 86400 * i, Min(stay.enter + 86400 * (i + 1), stay.exit), None, Fee0(rule, stay, i), rule.id)
  }

  function Lines0(rule: Rule, stay: Stay): seq<Detail> {
    seq(RollingSpans(stay.enter, stay.exit), i requires 0 <= i => Line0(rule, stay, i))
  }

  // ---------- pattern 1 ----------

  function CalendarSpans(enter: int, exit: int): nat {
    if enter < exit then (exit - 1) / 86400 - enter / 86400 + 1
    else if enter / 86400 == exit / 86400 then 1
    else 0
  }

  function CalendarSpan(stay: Stay, i: nat): Period {
    if stay.enter >= stay.exit then Period(stay.enter, stay.exit) else
      var date := stay.enter / 86400 + i;
      Period(if i == 0 then stay.enter else 86400 * date, Min(stay.exit, 86400 * (date + 1)))
  }

  /** What the days so far leave behind: the minutes billed ahead of time, and the free time of the
      first of them that had a rule. */
  datatype Owing = Owing(minutes: int, free: Option<int>)

  datatype Day = Day(fee: real, ruleId: string, next: Owing)

  /** A day that earlier days used up, or that has no rule, leaves all as it was. Another one is
      charged from the end of what is owed, in mode 1 the first of them after its free time. */
  function DayOf(book: RuleBook, stay: Stay, span: Period, owing: Owing): Day {
    var begin, rule := span.begin + 60 * owing.minutes, book.on(span.begin / 86400);
    if begin >= span.end || rule.None? then Day(0.0, "", owing)
    else
      var r := rule.value;
      var lo := if owing.free.None? && stay.mode == 1 then begin + 60 * r.freeTimeLength else begin;
      Day(DayCost(r, stay.vehicleType, lo, span.end), r.id,
          Owing(DayDebt(r, stay.vehicleType, lo, span.end, owing.minutes),
                if owing.free.None? then Some(r.freeTimeLength) else owing.free))
  }

  function OwingAt(book: RuleBook, stay: Stay, i: nat): Owing {
    if i == 0 then Owing(0, None)
    else DayOf(book, stay, CalendarSpan(stay, i - 1), OwingAt(book, stay, i - 1)).next
  }

  function Line1(book: RuleBook, stay: Stay, i: nat): Detail {
    var span, owing := CalendarSpan(stay, i), OwingAt(book, stay, i);
    var day := DayOf(book, stay, span, owing);
    LineOf(span.begin, span.end, Some(owing.minutes), day.fee, day.ruleId)
  }

  function Lines1(book: RuleBook, stay: Stay): seq<Detail> {
    seq(CalendarSpans(stay.enter, stay.exit), i requires 0 <= i => Line1(book, stay, i))
  }

  // ---------- the bill ----------

  /** A charge on one line for the whole stay, without discount. */
  function OneLineBill(stay: Stay, bill: Ledger, fee: real, ruleId: string, freeDuration: int): Ledger {
    Ledger(bill.details + [LineOf(stay.enter, stay.exit, None, fee, ruleId)], freeDuration, fee, fee, 1.0)
  }

  function LinesBill(bill: Ledger, lines: seq<Detail>, freeDuration: int, discount: real): Ledger {
    Ledger(bill.details + lines, freeDuration, TotalOf(lines) * discount, TotalOf(lines), bill.discount)
  }

  /** More than 30 periods: for each of them the cap of the rule of least priority. */
  function LongBill(book: RuleBook, stay: Stay, periods: nat, bill: Ledger): Ledger {
    match book.least
    case None => OneLineBill(stay, bill, 0.0, "", bill.freeDuration)
    case Some(rule) =>
      OneLineBill(stay, bill, periods as real * TariffOf(rule, stay.vehicleType).maxFee, rule.id, bill.freeDuration)
  }

  function BillOf(book: RuleBook, pattern: int, stay: Stay, discount: real, bill: Ledger): Ledger {
    var rule := book.at(stay.enter);
    if rule.Some? && stay.exit - stay.enter < 60 * rule.value.freeTimeLength then
      OneLineBill(stay, bill, 0.0, rule.value.id, rule.value.freeTimeLength)
    else if pattern == 1 then
      var n := CalendarSpans(stay.enter, stay.exit);
      if n > 30 then LongBill(book, stay, n, bill)
      else LinesBill(bill, Lines1(book, stay), FreeShown(bill, OwingAt(book, stay, n)), discount)
    else
      var n := RollingSpans(stay.enter, stay.exit);
      if n > 30 then LongBill(book, stay, n, bill)
      else if n == 0 || rule.None? then OneLineBill(stay, bill, 0.0, "", bill.freeDuration)
      else LinesBill(bill, Lines0(rule.value, stay), rule.value.freeTimeLength, discount)
  }

  function FreeShown(bill: Ledger, owing: Owing): int {
    if owing.free.Some? then owing.free.value else bill.freeDuration
  }

  // ---------- the entry point writes it ----------

  lemma LineIsDetail(period: Period, owed: Option<int>, fee: real, ruleId: string)
    ensures LineOf(period.begin, period.end, owed, fee, ruleId) == DetailOf(period, owed, fee, ruleId)
  {
  }

  lemma SameSpans(stay: Stay, i: nat)
    ensures RollingSpans(stay.enter, stay.exit) == RollingCount(stay.enter, stay.exit)
    ensures CalendarSpans(stay.enter, stay.exit) == CalendarCount(stay.enter, stay.exit)
    ensures i < CalendarCount(stay.enter, stay.exit) ==> CalendarSpan(stay, i) == CalendarDay(stay.enter, stay.exit, i)
    ensures RollingDay(stay.enter, stay.exit, i) ==
            Period(stay.enter + 86400 * i, Min(stay.enter + 86400 * (i + 1), stay.exit))
  {
  }

  lemma LastEnds(stay: Stay, i: nat)
    requires i == RollingCount(stay.enter, stay.exit) - 1
    ensures Min(stay.enter + 86400 * (i + 1), stay.exit) == stay.exit
  {
  }

  lemma FeeIs0(rule: Rule, stay: Stay, i: nat)
    requires Disjoint(rule.freeSections) && i < RollingCount(stay.enter, stay.exit)
    ensures P0.Detail0(rule, stay, i) == Line0(rule, stay, i)
  {
    hide Disjoint, P0.PeriodFee, PeriodCost, RollingCount, RollingDay, RollingSpans;
    SameSpans(stay, 0);
    SameSpans(stay, i);
    if i < RollingCount(stay.enter, stay.exit) - 1 {
      P0.FullDaysAlike(rule, stay, i);
      PeriodCosts(rule, RollingDay(stay.enter, stay.exit, 0), stay.mode, stay.vehicleType, true);
    } else {
      LastEnds(stay, i);
      PeriodCosts(rule, RollingDay(stay.enter, stay.exit, i), stay.mode, stay.vehicleType, i == 0);
    }
    LineIsDetail(RollingDay(stay.enter, stay.exit, i), None, Fee0(rule, stay, i), rule.id);
  }

  lemma LinesAre0(rule: Rule, stay: Stay)
    requires Disjoint(rule.freeSections)
    ensures P0.Details0(rule, stay, RollingCount(stay.enter, stay.exit)) == Lines0(rule, stay)
  {
    hide Disjoint, P0.PeriodFee, P0.Detail0, Line0, RollingCount, RollingSpans;
    SameSpans(stay, 0);
    var n := RollingCount(stay.enter, stay.exit);
    forall i: nat | i < n
      ensures P0.Detail0(rule, stay, i) == Line0(rule, stay, i)
    {
      FeeIs0(rule, stay, i);
    }
    assert forall i | 0 <= i < n :: P0.Details0(rule, stay, n)[i] == P0.Detail0(rule, stay, i);
  }

  /** The state of the day loop that the owing stands for. */
  predicate Stands(carry: P1.Carry, owing: Owing, free: int) {
    && carry.borrowed == 60 * owing.minutes && owing.minutes >= 0
    && carry.firstDay == owing.free.None?
    && carry.freeDuration == if owing.free.Some? then owing.free.value else free
  }

  lemma DayIs(book: RuleBook, stay: Stay, span: Period, carry: P1.Carry, owing: Owing, free: int)
    requires DisjointBook(book) && Stands(carry, owing, free)
    requires span.begin < span.end ==> span.end <= DayStart(DateOf(span.begin) + 1)
    ensures var visit, day := P1.VisitDay(book, stay, span, carry), DayOf(book, stay, span, owing);
      && Stands(visit.carry, day.next, free)
      && P1.DayDetail(span, carry.borrowed, visit) ==
         LineOf(span.begin, span.end, Some(owing.minutes), day.fee, day.ruleId)
  {
    hide Disjoint, Chargeable, P1.Complete, CalOneDayCharge, DayCost, DayDebt, DateOf, DayStart, TruncDiv;
    var begin := span.begin + carry.borrowed;
    MinutesOf(owing.minutes);
    if begin < span.end {
      P1.SameDate(span, begin);
      SpelledDate(span.begin);
      var rule := book.on(DateOf(span.begin));
      if rule.Some? {
        var r := rule.value;
        var lo := if owing.free.None? && stay.mode == 1 then begin + 60 * r.freeTimeLength else begin;
        if lo < span.end {
          DayCosts(r, stay.vehicleType, lo, span.end, owing.minutes);
          DebtNotNegative1(r, stay.vehicleType, lo, span.end, owing.minutes);
        } else {
          NothingLeft(r, stay.vehicleType, lo, span.end, owing.minutes);
        }
      }
    }
    var day := DayOf(book, stay, span, owing);
    LineIsDetail(span, Some(owing.minutes), day.fee, day.ruleId);
  }

  lemma SpelledDate(t: int)
    ensures DateOf(t) == t / 86400
  {
  }

  lemma DebtNotNegative1(rule: Rule, vehicleType: int, lo: int, hi: int, owed: int)
    requires owed >= 0
    ensures DayDebt(rule, vehicleType, lo, hi, owed) >= 0
  {
    hide Charged, Missing;
    if lo < hi {
      var tariff := TariffOf(rule, vehicleType);
      var d, n := |Charged(rule, true, lo, hi)| / 60, |Charged(rule, false, lo, hi)| / 60;
      UnitsAreCeil(Left(n, Missing(d, tariff.dayUnit)), tariff.nightUnit);
    }
  }

  lemma NothingLeft(rule: Rule, vehicleType: int, lo: int, hi: int, owed: int)
    requires lo >= hi
    ensures DayCost(rule, vehicleType, lo, hi) == 0.0 && DayDebt(rule, vehicleType, lo, hi, owed) == owed
  {
  }

  lemma {:induction false} RunIs(book: RuleBook, stay: Stay, free: int, n: nat)
    requires DisjointBook(book) && n <= CalendarCount(stay.enter, stay.exit)
    ensures var run := P1.Run(book, stay, free, n);
      && Stands(run.carry, OwingAt(book, stay, n), free)
      && run.details == seq(n, i requires 0 <= i => Line1(book, stay, i))
  {
    hide DisjointBook, P1.VisitDay, DayOf, P1.DayDetail, CalendarDay, CalendarCount, CalendarSpan, LineOf, DateOf,
         DayStart, Stands;
    if n > 0 {
      RunIs(book, stay, free, n - 1);
      SameSpans(stay, n - 1);
      P1.CalendarDayFits(stay.enter, stay.exit, n - 1);
      DayIs(book, stay, CalendarDay(stay.enter, stay.exit, n - 1), P1.Run(book, stay, free, n - 1).carry,
            OwingAt(book, stay, n - 1), free);
    } else {
      NothingOwed(free);
    }
  }

  lemma NothingOwed(free: int)
    ensures Stands(P1.Carry(0, true, free), Owing(0, None), free)
  {
  }

  ghost predicate DisjointRules(book: RuleBook) {
    DisjointBook(book) && forall t :: book.at(t).Some? ==> Disjoint(book.at(t).value.freeSections)
  }

  lemma LongBillIs(book: RuleBook, stay: Stay, n: nat, bill: Ledger)
    ensures TooDays(book, stay, n, bill) == LongBill(book, stay, n, bill)
  {
    hide LineOf, DetailOf;
    LineIsDetail(stay.Whole(), None, 0.0, "");
    if book.least.Some? {
      var rule := book.least.value;
      TariffChosen(rule, stay.vehicleType);
      var fee := n as real * TariffOf(rule, stay.vehicleType).maxFee;
      assert TooDaysFee(book, n, stay.vehicleType) == fee;
      LineIsDetail(stay.Whole(), None, fee, rule.id);
    }
    var a, b := TooDays(book, stay, n, bill), LongBill(book, stay, n, bill);
    assert a.totalFee == b.totalFee && a.details == b.details && a.freeDuration == b.freeDuration;
  }

  /** On every path the entry point appends these lines to the bill and sets its totals. */
  lemma ChargeIs(book: RuleBook, pattern: int, stay: Stay, discount: real, bill: Ledger)
    requires DisjointRules(book)
    ensures Charges.Charge(book, pattern, stay, discount, bill) == BillOf(book, pattern, stay, discount, bill)
  {
    hide DisjointBook, Disjoint, P0.Charge0, P1.Charge1, Lines0, Lines1, LongBill, CalendarSpans, RollingSpans, TotalOf,
         OwingAt;
    if book.at(stay.enter).Some? {
      LineIsDetail(stay.Whole(), None, 0.0, book.at(stay.enter).value.id);
    }
    if pattern == 1 {
      Charge1Is(book, stay, discount, bill);
    } else {
      Charge0Is(book, stay, discount, bill);
    }
  }

  lemma Charge1Is(book: RuleBook, stay: Stay, discount: real, bill: Ledger)
    requires DisjointBook(book)
    ensures var n := CalendarSpans(stay.enter, stay.exit);
      P1.Charge1(book, stay, discount, bill) ==
      if n > 30 then LongBill(book, stay, n, bill)
      else LinesBill(bill, Lines1(book, stay), FreeShown(bill, OwingAt(book, stay, n)), discount)
  {
    hide DisjointBook, P1.Run, Lines1, TooDays, LongBill, CalendarCount, CalendarSpans, SumFees, TotalOf, OwingAt;
    SameSpans(stay, 0);
    var n := CalendarCount(stay.enter, stay.exit);
    RunIs(book, stay, bill.freeDuration, n);
    TotalIsSum(Lines1(book, stay));
    LinesAre1(book, stay);
    LongBillIs(book, stay, n, bill);
  }

  lemma Charge0Is(book: RuleBook, stay: Stay, discount: real, bill: Ledger)
    requires DisjointRules(book)
    ensures var n, rule := RollingSpans(stay.enter, stay.exit), book.at(stay.enter);
      P0.Charge0(book, stay, discount, bill) ==
      if n > 30 then LongBill(book, stay, n, bill)
      else if n == 0 || rule.None? then OneLineBill(stay, bill, 0.0, "", bill.freeDuration)
      else LinesBill(bill, Lines0(rule.value, stay), rule.value.freeTimeLength, discount)
  {
    hide DisjointBook, Disjoint, P0.Details0, Lines0, TooDays, LongBill, RollingCount, RollingSpans, SumFees, TotalOf,
         TruncDiv, Minutes;
    SameSpans(stay, 0);
    LineIsDetail(stay.Whole(), None, 0.0, "");
    LongBillIs(book, stay, RollingCount(stay.enter, stay.exit), bill);
    if book.at(stay.enter).Some? {
      LinesAre0(book.at(stay.enter).value, stay);
      TotalIsSum(Lines0(book.at(stay.enter).value, stay));
    }
  }

  lemma LinesAre1(book: RuleBook, stay: Stay)
    ensures Lines1(book, stay) == seq(CalendarCount(stay.enter, stay.exit), i requires 0 <= i => Line1(book, stay, i))
  {
    hide Line1;
    SameSpans(stay, 0);
  }

  // ---------- stays that are wholly free ----------

  /** The rule that charges this second of the stay, if there is one, makes it free. */
  predicate FreeAt(book: RuleBook, pattern: int, stay: Stay, t: int) {
    var rule := if pattern == 1 then book.on(t / 86400) else book.at(stay.enter);
    rule.Some? ==> IsFree(rule.value, t)
  }

  /** Every second of the stay is in a free section of the rule that charges it. */
  ghost predicate WhollyFree(book: RuleBook, pattern: int, stay: Stay) {
    forall t | stay.enter <= t < stay.exit :: FreeAt(book, pattern, stay, t)
  }

  /** Within 30 periods such a stay costs nothing, in either pattern and mode. */
  lemma WhollyFreeCostsNothing(book: RuleBook, pattern: int, stay: Stay, discount: real, bill: Ledger)
    requires DisjointRules(book) && WhollyFree(book, pattern, stay)
    requires if pattern == 1 then CalendarSpans(stay.enter, stay.exit) <= 30
             else RollingSpans(stay.enter, stay.exit) <= 30
    ensures Charges.Charge(book, pattern, stay, discount, bill).totalFee == 0.0
  {
    hide DisjointRules, WhollyFree, CalendarSpans, RollingSpans, OwingAt, Line0, Line1, TotalOf, Minutes,
         Charges.Charge;
    ChargeIs(book, pattern, stay, discount, bill);
    if pattern == 1 {
      var lines := Lines1(book, stay);
      forall i: nat | i < |lines|
        ensures lines[i].fee == 0.0
      {
        FreeDay(book, stay, i);
      }
      NothingToPay(lines);
    } else if book.at(stay.enter).Some? {
      var lines := Lines0(book.at(stay.enter).value, stay);
      forall i: nat | i < |lines|
        ensures lines[i].fee == 0.0
      {
        FreePeriod(book, pattern, stay, i);
      }
      NothingToPay(lines);
    }
  }

  lemma {:induction false} NothingToPay(lines: seq<Detail>)
    requires forall i: nat | i < |lines| :: lines[i].fee == 0.0
    ensures TotalOf(lines) == 0.0
  {
    if lines != [] {
      NothingToPay(lines[1..]);
    }
  }

  lemma FreePeriod(book: RuleBook, pattern: int, stay: Stay, i: nat)
    requires WhollyFree(book, pattern, stay) && pattern != 1 && book.at(stay.enter).Some?
    requires i < RollingSpans(stay.enter, stay.exit)
    ensures Line0(book.at(stay.enter).value, stay, i).fee == 0.0
  {
    hide IsFree, PeriodCost, DayCost, DayDebt;
    var rule := book.at(stay.enter).value;
    forall t | stay.enter <= t < stay.exit
      ensures IsFree(rule, t)
    {
      assert FreeAt(book, pattern, stay, t);
    }
    FreeStretch(rule, stay.vehicleType, stay.enter + if stay.mode == 1 then 60 * rule.freeTimeLength else 0,
                Min(stay.enter + 86400, stay.exit), 0);
    FreeStretch(rule, stay.vehicleType, stay.enter + 86400 * i, stay.exit, 0);
  }

  lemma {:induction false} OwingNotNegative(book: RuleBook, stay: Stay, i: nat)
    ensures OwingAt(book, stay, i).minutes >= 0
  {
    hide DayCost, DayDebt, CalendarSpan;
    if i > 0 {
      OwingNotNegative(book, stay, i - 1);
      var owing, span := OwingAt(book, stay, i - 1), CalendarSpan(stay, i - 1);
      var begin, rule := span.begin + 60 * owing.minutes, book.on(span.begin / 86400);
      if rule.Some? {
        DebtNotNegative1(rule.value, stay.vehicleType, begin, span.end, owing.minutes);
        DebtNotNegative1(rule.value, stay.vehicleType, begin + 60 * rule.value.freeTimeLength, span.end, owing.minutes);
      }
    }
  }

  lemma FreeDay(book: RuleBook, stay: Stay, i: nat)
    requires WhollyFree(book, 1, stay) && i < CalendarSpans(stay.enter, stay.exit)
    ensures Line1(book, stay, i).fee == 0.0
  {
    hide IsFree, PeriodCost, DayCost, DayDebt, OwingAt, WhollyFree, CalendarSpans;
    var span, owing := CalendarSpan(stay, i), OwingAt(book, stay, i);
    OwingNotNegative(book, stay, i);
    var begin, rule := span.begin + 60 * owing.minutes, book.on(span.begin / 86400);
    if begin < span.end && rule.Some? {
      var lo := if owing.free.None? && stay.mode == 1 then begin + 60 * rule.value.freeTimeLength else begin;
      forall t | lo <= t < span.end
        ensures IsFree(rule.value, t)
      {
        FreeSecond(book, stay, i, t);
      }
      FreeStretch(rule.value, stay.vehicleType, lo, span.end, owing.minutes);
    }
  }

  lemma FreeSecond(book: RuleBook, stay: Stay, i: nat, t: int)
    requires WhollyFree(book, 1, stay) && i < CalendarSpans(stay.enter, stay.exit)
    requires var span := CalendarSpan(stay, i); span.begin <= t < span.end
    ensures var rule := book.on(CalendarSpan(stay, i).begin / 86400); rule.Some? ==> IsFree(rule.value, t)
  {
    hide IsFree;
    var span := CalendarSpan(stay, i);
    assert t / 86400 == span.begin / 86400;
    assert FreeAt(book, 1, stay, t);
  }
}
