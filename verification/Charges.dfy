/** The entry point of the tariff, and what its bills always satisfy. */
module Charges {
  import opened Wrappers
  import opened Arithmetic
  import opened Periods
  import opened Rules
  import opened Days
  import opened Bills
  import P0 = Pattern0
  import P1 = Pattern1

  /** The stay is shorter than the free time of the rule in force on entry. */
  predicate InFreeTime(book: RuleBook, stay: Stay) {
    var rule := book.at(stay.enter);
    rule.Some? && stay.exit - stay.enter < rule.value.freeTimeLength * 60
  }

  function FreeStay(rule: Rule, stay: Stay, bill: Ledger): Ledger {
    bill.Add([DetailOf(stay.Whole(), None, 0.0, rule.id)])
      .(freeDuration := rule.freeTimeLength, discount := 1.0, beforeDiscount := 0.0, totalFee := 0.0)
  }

  ghost function Charge(book: RuleBook, pattern: int, stay: Stay, discount: real, bill: Ledger): Ledger {
    if InFreeTime(book, stay) then FreeStay(book.at(stay.enter).value, stay, bill)
    else if pattern == 1 then P1.Charge1(book, stay, discount, bill)
    else P0.Charge0(book, stay, discount, bill)
  }

  method ChargeByTime(book: RuleBook, pattern: int, stay: Stay, discount: real, bill: Bill) returns (fee: real)
    modifies bill
    ensures bill.View() == Charge(book, pattern, stay, discount, old(bill.View()))
    ensures bill.feeExemption == old(bill.feeExemption)
    ensures fee == bill.totalFee
  {
    hide P0.Charge0, P1.Charge1, TruncDiv;
    if book.at(stay.enter).Some? {
      var rule := book.at(stay.enter).value;
      if stay.exit - stay.enter < rule.freeTimeLength * 60 {
        bill.details := bill.details + [DetailOf(stay.Whole(), None, 0.0, rule.id)];
        bill.freeDuration := rule.freeTimeLength;
        bill.discount := 1.0;
        bill.beforeDiscount := 0.0;
        bill.totalFee := 0.0;
        return 0.0;
      }
    }
    if pattern == 1 {
      fee := P1.ChargeByTime1(book, stay, discount, bill);
    } else {
      fee := P0.ChargeByTime0(book, stay, discount, bill);
    }
  }

  /** A stay shorter than the f free minutes of the rule in force on entry is free: one line with
      that rule, no discount, and nothing to pay. */
  lemma FreeTimeIsFree(book: RuleBook, pattern: int, stay: Stay, discount: real, bill: Ledger, rule: Rule)
    requires book.at(stay.enter) == Some(rule) && stay.exit - stay.enter < 60 * rule.freeTimeLength
    ensures var line := Detail(stay.enter, stay.exit, TruncDiv(stay.exit - stay.enter, 60), None, 0.0, rule.id);
      Charge(book, pattern, stay, discount, bill) ==
      Ledger(bill.details + [line], rule.freeTimeLength, 0.0, 0.0, 1.0)
  {
    hide P0.Charge0, P1.Charge1, TruncDiv;
  }

  // ---------- the ledger ----------

  ghost function Spans(details: seq<Detail>): seq<Period> {
    seq(|details|, i requires 0 <= i < |details| => Period(details[i].begin, details[i].end))
  }

  /** The periods a charge cuts a stay into, one line of the bill for each. */
  ghost function Lines(book: RuleBook, pattern: int, stay: Stay): seq<Period> {
    var n := if pattern == 1 then CalendarCount(stay.enter, stay.exit) else RollingCount(stay.enter, stay.exit);
    if InFreeTime(book, stay) || n > MAX_PERIODS then [stay.Whole()]
    else if pattern == 1 then CalendarDays(stay.enter, stay.exit)
    else if n == 0 || book.at(stay.enter).None? then [stay.Whole()]
    else RollingDays(stay.enter, stay.exit)
  }

  /** The stay is charged on one line without any discount: it is free, finds no rule, or has
      too many periods. */
  predicate OneLine(book: RuleBook, pattern: int, stay: Stay) {
    || InFreeTime(book, stay)
    || if pattern == 1 then CalendarCount(stay.enter, stay.exit) > MAX_PERIODS
       else
         var n := RollingCount(stay.enter, stay.exit);
         n == 0 || n > MAX_PERIODS || book.at(stay.enter).None?
  }

  function Applied(book: RuleBook, pattern: int, stay: Stay, discount: real): real {
    if OneLine(book, pattern, stay) then 1.0 else discount
  }

  /** A charge only appends to the bill, one detail for each line in order; their fees add up
      to the undiscounted fee, and the applied discount turns that into the total. */
  ghost predicate Balanced(before: Ledger, after: Ledger, lines: seq<Period>, applied: real) {
    && before.details <= after.details
    && var added := after.details[|before.details|..];
    && Spans(added) == lines
    && SumFees(added) == after.beforeDiscount
    && after.totalFee == after.beforeDiscount * applied
  }

  lemma BillBalances(book: RuleBook, pattern: int, stay: Stay, discount: real, bill: Ledger)
    ensures Balanced(bill, Charge(book, pattern, stay, discount, bill), Lines(book, pattern, stay),
                     Applied(book, pattern, stay, discount))
  {
    hide Balanced, P0.Charge0, P1.Charge1, FreeStay, RollingCount, CalendarCount, RollingDays, CalendarDays, InFreeTime;
    if InFreeTime(book, stay) {
      FreeBalances(book, stay, bill);
    } else if pattern == 1 {
      Pattern1Balances(book, stay, discount, bill);
    } else {
      Pattern0Balances(book, stay, discount, bill);
    }
  }

  /** What the bill records as its discount: a charge on one line records 1, any other leaves what
      was recorded before. */
  lemma DiscountRecorded(book: RuleBook, pattern: int, stay: Stay, discount: real, bill: Ledger)
    ensures Charge(book, pattern, stay, discount, bill).discount ==
            if OneLine(book, pattern, stay) then 1.0 else bill.discount
  {
    hide RollingCount, CalendarCount, InFreeTime, P1.Run, P0.Details0, SumFees, TooDaysFee, TruncDiv;
  }

  /** The recorded discount explains the total exactly when the charge is on one line, the bill
      came with the discount that is applied, or there is nothing to discount. */
  lemma DiscountExplains(book: RuleBook, pattern: int, stay: Stay, discount: real, bill: Ledger)
    ensures var after := Charge(book, pattern, stay, discount, bill);
      after.totalFee == after.beforeDiscount * after.discount
      <==> OneLine(book, pattern, stay) || bill.discount == discount || after.beforeDiscount == 0.0
  {
    hide Charge, OneLine, Lines, SumFees, Spans;
    BillBalances(book, pattern, stay, discount, bill);
    DiscountRecorded(book, pattern, stay, discount, bill);
    var after := Charge(book, pattern, stay, discount, bill);
    SameProduct(after.beforeDiscount, after.discount, Applied(book, pattern, stay, discount));
  }

  /** The undiscounted fee does not depend on the discount. */
  lemma UndiscountedFee(book: RuleBook, pattern: int, stay: Stay, discount: real, discount': real, bill: Ledger)
    ensures Charge(book, pattern, stay, discount, bill).beforeDiscount ==
            Charge(book, pattern, stay, discount', bill).beforeDiscount
  {
    hide RollingCount, CalendarCount, InFreeTime, P1.Run, P0.Details0, SumFees, TooDaysFee, TruncDiv;
  }

  lemma SameProduct(x: real, y: real, z: real)
    ensures x * y == x * z <==> y == z || x == 0.0
  {
    assert x * y - x * z == x * (y - z);
  }

  lemma FreeBalances(book: RuleBook, stay: Stay, bill: Ledger)
    requires InFreeTime(book, stay)
    ensures Balanced(bill, FreeStay(book.at(stay.enter).value, stay, bill), [stay.Whole()], 1.0)
  {
    var detail := DetailOf(stay.Whole(), None, 0.0, book.at(stay.enter).value.id);
    SingleBalances(bill, FreeStay(book.at(stay.enter).value, stay, bill), detail);
  }

  lemma Pattern1Balances(book: RuleBook, stay: Stay, discount: real, bill: Ledger)
    ensures var tooMany := CalendarCount(stay.enter, stay.exit) > MAX_PERIODS;
      Balanced(bill, P1.Charge1(book, stay, discount, bill),
               if tooMany then [stay.Whole()] else CalendarDays(stay.enter, stay.exit),
               if tooMany then 1.0 else discount)
  {
    hide CalendarCount, CalendarDays, P1.Run, TooDaysFee, Balanced, SumFees;
    var n := CalendarCount(stay.enter, stay.exit);
    if n > MAX_PERIODS {
      TooDaysBalances(book, stay, n, bill);
    } else {
      RunSpans(book, stay, bill.freeDuration, n);
      AppendedBalances(bill, P1.Charge1(book, stay, discount, bill), P1.Run(book, stay, bill.freeDuration, n).details,
                       discount);
    }
  }

  lemma Pattern0Balances(book: RuleBook, stay: Stay, discount: real, bill: Ledger)
    ensures var n := RollingCount(stay.enter, stay.exit);
      var oneLine := n > MAX_PERIODS || n == 0 || book.at(stay.enter).None?;
      Balanced(bill, P0.Charge0(book, stay, discount, bill),
               if oneLine then [stay.Whole()] else RollingDays(stay.enter, stay.exit),
               if oneLine then 1.0 else discount)
  {
    hide RollingCount, RollingDays, P0.Details0, TooDaysFee, Balanced, SumFees;
    var n := RollingCount(stay.enter, stay.exit);
    if n > MAX_PERIODS {
      TooDaysBalances(book, stay, n, bill);
    } else if n == 0 || book.at(stay.enter).None? {
      SingleBalances(bill, NoCharge(stay, bill), DetailOf(stay.Whole(), None, 0.0, ""));
    } else {
      var rule := book.at(stay.enter).value;
      DetailsSpans(rule, stay);
      AppendedBalances(bill, P0.Charge0(book, stay, discount, bill), P0.Details0(rule, stay, n), discount);
    }
  }

  lemma TooDaysBalances(book: RuleBook, stay: Stay, days: int, bill: Ledger)
    ensures Balanced(bill, TooDays(book, stay, days, bill), [stay.Whole()], 1.0)
  {
    hide TooDaysFee;
    var after := TooDays(book, stay, days, bill);
    var id := if book.least.Some? then book.least.value.id else "";
    SingleBalances(bill, after, DetailOf(stay.Whole(), None, after.totalFee, id));
  }

  /** A charge that appends one detail, with no discount. */
  lemma SingleBalances(before: Ledger, after: Ledger, detail: Detail)
    requires after.details == before.details + [detail]
    requires after.beforeDiscount == after.totalFee == detail.fee
    ensures Balanced(before, after, [Period(detail.begin, detail.end)], 1.0)
  {
    SumOfOne(detail);
    AppendedBalances(before, after, [detail], 1.0);
    assert Spans([detail]) == [Period(detail.begin, detail.end)];
  }

  lemma AppendedBalances(before: Ledger, after: Ledger, details: seq<Detail>, applied: real)
    requires after.details == before.details + details
    requires after.beforeDiscount == SumFees(details)
    requires after.totalFee == after.beforeDiscount * applied
    ensures Balanced(before, after, Spans(details), applied)
  {
    hide SumFees;
    assert after.details[|before.details|..] == details;
  }

  lemma SumOfOne(detail: Detail)
    ensures SumFees([detail]) == detail.fee
  {
    assert [detail][..0] == [];
  }

  lemma {:induction false} RunDay(book: RuleBook, stay: Stay, free: int, n: nat, i: nat)
    requires i < n
    ensures var detail := P1.Run(book, stay, free, n).details[i];
      Period(detail.begin, detail.end) == CalendarDay(stay.enter, stay.exit, i)
  {
    hide P1.VisitDay, CalendarDay, TruncDiv;
    if i < n - 1 {
      RunDay(book, stay, free, n - 1, i);
    }
  }

  lemma RunSpans(book: RuleBook, stay: Stay, free: int, n: nat)
    requires n == CalendarCount(stay.enter, stay.exit)
    ensures Spans(P1.Run(book, stay, free, n).details) == CalendarDays(stay.enter, stay.exit)
  {
    forall i | 0 <= i < n
      ensures Spans(P1.Run(book, stay, free, n).details)[i] == CalendarDay(stay.enter, stay.exit, i)
    {
      RunDay(book, stay, free, n, i);
    }
    hide P1.Run, CalendarDay, CalendarCount;
  }

  lemma DetailsSpans(rule: Rule, stay: Stay)
    ensures Spans(P0.Details0(rule, stay, RollingCount(stay.enter, stay.exit))) == RollingDays(stay.enter, stay.exit)
  {
    hide P0.Fee0, RollingDay, RollingCount, TruncDiv;
  }

  /** The lines of the bill of a stay chain from entry to exit without gap or overlap. */
  lemma LinesChain(book: RuleBook, pattern: int, stay: Stay)
    requires stay.enter < stay.exit
    ensures Chains(Lines(book, pattern, stay), stay.enter, stay.exit)
  {
    RollingDaysChain(stay.enter, stay.exit);
    CalendarDaysChain(stay.enter, stay.exit);
  }
}
