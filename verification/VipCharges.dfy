/** Charges on top of the tariff: a VIP's validity window splits a stay, and a stored-value
    account pays for it. */
module VipCharges {
  import opened Wrappers
  import opened Arithmetic
  import opened Periods
  import opened Rules
  import opened Days
  import opened Bills
  import opened Charges
  import opened Conservation
  import opened FlatTariff
  import opened VehicleTypes

  datatype Vip = Vip(live: bool, validBegin: int, expiry: int, discount: real, remainMoney: real)

  datatype PayType = StoredValuePay | OtherPay

  /** A charge record put into the database without a cashier. */
  datatype ChargeRecord = ChargeRecord(charge: real, payType: PayType, remainMoney: real)

  /** What a charge is computed with besides the interval. */
  datatype Setting = Setting(book: RuleBook, pattern: int, mode: int, vehicleType: int, discount: real)

  /** The fee of an interval; no bill it is written to changes it. */
  ghost function FeeOf(s: Setting, p: Period): real {
    ChargeOf(s, p, Ledger([], 0, 0.0, 0.0, 1.0)).totalFee
  }

  ghost function ChargeOf(s: Setting, p: Period, bill: Ledger): Ledger {
    Charge(s.book, s.pattern, StayOf(s, p), s.discount, bill)
  }

  function StayOf(s: Setting, p: Period): Stay {
    Stay(p.begin, p.end, s.mode, s.vehicleType)
  }

  lemma FeeIgnoresBill(s: Setting, p: Period, bill: Ledger)
    ensures ChargeOf(s, p, bill).totalFee == FeeOf(s, p)
    ensures ChargeOf(s, p, bill).beforeDiscount == ChargeOf(s, p, Ledger([], 0, 0.0, 0.0, 1.0)).beforeDiscount
  {
    hide P1.Run, P0.Details0, SumFees, CalendarCount, RollingCount, TooDaysFee, TruncDiv, InFreeTime;
    var stay := StayOf(s, p);
    P1.RunIgnoresBill(s.book, stay, bill.freeDuration, 0, CalendarCount(p.begin, p.end));
  }

  /** Only the tariff of the setting's vehicle type charges the interval. */
  lemma VehicleTypeDecidesFee(s: Setting, book: RuleBook, p: Period)
    requires SameBook(s.vehicleType, s.book, book)
    ensures FeeOf(s, p) == FeeOf(s.(book := book), p)
  {
    hide Charge, SameBook;
    VehicleTypeDecides(s.book, book, s.pattern, StayOf(s, p), s.discount, Ledger([], 0, 0.0, 0.0, 1.0));
  }

  // ---------- the plan of a VIP's charge ----------

  /** A stretch of the stay written to the bill as free, or handed to the tariff. */
  datatype Entry = Free(period: Period) | Paid(period: Period)

  ghost function Written(s: Setting, plan: seq<Entry>, bill: Ledger): Ledger {
    if plan == [] then bill else
      Wrote(s, plan[|plan| - 1], Written(s, plan[..|plan| - 1], bill))
  }

  ghost function Wrote(s: Setting, entry: Entry, bill: Ledger): Ledger {
    match entry
    case Free(p) => bill.Add([DetailOf(p, None, 0.0, "")])
    case Paid(p) => ChargeOf(s, p, bill)
  }

  ghost function PaidFees(s: Setting, plan: seq<Entry>): real {
    if plan == [] then 0.0 else
      PaidFees(s, plan[..|plan| - 1]) + Pays(s, plan[|plan| - 1])
  }

  ghost function Pays(s: Setting, entry: Entry): real {
    if entry.Paid? then FeeOf(s, entry.period) else 0.0
  }

  /** The six positions of a stay against the window, and the two kinds of VIP without one. */
  function Plan(vip: Vip, enter: int, exit: int): seq<Entry> {
    if !vip.live || vip.expiry == 0 || exit <= vip.validBegin then [Paid(Period(enter, exit))]
    else if exit <= vip.expiry then
      if enter < vip.validBegin then [Free(Period(vip.validBegin, exit)), Paid(Period(enter, vip.validBegin))]
      else []
    else if enter < vip.validBegin then
      [Paid(Period(enter, vip.validBegin)), Free(Period(vip.validBegin, vip.expiry)), Paid(Period(vip.expiry, exit))]
    else if enter < vip.expiry then [Free(Period(enter, vip.expiry)), Paid(Period(vip.expiry, exit))]
    else [Paid(Period(enter, exit))]
  }

  class VipCharge {
    const enter: int
    const exit: int
    const vip: Vip
    const setting: Setting
    const bill: Bill
    var totalCharge: real
    var requireCharge: real
    var temporary: bool
    var records: seq<ChargeRecord>

    /** The setting's vehicle type is the plate type of the exit picture; for a stored-value exit
        of a live account, of the entry picture. */
    constructor (enter: int, exit: int, vip: Vip, setting: Setting)
      requires setting.discount == vip.discount
      ensures this.enter == enter && this.exit == exit && this.vip == vip && this.setting == setting
      ensures bill.View() == Ledger([], 0, 0.0, 0.0, vip.discount) && bill.feeExemption == 0.0
      ensures totalCharge == requireCharge == 0.0 && records == [] && !temporary
      ensures fresh(bill)
    {
      this.enter, this.exit, this.vip, this.setting := enter, exit, vip, setting;
      bill := new Bill();
      totalCharge, requireCharge, temporary, records := 0.0, 0.0, false, [];
      new;
      bill.discount := vip.discount;
    }

    method BuildChargeJson(charge: real, require: real)
      modifies this
      ensures totalCharge == charge && requireCharge == require && temporary == old(temporary)
      ensures records == old(records) + if charge == 0.0 then [ChargeRecord(0.0, OtherPay, 0.0)] else []
    {
      totalCharge := charge;
      requireCharge := require;
      if charge == 0.0 {
        RecordAutoCharge(0.0, OtherPay, 0.0);
      }
    }

    method RecordAutoCharge(charge: real, payType: PayType, remainMoney: real)
      modifies this`records
      ensures records == old(records) + [ChargeRecord(charge, payType, remainMoney)]
    {
      records := records + [ChargeRecord(charge, payType, remainMoney)];
    }

    method ChargeInterval(begin: int, end: int) returns (fee: real)
      modifies bill
      ensures fee == FeeOf(setting, Period(begin, end))
      ensures bill.View() == ChargeOf(setting, Period(begin, end), old(bill.View()))
      ensures bill.feeExemption == old(bill.feeExemption)
    {
      hide Charge;
      FeeIgnoresBill(setting, Period(begin, end), bill.View());
      fee := ChargeByTime(setting.book, setting.pattern, Stay(begin, end, setting.mode, setting.vehicleType),
                          setting.discount, bill);
    }

    method ChargeByTimeDuration(begin: int, end: int)
      modifies this, bill
      ensures bill.View() == ChargeOf(setting, Period(begin, end), old(bill.View()))
      ensures bill.feeExemption == old(bill.feeExemption)
      ensures totalCharge == requireCharge == FeeOf(setting, Period(begin, end)) && temporary
      ensures records == old(records) + if totalCharge == 0.0 then [ChargeRecord(0.0, OtherPay, 0.0)] else []
    {
      hide FeeOf, ChargeOf;
      var charge := ChargeInterval(begin, end);
      temporary := true;
      BuildChargeJson(charge, charge);
    }

    method FreeDurationBill(begin: int, end: int)
      modifies bill`details
      ensures bill.View() == old(bill.View()).Add([DetailOf(Period(begin, end), None, 0.0, "")])
    {
      bill.details := bill.details + [DetailOf(Period(begin, end), None, 0.0, "")];
    }

    /** The charge is the sum of the tariff over the paid entries of the plan, which are written
        to the bill in order; a stay within the window is released with an empty bill. */
    method CalTimeBasedVIPCharge()
      modifies this, bill
      ensures var plan := Plan(vip, enter, exit);
        && (plan != [] ==>
              && bill.View() == Written(setting, plan, old(bill.View()))
              && totalCharge == requireCharge == PaidFees(setting, plan))
        && (plan == [] ==>
              && bill.View() == old(bill.View()).(freeDuration := TruncDiv(exit - enter, 60),
                                                  totalFee := 0.0, beforeDiscount := 0.0)
              && totalCharge == old(totalCharge) && requireCharge == old(requireCharge))
        && bill.feeExemption == old(bill.feeExemption)
        && temporary == (old(temporary) || 0 < |plan| < 3)
        && records == old(records) +
             if plan == [] || PaidFees(setting, plan) == 0.0 then [ChargeRecord(0.0, OtherPay, 0.0)] else []
    {
      hide FeeOf, ChargeOf, TruncDiv, DetailOf, Written, PaidFees;
      PlanWritten(setting, Plan(vip, enter, exit), bill.View());
      if vip.live && vip.expiry != 0 {
        if exit <= vip.validBegin {
          ChargeByTimeDuration(enter, exit);
        } else if exit <= vip.expiry {
          if enter < vip.validBegin {
            FreeDurationBill(vip.validBegin, exit);
            ChargeByTimeDuration(enter, vip.validBegin);
          } else {
            bill.freeDuration := TruncDiv(exit - enter, 60);
            bill.totalFee := 0.0;
            bill.beforeDiscount := 0.0;
            RecordAutoCharge(0.0, OtherPay, 0.0);
          }
        } else if enter < vip.validBegin {
          var charge1 := ChargeInterval(enter, vip.validBegin);
          FreeDurationBill(vip.validBegin, vip.expiry);
          var charge2 := ChargeInterval(vip.expiry, exit);
          var charge := charge1 + charge2;
          BuildChargeJson(charge, charge);
        } else if enter < vip.expiry {
          FreeDurationBill(enter, vip.expiry);
          ChargeByTimeDuration(vip.expiry, exit);
        } else {
          ChargeByTimeDuration(enter, exit);
        }
      } else {
        ChargeByTimeDuration(enter, exit);
      }
    }

    /** Stored value: the account pays what it can. `account` is what is written back to it. */
    method CalStoredValueCharge() returns (account: Option<real>)
      modifies this, bill
      ensures var charge := FeeOf(setting, Period(enter, exit));
        && bill.View() == ChargeOf(setting, Period(enter, exit), old(bill.View()))
        && totalCharge == charge
        && temporary == (old(temporary) || !vip.live || vip.remainMoney < charge)
        && (vip.live ==>
              var left := vip.remainMoney - charge;
              && account == Some(AccountAfter(vip.remainMoney, charge))
              && requireCharge == Required(vip.remainMoney, charge)
              && bill.feeExemption == charge - requireCharge
              && records == old(records)
                   + (if charge == 0.0 then [ChargeRecord(0.0, OtherPay, 0.0)] else [])
                   + (if left >= 0.0 then [ChargeRecord(charge, StoredValuePay, left)] else []))
        && (!vip.live ==>
              && account == None && requireCharge == charge && bill.feeExemption == old(bill.feeExemption)
              && records == old(records) + if charge == 0.0 then [ChargeRecord(0.0, OtherPay, 0.0)] else [])
    {
      hide FeeOf, ChargeOf;
      if vip.live {
        var charge := ChargeInterval(enter, exit);
        var leftMoney := vip.remainMoney - charge;
        if leftMoney >= 0.0 {
          bill.feeExemption := charge;
          BuildChargeJson(charge, 0.0);
          RecordAutoCharge(charge, StoredValuePay, leftMoney);
          account := Some(leftMoney);
        } else {
          bill.feeExemption := vip.remainMoney;
          BuildChargeJson(charge, -leftMoney);
          temporary := true;
          account := Some(0.0);
        }
      } else {
        ChargeByTimeDuration(enter, exit);
        account := None;
      }
    }
  }

  /** Plans have at most three entries. */
  lemma PlanWritten(s: Setting, plan: seq<Entry>, bill: Ledger)
    ensures |plan| == 1 ==> Written(s, plan, bill) == Wrote(s, plan[0], bill)
    ensures |plan| == 2 ==> Written(s, plan, bill) == Wrote(s, plan[1], Wrote(s, plan[0], bill))
    ensures |plan| == 3 ==> Written(s, plan, bill) == Wrote(s, plan[2], Wrote(s, plan[1], Wrote(s, plan[0], bill)))
    ensures |plan| == 1 ==> PaidFees(s, plan) == Pays(s, plan[0])
    ensures |plan| == 2 ==> PaidFees(s, plan) == Pays(s, plan[0]) + Pays(s, plan[1])
    ensures |plan| == 3 ==> PaidFees(s, plan) == Pays(s, plan[0]) + Pays(s, plan[1]) + Pays(s, plan[2])
  {
    hide Wrote, Pays;
    if 1 <= |plan| <= 3 {
      var one := plan[..1];
      assert one[..0] == [] && plan[..|plan|] == plan;
      assert Written(s, one, bill) == Wrote(s, plan[0], bill) && PaidFees(s, one) == Pays(s, plan[0]);
      if |plan| >= 2 {
        var two := plan[..2];
        assert two[..1] == one;
        assert |plan| == 3 ==> plan[..2] == two;
      }
    }
  }

  // ---------- the window partitions the stay ----------

  predicate InEntry(plan: seq<Entry>, paid: bool, i: int, t: int) {
    0 <= i < |plan| && plan[i].Paid? == paid && plan[i].period.Contains(t)
  }

  /** t is charged, and by one entry only. */
  ghost predicate PaidOnce(plan: seq<Entry>, t: int) {
    && (exists i :: InEntry(plan, true, i, t))
    && forall i, j | InEntry(plan, true, i, t) && InEntry(plan, true, j, t) :: i == j
  }

  ghost predicate NeverPaid(plan: seq<Entry>, t: int) {
    forall i :: !InEntry(plan, true, i, t)
  }

  /** The window counts for a live VIP with an expiry only. */
  predicate InWindow(vip: Vip, t: int) {
    vip.live && vip.expiry != 0 && vip.validBegin <= t < vip.expiry
  }

  /** t belongs to the stay and not to the window. */
  predicate Due(vip: Vip, enter: int, exit: int, t: int) {
    enter <= t < exit && !InWindow(vip, t)
  }

  /** The entries handed to the tariff are disjoint and cover exactly the stay without the window,
      just when there is no window, or it is not reversed, or does not matter to the stay. */
  lemma PlanPartitions(vip: Vip, enter: int, exit: int)
    requires enter <= exit
    ensures var plan := Plan(vip, enter, exit);
      (forall t :: if Due(vip, enter, exit, t) then PaidOnce(plan, t) else NeverPaid(plan, t))
      <==> (|| !vip.live || vip.expiry == 0
            || vip.validBegin <= vip.expiry || exit <= vip.validBegin || vip.validBegin <= enter)
  {
    var plan := Plan(vip, enter, exit);
    if !vip.live || vip.expiry == 0 || vip.validBegin <= vip.expiry || exit <= vip.validBegin
       || vip.validBegin <= enter {
      forall t
        ensures if Due(vip, enter, exit, t) then PaidOnce(plan, t) else NeverPaid(plan, t)
      {
        if Due(vip, enter, exit, t) {
          assert InEntry(plan, true, 0, t) || InEntry(plan, true, 1, t) || InEntry(plan, true, 2, t);
        }
      }
    } else {
      var t := vip.validBegin - 1;
      assert InEntry(plan, true, 0, t);
      if vip.expiry <= t {
        assert InEntry(plan, true, 2, t);
      }
      assert !PaidOnce(plan, t) && !NeverPaid(plan, t);
    }
  }

  /** Nothing is written exactly for the exit of a live VIP, inside the window, of a stay that began
      inside it: only such a stay is released with an empty bill. */
  lemma ReleasedIff(vip: Vip, enter: int, exit: int)
    ensures Plan(vip, enter, exit) == [] <==>
            vip.live && vip.expiry != 0 && vip.validBegin <= enter && vip.validBegin < exit <= vip.expiry
  {
  }

  /** No entry is empty, for a stay and a window that are not. */
  lemma PlanHasNoGaps(vip: Vip, enter: int, exit: int, i: nat)
    requires enter < exit && (vip.live && vip.expiry != 0 ==> vip.validBegin < vip.expiry)
    requires i < |Plan(vip, enter, exit)|
    ensures var p := Plan(vip, enter, exit)[i].period; enter <= p.begin < p.end <= exit
  {
  }

  /** A plan that writes anything writes the part of the stay inside the window as free. */
  lemma PlanFrees(vip: Vip, enter: int, exit: int, t: int)
    requires enter <= exit && Plan(vip, enter, exit) != []
    ensures (exists i :: InEntry(Plan(vip, enter, exit), false, i, t)) <==> enter <= t < exit && InWindow(vip, t)
  {
    var plan := Plan(vip, enter, exit);
    if enter <= t < exit && InWindow(vip, t) {
      assert InEntry(plan, false, 0, t) || InEntry(plan, false, 1, t);
    }
  }

  // ---------- the bill of a plan ----------

  /** The lines of each entry: one for a free stretch, those of its charge for a paid one. */
  ghost function PlanLines(s: Setting, plan: seq<Entry>): seq<Period> {
    if plan == [] then [] else PlanLines(s, plan[..|plan| - 1]) + EntryLines(s, plan[|plan| - 1])
  }

  ghost function EntryLines(s: Setting, entry: Entry): seq<Period> {
    if entry.Free? then [entry.period] else Lines(s.book, s.pattern, StayOf(s, entry.period))
  }

  ghost function Undiscounted(s: Setting, plan: seq<Entry>): real {
    if plan == [] then 0.0 else
      var last := plan[|plan| - 1];
      Undiscounted(s, plan[..|plan| - 1]) +
      if last.Free? then 0.0 else ChargeOf(s, last.period, Ledger([], 0, 0.0, 0.0, 1.0)).beforeDiscount
  }

  /** Whatever the bill held, a plan appends its lines in order, and their fees add up to the
      undiscounted fees of its paid entries: a free stretch costs nothing. */
  lemma {:induction false} PlanBill(s: Setting, plan: seq<Entry>, bill: Ledger)
    ensures var after := Written(s, plan, bill);
      && bill.details <= after.details
      && var added := after.details[|bill.details|..];
      && Spans(added) == PlanLines(s, plan)
      && SumFees(added) == Undiscounted(s, plan)
  {
    hide SumFees, Charge, Lines, Wrote, EntryLines, Spans;
    if plan == [] {
      NoLines(bill);
    } else {
      var init, last := plan[..|plan| - 1], plan[|plan| - 1];
      var before, after := Written(s, init, bill), Written(s, plan, bill);
      PlanBill(s, init, bill);
      EntryBill(s, last, before);
      var one, two := before.details[|bill.details|..], after.details[|before.details|..];
      assert after.details[|bill.details|..] == one + two;
      SpansJoin(one, two);
      SumFeesJoin(one, two);
    }
  }

  lemma NoLines(bill: Ledger)
    ensures var none := bill.details[|bill.details|..];
      Spans(none) == [] && SumFees(none) == 0.0
  {
  }

  lemma SpansJoin(a: seq<Detail>, b: seq<Detail>)
    ensures Spans(a + b) == Spans(a) + Spans(b)
  {
  }

  lemma {:induction false} SumFeesJoin(a: seq<Detail>, b: seq<Detail>)
    ensures SumFees(a + b) == SumFees(a) + SumFees(b)
  {
    if b == [] {
      assert a + b == a;
    } else {
      var init := b[..|b| - 1];
      assert (a + b)[..|a + b| - 1] == a + init;
      SumFeesJoin(a, init);
    }
  }

  lemma EntryBill(s: Setting, entry: Entry, bill: Ledger)
    ensures var after := Wrote(s, entry, bill);
      && bill.details <= after.details
      && var added := after.details[|bill.details|..];
      && Spans(added) == EntryLines(s, entry)
      && SumFees(added) ==
         if entry.Free? then 0.0 else ChargeOf(s, entry.period, Ledger([], 0, 0.0, 0.0, 1.0)).beforeDiscount
  {
    hide SumFees, Charge, Lines;
    var after := Wrote(s, entry, bill);
    match entry
    case Free(p) =>
      assert after.details[|bill.details|..] == [DetailOf(p, None, 0.0, "")];
      SumOfOne(DetailOf(p, None, 0.0, ""));
    case Paid(p) =>
      BillBalances(s.book, s.pattern, StayOf(s, p), s.discount, bill);
      FeeIgnoresBill(s, p, bill);
  }

  /** The stay lies around the whole window. */
  predicate Straddles(vip: Vip, enter: int, exit: int) {
    vip.live && vip.expiry != 0 && enter < vip.validBegin < exit && vip.expiry < exit
  }

  /** The bill's total is the last part's fee. It is the charge exactly when the stay does not
      straddle the window or its first part costs nothing, as one within the free time. */
  lemma TotalIsCharge(s: Setting, vip: Vip, enter: int, exit: int, bill: Ledger)
    requires Plan(vip, enter, exit) != []
    ensures var plan, first := Plan(vip, enter, exit), Period(enter, vip.validBegin);
      && Written(s, plan, bill).totalFee == Pays(s, plan[|plan| - 1])
      && (Written(s, plan, bill).totalFee == PaidFees(s, plan)
          <==> !Straddles(vip, enter, exit) || FeeOf(s, first) == 0.0)
      && (InFreeTime(s.book, StayOf(s, first)) ==> FeeOf(s, first) == 0.0)
  {
    hide FeeOf, ChargeOf, Written, PaidFees;
    var plan := Plan(vip, enter, exit);
    var last := |plan| - 1;
    PlanWritten(s, plan, bill);
    LastEntryPaid(s, plan[last], Written(s, plan[..last], bill));
    LastWritten(s, plan, bill);
    FreePartFee(s, Period(enter, vip.validBegin));
  }

  lemma LastWritten(s: Setting, plan: seq<Entry>, bill: Ledger)
    requires plan != []
    ensures Written(s, plan, bill) == Wrote(s, plan[|plan| - 1], Written(s, plan[..|plan| - 1], bill))
  {
  }

  lemma LastEntryPaid(s: Setting, entry: Entry, bill: Ledger)
    requires entry.Paid?
    ensures Wrote(s, entry, bill).totalFee == Pays(s, entry)
  {
    hide FeeOf, ChargeOf;
    FeeIgnoresBill(s, entry.period, bill);
  }

  lemma FreePartFee(s: Setting, p: Period)
    ensures InFreeTime(s.book, StayOf(s, p)) ==> FeeOf(s, p) == 0.0
  {
    hide P0.Charge0, P1.Charge1;
  }

  /** At a flat tariff the first part costs nothing exactly when it is within the free time. */
  lemma FlatFirstPart(s: Setting, p: Period, u: Unit, r: Money)
    requires FlatStay(s.book, s.pattern, StayOf(s, p), u, r) && r > 0.0 && s.discount > 0.0
    ensures FeeOf(s, p) == 0.0 <==> InFreeTime(s.book, StayOf(s, p))
  {
    hide Charge, CeilDiv, Times, InFreeTime, FlatStay;
    PatternsAgree(s.book, s.pattern, StayOf(s, p), s.discount, Ledger([], 0, 0.0, 0.0, 1.0), u, r);
    WholeMinute(s.book, s.pattern, StayOf(s, p), u, r);
    UnitsCost((p.end - p.begin) / 60, u, r);
    assert Times(CeilDiv((p.end - p.begin) / 60, u), r) * s.discount > 0.0;
  }

  /** The discount that the finished bill of a straddling stay records does not explain its totals
      exactly when the first part was written on one line, the second was not, and the discount
      matters. */
  lemma StraddleDiscount(s: Setting, vip: Vip, enter: int, exit: int, bill: Ledger)
    requires Straddles(vip, enter, exit) && bill.discount == s.discount
    ensures var after := Written(s, Plan(vip, enter, exit), bill);
      var first, second := StayOf(s, Period(enter, vip.validBegin)), StayOf(s, Period(vip.expiry, exit));
      after.totalFee != after.beforeDiscount * after.discount
      <==> && OneLine(s.book, s.pattern, first) && !OneLine(s.book, s.pattern, second)
           && s.discount != 1.0 && after.beforeDiscount != 0.0
  {
    hide Charge, OneLine, Written, PaidFees, FeeOf;
    var plan := Plan(vip, enter, exit);
    PlanWritten(s, plan, bill);
    var first, second := StayOf(s, plan[0].period), StayOf(s, plan[2].period);
    DiscountRecorded(s.book, s.pattern, first, s.discount, bill);
    DiscountExplains(s.book, s.pattern, second, s.discount, Wrote(s, plan[1], Wrote(s, plan[0], bill)));
  }

  /** At a flat tariff the second part's fee is positive, and only the two parts and the discount
      decide. */
  lemma FlatStraddleDiscount(s: Setting, vip: Vip, enter: int, exit: int, bill: Ledger, u: Unit, r: Money)
    requires Straddles(vip, enter, exit) && bill.discount == s.discount
    requires FlatStay(s.book, s.pattern, StayOf(s, Period(vip.expiry, exit)), u, r) && r > 0.0
    ensures var after := Written(s, Plan(vip, enter, exit), bill);
      var first, second := StayOf(s, Period(enter, vip.validBegin)), StayOf(s, Period(vip.expiry, exit));
      after.totalFee != after.beforeDiscount * after.discount
      <==> OneLine(s.book, s.pattern, first) && !InFreeTime(s.book, second) && s.discount != 1.0
  {
    hide Charge, OneLine, Written, PaidFees, FeeOf, FlatStay, InFreeTime;
    var plan := Plan(vip, enter, exit);
    PlanWritten(s, plan, bill);
    StraddleDiscount(s, vip, enter, exit, bill);
    var second := StayOf(s, plan[2].period);
    OneLineFlat(s.book, s.pattern, second, u, r);
    if !InFreeTime(s.book, second) {
      FlatFeePositive(s.book, s.pattern, second, s.discount, Wrote(s, plan[1], Wrote(s, plan[0], bill)), u, r);
    }
  }

  lemma OneLineFlat(book: RuleBook, pattern: int, stay: Stay, u: Unit, r: Money)
    requires FlatStay(book, pattern, stay, u, r)
    ensures OneLine(book, pattern, stay) <==> InFreeTime(book, stay)
  {
  }

  // ---------- stored value ----------

  function AccountAfter(balance: real, charge: real): real {
    if balance - charge >= 0.0 then balance - charge else 0.0
  }

  function Required(balance: real, charge: real): real {
    if balance - charge >= 0.0 then 0.0 else charge - balance
  }

  function Balance(initial: real, charges: seq<real>): real {
    if charges == [] then initial
    else AccountAfter(Balance(initial, charges[..|charges| - 1]), charges[|charges| - 1])
  }

  function RequiredTotal(initial: real, charges: seq<real>): real {
    if charges == [] then 0.0
    else
      var init := charges[..|charges| - 1];
      RequiredTotal(initial, init) + Required(Balance(initial, init), charges[|charges| - 1])
  }

  function Total(charges: seq<real>): real {
    if charges == [] then 0.0 else Total(charges[..|charges| - 1]) + charges[|charges| - 1]
  }

  /** The account pays all it can: something is required only from an account that is empty then,
      and the two parts make up the charge. */
  lemma AccountPaysFirst(balance: real, charge: real)
    ensures var left, required := AccountAfter(balance, charge), Required(balance, charge);
      && balance - left + required == charge
      && left >= 0.0 && required >= 0.0
      && (left == 0.0 || required == 0.0)
  {
  }

  /** Over any run of exits of one account: what was charged is what the account lost plus what
      drivers were asked to pay, and the account is never overdrawn. */
  lemma {:induction false} AccountConserves(initial: real, charges: seq<real>)
    ensures Total(charges) == initial - Balance(initial, charges) + RequiredTotal(initial, charges)
    ensures charges != [] || initial >= 0.0 ==> Balance(initial, charges) >= 0.0
    ensures initial >= 0.0 && (forall c | c in charges :: c >= 0.0) ==>
      Balance(initial, charges) <= initial && RequiredTotal(initial, charges) >= 0.0
  {
    if charges != [] {
      var init := charges[..|charges| - 1];
      assert forall c | c in init :: c in charges;
      assert charges[|charges| - 1] in charges;
      AccountConserves(initial, init);
    }
  }
}
