/** The bill a charge writes, the fee of one day's minutes, and the flat charge of long stays. */
module Bills {
  import opened Wrappers
  import opened Arithmetic
  import opened Periods
  import opened Rules

  datatype Detail = Detail(
    begin: int,
    end: int,
    duration: int,
    unbilled: Option<int>,
    fee: real,
    ruleId: string)

  function DetailOf(period: Period, unbilled: Option<int>, fee: real, ruleId: string): Detail {
    Detail(period.begin, period.end, TruncDiv(period.Length(), 60), unbilled, fee, ruleId)
  }

  /** The value of a bill. */
  datatype Ledger = Ledger(
    details: seq<Detail>,
    freeDuration: int,
    totalFee: real,
    beforeDiscount: real,
    discount: real)
  {
    function Add(more: seq<Detail>): Ledger { this.(details := details + more) }
  }

  class Bill {
    var details: seq<Detail>
    var freeDuration: int
    var totalFee: real
    var beforeDiscount: real
    var discount: real
    var feeExemption: real

    constructor ()
      ensures View() == Ledger([], 0, 0.0, 0.0, 1.0) && feeExemption == 0.0
    {
      details, freeDuration, totalFee, beforeDiscount, discount, feeExemption := [], 0, 0.0, 0.0, 1.0, 0.0;
    }

    ghost function View(): Ledger
      reads this
    {
      Ledger(details, freeDuration, totalFee, beforeDiscount, discount)
    }
  }

  function SumFees(details: seq<Detail>): real {
    if details == [] then 0.0 else
      SumFees(details[..|details| - 1]) + details[|details| - 1].fee
  }

  // ---------- one day's fee ----------

  function UncappedFee(daylightMinutes: int, nightMinutes: int, tariff: Tariff): real {
    Times(CeilDiv(daylightMinutes, tariff.dayUnit), tariff.dayRate) +
    Times(CeilDiv(nightMinutes, tariff.nightUnit), tariff.nightRate)
  }

  function CalOneDayCharge(daylightMinutes: int, nightMinutes: int, tariff: Tariff): real {
    var todayFee := UncappedFee(daylightMinutes, nightMinutes, tariff);
    if todayFee > tariff.maxFee then tariff.maxFee else todayFee
  }

  lemma DayChargeBounds(daylightMinutes: int, nightMinutes: int, tariff: Tariff)
    ensures CalOneDayCharge(daylightMinutes, nightMinutes, tariff) <= tariff.maxFee
    ensures daylightMinutes >= 0 && nightMinutes >= 0 ==> 0.0 <= CalOneDayCharge(daylightMinutes, nightMinutes, tariff)
  {
    var d, n := CeilDiv(daylightMinutes, tariff.dayUnit), CeilDiv(nightMinutes, tariff.nightUnit);
    CeilDivUnique(daylightMinutes, tariff.dayUnit, d);
    CeilDivUnique(nightMinutes, tariff.nightUnit, n);
    if daylightMinutes >= 0 && nightMinutes >= 0 {
      NonNegativeFactor(tariff.dayUnit, d);
      NonNegativeFactor(tariff.nightUnit, n);
      TimesAdds(0, d, tariff.dayRate);
      TimesAdds(0, n, tariff.nightRate);
    }
  }

  lemma NonNegativeFactor(n: Unit, k: int)
    requires n * k >= 0
    ensures k >= 0
  {
    MultipleAtLeast(n, k);
  }

  // ---------- stays that the day loop does not reach ----------

  /** Stays of more periods are charged flat. */
  const MAX_PERIODS := 30

  datatype Stay = Stay(enter: int, exit: int, mode: int, vehicleType: int) {
    function Whole(): Period { Period(enter, exit) }
  }

  /** The three totals of a charge. */
  function Settle(bill: Ledger, total: real, discount: real): Ledger {
    bill.(beforeDiscount := total, totalFee := total * discount)
  }

  /** What the rule table answers: the rule in force at an instant and on a date, and the
      rule of least priority. */
  datatype RuleBook = RuleBook(at: int -> Option<Rule>, on: int -> Option<Rule>, least: Option<Rule>)

  /** One free detail for the whole stay. */
  function NoCharge(stay: Stay, bill: Ledger): Ledger {
    bill.Add([DetailOf(stay.Whole(), None, 0.0, "")])
      .(discount := 1.0, beforeDiscount := 0.0, totalFee := 0.0)
  }

  function TooDaysFee(book: RuleBook, days: int, vehicleType: int): real {
    match book.least
    case None => 0.0
    case Some(rule) => Times(days, rule.For(vehicleType).maxFee)
  }

  function TooDays(book: RuleBook, stay: Stay, days: int, bill: Ledger): Ledger {
    var fee := TooDaysFee(book, days, stay.vehicleType);
    var id := if book.least.Some? then book.least.value.id else "";
    bill.Add([DetailOf(stay.Whole(), None, fee, id)])
      .(discount := 1.0, beforeDiscount := fee, totalFee := fee)
  }

  method NoChargeBill(stay: Stay, bill: Bill)
    modifies bill
    ensures bill.View() == NoCharge(stay, old(bill.View()))
    ensures bill.feeExemption == old(bill.feeExemption)
  {
    bill.details := bill.details + [DetailOf(stay.Whole(), None, 0.0, "")];
    bill.discount := 1.0;
    bill.beforeDiscount := 0.0;
    bill.totalFee := 0.0;
  }

  method CalChargeTooDays(book: RuleBook, stay: Stay, days: int, bill: Bill) returns (fee: real)
    modifies bill
    ensures bill.View() == TooDays(book, stay, days, old(bill.View()))
    ensures bill.feeExemption == old(bill.feeExemption)
    ensures fee == bill.totalFee
  {
    hide TruncDiv;
    fee := 0.0;
    var id := "";
    if book.least.Some? {
      var rule := book.least.value;
      id := rule.id;
      if stay.vehicleType == LARGE_VEHICLE {
        fee := Times(days, rule.big.maxFee);
      } else {
        fee := Times(days, rule.small.maxFee);
      }
    }
    bill.details := bill.details + [DetailOf(stay.Whole(), None, fee, id)];
    bill.discount := 1.0;
    bill.beforeDiscount := fee;
    bill.totalFee := fee;
  }
}
