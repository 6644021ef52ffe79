# Parking charges, verified

A Dafny model of a parking server's charging core and of the stateful library code it leans on,
with proofs of what they promise.

- **Tariff** (`src/chargerule.cpp`). A stay is cut into rolling 24-hour periods (pattern 0) or
  calendar days (pattern 1); each period is split into daylight and night, free sections are taken
  off, units are filled by borrowing, the day is capped, and a bill is written line by line.
  Times are whole seconds of local time, periods are half-open, fees are exact reals.
  `Rules.Chargeable` measures a period second by second and is what both patterns' interval
  arithmetic is proved to compute.
- **VIP windows and stored value** (`src/charge.cpp`, `src/storedvaluecharge.cpp`), on top of it.
- **MySQL++** batched inserts with their policies, and the reference-counted pointer.
- **HTTP request heads** (`src/server_http.hpp`), the two **string splitters** and the
  **device-connection registry** (`src/transaction.cpp`, `src/device_tcp_server.cpp`).

`WholeBills.BillOf` tells the bill of a stay a second time, from scratch and with the numbers written
out: which seconds are charged as sets, what their minutes cost, every line, every total. The entry
point is proved to write it on every path. `Statements.Read` reads executed statements back.

Loops and objects of the source are methods and classes here; each method's contract equates what
it returns or the new state with a specification function, and the lemmas are about those functions.

## What the code does that its comments do not say

- The test for a negative remainder after a free section is taken off has no effect
  (`src/chargerule.cpp:113-114`, `src/chargerule.cpp:123-124`). Remaining times are non-negative for
  every stay exactly when no two sections meet (`Rules.NonNegativeIffDisjoint`); otherwise a fee can
  be negative (`EdgeCases.OverlapRefunds`).
- Pattern 0 reuses the first period's fee. `Pattern0.ReuseSound` says exactly when that equals
  charging every period, `FlatTariff.FlatReuseSound` in terms of the rule alone for a flat tariff;
  `EdgeCases.ReuseUndercharges` is a stay where it does not.
- Pattern 1 keeps an old debt when the night is too short for daylight's loan, and never repays a debt
  of a day or more. `Conservation.Conserving` is the exact condition on a rule: a day unit at most a
  minute longer than the night before midnight (or no daylight), and a night unit of at most a day (or
  no night). Before each day of every whole-minute stay the minutes billed are the minutes elapsed
  plus the debt if and only if the rule of every date meets it (`Conservation.TelescopesIff`), and so it
  is that a flat tariff is charged flat (`FlatTariff.Flat1Iff`); it suffices for the minutes billed to
  exceed those parked by less than a unit (`Conservation.BilledMinutes`).
  `EdgeCases.ShortNightOverbills` is a stay under a rule that does not.
- A longer stay can be cheaper. In pattern 0 a new minute on the side that the period starts in can
  borrow paid minutes of the other side away (`EdgeCases.LongerStayCheaper`), in pattern 1 a new minute
  of daylight those of the night before it (`EdgeCases.LongerMorningCheaper`).
  `LongerPeriods.OneMoreMinute` and `LongerDays.OneMoreMinute` say exactly when one more minute lowers
  the fee of a period and of a day. A tariff in which a unit costs at least what it can borrow away
  rules it out: on both sides in pattern 0, for daylight in pattern 1 (`LongerStays.LongerStayCostsMore`).
  Free time that is not charged can make a third day cheaper than two in pattern 0
  (`LongerPeriods.ThirdDayCheaper`), but not in pattern 1.
- When a stay straddles a VIP's whole window the bill's totals are those of its second part; in every
  other position the total is the charge (`VipCharges.TotalIsCharge`). The bill's discount is not reset
  either: when only the first part was charged on one line, which records a discount of 1
  (`src/chargerule.cpp:655`), the bill shows no discount beside a discounted total
  (`VipCharges.StraddleDiscount`, `VipCharges.FlatStraddleDiscount`). A reversed window charges some time twice (`VipCharges.PlanPartitions`).
- A stored-value exit that costs nothing is recorded twice (`VipCharges.VipCharge.CalStoredValueCharge`).
- The packet policy measures a row with the default precision, the query prints it with 16 digits
  (`mysql++/include/insertpolicy.h:206-208`, `mysql++/include/query.h:1084`), so a statement can be
  longer than the limit (`Batches.MaxPacketOverrun`).
- The header loop does not terminate on every stream: a last line with a colon and no line feed is
  read again and again. `HttpHead.HeadEndsIff` gives the exact condition, and `HttpHead.EmptyLineEnds`
  shows that it holds once the stream has an empty line, which the server waits for
  (`src/server_http.hpp:225-236`).
- `StringSplit` keeps empty fields inside, and drops an empty first and an empty last one
  (`Splitters.SplitInvertsJoin`).
- The heartbeat's write-back drops connections accepted meanwhile and revives removed ones
  (`ClientRegistry.WriteBackForgets`).

## Model

| member | source | states |
|---|---|---|
| Arithmetic.CompleteTimeFills | src/chargerule.cpp:57-65 | the completion of a time is never negative and reaches a whole number of units; for times that are not negative it is less than a unit and reaches the ceiling |
| Arithmetic.CompleteTimeIsLeast | src/chargerule.cpp:57-65 | no smaller completion reaches a whole number of units, exactly when the time is not negative or whole |
| Days.DivideTimeByDay0 | src/chargerule.cpp:27-40 | the loop's intersections are the rolling days of the stay, none for an empty stay |
| Days.RollingDaysChain | src/chargerule.cpp:27-40 | ceil(length / 24h) consecutive periods from entry to exit, all but the last exactly 24h |
| Days.DivideTimeByDay1 | src/chargerule.cpp:42-55 | the loop's intersections are the calendar days of the stay; a null stay inside one date is kept as one null period |
| Days.CalendarDaysChain | src/chargerule.cpp:42-55 | consecutive periods from entry to exit, the i-th inside the i-th date |
| Days.ChainTiles | src/chargerule.cpp:27-55 | every instant of the stay, and no other, lies in exactly one of its periods |
| Rules.ChargeableShift | src/chargerule.cpp:131-188 | the chargeable daylight and night of a period do not change when it moves by whole days |
| Rules.NonNegativeIffDisjoint | src/chargerule.cpp:99-129 | remaining daylight and night are non-negative for every stay if and only if no two free sections meet |
| Rules.DisjointRemaining | src/chargerule.cpp:99-129 | with disjoint sections the remaining time of a band is the number of its seconds in no section |
| Rules.DisjointConserves | src/chargerule.cpp:131-188 | with disjoint sections daylight plus night is the period's length minus the union of the sections |
| ParkingTimes.ParkingTime.SubtractFreeTimeSection | src/chargerule.cpp:99-129 | each band loses the seconds of every section on the date, piece by piece |
| ParkingTimes.BandsTile | src/chargerule.cpp:135-147 | the three night bands and two daylight bands of two days hold exactly the night and daylight instants |
| ParkingTimes.CalInvalidParkingTime | src/chargerule.cpp:131-188 | pattern 0's pieces over two days measure exactly the chargeable seconds of the period |
| ParkingTimes.SplitFreeSection | src/chargerule.cpp:477-554 | the six-way case split gives the daylight and night seconds of period and section together |
| ParkingTimes.CalDayParkingTime | src/chargerule.cpp:449-559 | pattern 1 measures the same chargeable seconds as pattern 0 for a period inside one date |
| ParkingTimes.ParkingTime.BorrowTime | src/chargerule.cpp:190-233 | the side the period starts in borrows from the other, by vehicle type |
| ParkingTimes.LendConserves | src/chargerule.cpp:190-233 | the borrowing side becomes whole units; the total is unchanged if the lender covers the loan, else the lender ends at 0 and the total grows by less than a unit |
| Bills.DayChargeBounds | src/chargerule.cpp:235-274 | one day costs at most the cap, and not less than nothing for minutes that are not negative |
| Bills.CalChargeTooDays | src/chargerule.cpp:68-97 | one line for the whole stay, days times the cap of the least-priority rule, nothing without one, no discount |
| Bills.NoChargeBill | src/chargerule.cpp:330-340 | one free line for the whole stay and zero totals |
| Pattern0.CalChargeByTime | src/chargerule.cpp:276-324 | one period's fee from its chargeable time after borrowing, free time first taken off the first day in that mode; one line on the bill |
| Pattern0.ChargePeriods | src/chargerule.cpp:363-384 | the loop that reuses the first fee writes the lines, and the sum, of charging every period on its own |
| Pattern0.ChargeByTime0 | src/chargerule.cpp:326-389 | the bill and the returned fee on every path: no period, over 30 periods, no rule, and the loop |
| Pattern0.PeriodFeeShift | src/chargerule.cpp:276-324 | a period moved by whole days costs the same |
| Pattern0.FullDaysAlike | src/chargerule.cpp:368-378 | every full period of a stay has the first period's fee |
| Pattern0.ReuseGap | src/chargerule.cpp:364-384 | every reused fee differs from the separately charged one by the same amount |
| Pattern0.ReuseSound | src/chargerule.cpp:364-384 | the total is the sum of separately charged periods if and only if free time is charged, the stay is at most two periods, or a full day costs as much without the free time before the cap, or reaches the cap either way |
| Pattern1.CompleteDay | src/chargerule.cpp:449-606 | one day's billed minutes and new debt are the completion of its chargeable time |
| Pattern1.ChargeDay | src/chargerule.cpp:407-622 | one round of the day loop: the line it writes, the fee, and what it carries on, on every path |
| Pattern1.SameDate | src/chargerule.cpp:417-425 | borrowed time that leaves something of the period keeps its begin on the period's date |
| Pattern1.ChargeDays | src/chargerule.cpp:405-623 | the loop writes the lines of all days and adds up their fees |
| Pattern1.ChargeByTime1 | src/chargerule.cpp:391-629 | the bill and the returned fee on every path |
| Charges.ChargeByTime | src/chargerule.cpp:631-676 | nothing within the entry rule's free time, else the chosen pattern, pattern 0 for unknown ones; the returned fee is the bill's total |
| Charges.FreeTimeIsFree | src/chargerule.cpp:640-660 | a stay shorter than 60 seconds for each free minute of the rule in force on entry gets one line with that rule, a discount of 1 and nothing to pay |
| Seconds.ChargedSeconds | src/chargerule.cpp:99-188 | with disjoint sections the measure of both patterns counts the set of seconds by day, and by night, in no section |
| Seconds.PeriodCosts | src/chargerule.cpp:190-324 | a period of pattern 0 costs the units begun of its charged minutes, the side it begins in filling its last unit from the other, up to the cap; the free time of a first period in mode 1 is not charged |
| Seconds.DayCosts | src/chargerule.cpp:449-618 | so does a day of pattern 1, where daylight always borrows from the night, and the night from tomorrow |
| Seconds.FreeStretch | src/chargerule.cpp:99-129 | a stretch whose seconds all lie in free sections costs nothing in either pattern and leaves no debt |
| WholeBills.ChargeIs | src/chargerule.cpp:276-676 | for any stay, pattern, mode, discount and bill: the lines with their times, minutes, unbilled minutes, fees and rules, the totals, the recorded discount and free duration, told without the model's own functions |
| WholeBills.RunIs | src/chargerule.cpp:405-623 | the day loop writes those lines: days without a rule, days used up by the debt, the first day with a rule and its free time |
| WholeBills.WhollyFreeCostsNothing | src/chargerule.cpp:477-559 | a stay within 30 periods whose every second is in a free section costs nothing, in both patterns and modes |
| VehicleTypes.VehicleTypeDecides | src/chargerule.cpp:256-274 | the charge of a vehicle of type 1 does not depend on any small tariff, that of any other type on any big one: both patterns, over 30 periods, and every line |
| Charges.BillBalances | src/chargerule.cpp:276-676 | on any bill a charge only appends one line for each period in order; the lines' fees add up to the undiscounted fee, which times 1 on the one-line paths, else the discount, is the total |
| Charges.DiscountExplains | src/chargerule.cpp:336-388 | the discount on the bill explains its total if and only if the charge is on one line, the bill came with that discount, or there is nothing to discount |
| Charges.LinesChain | src/chargerule.cpp:407-411 | the lines of a stay chain from entry to exit without gap or overlap |
| Conservation.VisitConserves | src/chargerule.cpp:417-606 | a day bills its time less the debt it repays and its free time plus the debt it takes; only a day that ends before midnight may round up on its own |
| Conservation.ConservesFromIff | src/chargerule.cpp:565-602 | from every minute of a date to midnight the night covers daylight's loan and borrows less than a day, if and only if the rule is conserving |
| Conservation.Telescopes | src/chargerule.cpp:405-623 | before each day the minutes billed are the minutes elapsed, less the free time of the first day, plus the debt, which is less than a day |
| Conservation.TelescopesIff | src/chargerule.cpp:405-623 | every whole-minute stay keeps that identity before each of its days if and only if the rule of every date is conserving |
| Conservation.BilledMinutes | src/chargerule.cpp:405-623 | the minutes billed over all days lie in [T, T + unit) for T minutes parked, less the free time that the first day has room for in the mode that does not charge it |
| Conservation.NightCoversLoan | src/chargerule.cpp:565-606 | under a conserving rule the night of a period that ends at midnight covers daylight's loan, and borrows less than a day |
| Conservation.DebtBounded | src/chargerule.cpp:585-602 | whatever the rules, the borrowed time stays in [0, night unit) |
| Conservation.CompletedDaysAreWhole | src/chargerule.cpp:565-618 | with disjoint sections a completed day is whole units on both sides, so the fee's ceiling never rounds |
| FlatTariff.Flat1 | src/chargerule.cpp:391-629 | with one unit, one rate and a cap that cannot bind, pattern 1 charges the rate for every unit begun of the time not forgiven |
| FlatTariff.Flat1Iff | src/chargerule.cpp:405-623 | at a positive rate the day loop does so for every whole-minute stay if and only if the rules are conserving |
| FlatTariff.FlatLend | src/chargerule.cpp:190-233 | borrowing never changes the number of units begun |
| FlatTariff.FlatPeriods | src/chargerule.cpp:364-384 | pattern 0 charges the rate for every unit begun in each period on its own, for any unit |
| FlatTariff.Flat0 | src/chargerule.cpp:326-389 | when the unit divides the day pattern 0 charges the rate for every unit begun since entry |
| FlatTariff.PatternsAgree | src/chargerule.cpp:631-676 | each pattern returns the same simple tariff by its own rules alone: nothing within the free time, else discount times rate times ceil(T / unit) |
| FlatTariff.FlatFreeIff | src/chargerule.cpp:645-659 | at a flat positive tariff a stay costs nothing if and only if it is shorter than 60 seconds for each free minute |
| FlatTariff.FlatDiscountExplains | src/chargerule.cpp:336-388 | at a flat positive tariff the discount on the bill explains its total if and only if the charge is on one line or the bill came with that discount |
| FlatTariff.FlatReuseSound | src/chargerule.cpp:364-384 | under a flat tariff reusing the first fee is sound if and only if free time is charged, the stay is at most two days, the rate is zero, or the free time takes no unit off a day |
| LentMinutes.OneMoreOwn | src/chargerule.cpp:190-254 | one more minute on the borrowing side lowers the uncapped fee if and only if it begins a unit that costs less than the units it takes from the lender |
| LentMinutes.OneMoreLender | src/chargerule.cpp:190-254 | one more minute on the lending side never lowers it |
| LongerPeriods.OneMoreMinute | src/chargerule.cpp:276-324 | one more minute lowers the fee of a period if and only if it falls on the side the charged time starts in, lowers the uncapped fee there, and the new fee is below the cap |
| LentMinutes.OutweighsIff | src/chargerule.cpp:205-227 | no minutes of a side ever lower the uncapped fee if and only if its rate is at least what its unit can take from the other |
| LongerPeriods.PeriodFeeMonotone | src/chargerule.cpp:276-324 | when both sides of a tariff outweigh each other the fee of a period never falls with its end |
| LongerDays.CompletedFee | src/chargerule.cpp:565-618 | a day of pattern 1 costs before its cap what its daylight and night cost when daylight borrows from the night, as in pattern 0 |
| LongerDays.OneMoreMinute | src/chargerule.cpp:417-622 | one more minute lowers the fee of a day if and only if it is a charged minute of daylight, begins a unit that costs less than the night it takes, and the new fee is below the cap |
| LongerDays.DayFeeMonotone | src/chargerule.cpp:417-622 | when daylight outweighs the night the fee of a day never falls with its end, whatever debt it repays |
| LongerDays.RunMonotone | src/chargerule.cpp:405-623 | then the day loop of a longer stay never adds up to less, in both modes of free time |
| LongerStays.LongerStayCostsMore | src/chargerule.cpp:631-676 | staying longer never costs less: in pattern 1 when daylight outweighs the night on every date, in pattern 0 when both sides outweigh each other and free time is charged; over 30 periods when no cap exceeds the least-priority rule's |
| LongerStays.LongFee | src/chargerule.cpp:68-97 | more than 30 periods cost that number times the cap of the rule of least priority, without discount |
| LongerPeriods.ThirdDayCheaper | src/chargerule.cpp:364-384 | in the other mode a minute of a third day lowers a flat total if and only if the free time is worth two units or more |
| Caps.PeriodFeeBounds | src/chargerule.cpp:276-324 | one period costs at most its cap, and not less than nothing when its sections are disjoint |
| Caps.CapBound0 | src/chargerule.cpp:364-384 | pattern 0's sum lies between nothing and the cap for every period |
| Caps.CapBound1 | src/chargerule.cpp:405-623 | pattern 1's sum lies between nothing and the caps of the days that are charged: not skipped, with a rule, and not wholly free |
| Caps.LongStaysCostMost | src/chargerule.cpp:350-354 | a stay over 30 periods costs at least as much as any stay within 30, in either pattern, when no cap exceeds the least-priority rule's |
| EdgeCases.OverlapRefunds | src/chargerule.cpp:104-127 | a section listed twice makes an hour cost minus sixty |
| EdgeCases.ShortNightOverbills | src/chargerule.cpp:585-587 | a day unit of 100 minutes and a night of 5 bill 120 minutes too many in two days |
| EdgeCases.LongerStayCheaper | src/chargerule.cpp:205-211 | one more minute of night lowers the fee from 720 to 661 |
| EdgeCases.LongerMorningCheaper | src/chargerule.cpp:565-587 | one more minute of daylight lowers the fee of a day from 60 to 1 |
| EdgeCases.ReuseUndercharges | src/chargerule.cpp:369-378 | a three-day stay gets its free hour twice |
| EdgeCases.LunchHourIsFree | src/chargerule.cpp:477-559 | an hour in a free section costs nothing, in both patterns |
| EdgeCases.HourByVehicle | src/chargerule.cpp:256-274 | an hour costs a vehicle of type 1 the big rate and any other the small one, in both patterns |
| EdgeCases.FreeTimeIsMinutes | src/chargerule.cpp:645 | 20 of 30 free minutes cost nothing, 40 minutes cost the hour |
| Batches.RowCountInsertPolicy.CanAddRow | mysql++/include/insertpolicy.h:95-104 | counts rows, and refuses and starts again after the maximum |
| Batches.Query.InsertFrom | mysql++/include/query.h:1067-1141 | the statements executed and the outcome, with commit, roll-back and policy error, for every policy and every pattern of failures |
| Batches.Query.InsertCounted | mysql++/include/query.h:1067-1141 | with a row-count object: the object keeps its count for the next load |
| Batches.CommitIsComplete | mysql++/include/query.h:1128-1139 | commit means the executed statements hold exactly the rows in order; otherwise they hold a prefix, and a roll-back without policy error means the next statement failed |
| Batches.CommitsIff | mysql++/include/query.h:1081-1139 | for every policy: the load commits if and only if the policy lets every row in when the server refuses nothing, and the server accepts every statement of that run |
| Statements.StatementRead | mysql++/include/query.h:1082-1112 | a statement of rows of one table reads back as its verb and the table, columns and values of each row in order |
| Statements.CommitReadsBack | mysql++/include/query.h:1081-1139 | the texts of a committed load read back as exactly the input rows, of any other load as some first rows, for every policy and every pattern of failures |
| Batches.RelentingCommits | mysql++/include/query.h:1096-1139 | with a policy that relents on an empty statement only a refused statement keeps the load from committing |
| Batches.PoliciesRelent | mysql++/include/insertpolicy.h:95-214 | which of the shipped policies relent |
| Batches.RowCountStatements | mysql++/include/insertpolicy.h:95-104 | every statement but the first and last holds exactly the maximum; a used policy only shortens the first |
| Batches.RowCountBatches | mysql++/include/insertpolicy.h:95-104 | a committed load of n rows takes ceil(n / m) statements, all but the last of exactly m rows |
| Batches.MaxPacketAnswer | mysql++/include/insertpolicy.h:201-214 | the policy's yes means that the row fits if and only if it is printed no longer than its probe, or its probe is always refused |
| Batches.MaxPacketStatements | mysql++/include/insertpolicy.h:201-214 | when that holds of every row, every statement of two or more rows is within the limit |
| Batches.MaxPacketFills | mysql++/include/insertpolicy.h:201-214 | the row that opens a statement did not fit the one before it |
| Batches.MaxPacketOverrun | mysql++/include/insertpolicy.h:206-208 | two rows with long reals make a committed statement of 68 characters under a limit of 60 |
| Batches.SizeThresholdStatements | mysql++/include/insertpolicy.h:143-146 | without its last row every statement of two or more rows is below the threshold |
| Batches.SizeThresholdFills | mysql++/include/insertpolicy.h:143-146 | every statement but the last has reached the threshold |
| RefCounting.AdoptAccounted | mysql++/include/refcounted.h:100-109 | a handle on a fresh pointer keeps every count exact |
| RefCounting.CopyAccounted | mysql++/include/refcounted.h:112-119 | so does a copy |
| RefCounting.DropAccounted | mysql++/include/refcounted.h:125-131 | so does the destructor, which destroys the object when its last handle goes |
| RefCounting.ExchangeAccounted | mysql++/include/refcounted.h:245-249 | so does swap |
| RefCounting.RunsAccount | mysql++/include/refcounted.h:89-249 | over any run counts equal the handles sharing them, no live handle refers to a destroyed object, and with no handle left every object was destroyed exactly once |
| RefCounting.SelfAssignment | mysql++/include/refcounted.h:149-164 | assigning a handle to itself changes nothing |
| RefCounting.AssignmentMeans | mysql++/include/refcounted.h:149-164 | assignment makes one handle share the other's object, changes no other handle, and destroys the old object exactly when that was its last handle |
| Handles.RefCountedPointer.Default | mysql++/include/refcounted.h:89-93 | a null handle |
| Handles.RefCountedPointer.Of | mysql++/include/refcounted.h:100-109 | takes the heap to the pool with the object adopted |
| Handles.RefCountedPointer.Copy | mysql++/include/refcounted.h:112-119 | takes the heap to the pool with the copy |
| Handles.RefCountedPointer.Destroy | mysql++/include/refcounted.h:125-131 | takes the heap to the pool without the handle |
| Handles.RefCountedPointer.Swap | mysql++/include/refcounted.h:245-249 | takes the heap to the pool with the two handles exchanged |
| Handles.RefCountedPointer.Assign | mysql++/include/refcounted.h:157-164 | copy, swap and destroy together are the pool's assignment step |
| Handles.RefCountedPointer.AssignRaw | mysql++/include/refcounted.h:140-147 | the same for a raw pointer |
| VipCharges.FeeIgnoresBill | src/chargerule.cpp:631-676 | what a bill held before does not change the fee of an interval |
| VipCharges.VehicleTypeDecidesFee | src/charge.cpp:135-141 | the fee of an interval depends on the tariffs of the vehicle's own type only |
| VipCharges.VipCharge.CalTimeBasedVIPCharge | src/charge.cpp:103-173 | the charge is the sum of the tariff over the plan's paid entries, the bill is written in the plan's order, and a free charge is recorded |
| VipCharges.VipCharge.ChargeByTimeDuration | src/charge.cpp:41-51 | charges one interval and records it when it is free |
| VipCharges.VipCharge.BuildChargeJson | src/charge.cpp:31-39 | sets the totals, and records a charge of zero |
| VipCharges.PlanPartitions | src/charge.cpp:103-173 | for any VIP the intervals charged are disjoint and cover exactly the stay without the window, which only a live VIP with an expiry has, if and only if there is none or it is not reversed or lies off the stay |
| VipCharges.PlanFrees | src/charge.cpp:117-160 | the free lines cover exactly the part of the stay inside the window of a live VIP with an expiry |
| VipCharges.ReleasedIff | src/charge.cpp:104-131 | a stay is released with an empty bill if and only if the VIP is live and has an expiry and the stay lies inside the window |
| VipCharges.PlanHasNoGaps | src/charge.cpp:110-165 | no interval charged or written as free is empty |
| VipCharges.PlanBill | src/charge.cpp:117-160 | the bill gets the lines of each interval in order, and free intervals add nothing to its fees |
| VipCharges.TotalIsCharge | src/charge.cpp:103-173 | the bill's total is the last part's fee; it is the charge if and only if the stay does not straddle the window or its first part costs nothing, as one within the free time |
| VipCharges.FlatFirstPart | src/charge.cpp:133-154 | at a flat positive tariff a part costs nothing if and only if it is within the free time |
| VipCharges.StraddleDiscount | src/charge.cpp:135-151 | a straddling stay's bill records a discount that does not explain its totals if and only if its first part was charged on one line, its second was not, and the discount matters |
| VipCharges.FlatStraddleDiscount | src/charge.cpp:135-151 | at a flat positive tariff it does if and only if the first part was charged on one line, the second is not within its free time, and the discount is not 1 |
| VipCharges.VipCharge.CalStoredValueCharge | src/storedvaluecharge.cpp:12-51 | what the account keeps, what is still required, the exemption, and every record inserted |
| VipCharges.AccountPaysFirst | src/storedvaluecharge.cpp:23-43 | account and driver pay the charge between them, neither gets money back, and the driver pays only when the account is empty |
| VipCharges.AccountConserves | src/storedvaluecharge.cpp:23-43 | over any run of exits charges add up to the account's loss plus what was required, and the account is never overdrawn |
| HttpHead.Request.ParseRequest | src/server_http.hpp:276-305 | the loop over lines leaves the request and the stream that the recursive parser gives |
| HttpHead.TerminatesIffEnds | src/server_http.hpp:290-302 | iterating the header loop reaches a line without colon if and only if the recursive test says so |
| HttpHead.HeadEndsIff | src/server_http.hpp:276-305 | the parser terminates if and only if the first line is no request line or some later piece has no colon |
| HttpHead.UnterminatedHeaderLoops | src/server_http.hpp:292-302 | a stream whose loop does not end |
| HttpHead.EmptyLineEnds | src/server_http.hpp:225-236 | with an empty line in the stream the loop ends |
| HttpHead.ParseUndoesRender | src/server_http.hpp:276-305 | parsing a printed head gives back method, path, version and header multiset and leaves the stream at the body |
| HttpHead.ParseReads | src/server_http.hpp:276-305 | any request line, lines with a colon and a line without one: the fields of the first, the headers of the others on top of the old ones, the stream after the last |
| HttpHead.HeaderFields | src/server_http.hpp:292-300 | name before the first colon, value after it without one leading space, if there is one, and without the last character; nothing when no value is left |
| HttpHead.RequestFields | src/server_http.hpp:280-288 | method, path, and the version from the sixth character after the path, or 1.0 |
| HttpHead.RequestLineIff | src/server_http.hpp:280-282 | a request line is one with two spaces |
| HttpHead.NoRequest | src/server_http.hpp:277-283 | another first line is dropped and the request left as it was |
| Splitters.SplitRebuilds | src/transaction.cpp:763-772 | the parts, each followed by the delimiter, rebuild the text up to its last greedy match; no part and no rest contains a delimiter |
| Splitters.SplitUnique | src/transaction.cpp:757-772 | the parts joined again split into themselves if and only if each is greedy |
| Splitters.SplitFields | src/transaction.cpp:1347-1369 | the loop returns the fields without an empty first and an empty last one |
| Splitters.SplitInvertsJoin | src/transaction.cpp:1347-1369 | splitting inverts joining if and only if the first and the last field are not empty |
| Splitters.SplitJoined | src/transaction.cpp:1347-1369 | of any fields an empty first one is dropped, then an empty last one, and nothing else |
| ClientRegistry.Registry.ClientsRemoveIf | src/device_tcp_server.cpp:182-186 | keeps the other connections in order |
| ClientRegistry.WithoutInOrder | src/device_tcp_server.cpp:182-186 | removing goes connection by connection and keeps the order |
| ClientRegistry.Registry.NewClientNotify | src/transaction.cpp:683-710 | replaces the connections with the same or no address, unless the new one is gone |
| ClientRegistry.AcceptKeeps | src/transaction.cpp:683-705 | an accepted connection joins at the end; of the others exactly those stay that still have an address, and another one |
| ClientRegistry.Registry.RemoveDtsClient | src/transaction.cpp:718-722 | removes a connection |
| ClientRegistry.Registry.FindDtsClient | src/device_tcp_server.cpp:160-168 | finds the connection of an address, the only one there is, and fails only on a lost connection |
| ClientRegistry.Registry.HeartbeatSnapshot | src/transaction.cpp:1744-1749 | copies the list |
| ClientRegistry.Registry.HeartbeatPing | src/transaction.cpp:1751-1767 | prunes the copy, not the list |
| ClientRegistry.Registry.HeartbeatWriteBack | src/transaction.cpp:1769-1771 | replaces the list by the copy |
| ClientRegistry.RunsKeepUnique | src/transaction.cpp:683-1776 | in every interleaving of accept, removal and heartbeats the list holds at most one connection per address |
| ClientRegistry.WriteBackForgets | src/transaction.cpp:1744-1771 | after a heartbeat a connection is in the list if and only if it was there at the snapshot and answered, whatever was accepted or removed meanwhile |

## Left out

- Rules that break `RuleData.WellFormed` (night before daylight, times outside the day, negative free time), negative units, negative rates or caps: the server does not check them, the model excludes them by type. A unit of 0 is read as 1 (`src/database.cpp:724-741`), so the model's units start at 1.
- Conservation.BilledMinutes: covers whole-minute times and rules without free sections; seconds cut off by the conversion to minutes are not counted.
- WholeBills.ChargeIs: rules with disjoint free sections.
- Statements.CommitReadsBack: rows of one table, and texts without the delimiters of a statement inside them.
- FlatTariff.PatternsAgree: the same restriction as BilledMinutes, stays of at most 30 periods, and the mode that charges free time; in the other mode pattern 0 takes it off every reused day.
- FlatTariff.Flat1Iff: is about the day loop, without the limit of 30 periods.
- LongerStays.LongerStayCostsMore: whole-minute times and rules without free sections.
- Time-zone conversion and the text form of times: times are seconds of local time, and the entry and exit a bill shows are those numbers.
- Floating-point rounding: fees are exact reals, the ceiling of a quotient of integers is exact.
- Database queries: rules, VIPs and balances are parameters; a rule may differ for an instant and for a date.
- Batches.Query.InsertFrom: an execution that throws instead of returning false is not modelled; the transaction's destructor then rolls back. A successful execution empties the buffer, as the header documents; its body is not part of this model.
- Batches.RowCountInsertPolicy.CanAddRow: the counter is unbounded, not `unsigned int`.
- Handles.RefCountedPointer.Of: the pointer must be new to all handles; the pointer already managed would get a second count. Failure to allocate the count is not modelled.
- HttpHead.ParseUndoesRender: white space around header values beyond one space, and folded lines, are kept as they are, as the parser does.
- Splitters.SplitRebuilds: an empty delimiter, on which the source recurses without end, is excluded.
- ClientRegistry.Registry.NewClientNotify: a connection does not lose its address during the call.
- Entrance waiting list, gate commands, LED text, pictures, timers, sockets, JSON, logging, sessions and factories.
