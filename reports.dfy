/** The report handlers' rollups over the stored documents: status counts,
    revenue over completed appointments, the per-service and per-mechanic
    tallies, the daily revenue buckets and the inventory valuation. Money is
    in integer cents. */
module Reports {
  import opened Common
  import opened Seqs
  import opened Tallies
  import opened Records
  import opened AppointmentModel
  import opened ComplaintModel
  import Complaints
  import Inventory

  // ---------------------------------------------------------------------
  // Status counts and revenue

  predicate IsCompleted(a: Appointment) { a.status == Completed }

  /** `apt.finalCost || 0`: a stored number, so the fallback changes nothing. */
  function FinalCost(a: Appointment): int { a.finalCost }

  /** `appointments.filter(a => a.status === s).length`. */
  function StatusCount(appts: seq<Appointment>, s: Status): (n: nat)
    ensures n <= |appts|
  {
    if appts == [] then 0 else (if appts[0].status == s then 1 else 0) + StatusCount(appts[1..], s)
  }

  /** Every appointment has exactly one of the four statuses. */
  lemma {:induction false} StatusesPartition(appts: seq<Appointment>)
    ensures |appts| == StatusCount(appts, Completed) + StatusCount(appts, Cancelled)
                       + StatusCount(appts, InProgress) + StatusCount(appts, Scheduled)
  {
    if appts != [] {
      StatusesPartition(appts[1..]);
    }
  }

  /** Revenue: the final cost summed over the completed appointments. */
  function Revenue(appts: seq<Appointment>): (r: int)
    ensures r == SumIf(appts, IsCompleted, FinalCost)
  {
    SumFilter(appts, IsCompleted, FinalCost);
    SumBy(Filter(appts, IsCompleted), FinalCost)
  }

  /** Only completed appointments bring revenue: adding one adds its final
      cost, adding any other adds nothing. */
  lemma RevenueAppend(appts: seq<Appointment>, a: Appointment)
    ensures Revenue(appts + [a]) == Revenue(appts) + (if a.status == Completed then a.finalCost else 0)
  {
    SumIfAppend(appts, [a], IsCompleted, FinalCost);
    assert [a][1..] == [];
  }

  datatype BookingStats = BookingStats(total: nat, completed: nat, cancelled: nat, inProgress: nat,
                                       scheduled: nat, revenue: int)

  /** `getBookingStats` over the appointments of the period. */
  function GetBookingStats(appts: seq<Appointment>): (r: BookingStats)
    ensures r.total == |appts|
    ensures r.total == r.completed + r.cancelled + r.inProgress + r.scheduled
    ensures r.completed == StatusCount(appts, Completed) && r.cancelled == StatusCount(appts, Cancelled)
    ensures r.inProgress == StatusCount(appts, InProgress) && r.scheduled == StatusCount(appts, Scheduled)
    ensures r.revenue == SumIf(appts, IsCompleted, FinalCost)
  {
    StatusesPartition(appts);
    BookingStats(|appts|, StatusCount(appts, Completed), StatusCount(appts, Cancelled),
                 StatusCount(appts, InProgress), StatusCount(appts, Scheduled), Revenue(appts))
  }

  // ---------------------------------------------------------------------
  // Parts and labour

  /** The job card's parts amount: quantity times sale price, summed. */
  function PartsTotal(a: Appointment): int { SumBy(a.partsUsed, PartAmount) }

  /** The job card's labour amount. */
  function LaborTotal(a: Appointment): int { SumBy(a.laborItems, LaborCost) }

  function PartsRevenue(appts: seq<Appointment>): (r: int)
    ensures r == SumIf(appts, IsCompleted, PartsTotal)
  {
    SumFilter(appts, IsCompleted, PartsTotal);
    SumBy(Filter(appts, IsCompleted), PartsTotal)
  }

  function LaborRevenue(appts: seq<Appointment>): (r: int)
    ensures r == SumIf(appts, IsCompleted, LaborTotal)
  {
    SumFilter(appts, IsCompleted, LaborTotal);
    SumBy(Filter(appts, IsCompleted), LaborTotal)
  }

  /** Parts and labour revenue ignore appointments that are not completed. */
  lemma JobCardRevenueAppend(appts: seq<Appointment>, a: Appointment)
    ensures PartsRevenue(appts + [a]) == PartsRevenue(appts) + (if a.status == Completed then PartsTotal(a) else 0)
    ensures LaborRevenue(appts + [a]) == LaborRevenue(appts) + (if a.status == Completed then LaborTotal(a) else 0)
  {
    SumIfAppend(appts, [a], IsCompleted, PartsTotal);
    SumIfAppend(appts, [a], IsCompleted, LaborTotal);
    assert [a][1..] == [];
  }

  /** Parts with a non-negative sale price (each part has at least one unit)
      never make parts revenue negative. */
  lemma {:induction false} PartsTotalNonNegative(parts: seq<PartUsed>)
    requires forall i | 0 <= i < |parts| :: ValidPart(parts[i]) && parts[i].salePrice >= 0
    ensures SumBy(parts, PartAmount) >= 0
  {
    if parts != [] {
      PartsTotalNonNegative(parts[1..]);
      assert parts[0].quantity * parts[0].salePrice >= 0;
    }
  }

  // ---------------------------------------------------------------------
  // Tallies built by loops

  function ServiceTypeOf(a: Appointment): string { a.serviceType }

  /** The `serviceTypes` loop: one count per service type, in order of first
      booking (for ordinary service-type strings; see `Tallies`). */
  method ServiceTypeCounts(appts: seq<Appointment>) returns (counts: seq<Entry<string>>)
    ensures counts == TallyOf(appts, ServiceTypeOf, CountOne)
    ensures KeysDistinct(counts)
    ensures forall k :: HasKey(counts, k) <==> Occurs(appts, ServiceTypeOf, k)
    ensures EntryTotal(counts) == |appts|
  {
    counts := [];
    var i := 0;
    while i < |appts|
      invariant 0 <= i <= |appts|
      invariant counts == TallyOf(appts[..i], ServiceTypeOf, CountOne)
    {
      TallySnoc(appts[..i], appts[i], ServiceTypeOf, CountOne);
      assert appts[..i + 1] == appts[..i] + [appts[i]];
      counts := Bump(counts, appts[i].serviceType, 1);
      i := i + 1;
    }
    assert appts[..i] == appts;
    TallyKeys(appts, ServiceTypeOf, CountOne);
    TallyTotal(appts, ServiceTypeOf, CountOne);
    SumOfOnes(appts);
  }

  /** The bookings of one service type: the count the tally holds for it. */
  lemma ServiceTypeCountIsOccurrences(appts: seq<Appointment>, service: string)
    ensures ValueOf(TallyOf(appts, ServiceTypeOf, CountOne), service)
            == KeySum(appts, ServiceTypeOf, CountOne, service)
  {
    TallyValue(appts, ServiceTypeOf, CountOne, service);
  }

  predicate HasMechanic(a: Appointment) { a.assignedMechanic.Some? }

  predicate NoMechanic(a: Appointment) { a.assignedMechanic.None? }

  function MechanicOf(a: Appointment): Id
  {
    if a.assignedMechanic.Some? then a.assignedMechanic.value else 0
  }

  /** The completed appointments a mechanic is credited with. */
  function CreditedJobs(completed: seq<Appointment>): (r: seq<Appointment>)
    ensures forall a :: a in r <==> a in completed && a.assignedMechanic.Some?
  {
    Filter(completed, HasMechanic)
  }

  /** One more completed appointment: one more `Bump` when it has a
      mechanic, nothing otherwise. */
  lemma CreditStep(done: seq<Appointment>, a: Appointment, val: Appointment -> int)
    ensures TallyOf(CreditedJobs(done + [a]), MechanicOf, val)
            == if a.assignedMechanic.Some?
               then Bump(TallyOf(CreditedJobs(done), MechanicOf, val), a.assignedMechanic.value, val(a))
               else TallyOf(CreditedJobs(done), MechanicOf, val)
  {
    var f := CreditedJobs(done);
    FilterSnoc(done, a, HasMechanic);
    if a.assignedMechanic.Some? {
      assert CreditedJobs(done + [a]) == f + [a];
      TallySnoc(f, a, MechanicOf, val);
      assert MechanicOf(a) == a.assignedMechanic.value;
    } else {
      assert CreditedJobs(done + [a]) == f + [];
      assert f + [] == f;
    }
  }

  /** The `mechanicStats` loop over the completed appointments: for each
      assigned mechanic the number of jobs and their revenue, both keyed in
      order of the mechanic's first job. */
  method MechanicStats(completed: seq<Appointment>) returns (jobs: seq<Entry<Id>>, revenue: seq<Entry<Id>>)
    ensures jobs == TallyOf(CreditedJobs(completed), MechanicOf, CountOne)
    ensures revenue == TallyOf(CreditedJobs(completed), MechanicOf, FinalCost)
    ensures EntryTotal(jobs) == |CreditedJobs(completed)|
    ensures EntryTotal(revenue) == SumBy(CreditedJobs(completed), FinalCost)
    ensures KeysDistinct(jobs)
  {
    jobs := [];
    revenue := [];
    var i := 0;
    while i < |completed|
      invariant 0 <= i <= |completed|
      invariant jobs == TallyOf(CreditedJobs(completed[..i]), MechanicOf, CountOne)
      invariant revenue == TallyOf(CreditedJobs(completed[..i]), MechanicOf, FinalCost)
    {
      var a := completed[i];
      assert completed[..i + 1] == completed[..i] + [a];
      CreditStep(completed[..i], a, CountOne);
      CreditStep(completed[..i], a, FinalCost);
      if a.assignedMechanic.Some? {
        jobs := Bump(jobs, a.assignedMechanic.value, 1);
        revenue := Bump(revenue, a.assignedMechanic.value, a.finalCost);
      }
      i := i + 1;
    }
    assert completed[..i] == completed;
    TallyTotal(CreditedJobs(completed), MechanicOf, CountOne);
    TallyTotal(CreditedJobs(completed), MechanicOf, FinalCost);
    TallyKeys(CreditedJobs(completed), MechanicOf, CountOne);
    SumOfOnes(CreditedJobs(completed));
  }

  /** A UTC day number: `finishedAt` in whole days since 1970-01-01 (the
      date part of `toISOString()`; Dafny's division floors for a positive
      divisor, as the calendar does for instants before 1970). */
  const MillisPerDay := 86400000

  function FinishedDay(a: Appointment): int
  {
    if a.finishedAt.Some? then a.finishedAt.value / MillisPerDay else 0
  }

  /** The `dailyRevenue` loop: final cost per day of finishing. A completed
      appointment without `finishedAt` makes `toISOString` throw, which
      answers 500. */
  method DailyRevenue(completed: seq<Appointment>) returns (r: Result<seq<Entry<int>>>)
    ensures r.Ok? <==> forall i | 0 <= i < |completed| :: completed[i].finishedAt.Some?
    ensures r.Err? ==> r.error == ServerError
    ensures r.Ok? ==> r.value == TallyOf(completed, FinishedDay, FinalCost)
    ensures r.Ok? ==> EntryTotal(r.value) == SumBy(completed, FinalCost) && KeysDistinct(r.value)
  {
    var buckets: seq<Entry<int>> := [];
    var i := 0;
    while i < |completed|
      invariant 0 <= i <= |completed|
      invariant forall j | 0 <= j < i :: completed[j].finishedAt.Some?
      invariant buckets == TallyOf(completed[..i], FinishedDay, FinalCost)
    {
      var a := completed[i];
      if a.finishedAt.None? {
        return Err(ServerError);
      }
      TallySnoc(completed[..i], a, FinishedDay, FinalCost);
      assert completed[..i + 1] == completed[..i] + [a];
      buckets := Bump(buckets, a.finishedAt.value / MillisPerDay, a.finalCost);
      i := i + 1;
    }
    assert completed[..i] == completed;
    TallyTotal(completed, FinishedDay, FinalCost);
    TallyKeys(completed, FinishedDay, FinalCost);
    r := Ok(buckets);
  }

  datatype RevenueReport = RevenueReport(totalRevenue: int, dailyRevenue: seq<Entry<int>>, appointmentCount: nat)

  /** `getRevenueReport` over the stored appointments: the completed ones are
      bucketed by day, and the total is the sum of the buckets, which is the
      revenue. */
  method GetRevenueReport(appts: seq<Appointment>) returns (r: Result<RevenueReport>)
    ensures r.Ok? <==> forall a | a in appts && a.status == Completed :: a.finishedAt.Some?
    ensures r.Err? ==> r.error == ServerError
    ensures r.Ok? ==> r.value.totalRevenue == Revenue(appts)
    ensures r.Ok? ==> r.value.dailyRevenue == TallyOf(Filter(appts, IsCompleted), FinishedDay, FinalCost)
    ensures r.Ok? ==> r.value.appointmentCount == |Filter(appts, IsCompleted)|
  {
    var completed := Filter(appts, IsCompleted);
    var daily := DailyRevenue(completed);
    if forall a | a in appts && a.status == Completed :: a.finishedAt.Some? {
      forall i | 0 <= i < |completed| ensures completed[i].finishedAt.Some? {
        assert completed[i] in completed;
      }
    }
    match daily
    case Err(e) =>
      r := Err(e);
    case Ok(buckets) =>
      r := Ok(RevenueReport(EntryTotal(buckets), buckets, |completed|));
  }

  // ---------------------------------------------------------------------
  // Inventory valuation

  function CostValue(i: InventoryItem): int { i.quantity * i.costPrice }
  function SaleValue(i: InventoryItem): int { i.quantity * i.salePrice }
  function Margin(i: InventoryItem): int { i.quantity * (i.salePrice - i.costPrice) }

  lemma {:induction false} MarginIsDifference(items: seq<InventoryItem>)
    ensures SumBy(items, SaleValue) - SumBy(items, CostValue) == SumBy(items, Margin)
  {
    if items != [] {
      MarginIsDifference(items[1..]);
      var i := items[0];
      assert i.quantity * (i.salePrice - i.costPrice) == i.quantity * i.salePrice - i.quantity * i.costPrice;
    }
  }

  datatype LowStockLine = LowStockLine(name: string, quantity: int, threshold: int)

  function LowStockLineOf(i: InventoryItem): LowStockLine
  {
    LowStockLine(i.name, i.quantity, i.lowStockThreshold)
  }

  datatype InventoryReport = InventoryReport(
    totalItems: nat, totalCostValue: int, totalSaleValue: int, potentialProfit: int,
    lowStockCount: nat, lowStockItems: seq<LowStockLine>)

  /** `getInventoryReport`: the valuation at cost and at sale price, their
      difference, and the low-stock items — the inventory query's filter, in
      stored order. */
  function GetInventoryReport(items: seq<InventoryItem>): (r: InventoryReport)
    ensures r.totalItems == |items|
    ensures r.totalCostValue == SumBy(items, CostValue) && r.totalSaleValue == SumBy(items, SaleValue)
    ensures r.potentialProfit == r.totalSaleValue - r.totalCostValue
    ensures r.potentialProfit == SumBy(items, Margin)
    ensures r.lowStockCount == |Inventory.LowStock(items)|
    ensures |r.lowStockItems| == r.lowStockCount
    ensures r.lowStockItems == Map(Filter(items, IsLowStock), LowStockLineOf)
    ensures forall l :: l in r.lowStockItems <==>
              exists i | i in items :: i.quantity <= i.lowStockThreshold && l == LowStockLineOf(i)
  {
    MarginIsDifference(items);
    var low := Filter(items, IsLowStock);
    var lines := Map(low, LowStockLineOf);
    LowStockLines(items);
    var cost := SumBy(items, CostValue);
    var sale := SumBy(items, SaleValue);
    InventoryReport(|items|, cost, sale, sale - cost, |low|, lines)
  }

  /** One low-stock line per item at or below its threshold, and the lines
      count the sorted low-stock listing. */
  lemma LowStockLines(items: seq<InventoryItem>)
    ensures |Map(Filter(items, IsLowStock), LowStockLineOf)| == |Inventory.LowStock(items)|
    ensures forall l :: l in Map(Filter(items, IsLowStock), LowStockLineOf) <==>
              exists i | i in items :: i.quantity <= i.lowStockThreshold && l == LowStockLineOf(i)
  {
    var low := Filter(items, IsLowStock);
    assert |multiset(Inventory.LowStock(items))| == |multiset(low)|;
    LowStockLineMembers(items);
  }

  lemma LowStockLineMembers(items: seq<InventoryItem>)
    ensures forall l :: l in Map(Filter(items, IsLowStock), LowStockLineOf) <==>
              exists i | i in items :: i.quantity <= i.lowStockThreshold && l == LowStockLineOf(i)
  {
    var low := Filter(items, IsLowStock);
    var lines := Map(low, LowStockLineOf);
    forall l | l in lines
      ensures exists i | i in items :: i.quantity <= i.lowStockThreshold && l == LowStockLineOf(i)
    {
      var k :| 0 <= k < |lines| && lines[k] == l;
      assert low[k] in low;
    }
    forall l | exists i | i in items :: i.quantity <= i.lowStockThreshold && l == LowStockLineOf(i)
      ensures l in lines
    {
      var i :| i in items && i.quantity <= i.lowStockThreshold && l == LowStockLineOf(i);
      assert i in low;
      var k :| 0 <= k < |low| && low[k] == i;
      assert lines[k] == l;
    }
  }

  // ---------------------------------------------------------------------
  // The business report's figures

  datatype BusinessSummary = BusinessSummary(
    totalRevenue: int, partsRevenue: int, laborRevenue: int,
    totalAppointments: nat, completedCount: nat, inProgressCount: nat, cancelledCount: nat,
    serviceTypes: seq<Entry<string>>,
    totalItems: nat, lowStockCount: nat, inventoryValue: int,
    feedbackCount: nat, ratingSum: int,
    totalComplaints: nat, openComplaints: nat,
    mechanicJobs: seq<Entry<Id>>, mechanicRevenue: seq<Entry<Id>>)

  function Rating(f: Feedback): int { f.rating }

  /** The figures `generateBusinessReport` computes before rendering. */
  method BusinessReport(appts: seq<Appointment>, items: seq<InventoryItem>, feedback: seq<Feedback>,
                        complaints: seq<Complaint>) returns (r: BusinessSummary)
    ensures r.totalRevenue == SumIf(appts, IsCompleted, FinalCost)
    ensures r.partsRevenue == SumIf(appts, IsCompleted, PartsTotal)
    ensures r.laborRevenue == SumIf(appts, IsCompleted, LaborTotal)
    ensures r.totalAppointments == |appts|
    ensures r.completedCount == StatusCount(appts, Completed) == |Filter(appts, IsCompleted)|
    ensures r.inProgressCount == StatusCount(appts, InProgress) && r.cancelledCount == StatusCount(appts, Cancelled)
    ensures r.serviceTypes == TallyOf(appts, ServiceTypeOf, CountOne) && EntryTotal(r.serviceTypes) == |appts|
    ensures r.totalItems == |items| && r.lowStockCount == |Inventory.LowStock(items)|
    ensures r.inventoryValue == SumBy(items, CostValue)
    ensures r.feedbackCount == |feedback| && r.ratingSum == SumBy(feedback, Rating)
    ensures r.totalComplaints == |complaints| && r.openComplaints == Complaints.CountStatus(complaints, Open)
    ensures r.mechanicJobs == TallyOf(CreditedJobs(Filter(appts, IsCompleted)), MechanicOf, CountOne)
    ensures r.mechanicRevenue == TallyOf(CreditedJobs(Filter(appts, IsCompleted)), MechanicOf, FinalCost)
    ensures EntryTotal(r.mechanicRevenue) + SumIf(Filter(appts, IsCompleted), NoMechanic, FinalCost)
            == r.totalRevenue
  {
    var completed := Filter(appts, IsCompleted);
    CompletedCount(appts);
    var services := ServiceTypeCounts(appts);
    var jobs, revenue := MechanicStats(completed);
    CreditSplit(completed);
    var inventory := GetInventoryReport(items);
    r := BusinessSummary(
      Revenue(appts), PartsRevenue(appts), LaborRevenue(appts),
      |appts|, |completed|, StatusCount(appts, InProgress), StatusCount(appts, Cancelled),
      services,
      |items|, inventory.lowStockCount, inventory.totalCostValue,
      |feedback|, SumBy(feedback, Rating),
      |complaints|, Complaints.CountStatus(complaints, Open),
      jobs, revenue);
  }

  /** The completed filter holds as many appointments as the completed count. */
  lemma {:induction false} CompletedCount(appts: seq<Appointment>)
    ensures |Filter(appts, IsCompleted)| == StatusCount(appts, Completed)
  {
    if appts != [] {
      CompletedCount(appts[1..]);
    }
  }

  /** Revenue splits into what is credited to mechanics and what is not. */
  lemma CreditSplit(completed: seq<Appointment>)
    ensures SumBy(CreditedJobs(completed), FinalCost)
            + SumIf(completed, NoMechanic, FinalCost)
            == SumBy(completed, FinalCost)
  {
    SumFilter(completed, HasMechanic, FinalCost);
    SplitSum(completed);
  }

  lemma {:induction false} SplitSum(s: seq<Appointment>)
    ensures SumIf(s, HasMechanic, FinalCost) + SumIf(s, NoMechanic, FinalCost)
            == SumBy(s, FinalCost)
  {
    if s != [] {
      SplitSum(s[1..]);
    }
  }
}
