/** The read-model layer of the pharmacy dashboard: the rows each store query
    returns, and the client-side filtering, defaulting, merging and tallying
    done on them. A query's result is an input: its rows in the order the
    query requested (the store does the ordering), or null, and whether the
    store reported an error. A `.limit(n)` on a query is taken as the first
    `n` of those ordered rows. */
module SupabaseService {
  import opened Wrappers
  import opened Numerals
  import opened Grouping
  import opened Sorting

  /** `{ data, error }` of one query. */
  datatype QueryResult<T> = QueryResult(data: Option<seq<T>>, failed: bool)

  /** An `Inventory` row joined with its medication's name (absent when the
      join finds nothing). Dates are the instants `new Date(..)` yields. */
  datatype InventoryItem = InventoryItem(
    inventoryId: nat,
    medicationId: nat,
    quantityInStock: int,
    reorderLevel: int,
    lastUpdated: int,
    medicationName: Option<string>)

  datatype Prescription = Prescription(
    prescriptionId: nat,
    patientId: nat,
    physicianId: nat,
    datePrescribed: int,
    status: string)

  /** A `PrescriptionItems` row with the joined `date_prescribed` of its
      prescription (absent when the join finds nothing). A null `cost` is None. */
  datatype PrescriptionItem = PrescriptionItem(
    prescriptionItemId: nat,
    prescriptionId: nat,
    medicationId: nat,
    cost: Option<int>,
    datePrescribed: Option<string>)

  /** A `PurchaseOrders` row joined with its supplier's name. */
  datatype PurchaseOrder = PurchaseOrder(
    purchaseOrderId: nat,
    supplierId: nat,
    orderDate: int,
    supplierName: Option<string>)

  datatype PurchaseOrderItem = PurchaseOrderItem(
    purchaseOrderItemId: nat,
    purchaseOrderId: nat,
    medicationId: nat,
    quantityOrdered: int)

  /** `name || fallback`: a missing or empty name is replaced. */
  function NameOr(name: Option<string>, fallback: string): (r: string)
    ensures name.Some? && name.value != "" ==> r == name.value
    ensures name.None? || name.value == "" ==> r == fallback
  {
    if name.Some? && name.value != "" then name.value else fallback
  }

  /** `item.cost || 0`. */
  function ItemCost(item: PrescriptionItem): (c: int)
    ensures item.cost.None? ==> c == 0
    ensures item.cost.Some? ==> c == item.cost.value
  {
    if item.cost.Some? then item.cost.value else 0
  }

  /** `reduce((sum, item) => sum + (item.cost || 0), 0)`: the costs summed
      from the first item to the last. Summing from the other end, the first
      cost plus the total of the rest, gives the same revenue. */
  function CostTotal(items: seq<PrescriptionItem>): (r: int)
    ensures items == [] ==> r == 0
    ensures items != [] ==> r == ItemCost(items[0]) + CostTotal(items[1..])
  {
    if items == [] then 0
    else
      var init := items[..|items| - 1];
      assert init != [] ==> init[1..] == items[1..][..|items| - 2];
      CostTotal(init) + ItemCost(items[|items| - 1])
  }

  // ---------------------------------------------------------------- low stock

  /** The one business rule of the dashboard: the first clause states the
      rule as a shortfall, the second its boundary, where an item exactly
      at its reorder level is not low. */
  predicate IsLowStock(item: InventoryItem): (low: bool)
    ensures low <==> item.reorderLevel - item.quantityInStock > 0
    ensures item.quantityInStock == item.reorderLevel ==> !low
  {
    item.quantityInStock < item.reorderLevel
  }

  /** `rows.filter(item => item.quantity_in_stock < item.reorder_level)`. */
  function FilterLowStock(rows: seq<InventoryItem>): (r: seq<InventoryItem>)
    ensures |r| <= |rows|
    ensures forall i :: 0 <= i < |r| ==> IsLowStock(r[i])
  {
    if rows == [] then []
    else (if IsLowStock(rows[0]) then [rows[0]] else []) + FilterLowStock(rows[1..])
  }

  /** The filter keeps exactly the low-stock rows, each as often as it occurs. */
  lemma {:induction false} FilterLowStockExact(rows: seq<InventoryItem>)
    ensures forall x :: multiset(FilterLowStock(rows))[x] == if IsLowStock(x) then multiset(rows)[x] else 0
    ensures forall x :: x in FilterLowStock(rows) <==> x in rows && IsLowStock(x)
  {
    if rows != [] {
      assert rows == [rows[0]] + rows[1..];
      FilterLowStockExact(rows[1..]);
    }
  }

  /** The filter keeps input order: filtering a concatenation concatenates
      the filtered parts. */
  lemma {:induction false} FilterLowStockAppend(a: seq<InventoryItem>, b: seq<InventoryItem>)
    ensures FilterLowStock(a + b) == FilterLowStock(a) + FilterLowStock(b)
  {
    if a != [] {
      var head := if IsLowStock(a[0]) then [a[0]] else [];
      calc {
        FilterLowStock(a + b);
        { assert (a + b)[0] == a[0]; assert (a + b)[1..] == a[1..] + b; }
        head + FilterLowStock(a[1..] + b);
        { FilterLowStockAppend(a[1..], b); }
        head + (FilterLowStock(a[1..]) + FilterLowStock(b));
        FilterLowStock(a) + FilterLowStock(b);
      }
    } else {
      assert a + b == b;
    }
  }

  /** `getLowStockItems`: a failed query or a null result yields no rows,
      otherwise the low-stock rows of the result. */
  function LowStockItems(q: QueryResult<InventoryItem>): (r: seq<InventoryItem>)
    ensures q.failed || q.data.None? ==> r == []
    ensures !q.failed && q.data.Some? ==> r == FilterLowStock(q.data.value)
  {
    if q.failed then []
    else if q.data.None? then []
    else FilterLowStock(q.data.value)
  }

  /** Rows sorted by ascending stock, as the low-stock query requests. */
  ghost predicate AscendingStock(rows: seq<InventoryItem>)
  {
    forall i, j :: 0 <= i < j < |rows| ==> rows[i].quantityInStock <= rows[j].quantityInStock
  }

  lemma {:induction false} FilterKeepsAscending(rows: seq<InventoryItem>)
    requires AscendingStock(rows)
    ensures AscendingStock(FilterLowStock(rows))
  {
    if rows != [] {
      FilterKeepsAscending(rows[1..]);
      var rest := FilterLowStock(rows[1..]);
      FilterLowStockExact(rows[1..]);
      forall j | 0 <= j < |rest|
        ensures rows[0].quantityInStock <= rest[j].quantityInStock
      {
        assert rest[j] in rows[1..];
      }
    }
  }

  /** The first low-stock row of the ascending query has the least stock of
      all low-stock rows: it is the one the activity feed reports. */
  lemma LeastStockFirst(q: QueryResult<InventoryItem>)
    requires q.data.Some? && AscendingStock(q.data.value)
    requires LowStockItems(q) != []
    ensures forall x :: x in LowStockItems(q) ==> LowStockItems(q)[0].quantityInStock <= x.quantityInStock
  {
    FilterKeepsAscending(q.data.value);
  }

  // ------------------------------------------------------------- table counts

  /** The `count` of each count-only query, by relation name; a relation
      whose count came back null is absent. */
  type CountReport = map<string, nat>

  /** `result.count || 0`. */
  function CountOrZero(report: CountReport, relation: string): (c: nat)
    ensures relation in report ==> c == report[relation]
    ensures relation !in report ==> c == 0
  {
    if relation in report then report[relation] else 0
  }

  datatype TableCounts = TableCounts(medications: nat, inventory: nat, prescriptions: nat, suppliers: nat)

  /** `getTableCounts`. */
  function GetTableCounts(report: CountReport): (r: TableCounts)
    ensures "Medications" in report ==> r.medications == report["Medications"]
    ensures "Medications" !in report ==> r.medications == 0
    ensures "Inventory" in report ==> r.inventory == report["Inventory"]
    ensures "Inventory" !in report ==> r.inventory == 0
    ensures "Prescriptions" in report ==> r.prescriptions == report["Prescriptions"]
    ensures "Prescriptions" !in report ==> r.prescriptions == 0
    ensures "Suppliers" in report ==> r.suppliers == report["Suppliers"]
    ensures "Suppliers" !in report ==> r.suppliers == 0
  {
    TableCounts(
      CountOrZero(report, "Medications"),
      CountOrZero(report, "Inventory"),
      CountOrZero(report, "Prescriptions"),
      CountOrZero(report, "Suppliers"))
  }

  datatype TableCount = TableCount(name: string, count: nat, color: string)

  /** The relations `getAllTableCounts` queries, in the order of its result. */
  const CountedRelations: seq<string> :=
    ["Inventory", "Medications", "PrescriptionItems", "Prescriptions",
     "PurchaseOrderItem", "PurchaseOrders", "Suppliers", "users"]

  /** `getAllTableCounts`: eight entries whose names and colours are fixed;
      each count is the one reported for the relation behind the entry, or 0. */
  function GetAllTableCounts(report: CountReport): (r: seq<TableCount>)
    ensures |r| == 8
    ensures forall i :: 0 <= i < 8 ==> r[i].count == CountOrZero(report, CountedRelations[i])
    ensures r[0].name == "Inventory" && r[0].color == "#2563eb"
    ensures r[1].name == "Medications" && r[1].color == "#059669"
    ensures r[2].name == "PrescriptionItems" && r[2].color == "#ea580c"
    ensures r[3].name == "Prescriptions" && r[3].color == "#7c3aed"
    ensures r[4].name == "PurchaseOrderItem" && r[4].color == "#dc2626"
    ensures r[5].name == "PurchaseOrders" && r[5].color == "#0891b2"
    ensures r[6].name == "Suppliers" && r[6].color == "#ca8a04"
    ensures r[7].name == "Users" && r[7].color == "#db2777"
  {
    [ TableCount("Inventory", CountOrZero(report, "Inventory"), "#2563eb"),
      TableCount("Medications", CountOrZero(report, "Medications"), "#059669"),
      TableCount("PrescriptionItems", CountOrZero(report, "PrescriptionItems"), "#ea580c"),
      TableCount("Prescriptions", CountOrZero(report, "Prescriptions"), "#7c3aed"),
      TableCount("PurchaseOrderItem", CountOrZero(report, "PurchaseOrderItem"), "#dc2626"),
      TableCount("PurchaseOrders", CountOrZero(report, "PurchaseOrders"), "#0891b2"),
      TableCount("Suppliers", CountOrZero(report, "Suppliers"), "#ca8a04"),
      TableCount("Users", CountOrZero(report, "users"), "#db2777") ]
  }

  /** For the same store state, the two count functions agree on the four
      relations they share. */
  lemma TableCountsAgree(report: CountReport)
    ensures GetAllTableCounts(report)[0].count == GetTableCounts(report).inventory
    ensures GetAllTableCounts(report)[1].count == GetTableCounts(report).medications
    ensures GetAllTableCounts(report)[3].count == GetTableCounts(report).prescriptions
    ensures GetAllTableCounts(report)[6].count == GetTableCounts(report).suppliers
  {
  }

  // ---------------------------------------------------------- recent activity

  datatype ActivityKind = PrescriptionActivity | InventoryActivity | PurchaseActivity

  /** One entry of the activity feed; the display time (a locale string) is
      not modelled, `timestamp` is the instant the feed is sorted by. */
  datatype Activity = Activity(id: string, kind: ActivityKind, message: string, timestamp: int)

  function TimestampOf(a: Activity): int
  {
    a.timestamp
  }

  function IdOf(a: Activity): string
  {
    a.id
  }

  /** The second character of an entry's id names its source: `r` for
      `prescription-`, `o` for `low-stock-`, `u` for `purchase-`. */
  function PrescriptionEntry(p: Prescription): (a: Activity)
    ensures a.kind == PrescriptionActivity
    ensures |a.id| > 1 && a.id[1] == 'r'
  {
    Activity("prescription-" + Decimal(p.prescriptionId), PrescriptionActivity,
             "New prescription created for Patient #" + Decimal(p.patientId), p.datePrescribed)
  }

  function LowStockEntry(item: InventoryItem): (a: Activity)
    ensures a.kind == InventoryActivity
    ensures |a.id| > 1 && a.id[1] == 'o'
  {
    Activity("low-stock-" + Decimal(item.inventoryId), InventoryActivity,
             "Low stock alert: " + NameOr(item.medicationName, "Unknown medication"), item.lastUpdated)
  }

  /** A missing supplier join interpolates as the text "undefined". */
  function PurchaseEntry(order: PurchaseOrder): (a: Activity)
    ensures a.kind == PurchaseActivity
    ensures |a.id| > 1 && a.id[1] == 'u'
  {
    Activity("purchase-" + Decimal(order.purchaseOrderId), PurchaseActivity,
             "Purchase order #" + Decimal(order.purchaseOrderId) + " from "
               + (if order.supplierName.Some? then order.supplierName.value else "undefined"),
             order.orderDate)
  }

  /** One prescription entry per row, in row order. */
  function PrescriptionEntries(ps: seq<Prescription>): (r: seq<Activity>)
    ensures |r| == |ps|
    ensures forall i :: 0 <= i < |ps| ==> r[i] == PrescriptionEntry(ps[i])
  {
    if ps == [] then [] else PrescriptionEntries(ps[..|ps| - 1]) + [PrescriptionEntry(ps[|ps| - 1])]
  }

  /** The two newest prescriptions (none when the query returned null). */
  function RecentPrescriptionRows(recentPrescriptions: Option<seq<Prescription>>): seq<Prescription>
  {
    if recentPrescriptions.Some? then Take(recentPrescriptions.value, 2) else []
  }

  /** The newest purchase order, as a list of at most one row. */
  function RecentOrderRows(recentOrders: Option<seq<PurchaseOrder>>): seq<PurchaseOrder>
  {
    if recentOrders.Some? then Take(recentOrders.value, 1) else []
  }

  /** The alert for the first low-stock row, if there is one. */
  function LowStockRun(inventory: QueryResult<InventoryItem>): (r: seq<Activity>)
    ensures |r| == if LowStockItems(inventory) == [] then 0 else 1
    ensures forall k :: 0 <= k < |r| ==> r[k] == LowStockEntry(LowStockItems(inventory)[0])
  {
    var low := LowStockItems(inventory);
    if |low| > 0 then [LowStockEntry(low[0])] else []
  }

  /** The entry for the newest purchase order, if there is one. */
  function OrderRun(recentOrders: Option<seq<PurchaseOrder>>): (r: seq<Activity>)
    ensures |r| == if RecentOrderRows(recentOrders) == [] then 0 else 1
    ensures forall k :: 0 <= k < |r| ==> r[k] == PurchaseEntry(RecentOrderRows(recentOrders)[0])
  {
    var orders := RecentOrderRows(recentOrders);
    if |orders| > 0 then [PurchaseEntry(orders[0])] else []
  }

  /** What `getRecentActivity` pushes, in push order, before sorting. */
  function PushedActivities(
    recentPrescriptions: Option<seq<Prescription>>,
    inventory: QueryResult<InventoryItem>,
    recentOrders: Option<seq<PurchaseOrder>>): (r: seq<Activity>)
    ensures |r| == |RecentPrescriptionRows(recentPrescriptions)|
      + (if LowStockItems(inventory) == [] then 0 else 1)
      + (if RecentOrderRows(recentOrders) == [] then 0 else 1)
    ensures |r| <= 4
  {
    PrescriptionEntries(RecentPrescriptionRows(recentPrescriptions))
      + LowStockRun(inventory) + OrderRun(recentOrders)
  }

  /** The entries of one kind, in order. */
  function OfKind(s: seq<Activity>, kind: ActivityKind): (r: seq<Activity>)
    ensures |r| <= |s|
  {
    if s == [] then [] else (if s[0].kind == kind then [s[0]] else []) + OfKind(s[1..], kind)
  }

  lemma {:induction false} OfKindAppend(a: seq<Activity>, b: seq<Activity>, kind: ActivityKind)
    ensures OfKind(a + b, kind) == OfKind(a, kind) + OfKind(b, kind)
  {
    if a != [] {
      var head := if a[0].kind == kind then [a[0]] else [];
      calc {
        OfKind(a + b, kind);
        { assert (a + b)[0] == a[0]; assert (a + b)[1..] == a[1..] + b; }
        head + OfKind(a[1..] + b, kind);
        { OfKindAppend(a[1..], b, kind); }
        head + (OfKind(a[1..], kind) + OfKind(b, kind));
        OfKind(a, kind) + OfKind(b, kind);
      }
    } else {
      assert a + b == b;
    }
  }

  lemma {:induction false} OfKindNone(s: seq<Activity>, kind: ActivityKind)
    requires forall i :: 0 <= i < |s| ==> s[i].kind != kind
    ensures OfKind(s, kind) == []
  {
    if s != [] {
      OfKindNone(s[1..], kind);
    }
  }

  /** The feed's sources: at most two prescriptions, at most one low-stock
      alert and at most one purchase order; at most four entries in all. */
  lemma PushedKindCounts(
    recentPrescriptions: Option<seq<Prescription>>,
    inventory: QueryResult<InventoryItem>,
    recentOrders: Option<seq<PurchaseOrder>>)
    ensures var s := PushedActivities(recentPrescriptions, inventory, recentOrders);
      && |s| <= 4
      && |OfKind(s, PrescriptionActivity)| <= 2
      && |OfKind(s, InventoryActivity)| <= 1
      && |OfKind(s, PurchaseActivity)| <= 1
  {
    KindCountsOfParts(
      PrescriptionEntries(RecentPrescriptionRows(recentPrescriptions)),
      LowStockRun(inventory), OrderRun(recentOrders));
  }

  lemma KindCountsOfParts(p: seq<Activity>, l: seq<Activity>, o: seq<Activity>)
    requires |p| <= 2 && |l| <= 1 && |o| <= 1
    requires forall i :: 0 <= i < |p| ==> p[i].kind == PrescriptionActivity
    requires forall i :: 0 <= i < |l| ==> l[i].kind == InventoryActivity
    requires forall i :: 0 <= i < |o| ==> o[i].kind == PurchaseActivity
    ensures |OfKind(p + l + o, PrescriptionActivity)| <= 2
    ensures |OfKind(p + l + o, InventoryActivity)| <= 1
    ensures |OfKind(p + l + o, PurchaseActivity)| <= 1
  {
    forall kind
      ensures OfKind(p + l + o, kind) == OfKind(p, kind) + OfKind(l, kind) + OfKind(o, kind)
    {
      OfKindAppend(p + l, o, kind);
      OfKindAppend(p, l, kind);
    }
    OfKindNone(p, InventoryActivity);
    OfKindNone(p, PurchaseActivity);
    OfKindNone(l, PrescriptionActivity);
    OfKindNone(l, PurchaseActivity);
    OfKindNone(o, PrescriptionActivity);
    OfKindNone(o, InventoryActivity);
  }

  /** The only low-stock alert the feed can hold is for the first row of the
      low-stock list. */
  lemma PushedInventoryEntry(
    recentPrescriptions: Option<seq<Prescription>>,
    inventory: QueryResult<InventoryItem>,
    recentOrders: Option<seq<PurchaseOrder>>)
    ensures var s := PushedActivities(recentPrescriptions, inventory, recentOrders);
      forall i :: 0 <= i < |s| && s[i].kind == InventoryActivity ==>
        s[i] == LowStockEntry(LowStockItems(inventory)[0])
  {
  }

  /** Prescriptions with different keys get entries with different ids. */
  lemma PrescriptionEntryIdsDiffer(x: Prescription, y: Prescription)
    requires x.prescriptionId != y.prescriptionId
    ensures PrescriptionEntry(x).id != PrescriptionEntry(y).id
  {
    var pre := "prescription-";
    assert PrescriptionEntry(x).id[|pre|..] == Decimal(x.prescriptionId);
    assert PrescriptionEntry(y).id[|pre|..] == Decimal(y.prescriptionId);
    DecimalInjective(x.prescriptionId, y.prescriptionId);
  }

  /** Prescription rows with distinct keys give entries with distinct ids. */
  lemma PrescriptionEntryIds(rows: seq<Prescription>)
    requires forall i, j :: 0 <= i < j < |rows| ==> rows[i].prescriptionId != rows[j].prescriptionId
    ensures forall i, j :: 0 <= i < j < |rows| ==> PrescriptionEntries(rows)[i].id != PrescriptionEntries(rows)[j].id
  {
  }

  /** Three runs of entries whose ids differ in their second character
      from run to run, with at most one entry in each of the last two runs
      and distinct ids in the first, have distinct ids together. */
  lemma RunIdsDistinct(p: seq<Activity>, l: seq<Activity>, o: seq<Activity>)
    requires |l| <= 1 && |o| <= 1
    requires forall i :: 0 <= i < |p| ==> |p[i].id| > 1 && p[i].id[1] == 'r'
    requires forall i, j :: 0 <= i < j < |p| ==> p[i].id != p[j].id
    requires forall k :: 0 <= k < |l| ==> |l[k].id| > 1 && l[k].id[1] == 'o'
    requires forall k :: 0 <= k < |o| ==> |o[k].id| > 1 && o[k].id[1] == 'u'
    ensures forall i, j :: 0 <= i < j < |p + l + o| ==> (p + l + o)[i].id != (p + l + o)[j].id
  {
  }

  /** Every id in the feed's sources is distinct, given that the prescription
      rows have distinct keys: the three prefixes tell the sources apart and
      the decimal id tells rows of one source apart. */
  lemma PushedIdsDistinct(
    recentPrescriptions: Option<seq<Prescription>>,
    inventory: QueryResult<InventoryItem>,
    recentOrders: Option<seq<PurchaseOrder>>)
    requires recentPrescriptions.Some? ==>
      forall i, j :: 0 <= i < j < |recentPrescriptions.value| ==>
        recentPrescriptions.value[i].prescriptionId != recentPrescriptions.value[j].prescriptionId
    ensures forall i, j :: 0 <= i < j < |PushedActivities(recentPrescriptions, inventory, recentOrders)| ==>
      PushedActivities(recentPrescriptions, inventory, recentOrders)[i].id
        != PushedActivities(recentPrescriptions, inventory, recentOrders)[j].id
  {
    var rows := RecentPrescriptionRows(recentPrescriptions);
    PrescriptionEntryIds(rows);
    RunIdsDistinct(PrescriptionEntries(rows), LowStockRun(inventory), OrderRun(recentOrders));
  }

  /** The `forEach` over the recent prescriptions: one entry per row, in row order. */
  method PushPrescriptions(rows: seq<Prescription>) returns (activities: seq<Activity>)
    ensures activities == PrescriptionEntries(rows)
  {
    activities := [];
    for i := 0 to |rows|
      invariant activities == PrescriptionEntries(rows[..i])
    {
      assert rows[..i + 1][..i] == rows[..i];
      activities := activities + [PrescriptionEntry(rows[i])];
    }
    assert rows[..|rows|] == rows;
  }

  /** The feed: the pushed entries sorted newest first and cut to four.
      Nothing is cut, since at most four are pushed; entries with equal
      timestamps keep their push order. */
  function RecentActivity(
    recentPrescriptions: Option<seq<Prescription>>,
    inventory: QueryResult<InventoryItem>,
    recentOrders: Option<seq<PurchaseOrder>>): (feed: seq<Activity>)
    ensures |feed| <= 4
    ensures NonIncreasing(feed, TimestampOf)
    ensures multiset(feed) == multiset(PushedActivities(recentPrescriptions, inventory, recentOrders))
    ensures forall t :: WithKey(feed, TimestampOf, t)
                     == WithKey(PushedActivities(recentPrescriptions, inventory, recentOrders), TimestampOf, t)
  {
    var activities := PushedActivities(recentPrescriptions, inventory, recentOrders);
    SortDescCorrect(activities, TimestampOf);
    Take(SortDesc(activities, TimestampOf), 4)
  }

  /** `getRecentActivity`: the pushes in source order, then the sort and
      the cut. */
  method GetRecentActivity(
    recentPrescriptions: Option<seq<Prescription>>,
    inventory: QueryResult<InventoryItem>,
    recentOrders: Option<seq<PurchaseOrder>>) returns (feed: seq<Activity>)
    ensures feed == RecentActivity(recentPrescriptions, inventory, recentOrders)
  {
    var activities: seq<Activity> := [];
    if recentPrescriptions.Some? {
      activities := PushPrescriptions(Take(recentPrescriptions.value, 2));
    }
    ghost var p := activities;
    assert p == PrescriptionEntries(RecentPrescriptionRows(recentPrescriptions));
    var lowStock := LowStockItems(inventory);
    if |lowStock| > 0 {
      activities := activities + [LowStockEntry(lowStock[0])];
      assert LowStockRun(inventory) == [LowStockEntry(lowStock[0])];
    }
    assert activities == p + LowStockRun(inventory);
    var orders := RecentOrderRows(recentOrders);
    if |orders| > 0 {
      activities := activities + [PurchaseEntry(orders[0])];
      assert OrderRun(recentOrders) == [PurchaseEntry(orders[0])];
    }
    assert activities == PushedActivities(recentPrescriptions, inventory, recentOrders);
    feed := Take(SortDesc(activities, TimestampOf), 4);
  }

  /** The feed's ids are distinct whenever the prescription keys are. */
  lemma FeedIdsDistinct(
    recentPrescriptions: Option<seq<Prescription>>,
    inventory: QueryResult<InventoryItem>,
    recentOrders: Option<seq<PurchaseOrder>>,
    feed: seq<Activity>)
    requires recentPrescriptions.Some? ==>
      forall i, j :: 0 <= i < j < |recentPrescriptions.value| ==>
        recentPrescriptions.value[i].prescriptionId != recentPrescriptions.value[j].prescriptionId
    requires multiset(feed) == multiset(PushedActivities(recentPrescriptions, inventory, recentOrders))
    ensures forall i, j :: 0 <= i < j < |feed| ==> feed[i].id != feed[j].id
  {
    PushedIdsDistinct(recentPrescriptions, inventory, recentOrders);
    PermutationKeepsDistinctIds(feed, PushedActivities(recentPrescriptions, inventory, recentOrders), IdOf);
  }

  // ------------------------------------------------------ trending medications

  /** A row of the trending query: a prescription item's medication and the
      joined medication name. */
  datatype TrendingRow = TrendingRow(medicationId: nat, medicationName: Option<string>)

  /** One tally entry (`average_daily` is not modelled). */
  datatype TrendingMedication = TrendingMedication(medicationId: nat, medicationName: string, prescriptionCount: nat)

  /** The value stored in the tally map. */
  datatype MedicationTally = MedicationTally(name: string, count: nat)

  function PrescriptionCountOf(t: TrendingMedication): int
  {
    t.prescriptionCount
  }

  function MedicationIds(rows: seq<TrendingRow>): (ids: seq<nat>)
    ensures |ids| == |rows|
    ensures forall i :: 0 <= i < |rows| ==> ids[i] == rows[i].medicationId
  {
    if rows == [] then [] else MedicationIds(rows[..|rows| - 1]) + [rows[|rows| - 1].medicationId]
  }

  /** The name written by the last row seen for `id` (`'Unknown'` when that
      row has no name, or when no row has that id). */
  function LastNameFor(rows: seq<TrendingRow>, id: nat): string
  {
    if rows == [] then "Unknown"
    else if rows[|rows| - 1].medicationId == id then NameOr(rows[|rows| - 1].medicationName, "Unknown")
    else LastNameFor(rows[..|rows| - 1], id)
  }

  /** One entry per id of `ids`, with its last name and its number of rows. */
  function TallyOf(rows: seq<TrendingRow>, ids: seq<nat>): (r: seq<TrendingMedication>)
    ensures |r| == |ids|
    ensures forall i :: 0 <= i < |ids| ==>
      r[i] == TrendingMedication(ids[i], LastNameFor(rows, ids[i]), Occurrences(MedicationIds(rows), ids[i]))
  {
    if ids == [] then []
    else [TrendingMedication(ids[0], LastNameFor(rows, ids[0]), Occurrences(MedicationIds(rows), ids[0]))]
           + TallyOf(rows, ids[1..])
  }

  /** The tally the `medicationCounts` map holds after the loop, in the map's
      key order (the order in which each medication first appears). */
  function Tally(rows: seq<TrendingRow>): seq<TrendingMedication>
  {
    TallyOf(rows, Distinct<nat>(MedicationIds(rows)))
  }

  /** The rows of the trending query; a null result counts nothing. */
  function TrendingRows(q: QueryResult<TrendingRow>): seq<TrendingRow>
  {
    if q.data.Some? then q.data.value else []
  }

  /** The tally's ids are the map's keys, in key order, and each count is
      the number of rows with its id. */
  lemma TallyIds(rows: seq<TrendingRow>)
    ensures |Tally(rows)| == |Distinct<nat>(MedicationIds(rows))|
    ensures forall i :: 0 <= i < |Tally(rows)| ==> Tally(rows)[i].medicationId == Distinct<nat>(MedicationIds(rows))[i]
    ensures forall i :: 0 <= i < |Tally(rows)| ==>
      Tally(rows)[i].prescriptionCount == Occurrences(MedicationIds(rows), Tally(rows)[i].medicationId)
  {
  }

  /** Each count is the multiplicity of its id among the rows, at least one. */
  lemma TallyCounts(rows: seq<TrendingRow>)
    ensures forall i :: 0 <= i < |Tally(rows)| ==>
      Tally(rows)[i].prescriptionCount == multiset(MedicationIds(rows))[Tally(rows)[i].medicationId] >= 1
  {
    var ids: seq<nat> := MedicationIds(rows);
    var t := Tally(rows);
    TallyIds(rows);
    forall i | 0 <= i < |t|
      ensures t[i].prescriptionCount == multiset(ids)[t[i].medicationId] >= 1
    {
      OccurrencesIsMultiplicity<nat>(ids, t[i].medicationId);
    }
  }

  /** One entry per distinct medication id, in order of first appearance;
      each entry counts exactly the rows with its id, so at least one. */
  lemma TallyEntries(rows: seq<TrendingRow>)
    ensures var t := Tally(rows);
      && (forall i :: 0 <= i < |t| ==> t[i].medicationId in MedicationIds(rows))
      && (forall i :: 0 <= i < |rows| ==> exists k :: 0 <= k < |t| && t[k].medicationId == rows[i].medicationId)
      && (forall i, j :: 0 <= i < j < |t| ==> t[i].medicationId != t[j].medicationId)
      && (forall i :: 0 <= i < |t| ==>
            t[i].prescriptionCount == multiset(MedicationIds(rows))[t[i].medicationId] >= 1)
  {
    var ids := MedicationIds(rows);
    var d := Distinct<nat>(ids);
    var t := Tally(rows);
    TallyIds(rows);
    TallyCounts(rows);
    forall i | 0 <= i < |rows|
      ensures exists k :: 0 <= k < |t| && t[k].medicationId == rows[i].medicationId
    {
      assert ids[i] in d;
      var k :| 0 <= k < |d| && d[k] == ids[i];
      assert t[k].medicationId == rows[i].medicationId;
    }
  }

  function SumCounts(t: seq<TrendingMedication>): int
  {
    if t == [] then 0 else t[0].prescriptionCount + SumCounts(t[1..])
  }

  lemma {:induction false} SumCountsOfTally(rows: seq<TrendingRow>, ids: seq<nat>)
    ensures SumCounts(TallyOf(rows, ids)) == SumOccurrences(ids, MedicationIds(rows))
  {
    if ids != [] {
      assert TallyOf(rows, ids)[1..] == TallyOf(rows, ids[1..]);
      SumCountsOfTally(rows, ids[1..]);
    }
  }

  /** The tally's counts add up to the number of rows. */
  lemma TallyCountsSum(rows: seq<TrendingRow>)
    ensures SumCounts(Tally(rows)) == |rows|
  {
    SumCountsOfTally(rows, Distinct<nat>(MedicationIds(rows)));
    CountPartition(MedicationIds(rows));
  }

  /** An entry's name is that of the latest row with its id. */
  lemma {:induction false} LastNameIsLatestRow(rows: seq<TrendingRow>, id: nat, k: nat)
    requires k < |rows| && rows[k].medicationId == id
    requires forall j :: k < j < |rows| ==> rows[j].medicationId != id
    ensures LastNameFor(rows, id) == NameOr(rows[k].medicationName, "Unknown")
  {
    if k < |rows| - 1 {
      LastNameIsLatestRow(rows[..|rows| - 1], id, k);
    }
  }

  /** `Array.from(medicationCounts.entries()).map(..)`. */
  function MapEntries(counts: map<nat, MedicationTally>, order: seq<nat>): (r: seq<TrendingMedication>)
    requires forall i :: 0 <= i < |order| ==> order[i] in counts
    ensures |r| == |order|
    ensures forall i :: 0 <= i < |order| ==>
      r[i] == TrendingMedication(order[i], counts[order[i]].name, counts[order[i]].count)
  {
    if order == [] then []
    else [TrendingMedication(order[0], counts[order[0]].name, counts[order[0]].count)]
           + MapEntries(counts, order[1..])
  }

  /** What one more row does to the ids and to the key order. */
  lemma TallyStepOrder(rows: seq<TrendingRow>, r: TrendingRow)
    ensures MedicationIds(rows + [r]) == MedicationIds(rows) + [r.medicationId]
    ensures var d := Distinct<nat>(MedicationIds(rows));
      Distinct<nat>(MedicationIds(rows + [r])) == if r.medicationId in d then d else d + [r.medicationId]
  {
  }

  /** What one more row does to the name and the count of one id. */
  lemma TallyStepAt(rows: seq<TrendingRow>, r: TrendingRow, id: nat)
    ensures LastNameFor(rows + [r], id)
      == if r.medicationId == id then NameOr(r.medicationName, "Unknown") else LastNameFor(rows, id)
    ensures Occurrences(MedicationIds(rows + [r]), id)
      == Occurrences(MedicationIds(rows), id) + (if r.medicationId == id then 1 else 0)
  {
  }

  /** Every entry of the map holds the last name and the row count of its id. */
  ghost predicate ValuesMatch(rows: seq<TrendingRow>, counts: map<nat, MedicationTally>)
  {
    forall id :: id in counts ==>
      counts[id] == MedicationTally(LastNameFor(rows, id), Occurrences(MedicationIds(rows), id))
  }

  /** The `medicationCounts` map and its key order after reading `rows`. */
  ghost predicate CountsMatch(rows: seq<TrendingRow>, counts: map<nat, MedicationTally>, order: seq<nat>)
  {
    && order == Distinct<nat>(MedicationIds(rows))
    && (forall id :: id in counts <==> id in order)
    && ValuesMatch(rows, counts)
  }

  lemma ValuesBump(rows: seq<TrendingRow>, r: TrendingRow, counts: map<nat, MedicationTally>)
    requires ValuesMatch(rows, counts)
    requires r.medicationId in counts
    ensures ValuesMatch(rows + [r],
      counts[r.medicationId := MedicationTally(NameOr(r.medicationName, "Unknown"), counts[r.medicationId].count + 1)])
  {
  }

  lemma ValuesAdd(rows: seq<TrendingRow>, r: TrendingRow, counts: map<nat, MedicationTally>)
    requires ValuesMatch(rows, counts)
    requires r.medicationId !in MedicationIds(rows)
    ensures ValuesMatch(rows + [r], counts[r.medicationId := MedicationTally(NameOr(r.medicationName, "Unknown"), 1)])
  {
    var m := r.medicationId;
    var counts' := counts[m := MedicationTally(NameOr(r.medicationName, "Unknown"), 1)];
    forall id | id in counts'
      ensures counts'[id] == MedicationTally(LastNameFor(rows + [r], id), Occurrences(MedicationIds(rows + [r]), id))
    {
      TallyStepAt(rows, r, id);
      if id == m {
        OccurrencesIsMultiplicity<nat>(MedicationIds(rows), m);
      } else {
        assert counts'[id] == counts[id];
      }
    }
  }

  /** A row whose id is already counted: its name replaces the entry's name
      and its count grows by one. */
  lemma CountsMatchBump(rows: seq<TrendingRow>, r: TrendingRow, counts: map<nat, MedicationTally>, order: seq<nat>)
    requires CountsMatch(rows, counts, order)
    requires r.medicationId in counts
    ensures CountsMatch(rows + [r],
      counts[r.medicationId := MedicationTally(NameOr(r.medicationName, "Unknown"), counts[r.medicationId].count + 1)],
      order)
  {
    TallyStepOrder(rows, r);
    ValuesBump(rows, r, counts);
  }

  /** A row with a new id: a new entry with count one, appended to the key order. */
  lemma CountsMatchAdd(rows: seq<TrendingRow>, r: TrendingRow, counts: map<nat, MedicationTally>, order: seq<nat>)
    requires CountsMatch(rows, counts, order)
    requires r.medicationId !in counts
    ensures CountsMatch(rows + [r],
      counts[r.medicationId := MedicationTally(NameOr(r.medicationName, "Unknown"), 1)],
      order + [r.medicationId])
  {
    TallyStepOrder(rows, r);
    assert r.medicationId !in MedicationIds(rows);
    ValuesAdd(rows, r, counts);
  }

  /** Once the map matches the rows, listing its entries in key order gives
      the tally of the rows. */
  lemma MapEntriesIsTally(rows: seq<TrendingRow>, counts: map<nat, MedicationTally>, order: seq<nat>)
    requires CountsMatch(rows, counts, order)
    ensures forall i :: 0 <= i < |order| ==> order[i] in counts
    ensures MapEntries(counts, order) == Tally(rows)
  {
  }

  /** The `forEach` callback: a row whose id is in the map replaces the
      stored name and adds one to the count; a row with a new id is stored
      with count one, its id appended to the key order. Either way the map
      and its key order are those of the rows read so far, which fixes
      both completely. */
  method CountRow(
    counts: map<nat, MedicationTally>, order: seq<nat>, row: TrendingRow, ghost rows: seq<TrendingRow>)
    returns (counts': map<nat, MedicationTally>, order': seq<nat>)
    requires CountsMatch(rows, counts, order)
    ensures CountsMatch(rows + [row], counts', order')
  {
    var medId := row.medicationId;
    var medName := NameOr(row.medicationName, "Unknown");
    if medId in counts {
      CountsMatchBump(rows, row, counts, order);
      var current := counts[medId];
      counts' := counts[medId := MedicationTally(medName, current.count + 1)];
      order' := order;
    } else {
      CountsMatchAdd(rows, row, counts, order);
      counts' := counts[medId := MedicationTally(medName, 1)];
      order' := order + [medId];
    }
  }

  /** The `forEach` loop that fills `medicationCounts`, then the conversion of
      the map to a list: the result is the tally of the rows. */
  method TallyMedications(rows: seq<TrendingRow>) returns (tally: seq<TrendingMedication>)
    ensures tally == Tally(rows)
  {
    var counts: map<nat, MedicationTally> := map[];
    var order: seq<nat> := [];
    for i := 0 to |rows|
      invariant CountsMatch(rows[..i], counts, order)
    {
      counts, order := CountRow(counts, order, rows[i], rows[..i]);
      assert rows[..i + 1] == rows[..i] + [rows[i]];
    }
    assert rows[..|rows|] == rows;
    MapEntriesIsTally(rows, counts, order);
    tally := MapEntries(counts, order);
  }

  /** `getTrendingMedications`: a failed query yields nothing; otherwise the
      tally sorted by count, largest first (ties keep first-appearance
      order), cut to six. */
  method GetTrendingMedications(q: QueryResult<TrendingRow>) returns (trending: seq<TrendingMedication>)
    ensures q.failed ==> trending == []
    ensures !q.failed ==> trending == Take(SortDesc(Tally(TrendingRows(q)), PrescriptionCountOf), 6)
    ensures !q.failed ==> |trending| == (if |Tally(TrendingRows(q))| < 6 then |Tally(TrendingRows(q))| else 6)
    ensures NonIncreasing(trending, PrescriptionCountOf)
    ensures forall i :: 0 <= i < |trending| ==> trending[i] in Tally(TrendingRows(q))
  {
    if q.failed {
      return [];
    }
    var rows := if q.data.Some? then q.data.value else [];
    var tally := TallyMedications(rows);
    TopSixOfTally(tally);
    trending := Take(SortDesc(tally, PrescriptionCountOf), 6);
  }

  /** The first six of the sorted tally are tally entries, largest count first. */
  lemma TopSixOfTally(tally: seq<TrendingMedication>)
    ensures var top := Take(SortDesc(tally, PrescriptionCountOf), 6);
      && |top| == (if |tally| < 6 then |tally| else 6)
      && NonIncreasing(top, PrescriptionCountOf)
      && forall i :: 0 <= i < |top| ==> top[i] in tally
  {
    SortDescCorrect(tally, PrescriptionCountOf);
    var sorted := SortDesc(tally, PrescriptionCountOf);
    var top := Take(sorted, 6);
    forall i | 0 <= i < |top|
      ensures top[i] in tally
    {
      assert top[i] == sorted[i];
      assert sorted[i] in multiset(sorted);
    }
  }

  /** The six kept are the top six: every tally entry left out has a count no
      larger than any entry kept. */
  lemma TrendingIsTopSix(rows: seq<TrendingRow>, e: TrendingMedication)
    requires e in Tally(rows)
    requires e !in Take(SortDesc(Tally(rows), PrescriptionCountOf), 6)
    ensures |Take(SortDesc(Tally(rows), PrescriptionCountOf), 6)| == 6
    ensures forall t :: t in Take(SortDesc(Tally(rows), PrescriptionCountOf), 6) ==>
      e.prescriptionCount <= t.prescriptionCount
  {
    SortedTopIsLargest(Tally(rows), PrescriptionCountOf, 6, e);
  }

}
