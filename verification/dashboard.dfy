/** The figures the dashboard derives from the lists it has loaded: the
    low-stock alert count and its polarity, the total revenue, the stock
    availability rate and the seven-table overview. */
module Dashboard {
  import opened Wrappers
  import opened SupabaseService
  import opened PrescriptionChart

  // ----------------------------------------------------------- low stock

  /** The number of low-stock alerts on the inventory card. */
  function LowStockAlertCount(inventory: seq<InventoryItem>): (n: nat)
    ensures n <= |inventory|
  {
    |FilterLowStock(inventory)|
  }

  /** No alert exactly when no item is low; as many alerts as items exactly
      when every item is low. */
  lemma {:induction false} AlertCountBounds(inventory: seq<InventoryItem>)
    ensures LowStockAlertCount(inventory) == 0 <==> forall i :: 0 <= i < |inventory| ==> !IsLowStock(inventory[i])
    ensures LowStockAlertCount(inventory) == |inventory| <==> forall i :: 0 <= i < |inventory| ==> IsLowStock(inventory[i])
  {
    if inventory != [] {
      AlertCountBounds(inventory[1..]);
      assert forall i :: 1 <= i < |inventory| ==> inventory[i] == inventory[1..][i - 1];
    }
  }

  /** An alert count over two lists is the sum of their counts. */
  lemma AlertCountAppend(a: seq<InventoryItem>, b: seq<InventoryItem>)
    ensures LowStockAlertCount(a + b) == LowStockAlertCount(a) + LowStockAlertCount(b)
  {
    FilterLowStockAppend(a, b);
  }

  datatype ChangeType = Positive | Negative

  /** The inventory card's polarity: negative when there is an alert. */
  function InventoryChangeType(inventory: seq<InventoryItem>): (c: ChangeType)
    ensures c == Negative <==> LowStockAlertCount(inventory) > 0
  {
    if LowStockAlertCount(inventory) > 0 then Negative else Positive
  }

  /** The card is negative exactly when some item is below its reorder level. */
  lemma ChangeTypeIsNegativeIffLowItem(inventory: seq<InventoryItem>)
    ensures InventoryChangeType(inventory) == Negative <==> exists i :: 0 <= i < |inventory| && IsLowStock(inventory[i])
  {
    AlertCountBounds(inventory);
  }

  // ------------------------------------------------------------- revenue

  /** The revenue on the growth card (`CostTotal`) of two lists of items is
      the sum of their revenues. */
  lemma {:induction false} RevenueAppend(a: seq<PrescriptionItem>, b: seq<PrescriptionItem>)
    ensures CostTotal(a + b) == CostTotal(a) + CostTotal(b)
  {
    if b != [] {
      assert (a + b)[..|a + b| - 1] == a + b[..|b| - 1];
      RevenueAppend(a, b[..|b| - 1]);
    } else {
      assert a + b == a;
    }
  }

  /** Item costs that are never negative give a revenue that is not
      negative and no smaller than any one item's cost. */
  lemma {:induction false} RevenueBounds(items: seq<PrescriptionItem>)
    requires forall i :: 0 <= i < |items| ==> ItemCost(items[i]) >= 0
    ensures CostTotal(items) >= 0
    ensures forall i :: 0 <= i < |items| ==> CostTotal(items) >= ItemCost(items[i])
  {
    if items != [] {
      var rest := items[1..];
      RevenueBounds(rest);
      forall i | 1 <= i < |items|
        ensures CostTotal(items) >= ItemCost(items[i])
      {
        assert items[i] == rest[i - 1];
      }
    }
  }

  /** Items without a cost add nothing to the revenue. */
  lemma {:induction false} RevenueIgnoresMissingCosts(items: seq<PrescriptionItem>)
    requires forall i :: 0 <= i < |items| ==> items[i].cost.None?
    ensures CostTotal(items) == 0
  {
    if items != [] {
      RevenueIgnoresMissingCosts(items[..|items| - 1]);
    }
  }

  /** When every item carries its prescription date, the chart's monthly
      revenues add up to the revenue on the growth card. */
  lemma ChartRevenueMatchesTotal(items: seq<PrescriptionItem>, monthKey: string -> string)
    requires forall i :: 0 <= i < |items| ==> IsDated(items[i])
    ensures SumRevenue(MonthlyBuckets(items, monthKey)) == CostTotal(items)
  {
    AllDatedKept(items);
    RevenueAddsUp(items, monthKey);
  }

  lemma {:induction false} AllDatedKept(items: seq<PrescriptionItem>)
    requires forall i :: 0 <= i < |items| ==> IsDated(items[i])
    ensures DatedItems(items) == items
  {
    if items != [] {
      AllDatedKept(items[..|items| - 1]);
    }
  }

  // -------------------------------------------------------- availability

  /** The stock-efficiency figure: "0%" for an empty inventory, otherwise
      the ratio of items not below their reorder level to all items. */
  datatype Availability = NoInventory | Available(inStock: nat, total: nat)

  function AvailabilityRate(inventory: seq<InventoryItem>): (a: Availability)
    ensures inventory == [] <==> a.NoInventory?
    ensures a.Available? ==> a.total == |inventory| && a.inStock <= a.total
  {
    if |inventory| > 0 then Available(|inventory| - LowStockAlertCount(inventory), |inventory|)
    else NoInventory
  }

  /** The rate is complete (every item in stock) exactly when no item is low,
      and nothing is in stock exactly when every item is low. */
  lemma AvailabilityExtremes(inventory: seq<InventoryItem>)
    requires inventory != []
    ensures var a := AvailabilityRate(inventory);
      && (a.inStock == a.total <==> forall i :: 0 <= i < |inventory| ==> !IsLowStock(inventory[i]))
      && (a.inStock == 0 <==> forall i :: 0 <= i < |inventory| ==> IsLowStock(inventory[i]))
  {
    AlertCountBounds(inventory);
  }

  /** The in-stock figure counts the items that are not low. */
  lemma {:induction false} InStockCountsNonLowItems(inventory: seq<InventoryItem>)
    requires inventory != []
    ensures AvailabilityRate(inventory).inStock == |NotLow(inventory)|
  {
    NotLowComplement(inventory);
  }

  /** The items at or above their reorder level. */
  function NotLow(rows: seq<InventoryItem>): (r: seq<InventoryItem>)
    ensures forall i :: 0 <= i < |r| ==> !IsLowStock(r[i])
  {
    if rows == [] then []
    else (if IsLowStock(rows[0]) then [] else [rows[0]]) + NotLow(rows[1..])
  }

  lemma {:induction false} NotLowComplement(rows: seq<InventoryItem>)
    ensures |NotLow(rows)| + |FilterLowStock(rows)| == |rows|
  {
    if rows != [] {
      NotLowComplement(rows[1..]);
    }
  }

  // ------------------------------------------------------ schema overview

  datatype OverviewEntry = OverviewEntry(name: string, records: nat, color: string)

  /** The seven-table overview: four counts come from `getTableCounts`, three
      from the lengths of the loaded lists. */
  function SchemaOverview(
    counts: TableCounts, prescriptionItems: nat, purchaseOrders: nat, purchaseOrderItems: nat)
    : (r: seq<OverviewEntry>)
    ensures |r| == 7
    ensures r[0] == OverviewEntry("Inventory", counts.inventory, "bg-blue-50 text-blue-600")
    ensures r[1] == OverviewEntry("Medications", counts.medications, "bg-green-50 text-green-600")
    ensures r[2] == OverviewEntry("Prescriptions", counts.prescriptions, "bg-purple-50 text-purple-600")
    ensures r[3] == OverviewEntry("PrescriptionItems", prescriptionItems, "bg-indigo-50 text-indigo-600")
    ensures r[4] == OverviewEntry("PurchaseOrders", purchaseOrders, "bg-orange-50 text-orange-600")
    ensures r[5] == OverviewEntry("PurchaseOrderItems", purchaseOrderItems, "bg-red-50 text-red-600")
    ensures r[6] == OverviewEntry("Suppliers", counts.suppliers, "bg-teal-50 text-teal-600")
  {
    [ OverviewEntry("Inventory", counts.inventory, "bg-blue-50 text-blue-600"),
      OverviewEntry("Medications", counts.medications, "bg-green-50 text-green-600"),
      OverviewEntry("Prescriptions", counts.prescriptions, "bg-purple-50 text-purple-600"),
      OverviewEntry("PrescriptionItems", prescriptionItems, "bg-indigo-50 text-indigo-600"),
      OverviewEntry("PurchaseOrders", purchaseOrders, "bg-orange-50 text-orange-600"),
      OverviewEntry("PurchaseOrderItems", purchaseOrderItems, "bg-red-50 text-red-600"),
      OverviewEntry("Suppliers", counts.suppliers, "bg-teal-50 text-teal-600") ]
  }

  /** The overview's names are seven distinct tables, and the four entries
      drawn from the count report show the same numbers as the entries of
      the same name in `getAllTableCounts` for that report. */
  lemma OverviewAgreesWithAllCounts(
    report: CountReport, prescriptionItems: nat, purchaseOrders: nat, purchaseOrderItems: nat)
    ensures var o := SchemaOverview(GetTableCounts(report), prescriptionItems, purchaseOrders, purchaseOrderItems);
      forall i, j :: 0 <= i < j < |o| ==> o[i].name != o[j].name
    ensures var o := SchemaOverview(GetTableCounts(report), prescriptionItems, purchaseOrders, purchaseOrderItems);
      var all := GetAllTableCounts(report);
      && o[0].name == all[0].name && o[0].records == all[0].count
      && o[1].name == all[1].name && o[1].records == all[1].count
      && o[2].name == all[3].name && o[2].records == all[3].count
      && o[6].name == all[6].name && o[6].records == all[6].count
  {
  }
}
