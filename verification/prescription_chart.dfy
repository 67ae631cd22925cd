/** The prescription trend chart: prescription items grouped by the month of
    their prescription, and the series the chart draws from those groups. */
module PrescriptionChart {
  import opened Wrappers
  import opened Grouping
  import opened SupabaseService

  /** One month of the grouping: how many dated items fell in it and the sum
      of their costs. */
  datatype Bucket = Bucket(month: string, prescriptions: nat, revenue: int)

  /** An item is grouped only when its prescription's date is present and
      not the empty string (both are falsy). */
  predicate IsDated(item: PrescriptionItem): (dated: bool)
    ensures dated <==> DateOf(item) != ""
    ensures dated ==> item.datePrescribed.Some?
  {
    item.datePrescribed.Some? && item.datePrescribed.value != ""
  }

  /** The prescription date of an item ("" when there is none). */
  function DateOf(item: PrescriptionItem): string
  {
    if item.datePrescribed.Some? then item.datePrescribed.value else ""
  }

  /** The items that are grouped, in item order. */
  function DatedItems(items: seq<PrescriptionItem>): (r: seq<PrescriptionItem>)
    ensures |r| <= |items|
    ensures forall i :: 0 <= i < |r| ==> IsDated(r[i])
  {
    if items == [] then []
    else
      var last := items[|items| - 1];
      DatedItems(items[..|items| - 1]) + (if IsDated(last) then [last] else [])
  }

  /** The (month, cost) pair each grouped item contributes; `monthKey` is
      the short month-and-year rendering of a date string. */
  function Entries(dated: seq<PrescriptionItem>, monthKey: string -> string): (e: seq<(string, int)>)
    ensures |e| == |dated|
    ensures forall i :: 0 <= i < |dated| ==> e[i] == (monthKey(DateOf(dated[i])), ItemCost(dated[i]))
  {
    if dated == [] then []
    else
      var last := dated[|dated| - 1];
      Entries(dated[..|dated| - 1], monthKey) + [(monthKey(DateOf(last)), ItemCost(last))]
  }

  function DatedEntries(items: seq<PrescriptionItem>, monthKey: string -> string): seq<(string, int)>
  {
    Entries(DatedItems(items), monthKey)
  }

  /** The entry one item adds: its (month, cost) pair when it is dated. */
  function EntryOf(item: PrescriptionItem, monthKey: string -> string): seq<(string, int)>
  {
    if IsDated(item) then [(monthKey(DateOf(item)), ItemCost(item))] else []
  }

  /** One more item adds its entry when it is dated, and nothing otherwise. */
  lemma DatedEntriesStep(items: seq<PrescriptionItem>, item: PrescriptionItem, monthKey: string -> string)
    ensures DatedEntries(items + [item], monthKey) == DatedEntries(items, monthKey) + EntryOf(item, monthKey)
  {
  }

  /** One bucket per month of `months`, counting and summing its entries. */
  function BucketsFor(entries: seq<(string, int)>, months: seq<string>): (r: seq<Bucket>)
    ensures |r| == |months|
    ensures forall i :: 0 <= i < |months| ==>
      r[i] == Bucket(months[i], Occurrences(KeysOf(entries), months[i]), TotalFor(entries, months[i]))
  {
    if months == [] then []
    else [Bucket(months[0], Occurrences(KeysOf(entries), months[0]), TotalFor(entries, months[0]))]
           + BucketsFor(entries, months[1..])
  }

  /** `Object.values` of the accumulator: one bucket per month, months in the
      order in which their first item appears. */
  function MonthlyBuckets(items: seq<PrescriptionItem>, monthKey: string -> string): (r: seq<Bucket>)
    ensures |r| <= |DatedItems(items)|
    ensures forall i, j :: 0 <= i < j < |r| ==> r[i].month != r[j].month
  {
    var e := DatedEntries(items, monthKey);
    BucketsFor(e, Distinct(KeysOf(e)))
  }

  // ------------------------------------------------------------ the reduce

  /** Every bucket of the accumulator counts and sums the entries of its month. */
  ghost predicate BucketValuesMatch(entries: seq<(string, int)>, acc: map<string, Bucket>)
  {
    forall k :: k in acc ==> acc[k] == Bucket(k, Occurrences(KeysOf(entries), k), TotalFor(entries, k))
  }

  /** The accumulator and its key order after reading `entries`. */
  ghost predicate AccumulatorMatch(entries: seq<(string, int)>, acc: map<string, Bucket>, keys: seq<string>)
  {
    && keys == Distinct(KeysOf(entries))
    && (forall k :: k in acc <==> k in keys)
    && BucketValuesMatch(entries, acc)
  }

  /** The bucket a reduce step leaves for `p.0`: a fresh zero bucket when the
      month is new, then one more prescription and `p.1` more revenue. */
  function Bumped(acc: map<string, Bucket>, p: (string, int)): Bucket
  {
    var b := if p.0 in acc then acc[p.0] else Bucket(p.0, 0, 0);
    b.(prescriptions := b.prescriptions + 1, revenue := b.revenue + p.1)
  }

  /** What one reduce step leaves in the bucket of month `k`. */
  lemma BucketAt(entries: seq<(string, int)>, p: (string, int), acc: map<string, Bucket>, k: string)
    requires k in acc ==> acc[k] == Bucket(k, Occurrences(KeysOf(entries), k), TotalFor(entries, k))
    requires p.0 in acc ==> acc[p.0] == Bucket(p.0, Occurrences(KeysOf(entries), p.0), TotalFor(entries, p.0))
    requires p.0 !in acc ==> p.0 !in KeysOf(entries)
    requires k in acc || k == p.0
    ensures acc[p.0 := Bumped(acc, p)][k]
      == Bucket(k, Occurrences(KeysOf(entries + [p]), k), TotalFor(entries + [p], k))
  {
    KeysOfAppend(entries, p);
    OccurrencesAppend(KeysOf(entries), p.0, k);
    TotalForAppend(entries, p, k);
    if k == p.0 && p.0 !in acc {
      OccurrencesAbsentKey(KeysOf(entries), k);
      TotalForAbsentKey(entries, k);
    }
  }

  lemma BucketValuesStep(entries: seq<(string, int)>, p: (string, int), acc: map<string, Bucket>)
    requires BucketValuesMatch(entries, acc)
    requires p.0 !in acc ==> p.0 !in KeysOf(entries)
    ensures BucketValuesMatch(entries + [p], acc[p.0 := Bumped(acc, p)])
  {
    var acc' := acc[p.0 := Bumped(acc, p)];
    forall k | k in acc'
      ensures acc'[k] == Bucket(k, Occurrences(KeysOf(entries + [p]), k), TotalFor(entries + [p], k))
    {
      BucketAt(entries, p, acc, k);
    }
  }

  /** One reduce step keeps the accumulator in step with the entries read. */
  lemma AccumulatorStep(
    entries: seq<(string, int)>, p: (string, int), acc: map<string, Bucket>, keys: seq<string>,
    acc': map<string, Bucket>, keys': seq<string>)
    requires AccumulatorMatch(entries, acc, keys)
    requires acc' == acc[p.0 := Bumped(acc, p)]
    requires keys' == if p.0 in acc then keys else keys + [p.0]
    ensures AccumulatorMatch(entries + [p], acc', keys')
  {
    KeysOfAppend(entries, p);
    DistinctAppend(KeysOf(entries), p.0);
    BucketValuesStep(entries, p, acc);
  }

  /** `Object.values(acc)`: the buckets in key order. */
  function ValuesInOrder(acc: map<string, Bucket>, keys: seq<string>): (r: seq<Bucket>)
    requires forall i :: 0 <= i < |keys| ==> keys[i] in acc
    ensures |r| == |keys|
    ensures forall i :: 0 <= i < |keys| ==> r[i] == acc[keys[i]]
  {
    if keys == [] then [] else [acc[keys[0]]] + ValuesInOrder(acc, keys[1..])
  }

  /** The reducer's work on a dated item: a zero bucket for its month when
      the month is new, then one more prescription and `cost` more revenue
      in that bucket. */
  method AddToBucket(acc: map<string, Bucket>, keys: seq<string>, month: string, cost: int)
    returns (acc': map<string, Bucket>, keys': seq<string>)
    ensures acc' == acc[month := Bumped(acc, (month, cost))]
    ensures keys' == if month in acc then keys else keys + [month]
  {
    var bucket: Bucket;
    keys' := keys;
    if month in acc {
      bucket := acc[month];
    } else {
      bucket := Bucket(month, 0, 0);
      keys' := keys + [month];
    }
    bucket := bucket.(prescriptions := bucket.prescriptions + 1);
    bucket := bucket.(revenue := bucket.revenue + cost);
    acc' := acc[month := bucket];
  }

  /** The reducer: an undated item leaves the accumulator as it is; a dated
      one is added to the bucket of its month. The accumulator keeps
      matching the entries read so far. */
  method Accumulate(
    acc: map<string, Bucket>, keys: seq<string>, item: PrescriptionItem, monthKey: string -> string,
    ghost entries: seq<(string, int)>)
    returns (acc': map<string, Bucket>, keys': seq<string>)
    requires AccumulatorMatch(entries, acc, keys)
    ensures AccumulatorMatch(entries + EntryOf(item, monthKey), acc', keys')
    ensures !IsDated(item) ==> acc' == acc && keys' == keys
  {
    if !IsDated(item) {
      assert entries + EntryOf(item, monthKey) == entries;
      return acc, keys;
    }
    var month := monthKey(DateOf(item));
    var cost := ItemCost(item);
    assert EntryOf(item, monthKey) == [(month, cost)];
    acc', keys' := AddToBucket(acc, keys, month, cost);
    AccumulatorStep(entries, (month, cost), acc, keys, acc', keys');
  }

  /** The `reduce` over the items and `Object.values`: the result is the
      monthly grouping of the dated items. */
  method MonthlyData(items: seq<PrescriptionItem>, monthKey: string -> string) returns (buckets: seq<Bucket>)
    ensures buckets == MonthlyBuckets(items, monthKey)
  {
    var acc: map<string, Bucket> := map[];
    var keys: seq<string> := [];
    ghost var entries: seq<(string, int)> := [];
    for i := 0 to |items|
      invariant entries == DatedEntries(items[..i], monthKey)
      invariant AccumulatorMatch(entries, acc, keys)
    {
      assert items[..i + 1] == items[..i] + [items[i]];
      DatedEntriesStep(items[..i], items[i], monthKey);
      acc, keys := Accumulate(acc, keys, items[i], monthKey, entries);
      entries := entries + EntryOf(items[i], monthKey);
    }
    assert items[..|items|] == items;
    buckets := ValuesInOrder(acc, keys);
    ValuesAreBuckets(entries, acc, keys);
  }

  /** The values of a matching accumulator, in key order, are the buckets
      of its entries' months. */
  lemma ValuesAreBuckets(entries: seq<(string, int)>, acc: map<string, Bucket>, keys: seq<string>)
    requires AccumulatorMatch(entries, acc, keys)
    ensures ValuesInOrder(acc, keys) == BucketsFor(entries, Distinct(KeysOf(entries)))
  {
    var v, b := ValuesInOrder(acc, keys), BucketsFor(entries, keys);
    forall i | 0 <= i < |keys|
      ensures v[i] == b[i]
    {
      assert keys[i] in acc;
    }
  }

  // ------------------------------------------------------- grouping facts

  function SumPrescriptions(bs: seq<Bucket>): int
  {
    if bs == [] then 0 else bs[0].prescriptions + SumPrescriptions(bs[1..])
  }

  function SumRevenue(bs: seq<Bucket>): int
  {
    if bs == [] then 0 else bs[0].revenue + SumRevenue(bs[1..])
  }

  lemma {:induction false} SumPrescriptionsIsSumOccurrences(entries: seq<(string, int)>, months: seq<string>)
    ensures SumPrescriptions(BucketsFor(entries, months)) == SumOccurrences(months, KeysOf(entries))
  {
    if months != [] {
      assert BucketsFor(entries, months)[1..] == BucketsFor(entries, months[1..]);
      SumPrescriptionsIsSumOccurrences(entries, months[1..]);
    }
  }

  lemma {:induction false} SumRevenueIsSumTotals(entries: seq<(string, int)>, months: seq<string>)
    ensures SumRevenue(BucketsFor(entries, months)) == SumTotals(months, entries)
  {
    if months != [] {
      assert BucketsFor(entries, months)[1..] == BucketsFor(entries, months[1..]);
      SumRevenueIsSumTotals(entries, months[1..]);
    }
  }

  lemma {:induction false} EntriesTotal(dated: seq<PrescriptionItem>, monthKey: string -> string)
    ensures Total(Entries(dated, monthKey)) == CostTotal(dated)
  {
    if dated != [] {
      var e := Entries(dated, monthKey);
      assert e[..|e| - 1] == Entries(dated[..|dated| - 1], monthKey);
      EntriesTotal(dated[..|dated| - 1], monthKey);
    }
  }

  /** Every dated item is counted in exactly one bucket: the bucket counts
      add up to the number of dated items. */
  lemma PrescriptionsAddUp(items: seq<PrescriptionItem>, monthKey: string -> string)
    ensures SumPrescriptions(MonthlyBuckets(items, monthKey)) == |DatedItems(items)|
  {
    var e := DatedEntries(items, monthKey);
    SumPrescriptionsIsSumOccurrences(e, Distinct(KeysOf(e)));
    CountPartition(KeysOf(e));
  }

  /** Every dated item's cost lands in exactly one bucket: the bucket
      revenues add up to the total cost of the dated items. */
  lemma RevenueAddsUp(items: seq<PrescriptionItem>, monthKey: string -> string)
    ensures SumRevenue(MonthlyBuckets(items, monthKey)) == CostTotal(DatedItems(items))
  {
    var e := DatedEntries(items, monthKey);
    SumRevenueIsSumTotals(e, Distinct(KeysOf(e)));
    TotalPartition(e);
    EntriesTotal(DatedItems(items), monthKey);
  }

  /** The months of some buckets, in order. */
  function MonthsOf(bs: seq<Bucket>): (ms: seq<string>)
    ensures |ms| == |bs|
    ensures forall i :: 0 <= i < |bs| ==> ms[i] == bs[i].month
  {
    if bs == [] then [] else [bs[0].month] + MonthsOf(bs[1..])
  }

  lemma BucketMonthsAreKeys(e: seq<(string, int)>)
    ensures MonthsOf(BucketsFor(e, Distinct(KeysOf(e)))) == Distinct(KeysOf(e))
  {
  }

  lemma BucketsNonEmpty(e: seq<(string, int)>)
    ensures forall b :: b in BucketsFor(e, Distinct(KeysOf(e))) ==> b.prescriptions >= 1
  {
    var ks := KeysOf(e);
    var d := Distinct(ks);
    var bs := BucketsFor(e, d);
    forall i | 0 <= i < |bs|
      ensures bs[i].prescriptions >= 1
    {
      OccurrencesIsMultiplicity(ks, d[i]);
    }
  }

  /** One bucket per month that some dated item falls in, no month twice,
      months in the order of their first item, and no empty bucket. */
  lemma BucketMonths(items: seq<PrescriptionItem>, monthKey: string -> string)
    ensures var ms := MonthsOf(MonthlyBuckets(items, monthKey));
      var ks := KeysOf(DatedEntries(items, monthKey));
      && (forall i :: 0 <= i < |ms| ==> ms[i] in ks)
      && (forall i :: 0 <= i < |ks| ==> ks[i] in ms)
      && (forall i, j :: 0 <= i < j < |ms| ==> ms[i] != ms[j])
      && (forall i, j :: 0 <= i < j < |ms| ==> FirstIndex(ks, ms[i]) < FirstIndex(ks, ms[j]))
      && (forall b :: b in MonthlyBuckets(items, monthKey) ==> b.prescriptions >= 1)
  {
    var e := DatedEntries(items, monthKey);
    BucketMonthsAreKeys(e);
    DistinctInFirstOccurrenceOrder(KeysOf(e));
    BucketsNonEmpty(e);
  }

  // ------------------------------------------------------------ the series

  /** The values a projected point is derived from. */
  datatype BasePoint = BasePoint(prescriptions: nat, revenue: int)

  /** A point of the drawn series: a bucket drawn as measured, or the
      `index`-th point of the projected trend built on `base`. */
  datatype ChartPoint =
    | Measured(month: string, prescriptions: nat, revenue: int)
    | Projected(month: string, base: BasePoint, index: nat)

  /** The month labels of the projected trend. */
  const FallbackMonths: seq<string> :=
    ["Mar 2025", "Apr 2025", "May 2025", "Jun 2025", "Jul 2025", "Aug 2025", "Sep 2025"]

  /** The base used when there is no bucket at all. */
  const DefaultBase: BasePoint := BasePoint(100, 12000)

  /** With fewer than six buckets: seven projected points, one per fallback
      month, built on the first bucket (or the default base when there is
      none). Otherwise the last six buckets as they are. */
  function ChartData(buckets: seq<Bucket>): (r: seq<ChartPoint>)
    ensures |buckets| < 6 ==> |r| == |FallbackMonths|
    ensures |buckets| >= 6 ==> |r| == 6
    ensures |buckets| < 6 ==> forall i :: 0 <= i < |r| ==>
      r[i].Projected? && r[i].month == FallbackMonths[i] && r[i].index == i
      && r[i].base == (if buckets == [] then DefaultBase
                       else BasePoint(buckets[0].prescriptions, buckets[0].revenue))
    ensures |buckets| >= 6 ==> forall i :: 0 <= i < 6 ==>
      var b := buckets[|buckets| - 6 + i];
      r[i] == Measured(b.month, b.prescriptions, b.revenue)
  {
    if |buckets| < 6 then
      var base := if buckets == [] then DefaultBase
                  else BasePoint(buckets[0].prescriptions, buckets[0].revenue);
      seq(|FallbackMonths|, i requires 0 <= i < |FallbackMonths| => Projected(FallbackMonths[i], base, i))
    else
      var last := buckets[|buckets| - 6..];
      seq(6, i requires 0 <= i < 6 => Measured(last[i].month, last[i].prescriptions, last[i].revenue))
  }

  /** With six buckets or more, point `j` shows the month of bucket
      `|bs| - 6 + j`. */
  lemma LastSixMonths(bs: seq<Bucket>)
    requires |bs| >= 6
    ensures forall j :: 0 <= j < |ChartData(bs)| ==>
      ChartData(bs)[j].Measured? && ChartData(bs)[j].month == bs[|bs| - 6 + j].month
  {
  }

  /** No drawn point of six non-empty buckets is empty. */
  lemma LastSixNonEmpty(bs: seq<Bucket>)
    requires |bs| >= 6
    requires forall b :: b in bs ==> b.prescriptions >= 1
    ensures forall j :: 0 <= j < |ChartData(bs)| ==> ChartData(bs)[j].Measured? && ChartData(bs)[j].prescriptions >= 1
  {
    forall i | |bs| - 6 <= i < |bs|
      ensures bs[i].prescriptions >= 1
    {
      assert bs[i] in bs;
    }
  }

  /** Buckets with distinct months are drawn as points with distinct months. */
  lemma LastSixDistinct(bs: seq<Bucket>, ms: seq<string>)
    requires |bs| >= 6
    requires ms == MonthsOf(bs)
    requires forall i, j :: 0 <= i < j < |ms| ==> ms[i] != ms[j]
    ensures forall i, j :: 0 <= i < j < |ChartData(bs)| ==> ChartData(bs)[i].month != ChartData(bs)[j].month
  {
    var r := ChartData(bs);
    var n := |bs| - 6;
    LastSixMonths(bs);
    forall i, j | 0 <= i < j < |r|
      ensures r[i].month != r[j].month
    {
      assert r[i].month == ms[n + i] && r[j].month == ms[n + j];
    }
  }

  /** Every bucket left out is listed before every bucket drawn: its
      month's first item comes earlier in the item list. */
  lemma LastSixListedLast(bs: seq<Bucket>, ms: seq<string>, ks: seq<string>)
    requires |bs| >= 6
    requires ms == MonthsOf(bs)
    requires forall i :: 0 <= i < |ms| ==> ms[i] in ks
    requires forall i, j :: 0 <= i < j < |ms| ==> FirstIndex(ks, ms[i]) < FirstIndex(ks, ms[j])
    ensures forall i, j :: 0 <= i < |bs| - 6 && 0 <= j < |ChartData(bs)| ==>
      (ChartData(bs)[j].month in ks && FirstIndex(ks, bs[i].month) < FirstIndex(ks, ChartData(bs)[j].month))
  {
    var r := ChartData(bs);
    var n := |bs| - 6;
    LastSixMonths(bs);
    forall i, j | 0 <= i < n && 0 <= j < |r|
      ensures r[j].month in ks && FirstIndex(ks, bs[i].month) < FirstIndex(ks, r[j].month)
    {
      assert bs[i].month == ms[i];
      assert r[j].month == ms[n + j];
      assert FirstIndex(ks, ms[i]) < FirstIndex(ks, ms[n + j]);
    }
  }

  /** The last six of a list of buckets with distinct, ordered, non-empty
      months are drawn as six distinct measured months, each first listed
      after every month left out. */
  lemma LastSixOfOrderedBuckets(bs: seq<Bucket>, ms: seq<string>, ks: seq<string>)
    requires |bs| >= 6
    requires ms == MonthsOf(bs)
    requires forall i :: 0 <= i < |ms| ==> ms[i] in ks
    requires forall i, j :: 0 <= i < j < |ms| ==> ms[i] != ms[j]
    requires forall i, j :: 0 <= i < j < |ms| ==> FirstIndex(ks, ms[i]) < FirstIndex(ks, ms[j])
    requires forall b :: b in bs ==> b.prescriptions >= 1
    ensures var r := ChartData(bs);
      && (forall i, j :: 0 <= i < j < |r| ==> r[i].month != r[j].month)
      && (forall i :: 0 <= i < |r| ==> r[i].Measured? && r[i].prescriptions >= 1)
      && (forall i, j :: 0 <= i < |bs| - 6 && 0 <= j < |r| ==>
            (r[j].month in ks && FirstIndex(ks, bs[i].month) < FirstIndex(ks, r[j].month)))
  {
    LastSixDistinct(bs, ms);
    LastSixNonEmpty(bs);
    LastSixListedLast(bs, ms, ks);
  }

  /** With six or more months of data the chart draws six distinct months,
      the six whose first item comes last in the item list, each with a
      non-zero count. */
  lemma ChartShowsLastListedMonths(items: seq<PrescriptionItem>, monthKey: string -> string)
    requires |MonthlyBuckets(items, monthKey)| >= 6
    ensures var bs := MonthlyBuckets(items, monthKey);
      var ks := KeysOf(DatedEntries(items, monthKey));
      var r := ChartData(bs);
      && (forall i, j :: 0 <= i < j < |r| ==> r[i].month != r[j].month)
      && (forall i :: 0 <= i < |r| ==> r[i].Measured? && r[i].prescriptions >= 1)
      && (forall i, j :: 0 <= i < |bs| - 6 && 0 <= j < |r| ==>
            (r[j].month in ks && FirstIndex(ks, bs[i].month) < FirstIndex(ks, r[j].month)))
  {
    BucketMonths(items, monthKey);
    LastSixOfOrderedBuckets(MonthlyBuckets(items, monthKey), MonthsOf(MonthlyBuckets(items, monthKey)), KeysOf(DatedEntries(items, monthKey)));
  }

  // ------------------------------------------------ the newest-first input

  /* The dashboard hands the chart its items newest first, so the first
     month in key order is the newest one. `slice(-6)` then keeps the six
     months listed last: the oldest six, drawn newest to oldest, while the
     projected series runs oldest to newest. */

  /** As written, on buckets: with seven or more buckets of distinct
      months, the first bucket's month is not drawn. */
  lemma LastSixSkipsFirst(bs: seq<Bucket>, first: string)
    requires |bs| >= 7
    requires bs[0].month == first
    requires forall i, j :: 0 <= i < j < |bs| ==> bs[i].month != bs[j].month
    ensures forall j :: 0 <= j < |ChartData(bs)| ==> ChartData(bs)[j].month != first
  {
    LastSixMonths(bs);
  }

  /** As written, on buckets: the drawn points keep the order in which
      their months are first listed, so a newest-first list is drawn
      newest to oldest. */
  lemma LastSixKeepListOrder(bs: seq<Bucket>, ms: seq<string>, ks: seq<string>)
    requires |bs| >= 6
    requires ms == MonthsOf(bs)
    requires forall i :: 0 <= i < |ms| ==> ms[i] in ks
    requires forall i, j :: 0 <= i < j < |ms| ==> FirstIndex(ks, ms[i]) < FirstIndex(ks, ms[j])
    ensures var r := ChartData(bs);
      forall i, j :: 0 <= i < j < |r| ==>
        r[i].month in ks && r[j].month in ks && FirstIndex(ks, r[i].month) < FirstIndex(ks, r[j].month)
  {
    var r := ChartData(bs);
    var n := |bs| - 6;
    LastSixMonths(bs);
    forall j | 0 <= j < |r|
      ensures r[j].month == ms[n + j]
    {
    }
  }

  /** As written: with seven or more distinct months, the month of the
      first listed item is never drawn. */
  lemma ChartDropsFirstListedMonth(items: seq<PrescriptionItem>, monthKey: string -> string)
    requires |MonthlyBuckets(items, monthKey)| >= 7
    ensures var ks := KeysOf(DatedEntries(items, monthKey));
      var r := ChartData(MonthlyBuckets(items, monthKey));
      && ks != []
      && (forall j :: 0 <= j < |r| ==> r[j].month != ks[0])
  {
    FirstMonthIsFirstKey(items, monthKey);
    LastSixSkipsFirst(MonthlyBuckets(items, monthKey), KeysOf(DatedEntries(items, monthKey))[0]);
  }

  /** The first bucket holds the month of the first dated item. */
  lemma FirstMonthIsFirstKey(items: seq<PrescriptionItem>, monthKey: string -> string)
    requires MonthlyBuckets(items, monthKey) != []
    ensures KeysOf(DatedEntries(items, monthKey)) != []
    ensures MonthlyBuckets(items, monthKey)[0].month == KeysOf(DatedEntries(items, monthKey))[0]
  {
    DistinctStartsWithFirst(KeysOf(DatedEntries(items, monthKey)));
  }

  /** Corrected: the first six buckets, the newest months of a newest-first
      list, drawn oldest to newest like the projected series. */
  function NewestSixChart(buckets: seq<Bucket>): (r: seq<ChartPoint>)
    ensures |buckets| < 6 ==> r == ChartData(buckets)
    ensures |buckets| >= 6 ==> |r| == 6
    ensures |buckets| >= 6 ==> forall i :: 0 <= i < 6 ==>
      var b := buckets[5 - i];
      r[i] == Measured(b.month, b.prescriptions, b.revenue)
  {
    if |buckets| < 6 then ChartData(buckets)
    else seq(6, i requires 0 <= i < 6 => Measured(buckets[5 - i].month, buckets[5 - i].prescriptions, buckets[5 - i].revenue))
  }

  /** Corrected, on buckets: each drawn month is first listed before every
      month left out, so a newest-first list is drawn as its six newest
      months. */
  lemma FirstSixListedFirst(bs: seq<Bucket>, ms: seq<string>, ks: seq<string>)
    requires |bs| >= 6
    requires ms == MonthsOf(bs)
    requires forall i :: 0 <= i < |ms| ==> ms[i] in ks
    requires forall i, j :: 0 <= i < j < |ms| ==> FirstIndex(ks, ms[i]) < FirstIndex(ks, ms[j])
    ensures var r := NewestSixChart(bs);
      forall i, j :: 6 <= i < |bs| && 0 <= j < |r| ==>
        r[j].month in ks && FirstIndex(ks, r[j].month) < FirstIndex(ks, bs[i].month)
  {
    var r := NewestSixChart(bs);
    forall j | 0 <= j < |r|
      ensures r[j].month == ms[5 - j]
    {
    }
  }

  /** Corrected, on buckets: the points run against list order, so a
      newest-first list is drawn oldest to newest. */
  lemma FirstSixAgainstListOrder(bs: seq<Bucket>, ms: seq<string>, ks: seq<string>)
    requires |bs| >= 6
    requires ms == MonthsOf(bs)
    requires forall i :: 0 <= i < |ms| ==> ms[i] in ks
    requires forall i, j :: 0 <= i < j < |ms| ==> FirstIndex(ks, ms[i]) < FirstIndex(ks, ms[j])
    ensures var r := NewestSixChart(bs);
      forall i, j :: 0 <= i < j < |r| ==>
        r[i].month in ks && r[j].month in ks && FirstIndex(ks, r[j].month) < FirstIndex(ks, r[i].month)
  {
    var r := NewestSixChart(bs);
    forall j | 0 <= j < |r|
      ensures r[j].month == ms[5 - j]
    {
    }
  }

  /** Every monthly bucket counts at least one item. */
  lemma MonthlyBucketsNonEmpty(items: seq<PrescriptionItem>, monthKey: string -> string)
    ensures forall i :: 0 <= i < |MonthlyBuckets(items, monthKey)| ==> MonthlyBuckets(items, monthKey)[i].prescriptions >= 1
  {
    var e := DatedEntries(items, monthKey);
    BucketsNonEmpty(e);
    var bs := MonthlyBuckets(items, monthKey);
    forall i | 0 <= i < |bs|
      ensures bs[i].prescriptions >= 1
    {
      assert bs[i] in bs;
    }
  }

  /** Corrected, on buckets: six distinct, non-empty measured months, the
      first bucket's month drawn last. */
  lemma FirstSixShowsFirst(bs: seq<Bucket>)
    requires |bs| >= 6
    requires forall i, j :: 0 <= i < j < |bs| ==> bs[i].month != bs[j].month
    requires forall i :: 0 <= i < |bs| ==> bs[i].prescriptions >= 1
    ensures var r := NewestSixChart(bs);
      && r[5].month == bs[0].month
      && (forall i, j :: 0 <= i < j < |r| ==> r[i].month != r[j].month)
      && (forall i :: 0 <= i < |r| ==> r[i].Measured? && r[i].prescriptions >= 1)
  {
  }

  /** Corrected: with six or more months the chart ends with the month of
      the first listed item, the newest month of a newest-first list. */
  lemma NewestSixChartEndsWithFirstListed(items: seq<PrescriptionItem>, monthKey: string -> string)
    requires |MonthlyBuckets(items, monthKey)| >= 6
    ensures KeysOf(DatedEntries(items, monthKey)) != []
    ensures NewestSixChart(MonthlyBuckets(items, monthKey))[5].month == KeysOf(DatedEntries(items, monthKey))[0]
  {
    FirstMonthIsFirstKey(items, monthKey);
  }

  /** Corrected: with six or more months the chart draws six distinct
      months, each with a non-zero count. */
  lemma NewestSixChartDistinctMonths(items: seq<PrescriptionItem>, monthKey: string -> string)
    requires |MonthlyBuckets(items, monthKey)| >= 6
    ensures var r := NewestSixChart(MonthlyBuckets(items, monthKey));
      && (forall i, j :: 0 <= i < j < |r| ==> r[i].month != r[j].month)
      && (forall i :: 0 <= i < |r| ==> r[i].Measured? && r[i].prescriptions >= 1)
  {
    MonthlyBucketsNonEmpty(items, monthKey);
    FirstSixShowsFirst(MonthlyBuckets(items, monthKey));
  }
}
