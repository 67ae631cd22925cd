# Pharmacy dashboard: the client-side logic

The pharmacy dashboard is a React client over a hosted Postgres store. This
project models the logic the client runs on the rows the store returns:

- **the read model** (`SupabaseService`, `supabase_service.dfy`):
  - the low-stock rule `quantity_in_stock < reorder_level`;
  - count-only queries defaulting to 0;
  - the recent-activity feed: up to two prescriptions, one low-stock alert
    and one purchase order, sorted newest first and cut to four;
  - the trending-medication tally: a `Map` filled row by row, sorted by
    count and cut to six.
- **the prescription chart** (`PrescriptionChart`, `prescription_chart.dfy`):
  - the `reduce` that groups prescription items into monthly buckets;
  - the choice between a projected series over seven fixed months and the
    last six real buckets.
- **the authentication provider** (`AuthContext`, `auth_context.dfy`): a
  class holding the session user, the `pharmacy_user` entry of the browser's
  storage, the loading flag and the `users` relation. It offers restore,
  login, register and logout.
- **the dashboard's derived figures** (`Dashboard`, `dashboard.dfy`): the
  low-stock alert count and its polarity, total revenue, the stock
  availability rate and the seven-table overview.

Generic pieces live in their own modules:

- `Grouping`: the key order of a JavaScript `Map`, or of a plain object
  whose keys are not integer-like, and counting and summing by key.
- `Sorting`: the stable `Array.prototype.sort` with a descending comparator,
  and `slice(0, n)`.
- `Numerals`: `${n}` for the non-negative integers below 2^53, which
  JavaScript renders as plain decimal digits.
- `Wrappers`: `Option`.

Each query result is an input. It is either the rows in the order the query
asked for, or null, plus whether the store reported an error. A
`.limit(n)` keeps the first `n` of those rows. Timestamps are the integers
`Date.getTime()` yields. The month label of a date string is an abstract
function `monthKey`. Costs are integers.

The methods follow the source's loops and in-place updates:

- `GetRecentActivity` pushes onto a list. It is proved equal to the
  function `RecentActivity`.
- `TallyMedications` fills a map in a loop. It is proved equal to `Tally`.
  Each step, `CountRow`, keeps the map matching the rows read so far.
- `MonthlyData` and its reducer `Accumulate` update an accumulator
  dictionary. `MonthlyData` is proved equal to `MonthlyBuckets`.
  `Accumulate` keeps the accumulator matching the items read so far.
  `AddToBucket` states the accumulator it leaves.
- `AuthProvider` changes its fields. Each method's contract relates the
  new state to the old one.

The properties are proved about the specification functions.

Three behaviours of the code that the model keeps as written:

- The projected series has seven points, March to September 2025, not six.
- A successful login stores the user row as it was read. Its `updated_at` is
  the previous sign-in time, not the one just written.
- A purchase order whose supplier join is missing shows the text
  "undefined" in its feed message.

## Model

| member | source | states |
|---|---|---|
| SupabaseService.NameOr | project-bolt-sb1-pkwphejx/project/src/services/supabaseService.ts:295 | a present, non-empty name is kept; a missing or empty one becomes the fallback |
| SupabaseService.ItemCost | project-bolt-sb1-pkwphejx/project/src/components/Dashboard.tsx:264 | a missing cost counts as 0, a present one as itself |
| SupabaseService.CostTotal | project-bolt-sb1-pkwphejx/project/src/components/Dashboard.tsx:264 | the left-to-right `reduce` of the costs equals the first cost plus the total of the rest, so the order of summing does not matter; an empty list totals 0 |
| SupabaseService.IsLowStock | project-bolt-sb1-pkwphejx/project/src/services/supabaseService.ts:259 | an item is low exactly when its reorder level exceeds its stock; an item exactly at its reorder level is not low |
| SupabaseService.FilterLowStock | project-bolt-sb1-pkwphejx/project/src/services/supabaseService.ts:258-260 | every kept row is low on stock; no more rows than the input |
| SupabaseService.FilterLowStockExact | project-bolt-sb1-pkwphejx/project/src/services/supabaseService.ts:258-260 | the filter keeps exactly the low-stock rows, each as often as it occurs in the input |
| SupabaseService.FilterLowStockAppend | project-bolt-sb1-pkwphejx/project/src/services/supabaseService.ts:258-260 | the filter keeps input order: filtering a concatenation concatenates the filtered parts |
| SupabaseService.LowStockItems | project-bolt-sb1-pkwphejx/project/src/services/supabaseService.ts:241-263 | a failed query or a null result gives no rows; otherwise the low-stock rows of the result |
| SupabaseService.FilterKeepsAscending | project-bolt-sb1-pkwphejx/project/src/services/supabaseService.ts:250-260 | filtering rows in ascending stock order leaves them in ascending stock order |
| SupabaseService.LeastStockFirst | project-bolt-sb1-pkwphejx/project/src/services/supabaseService.ts:289-291 | the first low-stock row, the one the feed reports, has the least stock of all low-stock rows |
| SupabaseService.CountOrZero | project-bolt-sb1-pkwphejx/project/src/services/supabaseService.ts:233-236 | a reported count is returned unchanged; a missing count is 0 |
| SupabaseService.GetTableCounts | project-bolt-sb1-pkwphejx/project/src/services/supabaseService.ts:224-238 | each of the four counts is the one reported for its relation, or 0 when none was reported |
| SupabaseService.GetAllTableCounts | project-bolt-sb1-pkwphejx/project/src/services/supabaseService.ts:394-425 | exactly eight entries with fixed names and colours in a fixed order; each count is the reported count of its relation (`users` is shown as "Users"), or 0 |
| SupabaseService.TableCountsAgree | project-bolt-sb1-pkwphejx/project/src/services/supabaseService.ts:415-424 | for one store state the two count functions agree on the four relations they share |
| SupabaseService.PrescriptionEntries | project-bolt-sb1-pkwphejx/project/src/services/supabaseService.ts:276-286 | one prescription entry per row, in row order |
| SupabaseService.PrescriptionEntry | project-bolt-sb1-pkwphejx/project/src/services/supabaseService.ts:278-284 | a `prescription` entry whose id is marked as coming from the prescriptions |
| SupabaseService.LowStockEntry | project-bolt-sb1-pkwphejx/project/src/services/supabaseService.ts:292-298 | an `inventory` entry whose id is marked as coming from the low-stock list |
| SupabaseService.PurchaseEntry | project-bolt-sb1-pkwphejx/project/src/services/supabaseService.ts:313-319 | a `purchase` entry whose id is marked as coming from the purchase orders |
| SupabaseService.PushedActivities | project-bolt-sb1-pkwphejx/project/src/services/supabaseService.ts:270-320 | one entry per recent prescription row, plus one when some item is low, plus one when an order was returned; never more than four |
| SupabaseService.PushPrescriptions | project-bolt-sb1-pkwphejx/project/src/services/supabaseService.ts:277-285 | the `forEach` loop pushes exactly the prescription entries of the rows, in order |
| SupabaseService.PushedKindCounts | project-bolt-sb1-pkwphejx/project/src/services/supabaseService.ts:270-320 | before sorting, at most two prescription entries, one inventory entry and one purchase entry, so at most four in all |
| SupabaseService.PushedInventoryEntry | project-bolt-sb1-pkwphejx/project/src/services/supabaseService.ts:289-299 | the only inventory entry the feed can hold is the alert for the first low-stock row |
| SupabaseService.PrescriptionEntryIdsDiffer | project-bolt-sb1-pkwphejx/project/src/services/supabaseService.ts:279 | prescriptions with different keys get different entry ids |
| SupabaseService.PrescriptionEntryIds | project-bolt-sb1-pkwphejx/project/src/services/supabaseService.ts:277-285 | rows with distinct keys give entries with distinct ids |
| SupabaseService.RunIdsDistinct | project-bolt-sb1-pkwphejx/project/src/services/supabaseService.ts:279-314 | ids whose second character tells the three sources apart stay distinct when the three runs are joined |
| SupabaseService.PushedIdsDistinct | project-bolt-sb1-pkwphejx/project/src/services/supabaseService.ts:279-314 | the prefixes `prescription-`, `low-stock-` and `purchase-` and the decimal row ids make every pushed id distinct, given distinct prescription keys |
| SupabaseService.GetRecentActivity | project-bolt-sb1-pkwphejx/project/src/services/supabaseService.ts:266-326 | the pushes and the sort give exactly `RecentActivity` of the three query results |
| SupabaseService.RecentActivity | project-bolt-sb1-pkwphejx/project/src/services/supabaseService.ts:322-325 | the feed has at most four entries, newest first; it is a permutation of everything pushed, so the cut drops nothing; entries with equal timestamps keep push order |
| SupabaseService.FeedIdsDistinct | project-bolt-sb1-pkwphejx/project/src/services/supabaseService.ts:322-325 | the sorted feed keeps the pushed entries' distinct ids |
| SupabaseService.TallyEntries | project-bolt-sb1-pkwphejx/project/src/services/supabaseService.ts:366-381 | about `Tally`, the reference tally that the loop, the trending list and `TrendingIsTopSix` are stated against: one tally entry per distinct medication id, each id of a row has an entry, and each entry's count is the number of rows with its id, at least one |
| SupabaseService.TallyCountsSum | project-bolt-sb1-pkwphejx/project/src/services/supabaseService.ts:366-378 | the tally's counts add up to the number of rows |
| SupabaseService.LastNameIsLatestRow | project-bolt-sb1-pkwphejx/project/src/services/supabaseService.ts:370-376 | an entry's name is that of the last row with its id, or "Unknown" when that row has none |
| SupabaseService.MapEntries | project-bolt-sb1-pkwphejx/project/src/services/supabaseService.ts:381-387 | one entry per key of the map, in key order, carrying its stored name and count |
| SupabaseService.CountsMatchBump | project-bolt-sb1-pkwphejx/project/src/services/supabaseService.ts:372-374 | a row whose id is already in the map: the name is replaced, the count grows by one, the key order is unchanged, and the map still matches the rows read |
| SupabaseService.CountsMatchAdd | project-bolt-sb1-pkwphejx/project/src/services/supabaseService.ts:375-377 | a row with a new id: a new entry with count one goes to the end of the key order, and the map still matches the rows read |
| SupabaseService.CountRow | project-bolt-sb1-pkwphejx/project/src/services/supabaseService.ts:368-378 | one `forEach` step keeps the map and its key order matching the rows read so far, the new row included |
| SupabaseService.MapEntriesIsTally | project-bolt-sb1-pkwphejx/project/src/services/supabaseService.ts:381-387 | a map matching all the rows converts to exactly the tally of the rows |
| SupabaseService.TallyMedications | project-bolt-sb1-pkwphejx/project/src/services/supabaseService.ts:366-387 | the loop over the rows and the conversion of the map give exactly the tally of the rows, in first-appearance order |
| SupabaseService.GetTrendingMedications | project-bolt-sb1-pkwphejx/project/src/services/supabaseService.ts:342-392 | a failed query gives nothing; otherwise the first six of the tally sorted by count: exactly six when more than six medications occur, all of them otherwise, largest count first, ties in first-appearance order |
| SupabaseService.TopSixOfTally | project-bolt-sb1-pkwphejx/project/src/services/supabaseService.ts:388-389 | the first six of the sorted tally are tally entries in non-increasing count order, six of them or the whole tally when it is shorter |
| SupabaseService.TrendingIsTopSix | project-bolt-sb1-pkwphejx/project/src/services/supabaseService.ts:388-389 | a tally entry is left out only when six are kept, and its count is no larger than any kept count |
| Sorting.Take | project-bolt-sb1-pkwphejx/project/src/services/supabaseService.ts:325 | `slice(0, n)` is a prefix: exactly `n` elements when the list is longer, the whole list otherwise |
| Sorting.SortDesc | project-bolt-sb1-pkwphejx/project/src/services/supabaseService.ts:323-324 | the sort gives a permutation of its input in non-increasing key order |
| Sorting.SortDescCorrect | project-bolt-sb1-pkwphejx/project/src/services/supabaseService.ts:323-324 | the sort is stable: elements with equal keys keep their input order |
| Sorting.TakeKeepsLargest | project-bolt-sb1-pkwphejx/project/src/services/supabaseService.ts:389 | the first `n` of a sorted list are at least as large as every element left out |
| Sorting.SortedTopIsLargest | project-bolt-sb1-pkwphejx/project/src/services/supabaseService.ts:388-389 | an element left out of the first `n` of the sort shows that `n` were kept, and its key is no larger than any kept key |
| Sorting.PermutationKeepsDistinctIds | project-bolt-sb1-pkwphejx/project/src/services/supabaseService.ts:323-325 | reordering entries neither creates nor removes a shared id |
| Numerals.Decimal | project-bolt-sb1-pkwphejx/project/src/services/supabaseService.ts:279 | an interpolated id is a non-empty string of decimal digits |
| Numerals.DecimalInjective | project-bolt-sb1-pkwphejx/project/src/services/supabaseService.ts:293 | two ids render to the same numeral exactly when they are equal |
| Grouping.Distinct | project-bolt-sb1-pkwphejx/project/src/components/charts/PrescriptionChart.tsx:27 | the keys of a `Map` or object: each key once, every inserted key present, no others |
| Grouping.DistinctInFirstOccurrenceOrder | project-bolt-sb1-pkwphejx/project/src/services/supabaseService.ts:381 | keys are enumerated in the order of their first insertion |
| Grouping.OccurrencesIsMultiplicity | project-bolt-sb1-pkwphejx/project/src/services/supabaseService.ts:372-377 | counting a key row by row gives its multiplicity, at least one for a key that occurs |
| Grouping.CountPartition | project-bolt-sb1-pkwphejx/project/src/components/charts/PrescriptionChart.tsx:21 | counting every row under its distinct key counts every row exactly once |
| Grouping.TotalPartition | project-bolt-sb1-pkwphejx/project/src/components/charts/PrescriptionChart.tsx:22 | summing every amount under its distinct key adds every amount exactly once |
| PrescriptionChart.DatedItems | project-bolt-sb1-pkwphejx/project/src/components/charts/PrescriptionChart.tsx:12 | only items with a present, non-empty prescription date are grouped |
| PrescriptionChart.IsDated | project-bolt-sb1-pkwphejx/project/src/components/charts/PrescriptionChart.tsx:12 | an item is grouped exactly when its date string is present and not empty, the two cases in which the date is truthy |
| PrescriptionChart.Entries | project-bolt-sb1-pkwphejx/project/src/components/charts/PrescriptionChart.tsx:14-22 | each grouped item contributes its month label and its cost, a missing cost counting 0 |
| PrescriptionChart.DatedEntriesStep | project-bolt-sb1-pkwphejx/project/src/components/charts/PrescriptionChart.tsx:12-22 | one more item adds its entry when dated and nothing otherwise |
| PrescriptionChart.BucketsFor | project-bolt-sb1-pkwphejx/project/src/components/charts/PrescriptionChart.tsx:17-22 | each month's bucket counts its entries and sums their costs |
| PrescriptionChart.AccumulatorStep | project-bolt-sb1-pkwphejx/project/src/components/charts/PrescriptionChart.tsx:17-22 | the accumulator `AddToBucket` leaves keeps matching the entries read, the new entry included |
| PrescriptionChart.AddToBucket | project-bolt-sb1-pkwphejx/project/src/components/charts/PrescriptionChart.tsx:18-22 | the accumulator left is the old one with its month's bucket created at zero when missing and then bumped by one prescription and the cost; a new month is appended to the key order |
| PrescriptionChart.Accumulate | project-bolt-sb1-pkwphejx/project/src/components/charts/PrescriptionChart.tsx:11-25 | the reducer: an undated item changes nothing; a dated one bumps its month's bucket, created at zero when new; the accumulator keeps matching the entries |
| PrescriptionChart.ValuesInOrder | project-bolt-sb1-pkwphejx/project/src/components/charts/PrescriptionChart.tsx:27 | `Object.values` lists the buckets in key order |
| PrescriptionChart.ValuesAreBuckets | project-bolt-sb1-pkwphejx/project/src/components/charts/PrescriptionChart.tsx:27 | `Object.values` of an accumulator that matches the entries gives the buckets of their months in first-appearance order |
| PrescriptionChart.MonthlyData | project-bolt-sb1-pkwphejx/project/src/components/charts/PrescriptionChart.tsx:11-27 | the reduce and `Object.values` give exactly the monthly grouping of the dated items |
| PrescriptionChart.MonthlyBuckets | project-bolt-sb1-pkwphejx/project/src/components/charts/PrescriptionChart.tsx:11-27 | the monthly grouping: no month twice and never more buckets than dated items |
| PrescriptionChart.PrescriptionsAddUp | project-bolt-sb1-pkwphejx/project/src/components/charts/PrescriptionChart.tsx:21 | the bucket counts add up to the number of dated items |
| PrescriptionChart.RevenueAddsUp | project-bolt-sb1-pkwphejx/project/src/components/charts/PrescriptionChart.tsx:22 | the bucket revenues add up to the total cost of the dated items |
| PrescriptionChart.BucketMonths | project-bolt-sb1-pkwphejx/project/src/components/charts/PrescriptionChart.tsx:17-27 | one bucket per month that some dated item falls in, no month twice, months in the order of their first item, no empty bucket |
| PrescriptionChart.ChartData | project-bolt-sb1-pkwphejx/project/src/components/charts/PrescriptionChart.tsx:30-48 | under six buckets: seven projected points labelled Mar to Sep 2025, built on the first bucket or on 100 prescriptions and 12000 revenue; otherwise exactly the last six buckets in order |
| PrescriptionChart.LastSixOfOrderedBuckets | project-bolt-sb1-pkwphejx/project/src/components/charts/PrescriptionChart.tsx:46-48 | the last six of ordered, distinct, non-empty buckets are six distinct measured months, each first listed after every month left out |
| PrescriptionChart.ChartShowsLastListedMonths | project-bolt-sb1-pkwphejx/project/src/components/charts/PrescriptionChart.tsx:11-48 | with six or more months of data the chart draws six distinct months with non-zero counts: those whose first item comes last in the item list |
| PrescriptionChart.LastSixSkipsFirst | project-bolt-sb1-pkwphejx/project/src/components/charts/PrescriptionChart.tsx:46-48 | with seven or more buckets of distinct months, the first bucket's month is not drawn |
| PrescriptionChart.LastSixKeepListOrder | project-bolt-sb1-pkwphejx/project/src/components/charts/PrescriptionChart.tsx:27-48 | the drawn points keep the order in which their months are first listed |
| PrescriptionChart.ChartDropsFirstListedMonth | project-bolt-sb1-pkwphejx/project/src/components/charts/PrescriptionChart.tsx:11-48 | with seven or more months of data, the month of the first listed dated item is never drawn |
| PrescriptionChart.FirstMonthIsFirstKey | project-bolt-sb1-pkwphejx/project/src/components/charts/PrescriptionChart.tsx:17-27 | the first bucket holds the month of the first dated item |
| Grouping.DistinctStartsWithFirst | project-bolt-sb1-pkwphejx/project/src/components/charts/PrescriptionChart.tsx:17-19 | the first key created is the first key listed |
| PrescriptionChart.MonthlyBucketsNonEmpty | project-bolt-sb1-pkwphejx/project/src/components/charts/PrescriptionChart.tsx:17-21 | every monthly bucket counts at least one item |
| PrescriptionChart.NewestSixChart | project-bolt-sb1-pkwphejx/project/src/components/charts/PrescriptionChart.tsx:46-48 | corrected: under six buckets the chart is unchanged; otherwise six points, the first six buckets in reverse |
| PrescriptionChart.FirstSixShowsFirst | project-bolt-sb1-pkwphejx/project/src/components/charts/PrescriptionChart.tsx:46-48 | corrected, on buckets: six distinct measured months with non-zero counts, the first bucket's month drawn last |
| PrescriptionChart.FirstSixListedFirst | project-bolt-sb1-pkwphejx/project/src/components/charts/PrescriptionChart.tsx:46-48 | corrected, on buckets: each drawn month is first listed before every month left out |
| PrescriptionChart.FirstSixAgainstListOrder | project-bolt-sb1-pkwphejx/project/src/components/charts/PrescriptionChart.tsx:46-48 | corrected, on buckets: the drawn points run against list order, so a newest-first list is drawn oldest to newest |
| PrescriptionChart.NewestSixChartEndsWithFirstListed | project-bolt-sb1-pkwphejx/project/src/components/charts/PrescriptionChart.tsx:11-48 | corrected: with six or more months the last point is the month of the first listed dated item |
| PrescriptionChart.NewestSixChartDistinctMonths | project-bolt-sb1-pkwphejx/project/src/components/charts/PrescriptionChart.tsx:11-48 | corrected: with six or more months the chart draws six distinct months with non-zero counts |
| Dashboard.LowStockAlertCount | project-bolt-sb1-pkwphejx/project/src/components/Dashboard.tsx:196 | the alert count is at most the inventory size |
| Dashboard.AlertCountBounds | project-bolt-sb1-pkwphejx/project/src/components/Dashboard.tsx:196 | no alert exactly when no item is low; one alert per item exactly when every item is low |
| Dashboard.AlertCountAppend | project-bolt-sb1-pkwphejx/project/src/components/Dashboard.tsx:196 | the count over two lists is the sum of their counts |
| Dashboard.InventoryChangeType | project-bolt-sb1-pkwphejx/project/src/components/Dashboard.tsx:197 | the card is negative exactly when the alert count is positive |
| Dashboard.ChangeTypeIsNegativeIffLowItem | project-bolt-sb1-pkwphejx/project/src/components/Dashboard.tsx:197 | the card is negative exactly when some item is below its reorder level |
| Dashboard.RevenueAppend | project-bolt-sb1-pkwphejx/project/src/components/Dashboard.tsx:264 | the revenue of two lists is the sum of their revenues |
| Dashboard.RevenueBounds | project-bolt-sb1-pkwphejx/project/src/components/Dashboard.tsx:264 | with non-negative costs the revenue is non-negative and at least any single item's cost |
| Dashboard.RevenueIgnoresMissingCosts | project-bolt-sb1-pkwphejx/project/src/components/Dashboard.tsx:264 | items without a cost add nothing |
| Dashboard.ChartRevenueMatchesTotal | project-bolt-sb1-pkwphejx/project/src/components/Dashboard.tsx:264 | when every item is dated, the chart's monthly revenues add up to the total revenue |
| Dashboard.AvailabilityRate | project-bolt-sb1-pkwphejx/project/src/components/Dashboard.tsx:272-274 | no rate for an empty inventory; otherwise the in-stock count lies between 0 and the inventory size |
| Dashboard.AvailabilityExtremes | project-bolt-sb1-pkwphejx/project/src/components/Dashboard.tsx:272-274 | the rate is full exactly when no item is low and zero exactly when every item is low |
| Dashboard.InStockCountsNonLowItems | project-bolt-sb1-pkwphejx/project/src/components/Dashboard.tsx:273 | the numerator counts exactly the items at or above their reorder level |
| Dashboard.SchemaOverview | project-bolt-sb1-pkwphejx/project/src/components/Dashboard.tsx:231-238 | seven fixed names and colours in a fixed order; four counts from the count report, three from list lengths |
| Dashboard.OverviewAgreesWithAllCounts | project-bolt-sb1-pkwphejx/project/src/components/Dashboard.tsx:231-238 | the seven names are distinct, and the four entries drawn from the count report agree with the same-named entries of the all-tables report |
| AuthContext.SessionUser | project-bolt-sb1-pkwphejx/project/src/contexts/AuthContext.tsx:75-80 | the session user carries the row's id, email and both timestamps, and no password hash |
| AuthContext.FindByEmail | project-bolt-sb1-pkwphejx/project/src/contexts/AuthContext.tsx:46-58 | nothing exactly when no row has the email; otherwise the first row with it |
| AuthContext.StampById | project-bolt-sb1-pkwphejx/project/src/contexts/AuthContext.tsx:70-73 | rows with the id get the new `updated_at`; every other row and field is unchanged |
| AuthContext.StampKeepsLookups | project-bolt-sb1-pkwphejx/project/src/contexts/AuthContext.tsx:70-73 | the sign-in stamp changes no email lookup and keeps emails distinct |
| AuthContext.AppendNewEmail | project-bolt-sb1-pkwphejx/project/src/contexts/AuthContext.tsx:105-124 | inserting a row for an unused email keeps emails distinct |
| AuthContext.AppendedEmailFound | project-bolt-sb1-pkwphejx/project/src/contexts/AuthContext.tsx:105-124 | after inserting a row for an unused email, the lookup of that email finds the new row |
| AuthContext.AuthProvider.constructor | project-bolt-sb1-pkwphejx/project/src/contexts/AuthContext.tsx:31-32 | nobody signed in and loading, over the given storage and table |
| AuthContext.AuthProvider.RestoreSession | project-bolt-sb1-pkwphejx/project/src/contexts/AuthContext.tsx:34-41 | the stored user, if any, becomes the session user; loading ends; storage and table unchanged |
| AuthContext.AuthProvider.Login | project-bolt-sb1-pkwphejx/project/src/contexts/AuthContext.tsx:43-90 | a store error, an unknown email and a wrong password fail with their messages and change nothing; success exactly otherwise; then the row as read is the session user and the stored user, and the stamp is written when the store accepts it |
| AuthContext.AuthProvider.Register | project-bolt-sb1-pkwphejx/project/src/contexts/AuthContext.tsx:92-148 | a check error, a taken email and a failed or empty insert fail with their messages and change nothing; success exactly otherwise, appending one row with the hashed password; the session is never touched; distinct emails stay distinct |
| AuthContext.AuthProvider.Logout | project-bolt-sb1-pkwphejx/project/src/contexts/AuthContext.tsx:150-153 | nobody signed in and nothing stored; the table unchanged |
| AuthContext.RegisteredAccountIsFound | project-bolt-sb1-pkwphejx/project/src/contexts/AuthContext.tsx:114-124 | after a successful registration the email lookup finds the new row, which holds the given hash and yields the new session user |

## Left out

- The store queries themselves are not modelled: selection, joins, ordering,
  `.limit`, count-only requests and the date window. Their results are
  inputs, assumed to arrive in the order each query requests.
- The other fetchers of the service (medications, inventory, prescriptions,
  prescription items, suppliers, purchase orders, purchase order items) are
  not part of this model. They only forward a query's result.
- `Promise.all`, the dashboard's `fetchData` state slots and the real-time
  subscriptions are left out. They are concurrency and event plumbing.
- `bcrypt.compare` and `bcrypt.hash` are parameters (`matches`, `hash`),
  because they are a foreign library. The salt rounds are not modelled.
- `average_daily` (`Math.round(count * 0.85)`) is not modelled. It is
  floating point.
- PrescriptionChart.ChartData: a projected point records its month, its
  base and its index. The floating-point `Math.sin` values it would show are
  not computed.
- Dashboard.AvailabilityRate gives the in-stock and total counts. The
  floating-point percentage and its `toFixed(1)` rendering are left out.
- Locale formatting (`toLocaleString`, `toLocaleDateString`) is left out:
  timestamps are integers and the month label is an abstract function. A
  date string that `Date` cannot parse is not modelled either.
- SupabaseService.GetRecentActivity: the display `time` string of each entry
  is not modelled.
- The JSON encoding of the stored user is left out. Storage is one
  `Option<User>` cell, so malformed stored content is not modelled.
- AuthContext.AuthProvider.Login: the catch-all "An unexpected error
  occurred" for a thrown exception is not modelled. Neither is the error of
  the timestamp update, which the code ignores; `stampWritten` says whether
  that update took effect.
- AuthContext.AuthProvider.Register: the catch-all for a thrown exception is
  not modelled. An insert that reports no row is assumed to have added none.
  Both timestamps are one `now`, where the code reads the clock twice. The
  unused `userInfo` is not modelled.
- AuthContext.AuthProvider.Register: the check for a taken email and the
  insert are separate awaited queries, with the password hashing between
  them, so two overlapping registrations of one email can both pass the
  check and both insert. The model runs each call as one step, and its
  "distinct emails stay distinct" holds only for calls that do not
  interleave.
- PrescriptionChart.ChartShowsLastListedMonths: the chart is stated in terms
  of the position of each month's first item in the item list. The
  dashboard passes the items newest first, ordered by item id, which the
  model does not relate to the prescription dates; see "## Findings".
- AuthContext.FindByEmail: the `users` relation is a sequence, and a lookup
  limited to one row finds the first match. The code does not make emails
  unique; the model proves that registration keeps them distinct when they
  already are.
- PrescriptionEntry, LowStockEntry and PurchaseEntry: their contracts state
  only the entry's kind and the second character of its id. The
  distinctness of their ids is stated by SupabaseService.PushedIdsDistinct.
- Money is modelled as integers, not as JavaScript numbers.
- PrescriptionChart.ValuesInOrder: the buckets are listed in insertion order,
  which is what `Object.values` does for keys that are not integer-like. A
  month label such as "2025" would be listed first by JavaScript; the model
  takes the labels `monthKey` produces to be never integer-like.
- Numerals.Decimal: JavaScript renders numbers of 10^21 and above in
  exponent form, and ids of 2^53 and above lose precision before they are
  rendered. Neither is modelled; ids are taken to be below 2^53.
- The `console.error` logging of the low-stock and trending queries and of
  the sign-in and registration errors is left out. It only writes to the
  console.

## Findings

| source | as written | input that shows it | evidently intended | confidence | as-written member | corrected member |
|---|---|---|---|---|---|---|
| project-bolt-sb1-pkwphejx/project/src/components/charts/PrescriptionChart.tsx:47 | `chartData.slice(-6)` keeps the six months listed last. The items arrive newest first (`getPrescriptionItems` orders by `prescription_item_id` descending, and the dashboard passes them on unchanged), so the months are listed newest first and the last six are the oldest, drawn newest to oldest | items of seven distinct months, listed newest first: the newest month is not drawn | the six newest months, drawn oldest to newest like the projected series; the fallback at line 32 already takes the first bucket as the current month | low: not executed; it rests on item ids rising with the prescription date | PrescriptionChart.ChartDropsFirstListedMonth | PrescriptionChart.NewestSixChartEndsWithFirstListed |
