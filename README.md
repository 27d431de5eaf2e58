# Warehouse rent analysis — a verified model of the aggregation pipeline

The warehouse analysis dashboard reads four spreadsheet sheets: the merged rent rows (合併), the two
inventory snapshots (2024年6月庫存量, 2025年6月庫存量) and the merged rows with quantities
(合併(含庫存量)). It turns them into ranked summaries that compare June 2024 (年月 202406) with
June 2025 (年月 202506):

- the **major-category summary**: the ten largest major categories by 2025 rent, then an "Others"
  (其他) entry. Others holds the lower-ranked categories together with raw materials (原材物料).
- the **detailed summary**: the ten largest mid categories other than raw materials. Each has its
  sub-categories ranked by change amount.
- the **warehouse analysis** for each period: each mid category's rent in the six external
  warehouses, and each sub-category's share of the period's rent and inventory.
- the **new and discontinued items**: product codes found in one period and not in the other.
- the **product statistics**: quantities and amounts at three levels (major, mid, sub), with
  changes, percentages and a 1-based rank. A totals row sums the displayed list.

This project models that pipeline in Dafny and proves what each step promises. The parts that
fill maps in loops are methods, each proved equal to a specification function. These are the
inventory index, the per-warehouse map and the code index of the lifecycle lists. The lodash
chains (`groupBy`, `filter`, `orderBy`, `slice`, `sumBy`) are functions over sequences, and
lemmas state their properties.

Modules, one per file:

| file | module | contents |
|---|---|---|
| numeric.dfy | `Numeric` | `Math.round`, the change amount, the zero-base change-rate rule, rounding drift |
| collections.dfy | `Collections` | lodash semantics: `Where`/`WhereNot` (filter), `Keys` (groupBy order), `Sum` (sumBy), the stable descending sort, the exclude-then-truncate ranking |
| rows.dfy | `Rows` | the rent row, the two period codes, the raw-materials and "Others" labels, per-period rent |
| inventory.dfy | `Inventory` | `createInventoryMap` and the lookup with default 0 |
| category_summary.dfy | `CategorySummary` | `calculateMajorCategorySummary`, `calculateDetailedSummary` |
| warehouse.dfy | `Warehouse` | `calculateWarehouseAnalysis` |
| lifecycle.dfy | `Lifecycle` | `calculateNewItems`, `calculateDiscontinuedItems` |
| product_stats.dfy | `ProductStats` | `calculateProductStats` and the totals-row arithmetic |

Modelling conventions:

- Amounts and quantities are exact reals.
- `Math.round(x)` is `Round(x) = ⌊x + 1/2⌋`.
- lodash `groupBy` yields groups in the order their keys first occur (`Keys`), and each group holds
  its rows in input order (`Where`).
- `orderBy` and `Array.prototype.sort` with a descending numeric comparator are the same stable
  descending sort (`SortDesc`). It is proved to be a permutation, sorted and stable.
- A JavaScript `Map` filled by repeated `set` iterates in first-insertion order and keeps the last
  value set for each key (`Keys` with `LastByCode`).

The model follows the code as written. Behaviours a reader may not expect:

- The change amount (變化金額, 金額差異) is `Math.round` of the unrounded difference. It is not the
  difference of the rounded figures. The two can differ by one (`Numeric.ChangeIsNotDifferenceOfRounded`).
- The zero-base rule applies to every base ≤ 0, not only to a base of 0. A base ≤ 0 gives 100 when
  the new value is positive and 0 otherwise.
- The detailed summary drops the *mid* category named 原材物料 after grouping by mid category. It does
  not drop rows whose major category is raw materials.
- The warehouse analysis is not truncated. The display applies its limit later.
- New and discontinued items report the *last* row of each code, because each `Map.set` overwrites
  the one before. Its own amount, rounded, is reported.
- The "Others" rents add the lower-ranked entries' rounded rents to the raw-material sum, which is
  not rounded, and round the total.

## Model

| member | source | states |
|---|---|---|
| Numeric.Round | src/components/WarehouseAnalysisSystem.tsx:95-96 | `Math.round` lands within half a unit of its argument: `x - 0.5 < Round(x) <= x + 0.5` |
| Numeric.RoundsToRound | src/components/WarehouseAnalysisSystem.tsx:95-96 | `RoundsTo(r, x)`, the half-open bound `x - 0.5 < r <= x + 0.5`, holds of `Math.round(x)` and of no other integer, so a tie at .5 goes up |
| Numeric.ChangeRate | src/components/WarehouseAnalysisSystem.tsx:117 | zero-base rule: for a positive base, rate × base = (after − before) × 100; for a base ≤ 0, 100 if the new value is positive, else 0 |
| Numeric.ChangeRateSign | src/components/WarehouseAnalysisSystem.tsx:117 | for a positive base, the rate is positive, negative or zero exactly when the value rose, fell or stayed |
| Numeric.ChangeRateExamples | src/components/WarehouseAnalysisSystem.tsx:98 | 0 → 500 is 100 %, 0 → 0 is 0 %, 200 → 150 is −25 % |
| Numeric.ChangeRateOrZero | src/components/WarehouseAnalysisSystem.tsx:206 | the detailed summary's mid-level rate: the ordinary rate for a positive base, and 0 for a base ≤ 0 even when 2025 rent is positive |
| Numeric.Change | src/components/WarehouseAnalysisSystem.tsx:144 | the change amount is `Math.round` of the unrounded difference (`RoundsTo`, ties up), and within one of the difference of the rounded figures |
| Numeric.ChangeIsNotDifferenceOfRounded | src/components/WarehouseAnalysisSystem.tsx:97 | 0.4 → 0.6 has change amount 0, while the rounded figures differ by 1 |
| Collections.Keys | src/components/WarehouseAnalysisSystem.tsx:106 | `groupBy` keys are distinct, and the key of every row is among them; KeysFirstOccurrence states their order |
| Collections.KeysFirstOccurrence | src/components/WarehouseAnalysisSystem.tsx:106 | `groupBy` keys come in order of first occurrence: when key i is listed before key j, a row with key i comes before every row with key j |
| Collections.KeysOccur | src/components/WarehouseAnalysisSystem.tsx:106 | every group key has at least one row, so no group is empty |
| Collections.WhereMember | src/components/WarehouseAnalysisSystem.tsx:110-111 | a row is in a filter's result exactly when it is in the input and matches; the complement holds for `WhereNot` |
| Collections.Partition | src/components/WarehouseAnalysisSystem.tsx:105-114 | for an additive measure such as a sum, the groups' measures add up to the measure of all rows |
| Collections.SortDesc | src/components/WarehouseAnalysisSystem.tsx:150 | the descending sort returns a permutation of its input |
| Collections.SortDescSorted | src/components/WarehouseAnalysisSystem.tsx:150 | the sort's result is non-increasing in its key |
| Collections.SortDescStable | src/components/WarehouseAnalysisSystem.tsx:150 | the sort is stable: elements of equal key keep their input order |
| Collections.SumSortDesc | src/components/WarehouseAnalysisSystem.tsx:150 | sorting changes no sum over the list |
| Collections.WhereNotSortDesc | src/components/WarehouseAnalysisSystem.tsx:209-211 | dropping a label after sorting equals sorting after dropping it |
| Collections.TopExceptSorted | src/components/WarehouseAnalysisSystem.tsx:209-212 | sort, exclude, then take n: the result has min(n, number not excluded) entries, non-increasing |
| Collections.TopExceptLargest | src/components/WarehouseAnalysisSystem.tsx:209-212 | every entry not excluded and left out ranks no higher than each entry kept, so the exclusion happens before the cut |
| Collections.TopExceptMembers | src/components/WarehouseAnalysisSystem.tsx:209-212 | every kept entry comes from the input and does not carry the excluded label |
| Collections.WithoutKeepsOrder | src/components/WarehouseAnalysisSystem.tsx:105-109 | dropping the raw-material key keeps the other group keys in their first-occurrence order: of two kept keys, the earlier stands earlier in the input |
| Rows.PeriodRentsAdditive | src/components/WarehouseAnalysisSystem.tsx:113-114 | each period's rent sum adds up over a concatenation of rows |
| Rows.InPeriod | src/components/WarehouseAnalysisSystem.tsx:52-53 | the period filter keeps exactly the rows of that period: a row is in the result if and only if it is in the input with that 年月 |
| Rows.RefilterPeriods | src/components/WarehouseAnalysisSystem.tsx:52-53 | splitting the rows by period and concatenating the halves (`data2024.concat(data2025)`), then refiltering by one period, gives back exactly that period's rows |
| Inventory.IndexOf | src/components/WarehouseAnalysisSystem.tsx:40-48 | the index the inventory rows define holds only non-empty codes; IndexDomain, IndexLastWins and LookupMissing give its domain, its values and the `|| 0` default |
| Inventory.CreateInventoryMap | src/components/WarehouseAnalysisSystem.tsx:40-48 | the in-place fill loop yields exactly the index the rows define |
| Inventory.IndexDomain | src/components/WarehouseAnalysisSystem.tsx:43-44 | a code has an entry exactly when some row has that non-empty code and a numeric closing quantity |
| Inventory.IndexLastWins | src/components/WarehouseAnalysisSystem.tsx:42-45 | a code's entry is the closing quantity of its last qualifying row |
| Inventory.LookupMissing | src/components/WarehouseAnalysisSystem.tsx:218 | a code with no qualifying row looks up as 0 (`|| 0`) |
| Inventory.IndexIgnoresUnindexed | src/components/WarehouseAnalysisSystem.tsx:43 | a row without a code or without a numeric quantity, wherever it stands, leaves the index unchanged |
| CategorySummary.Compare | src/components/WarehouseAnalysisSystem.tsx:86-99 | a mid-category comparison: both rents are `Math.round` of their sums and the change amount is `Math.round` of the unrounded difference (`RoundsTo`, ties up), the change is within one of the difference of the rounded rents, and the rate follows the zero-base rule |
| CategorySummary.BreakdownSpec | src/components/WarehouseAnalysisSystem.tsx:84-102 | the mid-category breakdown lists each category once, in non-increasing 2025 rent, each compared over its own non-empty group |
| CategorySummary.BreakdownCovers | src/components/WarehouseAnalysisSystem.tsx:84-86 | every mid category of the rows appears in the breakdown |
| CategorySummary.BreakdownRentsAddUp | src/components/WarehouseAnalysisSystem.tsx:84-102 | the mid categories' rounded 2024 and 2025 rents add up to the group's 2024 and 2025 rent, within half a unit per mid category |
| CategorySummary.MajorEntriesSpec | src/components/WarehouseAnalysisSystem.tsx:105-147 | one entry per non-raw major category, in first-occurrence order, each built from its own non-empty group |
| CategorySummary.MajorEntryOfGroup | src/components/WarehouseAnalysisSystem.tsx:105-147 | an entry of the major list is a non-raw category with rows, built from exactly those rows |
| CategorySummary.RankedMajorsSpec | src/components/WarehouseAnalysisSystem.tsx:105-151 | the ranking has one entry per non-raw major category, is non-increasing in 2025 rent, and has no raw-material entry |
| CategorySummary.RankedMajorsCover | src/components/WarehouseAnalysisSystem.tsx:105-109 | every non-raw major category of the rows is ranked |
| CategorySummary.MajorSummaryOf | src/components/WarehouseAnalysisSystem.tsx:71-171 | the major-category summary has min(10, n) + 1 entries for n ranked categories, the last labelled 其他; MajorSummaryShape, OthersEntryFigures and MajorSummaryAccountsForAll state its contents |
| CategorySummary.MajorSummaryShape | src/components/WarehouseAnalysisSystem.tsx:105-170 | the summary has min(n, 10) + 1 entries for n non-raw major categories. The first are the top of the ranking: distinct, non-increasing, not raw materials, and none below a category left out. The last is the "Others" entry built from the rest and the raw-material rows |
| CategorySummary.OthersEntryFigures | src/components/WarehouseAnalysisSystem.tsx:158-168 | Others is labelled 其他, its rents and change are `Math.round` of their sums (`RoundsTo`, ties up), and its rate is 0. Its details are a permutation of the raw-material breakdown and all lower-ranked details, sorted by 2025 rent |
| CategorySummary.MajorGroupsPartition | src/components/WarehouseAnalysisSystem.tsx:73-114 | the non-raw major groups' 2025 rents plus the raw-material rent equal the total 2025 rent |
| CategorySummary.RankedMajorsRent | src/components/WarehouseAnalysisSystem.tsx:105-151 | the ranked entries' rounded rents plus the raw rent are within half a unit per entry of the total 2025 rent |
| CategorySummary.MajorSummaryAccountsForAll | src/components/WarehouseAnalysisSystem.tsx:154-170 | the summary's 2025 rents, Others included, are within half a unit per ranked category plus one of the total 2025 rent, so nothing is lost or counted twice |
| CategorySummary.RankingWithOthers | src/components/WarehouseAnalysisSystem.tsx:154-161 | cutting a ranking and folding the rest and the raw rent into Others adds at most half a unit of rounding |
| CategorySummary.TopAndOthers | src/components/WarehouseAnalysisSystem.tsx:154-161 | replacing a ranking's tail by one rounded total moves the sum by at most half a unit |
| CategorySummary.SubComparisonsSpec | src/components/WarehouseAnalysisSystem.tsx:179-196 | the sub-category list has one entry per sub category of either period, non-increasing in change amount, each compared over that sub category's rows of each period |
| CategorySummary.SubComparisonsCover | src/components/WarehouseAnalysisSystem.tsx:179 | every sub category of either period appears |
| CategorySummary.SubComparisonsRentsAddUp | src/components/WarehouseAnalysisSystem.tsx:179-196 | the sub categories' rounded 2024 and 2025 rents add up to the mid category's 2024 and 2025 rent (`totalRent2024`, `totalRent2025`), within half a unit per sub category |
| CategorySummary.MidEntriesSpec | src/components/WarehouseAnalysisSystem.tsx:174-208 | one entry per mid category in first-occurrence order, each built from its own non-empty group |
| CategorySummary.DetailedSummary | src/components/WarehouseAnalysisSystem.tsx:173-214 | the detailed summary has at most ten entries, each a mid-category entry of the rows and none of them raw materials; DetailedSummaryShape and DetailedSummaryKeepsTheLargest state the rest |
| CategorySummary.DetailedSummaryShape | src/components/WarehouseAnalysisSystem.tsx:173-213 | the detailed summary has min(n, 10) entries for n non-raw mid categories. They are distinct, non-increasing in 2025 rent and never raw materials, and each is its category's own entry |
| CategorySummary.DetailedSummaryKeepsTheLargest | src/components/WarehouseAnalysisSystem.tsx:209-212 | every non-raw mid category left out ranks no higher than each kept one, so the exclusion precedes the cut |
| Warehouse.Share | src/components/WarehouseAnalysisSystem.tsx:237-238 | share × whole = part × 100 for a positive whole, and 0 otherwise |
| Warehouse.EmptyWarehouse | src/components/WarehouseAnalysisSystem.tsx:247-252 | a warehouse with no rows in the group gets 0 |
| Warehouse.FillWarehouseMap | src/components/WarehouseAnalysisSystem.tsx:223-226 | the fill loop yields exactly the per-warehouse map of rounded rents |
| Warehouse.FillForGroups | src/components/WarehouseAnalysisSystem.tsx:224-226 | the loop over warehouse groups yields the map of those warehouses' rounded rents |
| Warehouse.WarehouseMapOfSpec | src/components/WarehouseAnalysisSystem.tsx:224-225 | a warehouse has an entry exactly when it is among the groups, and the entry is its rounded rent |
| Warehouse.WarehouseRentOrZero | src/components/WarehouseAnalysisSystem.tsx:247 | `warehouseMap[w] || 0` is the warehouse's rounded rent, and 0 when it has no rows |
| Warehouse.WarehouseColumns | src/components/WarehouseAnalysisSystem.tsx:245-254 | the six fixed warehouse columns each hold that warehouse's rounded rent within the mid category |
| Warehouse.SubSharesSpec | src/components/WarehouseAnalysisSystem.tsx:228-243 | one entry per sub category, non-increasing in rounded rent, each computed from its own non-empty group |
| Warehouse.SubShareFigures | src/components/WarehouseAnalysisSystem.tsx:231-238 | a sub category's rent is `Math.round` of its sum (`RoundsTo`, ties up) and its stock is the looked-up total. Both shares are against the period's totals, 0 for a non-positive total |
| Warehouse.SubStocksAddUp | src/components/WarehouseAnalysisSystem.tsx:228-231 | the sub categories' stocks add up exactly to the mid category's stock |
| Warehouse.SubRentsAddUp | src/components/WarehouseAnalysisSystem.tsx:228-232 | the sub categories' rounded rents add up to the mid category's rent within half a unit each |
| Warehouse.WarehouseAnalysis | src/components/WarehouseAnalysisSystem.tsx:216-259 | at most one entry per mid category of the period, none of them raw materials; WarehouseAnalysisSpec, WarehouseAnalysisEntries and WarehouseAnalysisCovers state the rest |
| Warehouse.WarehouseAnalysisSpec | src/components/WarehouseAnalysisSystem.tsx:219-258 | one entry per non-raw mid category, non-increasing in total, each category once |
| Warehouse.WarehouseAnalysisEntries | src/components/WarehouseAnalysisSystem.tsx:216-258 | no entry is raw materials, and each entry is computed from its own rows against the period's rent and stock totals |
| Warehouse.WarehouseAnalysisEntry | src/components/WarehouseAnalysisSystem.tsx:216-258 | one entry of the analysis is not raw materials and is computed from its own mid category's rows |
| Warehouse.WarehouseAnalysisCovers | src/components/WarehouseAnalysisSystem.tsx:219-257 | every non-raw mid category of the period appears |
| Lifecycle.CodesOfSpec | src/components/WarehouseAnalysisSystem.tsx:262 | a code is in the code set exactly when some row has it |
| Lifecycle.CodeSet | src/components/WarehouseAnalysisSystem.tsx:262 | the loop builds exactly that code set |
| Lifecycle.LastByCodeSpec | src/components/WarehouseAnalysisSystem.tsx:263-264 | the map holds exactly the codes of the rows, each mapped to the last row with that code |
| Lifecycle.LastByCodeDomain | src/components/WarehouseAnalysisSystem.tsx:263-264 | a code has an entry in the map exactly when some row has it |
| Lifecycle.LastByCodeLast | src/components/WarehouseAnalysisSystem.tsx:263-264 | a code's entry is a row of that code with no later row of the same code |
| Lifecycle.IndexByCode | src/components/WarehouseAnalysisSystem.tsx:263-264 | the `set` loop yields that map, and its iteration order is first-insertion order |
| Lifecycle.KeysInLastByCode | src/components/WarehouseAnalysisSystem.tsx:267 | every code iterated has an entry in the map |
| Lifecycle.ItemsOnlyIn | src/components/WarehouseAnalysisSystem.tsx:262-278 | the shared body of both calculations: code set, map, pushes and sort yield the specified list |
| Lifecycle.PushEachUnmatched | src/components/WarehouseAnalysisSystem.tsx:266-277 | the `forEach` loop over the map pushes, in key order, one item per code missing from the other period's set |
| Lifecycle.NewItems | src/components/WarehouseAnalysisSystem.tsx:261-279 | the new items are the 2025 codes missing from 2024, with the 2025 inventory |
| Lifecycle.DiscontinuedItems | src/components/WarehouseAnalysisSystem.tsx:281-299 | the discontinued items are the 2024 codes missing from 2025, with the 2024 inventory |
| Lifecycle.PushUnmatchedMembers | src/components/WarehouseAnalysisSystem.tsx:267-276 | an item is pushed exactly when it is the item of an iterated code that is not in the other set |
| Lifecycle.PushUnmatchedDistinct | src/components/WarehouseAnalysisSystem.tsx:267-276 | iterating distinct codes pushes each code at most once |
| Lifecycle.LastByCodeKeys | src/components/WarehouseAnalysisSystem.tsx:264 | each map entry is a row with that code |
| Lifecycle.PushUnmatched | src/components/WarehouseAnalysisSystem.tsx:267-276 | the pushes over the iterated codes give at most one item per code |
| Lifecycle.OnlyIn | src/components/WarehouseAnalysisSystem.tsx:262-278 | at most one item per code of this period; OnlyInCodes, OnlyInShape and OnlyInLastRowWins state which codes, in what order and from which row |
| Lifecycle.OnlyInShape | src/components/WarehouseAnalysisSystem.tsx:278 | the list is non-increasing in rounded rent, and each code appears at most once |
| Lifecycle.OnlyInCodes | src/components/WarehouseAnalysisSystem.tsx:262-277 | a code is listed exactly when some row of this period has it and no row of the other period does |
| Lifecycle.OnlyInListed | src/components/WarehouseAnalysisSystem.tsx:262-277 | a listed item's code occurs in this period and in no row of the other |
| Lifecycle.OnlyInComplete | src/components/WarehouseAnalysisSystem.tsx:262-277 | every code of this period that the other period lacks is listed |
| Lifecycle.OnlyInLastRowWins | src/components/WarehouseAnalysisSystem.tsx:264-274 | the reported item is built from the last row of its code, with its own rounded amount and the inventory lookup |
| Lifecycle.NewAndDiscontinuedDisjoint | src/components/WarehouseAnalysisSystem.tsx:261-299 | no code is both new and discontinued |
| ProductStats.FiguresFrom | src/components/WarehouseAnalysisSystem.tsx:314-322 | the quantities are kept exact, so the quantity change is exactly their difference. The amounts are `Math.round` of their sums and the amount change is `Math.round` of the unrounded difference (`RoundsTo`, ties up); it is within one of the difference of the rounded amounts. Both rates follow the zero-base rule on the unrounded sums |
| ProductStats.Ranked | src/components/WarehouseAnalysisSystem.tsx:404-407 | attaching ranks keeps the length of the list |
| ProductStats.RankedSpec | src/components/WarehouseAnalysisSystem.tsx:404-407 | ranking keeps every entry in place and gives the one at position i the rank i + 1 |
| ProductStats.RankedOrder | src/components/WarehouseAnalysisSystem.tsx:403-407 | ranks are 1..N in list order, and order and distinctness carry over |
| ProductStats.RankedMember | src/components/WarehouseAnalysisSystem.tsx:404-407 | a statistic is ranked exactly when it was in the sorted list |
| ProductStats.SumRanked | src/components/WarehouseAnalysisSystem.tsx:404-407 | attaching ranks changes no sum over the figures |
| ProductStats.SubStatsSpec | src/components/WarehouseAnalysisSystem.tsx:341-371 | the sub-level list is non-increasing in amount change, each sub category once |
| ProductStats.SubStatsMember | src/components/WarehouseAnalysisSystem.tsx:341-369 | each listed sub statistic is the figures of its own sub category's rows |
| ProductStats.SubStatsCover | src/components/WarehouseAnalysisSystem.tsx:341-343 | every sub category of the rows is listed |
| ProductStats.MidStatsSpec | src/components/WarehouseAnalysisSystem.tsx:325-387 | the mid-level list is non-increasing in amount change, each mid category once |
| ProductStats.MidStatsMember | src/components/WarehouseAnalysisSystem.tsx:325-385 | each listed mid statistic is the figures and sub list of its own mid category's rows |
| ProductStats.MidStatsCover | src/components/WarehouseAnalysisSystem.tsx:325-327 | every mid category of the rows is listed, raw materials included |
| ProductStats.SubQuantitiesAddUp | src/components/WarehouseAnalysisSystem.tsx:347-348 | the sub categories' 2025 quantities add up exactly to the mid category's |
| ProductStats.MidQuantitiesAddUp | src/components/WarehouseAnalysisSystem.tsx:331-332 | the mid categories' 2025 quantities add up exactly to the major category's |
| ProductStats.SubAmountsAddUp | src/components/WarehouseAnalysisSystem.tsx:341-369 | the sub categories' rounded 2025 amounts add up to the mid category's 2025 amount, within half a unit per sub category |
| ProductStats.MidAmountsAddUp | src/components/WarehouseAnalysisSystem.tsx:325-387 | the mid categories' rounded 2025 amounts add up to the major category's 2025 amount, within half a unit per mid category |
| ProductStats.StatsOf | src/components/WarehouseAnalysisSystem.tsx:304-408 | one ranked entry per non-raw major category of the merged rows; StatsOfSpec, StatsOfEntries and StatsOfCover state the rest |
| ProductStats.StatsOfSpec | src/components/WarehouseAnalysisSystem.tsx:402-407 | over the merged rows: ranks 1..N, non-increasing 2025 amount, each major category once |
| ProductStats.StatsOfEntries | src/components/WarehouseAnalysisSystem.tsx:305-308 | each entry is a non-raw major category of the rows, with the statistics of its own rows |
| ProductStats.StatsOfCover | src/components/WarehouseAnalysisSystem.tsx:305-308 | every non-raw major category of the rows is listed |
| ProductStats.StatsOfQuantities | src/components/WarehouseAnalysisSystem.tsx:305-315 | the listed 2025 quantities plus the raw-material quantity equal the total 2025 quantity |
| ProductStats.StatsOfAmounts | src/components/WarehouseAnalysisSystem.tsx:305-317 | the listed rounded 2025 amounts plus the raw-material amount are within half a unit per entry of the total 2025 amount |
| ProductStats.ProductStats | src/components/WarehouseAnalysisSystem.tsx:301-409 | one ranked entry per non-raw major category of either period; ProductStatsSpec, ProductStatsEntries and ProductStatsCover state the rest |
| ProductStats.ProductStatsSpec | src/components/WarehouseAnalysisSystem.tsx:301-409 | the product statistics have ranks 1..N in list order, 金額2025 non-increasing, and each major category once |
| ProductStats.ProductStatsEntries | src/components/WarehouseAnalysisSystem.tsx:305-308 | raw materials are never listed, and each entry is its major category's statistics over both periods' rows |
| ProductStats.ProductStatsCover | src/components/WarehouseAnalysisSystem.tsx:302-327 | every non-raw major category of either period is listed, with every mid category of its rows beneath it, raw materials included: the exclusion is at the major level only |
| ProductStats.ProductStatsQuantities | src/components/WarehouseAnalysisSystem.tsx:301-315 | the listed 2025 quantities plus the sheet's raw-material 2025 quantity equal the sheet's 2025 quantity |
| ProductStats.ProductStatsAmounts | src/components/WarehouseAnalysisSystem.tsx:301-317 | the listed rounded 2025 amounts plus the raw-material amount are within half a unit per entry of the sheet's 2025 amount |
| ProductStats.TotalsRow | src/components/WarehouseAnalysisSystem.tsx:1013-1022 | the totals row's changes are the exact differences of its sums, and both of its rates follow the zero-base rule on those sums |
| ProductStats.TotalsOfAllStats | src/components/WarehouseAnalysisSystem.tsx:1013-1016 | over the whole list, the totals row's 2025 quantity plus raw materials is the sheet's, and its 2025 amount is the sheet's within the rounding of each entry |

## Left out

- Loading the workbook (`fetch`, `XLSX.read`, `sheet_to_json`) and its error path are I/O and a foreign library. The sheets are inputs: sequences of typed rows.
- React state, effects, expand/collapse toggles, tab selection and the table-sort handler are UI state.
- The comparator of `getSortedProductStats` depends on `localeCompare` collation. The totals row takes the displayed list as given.
- `formatNumber`, `formatPercent`, the trend icons and colours, all JSX and the pie chart are presentation.
- IEEE floating point, `NaN` and `Number(...)` conversion are not modelled. Values are exact reals. In the product statistics a missing or non-numeric amount is `None` and reads as 0, as `Number(...) || 0` gives. A missing or empty quantity also reads as 0 (`|| 0`). The source does not convert a quantity given as text, which `_.sumBy` would then concatenate as a string; that case is not modelled.
- In the rent sheet, the amount 費用總額 is always a number. A missing amount, which `_.sumBy` skips, is not modelled.
- JavaScript orders integer-like object keys first in `groupBy`. This is not modelled: groups keep first-occurrence order.
- A product code is a string, and "truthy" means non-empty. Numeric codes are not distinguished.
- The sorts are modelled as a pure stable insertion sort over sequences, not as an in-place array sort. Only their result is modelled.
- ProductStats.TotalsRow: its figures are defined as sums over the list it is given; the contract states only how its changes and rates follow from them. The displayed list's ordering and limit are left out, as above.
- Warehouse.WarehouseColumns: the six warehouse columns are not related to the mid category's total. Rows in other warehouses are not shown in any column.
