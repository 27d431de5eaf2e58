/** The two rent summaries of the merged sheet: the major-category summary with its
    synthetic "Others" entry (calculateMajorCategorySummary) and the top-ten
    mid-category summary (calculateDetailedSummary). */
module CategorySummary {
  import opened Numeric
  import opened Collections
  import opened Rows

  /** One group compared across the periods: 倉租2024, 倉租2025, 變化金額 and 變化率. */
  datatype Comparison = Comparison(category: string, rent2024: int, rent2025: int, change: int, rate: real)

  /** A summary entry: a group's comparison together with the breakdown of its subgroups
      (中分類明細 or 小分類明細). */
  datatype CategoryRow = CategoryRow(
    category: string, rent2024: int, rent2025: int, change: int, rate: real,
    details: seq<Comparison>)

  function ComparisonCategory(c: Comparison): string { c.category }
  function ComparisonRent2025(c: Comparison): int { c.rent2025 }
  function ComparisonChange(c: Comparison): int { c.change }
  function ComparisonRent2024Amount(c: Comparison): real { c.rent2024 as real }
  function ComparisonRent2025Amount(c: Comparison): real { c.rent2025 as real }
  function EntryCategory(e: CategoryRow): string { e.category }
  function EntryRent2025(e: CategoryRow): int { e.rent2025 }
  function EntryRent2024Amount(e: CategoryRow): real { e.rent2024 as real }
  function EntryRent2025Amount(e: CategoryRow): real { e.rent2025 as real }
  function EntryChangeAmount(e: CategoryRow): real { e.change as real }

  /** The figures of one group from its unrounded 2024 and 2025 rent: both rents rounded,
      the change rounded after subtracting, the rate by the zero-base rule. */
  function Compare(tag: string, before: real, after: real): (c: Comparison)
    ensures c.category == tag
    ensures RoundsTo(c.rent2024, before) && RoundsTo(c.rent2025, after)
    ensures RoundsTo(c.change, after - before)
    ensures -1 <= c.change - (c.rent2025 - c.rent2024) <= 1
    ensures before > 0.0 ==> c.rate * before == (after - before) * 100.0
    ensures before <= 0.0 ==> c.rate == (if after > 0.0 then 100.0 else 0.0)
  {
    Comparison(tag, Round(before), Round(after), Change(before, after), ChangeRate(before, after))
  }

  /** The comparison of a group of rows of both periods. */
  function CompareGroup(tag: string, rows: seq<RentRow>): Comparison {
    Compare(tag, Rent2024(rows), Rent2025(rows))
  }

  // ------------------------------------------------------- mid-category breakdown

  /** `groupBy('中類')`, one comparison per mid category, `orderBy('倉租2025', 'desc')`. */
  function Breakdown(rows: seq<RentRow>): seq<Comparison> {
    SortDesc(MidComparisons(rows), ComparisonRent2025)
  }

  /** The mid categories of the rows in group order, one comparison each. */
  function MidComparisons(rows: seq<RentRow>): (cs: seq<Comparison>)
    ensures |cs| == |Keys(rows, Mid)|
  {
    var ks := Keys(rows, Mid);
    seq(|ks|, i requires 0 <= i < |ks| => CompareGroup(ks[i], Where(rows, Mid, ks[i])))
  }

  /** The breakdown lists each mid category of the rows exactly once, with the comparison of
      that category's rows, in non-increasing order of 2025 rent. */
  lemma {:induction false} BreakdownSpec(rows: seq<RentRow>)
    ensures SortedDesc(Breakdown(rows), ComparisonRent2025)
    ensures DistinctBy(Breakdown(rows), ComparisonCategory)
    ensures forall c :: c in Breakdown(rows) ==>
      Where(rows, Mid, c.category) != [] && c == CompareGroup(c.category, Where(rows, Mid, c.category))
  {
    var ks := Keys(rows, Mid);
    var es := MidComparisons(rows);
    KeysOccur(rows, Mid);
    SortTagged(es, ks, ComparisonCategory, ComparisonRent2025);
    SortDescSorted(es, ComparisonRent2025);
  }

  /** No mid category of the rows is missing from the breakdown. */
  lemma {:induction false} BreakdownCovers(rows: seq<RentRow>)
    ensures forall x :: x in rows ==> exists c :: c in Breakdown(rows) && c.category == x.mid
  {
    var ks := Keys(rows, Mid);
    var es := MidComparisons(rows);
    SortDescMembers(es, ComparisonRent2025);
    forall x | x in rows ensures exists c :: c in Breakdown(rows) && c.category == x.mid {
      var i :| 0 <= i < |ks| && ks[i] == x.mid;
      assert es[i] in Breakdown(rows);
    }
  }

  /** The mid categories' rounded rents add up to the rents of all the rows, up to half a
      unit per mid category, in each period. */
  lemma {:induction false} BreakdownRentsAddUp(rows: seq<RentRow>)
    ensures WithinHalves(Sum(Breakdown(rows), ComparisonRent2024Amount), Rent2024(rows), |Breakdown(rows)|)
    ensures WithinHalves(Sum(Breakdown(rows), ComparisonRent2025Amount), Rent2025(rows), |Breakdown(rows)|)
  {
    var ks := Keys(rows, Mid);
    var es := MidComparisons(rows);
    PeriodRentsAdditive();
    Partition(ks, rows, Mid, Rent2024);
    Partition(ks, rows, Mid, Rent2025);
    RankedGroupSums(es, ComparisonRent2025, ComparisonRent2024Amount, ks, rows, Mid, Rent2024, 0.0, Rent2024(rows));
    RankedGroupSums(es, ComparisonRent2025, ComparisonRent2025Amount, ks, rows, Mid, Rent2025, 0.0, Rent2025(rows));
  }

  // ---------------------------------------------------- major-category summary

  /** The entry of one major category: its comparison and its mid-category breakdown. */
  function MajorEntry(major: string, rows: seq<RentRow>): CategoryRow {
    var c := CompareGroup(major, rows);
    CategoryRow(major, c.rent2024, c.rent2025, c.change, c.rate, Breakdown(rows))
  }

  /** The non-raw major categories in group order, one entry each. */
  function MajorEntries(all: seq<RentRow>): seq<CategoryRow> {
    var ks := Without(Keys(all, Major), RawMaterials);
    seq(|ks|, i requires 0 <= i < |ks| => MajorEntry(ks[i], Where(all, Major, ks[i])))
  }

  /** `allCategories`: the non-raw major entries ordered by 2025 rent. */
  function RankedMajors(all: seq<RentRow>): seq<CategoryRow> {
    SortDesc(MajorEntries(all), EntryRent2025)
  }

  lemma {:induction false} MajorEntriesSpec(all: seq<RentRow>)
    ensures var ks := Without(Keys(all, Major), RawMaterials);
      && |MajorEntries(all)| == |ks|
      && (forall i :: 0 <= i < |ks| ==> MajorEntries(all)[i].category == ks[i])
    ensures forall e :: e in MajorEntries(all) ==>
      && e.category != RawMaterials
      && Where(all, Major, e.category) != []
      && e == MajorEntry(e.category, Where(all, Major, e.category))
  {
    forall e | e in MajorEntries(all)
      ensures e.category != RawMaterials && Where(all, Major, e.category) != []
      ensures e == MajorEntry(e.category, Where(all, Major, e.category))
    {
      MajorEntryOfGroup(all, e);
    }
  }

  lemma {:induction false} MajorEntryOfGroup(all: seq<RentRow>, e: CategoryRow)
    requires e in MajorEntries(all)
    ensures e.category != RawMaterials && Where(all, Major, e.category) != []
    ensures e == MajorEntry(e.category, Where(all, Major, e.category))
  {
    var ks := Without(Keys(all, Major), RawMaterials);
    var es := MajorEntries(all);
    KeysOccur(all, Major);
    var i :| 0 <= i < |es| && es[i] == e;
    assert ks[i] in ks;
  }

  /** The ranking lists every major category but raw materials exactly once, each with the
      figures of that category's rows, in non-increasing order of 2025 rent. */
  lemma {:induction false} RankedMajorsSpec(all: seq<RentRow>)
    ensures |RankedMajors(all)| == |Without(Keys(all, Major), RawMaterials)|
    ensures SortedDesc(RankedMajors(all), EntryRent2025)
    ensures DistinctBy(RankedMajors(all), EntryCategory)
    ensures forall e :: e in RankedMajors(all) ==>
      && e.category != RawMaterials
      && Where(all, Major, e.category) != []
      && e == MajorEntry(e.category, Where(all, Major, e.category))
  {
    var ks := Without(Keys(all, Major), RawMaterials);
    var es := MajorEntries(all);
    MajorEntriesSpec(all);
    SortTagged(es, ks, EntryCategory, EntryRent2025);
    SortDescSorted(es, EntryRent2025);
  }

  /** No major category other than raw materials is missing from the ranking. */
  lemma {:induction false} RankedMajorsCover(all: seq<RentRow>)
    ensures forall x :: x in all && x.major != RawMaterials ==>
      exists e :: e in RankedMajors(all) && e.category == x.major
  {
    var ks := Without(Keys(all, Major), RawMaterials);
    MajorEntriesSpec(all);
    RankedTagged(MajorEntries(all), EntryRent2025, EntryCategory, ks);
    forall x | x in all && x.major != RawMaterials ensures exists e :: e in RankedMajors(all) && e.category == x.major {
      assert x.major in ks;
    }
  }

  /** `_.flatten(others.map(item => item.中分類明細))`. */
  function AllDetails(es: seq<CategoryRow>): seq<Comparison> {
    if es == [] then [] else AllDetails(es[..|es| - 1]) + es[|es| - 1].details
  }

  /** The "Others" entry, from the categories ranked 11th and below and the raw-material
      figures computed beforehand (its two rents and its mid-category breakdown). Its rents
      add the lower-ranked entries' rounded rents to the raw-material rent, its change rate is
      not applicable (0), and its details merge both breakdowns by 2025 rent. */
  function OthersEntry(rest: seq<CategoryRow>, raw24: real, raw25: real, rawDetails: seq<Comparison>): CategoryRow {
    CategoryRow(
      OthersLabel,
      Round(Sum(rest, EntryRent2024Amount) + raw24),
      Round(Sum(rest, EntryRent2025Amount) + raw25),
      Round(Sum(rest, EntryChangeAmount) + (raw25 - raw24)),
      0.0,
      SortDesc(rawDetails + AllDetails(rest), ComparisonRent2025))
  }

  /** `calculateMajorCategorySummary`, which works on `data2024.concat(data2025)`. */
  function MajorCategorySummary(d24: seq<RentRow>, d25: seq<RentRow>): seq<CategoryRow> {
    MajorSummaryOf(d24 + d25)
  }

  /** The summary of the rows of both periods: the ten highest-ranked entries, then "Others". */
  function MajorSummaryOf(all: seq<RentRow>): (r: seq<CategoryRow>)
    ensures |r| == Min(10, |RankedMajors(all)|) + 1
    ensures r[|r| - 1].category == OthersLabel
  {
    var raw := Where(all, Major, RawMaterials);
    var ranked := RankedMajors(all);
    var k := Min(10, |ranked|);
    ranked[..k] + [OthersEntry(ranked[k..], Rent2024(raw), Rent2025(raw), Breakdown(raw))]
  }

  /** The summary has min(n, 10) + 1 entries for n non-raw major categories: the head of
      the ranking, none of them raw materials, in non-increasing order of 2025 rent and none
      below a category left out of them, and last the "Others" entry built from the rest of
      the ranking and the raw-material rows. */
  lemma {:induction false} MajorSummaryShape(all: seq<RentRow>)
    ensures var r := MajorSummaryOf(all);
      var ranked := RankedMajors(all);
      var raw := Where(all, Major, RawMaterials);
      var top := r[..|r| - 1];
      && |r| == Min(10, |Without(Keys(all, Major), RawMaterials)|) + 1
      && top == ranked[..|top|]
      && r[|r| - 1] == OthersEntry(ranked[|top|..], Rent2024(raw), Rent2025(raw), Breakdown(raw))
      && SortedDesc(top, EntryRent2025)
      && DistinctBy(top, EntryCategory)
      && (forall e :: e in top ==> e.category != RawMaterials)
      && (forall e, e' :: e in top && e' in ranked && e' !in top ==> e.rent2025 >= e'.rent2025)
  {
    var ranked := RankedMajors(all);
    var k := Min(10, |ranked|);
    var r := MajorSummaryOf(all);
    MajorSummaryParts(all);
    RankedMajorsSpec(all);
    assert r[..|r| - 1] == ranked[..k];
    PrefixIsLargest(ranked, k, EntryRent2025);
    PrefixDistinctBy(ranked, k, EntryCategory);
    PrefixMembers(ranked, k);
  }

  /** The "Others" entry's 2025 rent, on its own. */
  lemma {:induction false} OthersEntryRent(rest: seq<CategoryRow>, raw24: real, raw25: real, rawDetails: seq<Comparison>)
    ensures OthersEntry(rest, raw24, raw25, rawDetails).rent2025 == Round(Sum(rest, EntryRent2025Amount) + raw25)
  {
  }

  lemma {:induction false} OthersEntryFigures(rest: seq<CategoryRow>, raw24: real, raw25: real, rawDetails: seq<Comparison>)
    ensures var others := OthersEntry(rest, raw24, raw25, rawDetails);
      && others.category == OthersLabel
      && RoundsTo(others.rent2024, Sum(rest, EntryRent2024Amount) + raw24)
      && RoundsTo(others.rent2025, Sum(rest, EntryRent2025Amount) + raw25)
      && RoundsTo(others.change, Sum(rest, EntryChangeAmount) + (raw25 - raw24))
      && others.rate == 0.0
      && multiset(others.details) == multiset(rawDetails + AllDetails(rest))
      && SortedDesc(others.details, ComparisonRent2025)
  {
    SortDescSorted(rawDetails + AllDetails(rest), ComparisonRent2025);
  }

  lemma {:induction false} MajorSummaryParts(all: seq<RentRow>)
    ensures var r := MajorSummaryOf(all);
      var raw := Where(all, Major, RawMaterials);
      var ranked := RankedMajors(all);
      var k := Min(10, |ranked|);
      && |r| == k + 1
      && r[..k] == ranked[..k]
      && r[k] == OthersEntry(ranked[k..], Rent2024(raw), Rent2025(raw), Breakdown(raw))
  {
  }

  /** The non-raw major groups and the raw-material group partition the rows. */
  lemma {:induction false} MajorGroupsPartition(all: seq<RentRow>)
    ensures SumGroups(Without(Keys(all, Major), RawMaterials), all, Major, Rent2025)
          + Rent2025(Where(all, Major, RawMaterials)) == Rent2025(all)
  {
    var ks0 := Keys(all, Major);
    PeriodRentsAdditive();
    Partition(ks0, all, Major, Rent2025);
    SumGroupsWithout(ks0, all, Major, Rent2025, RawMaterials);
    if RawMaterials !in ks0 {
      WhereOfAbsentKey(all, Major, RawMaterials);
    }
  }

  /** Each major entry holds its group's rounded 2025 rent. */
  lemma {:induction false} MajorEntriesRounded(all: seq<RentRow>)
    ensures var ks := Without(Keys(all, Major), RawMaterials);
      && |MajorEntries(all)| == |ks|
      && forall i :: 0 <= i < |ks| ==>
           EntryRent2025Amount(MajorEntries(all)[i]) == Round(Rent2025(Where(all, Major, ks[i]))) as real
  {
  }

  /** The ranked entries hold the rounded rents of the non-raw groups: with the raw-material
      rent they add up to the total, up to half a unit per ranked entry. */
  lemma {:induction false} RankedMajorsRent(all: seq<RentRow>)
    ensures WithinHalves(Sum(RankedMajors(all), EntryRent2025Amount) + Rent2025(Where(all, Major, RawMaterials)),
      Rent2025(all), |RankedMajors(all)|)
  {
    MajorGroupsPartition(all);
    MajorEntriesRounded(all);
    RankedGroupSums(MajorEntries(all), EntryRent2025, EntryRent2025Amount, Without(Keys(all, Major), RawMaterials),
      all, Major, Rent2025, Rent2025(Where(all, Major, RawMaterials)), Rent2025(all));
  }

  /** Nothing is lost: the 2025 rents of the summary, "Others" included, add up to the
      period's total rent, up to half a unit of rounding per ranked category and for "Others". */
  lemma {:induction false} MajorSummaryAccountsForAll(all: seq<RentRow>)
    ensures WithinHalves(Sum(MajorSummaryOf(all), EntryRent2025Amount), Rent2025(all), |RankedMajors(all)| + 1)
  {
    var ranked := RankedMajors(all);
    var k := Min(10, |ranked|);
    var raw := Where(all, Major, RawMaterials);
    RankedMajorsRent(all);
    RankingWithOthers(ranked, k, Rent2024(raw), Rent2025(raw), Breakdown(raw), Rent2025(all));
  }

  /** The same for the "Others" entry built from the tail. */
  lemma {:induction false} RankingWithOthers(ranked: seq<CategoryRow>, k: nat, raw24: real, raw25: real, rawDetails: seq<Comparison>, total: real)
    requires k <= |ranked|
    requires WithinHalves(Sum(ranked, EntryRent2025Amount) + raw25, total, |ranked|)
    ensures WithinHalves(Sum(ranked[..k] + [OthersEntry(ranked[k..], raw24, raw25, rawDetails)], EntryRent2025Amount),
      total, |ranked| + 1)
  {
    OthersEntryRent(ranked[k..], raw24, raw25, rawDetails);
    TopAndOthers(ranked, k, OthersEntry(ranked[k..], raw24, raw25, rawDetails), raw25, total);
  }

  /** The head of a ranking followed by one entry holding the rounded rent of the tail with
      the raw rent added, as the "Others" entry does, is one half unit further from the total
      than the whole ranking with the raw rent. */
  lemma {:induction false} TopAndOthers(ranked: seq<CategoryRow>, k: nat, others: CategoryRow, raw: real, total: real)
    requires k <= |ranked|
    requires others.rent2025 == Round(Sum(ranked[k..], EntryRent2025Amount) + raw)
    requires WithinHalves(Sum(ranked, EntryRent2025Amount) + raw, total, |ranked|)
    ensures WithinHalves(Sum(ranked[..k] + [others], EntryRent2025Amount), total, |ranked| + 1)
  {
    SumSplit(ranked, k, EntryRent2025Amount);
    SumAppend(ranked[..k], [others], EntryRent2025Amount);
    SumSingle(others, EntryRent2025Amount);
    var whole := Sum(ranked, EntryRent2025Amount) + raw;
    var part := Sum(ranked[k..], EntryRent2025Amount) + raw;
    ReplaceByRounded(whole, total, |ranked|, part, others.rent2025 as real);
    assert Sum(ranked[..k] + [others], EntryRent2025Amount) == whole - part + others.rent2025 as real;
  }

  // ------------------------------------------------------- detailed summary

  /** `小分類明細`: the sub categories met in the 2024 rows and then the 2025 rows, in order of
      first occurrence (a `Set`), each compared across the periods, by change amount. */
  function SubComparisons(items24: seq<RentRow>, items25: seq<RentRow>): seq<Comparison> {
    SortDesc(SubEntries(Keys(items24 + items25, Sub), items24, items25), ComparisonChange)
  }

  /** The given sub categories in order, one comparison each. */
  function SubEntries(subs: seq<string>, items24: seq<RentRow>, items25: seq<RentRow>): (cs: seq<Comparison>)
    ensures |cs| == |subs|
  {
    seq(|subs|, i requires 0 <= i < |subs| =>
      Compare(subs[i], Rent(Where(items24, Sub, subs[i])), Rent(Where(items25, Sub, subs[i]))))
  }

  /** One comparison per distinct sub category of the rows, each of that sub category's
      rows of either period, in non-increasing order of change amount. */
  lemma {:induction false} SubComparisonsSpec(items24: seq<RentRow>, items25: seq<RentRow>)
    ensures SortedDesc(SubComparisons(items24, items25), ComparisonChange)
    ensures DistinctBy(SubComparisons(items24, items25), ComparisonCategory)
    ensures forall c :: c in SubComparisons(items24, items25) ==>
      && Where(items24 + items25, Sub, c.category) != []
      && c == Compare(c.category, Rent(Where(items24, Sub, c.category)), Rent(Where(items25, Sub, c.category)))
  {
    SortedSubEntries(items24 + items25, items24, items25);
  }

  /** `SubComparisonsSpec` for the rows `merged` of both periods. */
  lemma {:induction false} SortedSubEntries(merged: seq<RentRow>, items24: seq<RentRow>, items25: seq<RentRow>)
    ensures var r := SortDesc(SubEntries(Keys(merged, Sub), items24, items25), ComparisonChange);
      && SortedDesc(r, ComparisonChange)
      && DistinctBy(r, ComparisonCategory)
      && forall c :: c in r ==>
           && Where(merged, Sub, c.category) != []
           && c == Compare(c.category, Rent(Where(items24, Sub, c.category)), Rent(Where(items25, Sub, c.category)))
  {
    var subs := Keys(merged, Sub);
    var es := SubEntries(subs, items24, items25);
    KeysOccur(merged, Sub);
    SortTagged(es, subs, ComparisonCategory, ComparisonChange);
    SortDescSorted(es, ComparisonChange);
    forall c | c in SortDesc(es, ComparisonChange)
      ensures Where(merged, Sub, c.category) != []
      ensures c == Compare(c.category, Rent(Where(items24, Sub, c.category)), Rent(Where(items25, Sub, c.category)))
    {
      var i :| 0 <= i < |es| && es[i] == c;
      assert subs[i] in subs;
    }
  }

  /** No sub category of the rows of either period is missing. */
  lemma {:induction false} SubComparisonsCover(items24: seq<RentRow>, items25: seq<RentRow>)
    ensures forall x :: x in items24 + items25 ==>
      exists c :: c in SubComparisons(items24, items25) && c.category == x.sub
  {
    SubEntriesCover(items24 + items25, items24, items25);
  }

  lemma {:induction false} SubEntriesCover(merged: seq<RentRow>, items24: seq<RentRow>, items25: seq<RentRow>)
    ensures forall x :: x in merged ==>
      exists c :: c in SortDesc(SubEntries(Keys(merged, Sub), items24, items25), ComparisonChange) && c.category == x.sub
  {
    var subs := Keys(merged, Sub);
    var es := SubEntries(subs, items24, items25);
    SortDescMembers(es, ComparisonChange);
    forall x | x in merged ensures exists c :: c in SortDesc(es, ComparisonChange) && c.category == x.sub {
      var i :| 0 <= i < |subs| && subs[i] == x.sub;
      assert es[i] in SortDesc(es, ComparisonChange);
    }
  }

  /** The sub categories' rounded rents add up to the rent of the rows of each period, up to
      half a unit per sub category. */
  lemma {:induction false} SubComparisonsRentsAddUp(items24: seq<RentRow>, items25: seq<RentRow>)
    ensures WithinHalves(Sum(SubComparisons(items24, items25), ComparisonRent2024Amount), Rent(items24),
      |SubComparisons(items24, items25)|)
    ensures WithinHalves(Sum(SubComparisons(items24, items25), ComparisonRent2025Amount), Rent(items25),
      |SubComparisons(items24, items25)|)
  {
    SubEntriesRents(items24 + items25, items24, items25);
  }

  /** `SubComparisonsRentsAddUp` for sub categories keyed over rows `merged` holding both periods' rows. */
  lemma {:induction false} SubEntriesRents(merged: seq<RentRow>, items24: seq<RentRow>, items25: seq<RentRow>)
    requires forall x :: x in items24 ==> x in merged
    requires forall x :: x in items25 ==> x in merged
    ensures var r := SortDesc(SubEntries(Keys(merged, Sub), items24, items25), ComparisonChange);
      && WithinHalves(Sum(r, ComparisonRent2024Amount), Rent(items24), |r|)
      && WithinHalves(Sum(r, ComparisonRent2025Amount), Rent(items25), |r|)
  {
    var subs := Keys(merged, Sub);
    var es := SubEntries(subs, items24, items25);
    RentAdditive();
    Partition(subs, items24, Sub, Rent);
    Partition(subs, items25, Sub, Rent);
    RankedGroupSums(es, ComparisonChange, ComparisonRent2024Amount, subs, items24, Sub, Rent, 0.0, Rent(items24));
    RankedGroupSums(es, ComparisonChange, ComparisonRent2025Amount, subs, items25, Sub, Rent, 0.0, Rent(items25));
  }

  /** The entry of one mid category. Unlike every other level, a zero 2024 base gives a
      change rate of 0 even when the 2025 rent is positive. */
  function MidEntry(mid: string, rows: seq<RentRow>): CategoryRow {
    var items24, items25 := InPeriod(rows, P2024), InPeriod(rows, P2025);
    var t24, t25 := Rent(items24), Rent(items25);
    CategoryRow(mid, Round(t24), Round(t25), Change(t24, t25), ChangeRateOrZero(t24, t25),
      SubComparisons(items24, items25))
  }

  /** Every mid category in group order, one entry each. */
  function MidEntries(all: seq<RentRow>): seq<CategoryRow> {
    var ks := Keys(all, Mid);
    seq(|ks|, i requires 0 <= i < |ks| => MidEntry(ks[i], Where(all, Mid, ks[i])))
  }

  lemma {:induction false} MidEntriesSpec(all: seq<RentRow>)
    ensures var ks := Keys(all, Mid);
      && |MidEntries(all)| == |ks|
      && (forall i :: 0 <= i < |ks| ==> MidEntries(all)[i].category == ks[i])
    ensures forall e :: e in MidEntries(all) ==>
      && Where(all, Mid, e.category) != []
      && e == MidEntry(e.category, Where(all, Mid, e.category))
  {
    var ks := Keys(all, Mid);
    var es := MidEntries(all);
    KeysOccur(all, Mid);
    forall e | e in es
      ensures Where(all, Mid, e.category) != []
      ensures e == MidEntry(e.category, Where(all, Mid, e.category))
    {
      var i :| 0 <= i < |es| && es[i] == e;
      assert ks[i] in ks;
    }
  }

  /** `calculateDetailedSummary`: order by 2025 rent, drop raw materials, keep the first ten. */
  function DetailedSummary(d24: seq<RentRow>, d25: seq<RentRow>): (r: seq<CategoryRow>)
    ensures |r| <= 10
    ensures forall e :: e in r ==> e in MidEntries(d24 + d25) && e.category != RawMaterials
  {
    TopExceptMembers(MidEntries(d24 + d25), EntryRent2025, EntryCategory, RawMaterials, 10);
    TopExcept(MidEntries(d24 + d25), EntryRent2025, EntryCategory, RawMaterials, 10)
  }

  /** The detailed summary holds min(n, 10) entries for n non-raw mid categories, distinct,
      in non-increasing order of 2025 rent, none of them raw materials, each the entry of
      its own category's rows. */
  lemma {:induction false} DetailedSummaryShape(d24: seq<RentRow>, d25: seq<RentRow>)
    ensures var r := DetailedSummary(d24, d25);
      && |r| == Min(10, |Without(Keys(d24 + d25, Mid), RawMaterials)|)
      && SortedDesc(r, EntryRent2025)
      && DistinctBy(r, EntryCategory)
      && (forall e :: e in r ==>
           && e.category != RawMaterials
           && Where(d24 + d25, Mid, e.category) != []
           && e == MidEntry(e.category, Where(d24 + d25, Mid, e.category)))
  {
    var all := d24 + d25;
    var ks := Keys(all, Mid);
    var es := MidEntries(all);
    MidEntriesSpec(all);
    TopExceptSorted(es, EntryRent2025, EntryCategory, RawMaterials, 10);
    TopExceptMembers(es, EntryRent2025, EntryCategory, RawMaterials, 10);
    TaggedDistinctBy(es, ks, EntryCategory);
    TopExceptDistinctBy(es, EntryRent2025, EntryCategory, RawMaterials, 10, EntryCategory);
    WhereNotTagged(es, EntryCategory, ks, RawMaterials);
  }

  /** Exclusion comes before truncation: a raw-material entry ranked among the first ten
      takes no place, and every non-raw mid category left out ranks no higher than each
      one kept. */
  lemma {:induction false} DetailedSummaryKeepsTheLargest(d24: seq<RentRow>, d25: seq<RentRow>)
    ensures var r := DetailedSummary(d24, d25);
      forall e, e' :: e in r && e' in MidEntries(d24 + d25) && EntryCategory(e') != RawMaterials && e' !in r ==>
        EntryRent2025(e) >= EntryRent2025(e')
  {
    TopExceptLargest(MidEntries(d24 + d25), EntryRent2025, EntryCategory, RawMaterials, 10);
  }
}
