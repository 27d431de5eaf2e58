/** Product statistics (calculateProductStats) and the totals row under the product-stats
    table: quantities and amounts of both periods at three category levels, with their
    changes, ranked by the 2025 amount. */
module ProductStats {
  import opened Numeric
  import opened Collections
  import opened Rows

  /** A row of the merged sheet with closing quantities (合併(含庫存量)). Quantity 庫存數量 and
      amount ' 費用總額 ' may be missing; both count as 0 (`|| 0`, `Number(..) || 0`). A
      quantity is a number or missing: text in that column is not modelled. */
  datatype StockRow = StockRow(
    major: string, mid: string, sub: string, period: int,
    quantity: Option<real>, amount: Option<real>)

  function OrZero(v: Option<real>): real {
    match v
    case None => 0.0
    case Some(x) => x
  }

  function StockMajor(r: StockRow): string { r.major }
  function StockMid(r: StockRow): string { r.mid }
  function StockSub(r: StockRow): string { r.sub }
  function StockPeriod(r: StockRow): int { r.period }
  function Qty(r: StockRow): real { OrZero(r.quantity) }
  function AmountOf(r: StockRow): real { OrZero(r.amount) }

  /** The summed quantities and amounts of one period. */
  function Quantity2024(rows: seq<StockRow>): real { Sum(Where(rows, StockPeriod, P2024), Qty) }
  function Quantity2025(rows: seq<StockRow>): real { Sum(Where(rows, StockPeriod, P2025), Qty) }
  function Amount2024(rows: seq<StockRow>): real { Sum(Where(rows, StockPeriod, P2024), AmountOf) }
  function Amount2025(rows: seq<StockRow>): real { Sum(Where(rows, StockPeriod, P2025), AmountOf) }

  /** The figures every level reports: 數量2024, 金額2024, 數量2025, 金額2025, 數量差異,
      數量百分比, 金額差異 and 金額百分比. */
  datatype Figures = Figures(
    qty2024: real, amount2024: int, qty2025: real, amount2025: int,
    qtyChange: real, qtyRate: real, amountChange: int, amountRate: real)

  /** What holds of a level's figures whatever the rows: the quantity change is exact, the
      amount change (rounded from the unrounded difference) is within one of the difference
      of the rounded amounts, and the quantity rate follows the zero-base rule. */
  ghost predicate Consistent(f: Figures) {
    && f.qtyChange == f.qty2025 - f.qty2024
    && -1 <= f.amountChange - (f.amount2025 - f.amount2024) <= 1
    && (f.qty2024 > 0.0 ==> f.qtyRate * f.qty2024 == f.qtyChange * 100.0)
    && (f.qty2024 <= 0.0 ==> f.qtyRate == (if f.qty2025 > 0.0 then 100.0 else 0.0))
  }

  /** The arithmetic every level does on its summed quantities and amounts: quantities are
      kept unrounded, amounts rounded, and both rates are taken on the unrounded sums. */
  function FiguresFrom(q24: real, q25: real, a24: real, a25: real): (f: Figures)
    ensures Consistent(f)
    ensures f.qty2024 == q24 && f.qty2025 == q25
    ensures RoundsTo(f.amount2024, a24) && RoundsTo(f.amount2025, a25)
    ensures RoundsTo(f.amountChange, a25 - a24)
    ensures a24 > 0.0 ==> f.amountRate * a24 == (a25 - a24) * 100.0
    ensures a24 <= 0.0 ==> f.amountRate == (if a25 > 0.0 then 100.0 else 0.0)
  {
    Figures(q24, Round(a24), q25, Round(a25), q25 - q24, ChangeRate(q24, q25), Change(a24, a25), ChangeRate(a24, a25))
  }

  /** The figures of a group of rows. */
  function FiguresOf(items: seq<StockRow>): Figures {
    FiguresFrom(Quantity2024(items), Quantity2025(items), Amount2024(items), Amount2025(items))
  }

  // ------------------------------------------------------------------ levels

  datatype SubStat = SubStat(sub: string, figures: Figures)
  datatype MidStat = MidStat(mid: string, figures: Figures, subs: seq<SubStat>)
  datatype MajorStat = MajorStat(major: string, figures: Figures, mids: seq<MidStat>)
  /** A major category with its 金額排名. */
  datatype RankedStat = RankedStat(stat: MajorStat, rank: int)

  function SubLabel(s: SubStat): string { s.sub }
  function SubAmountChange(s: SubStat): int { s.figures.amountChange }
  function SubQty2025(s: SubStat): real { s.figures.qty2025 }
  function SubAmount2025Amount(s: SubStat): real { s.figures.amount2025 as real }
  function MidLabel(m: MidStat): string { m.mid }
  function MidAmountChange(m: MidStat): int { m.figures.amountChange }
  function MidQty2025(m: MidStat): real { m.figures.qty2025 }
  function MidAmount2025Amount(m: MidStat): real { m.figures.amount2025 as real }
  function MajorLabel(m: MajorStat): string { m.major }
  function MajorAmount2025(m: MajorStat): int { m.figures.amount2025 }
  function MajorQty2024(m: MajorStat): real { m.figures.qty2024 }
  function MajorQty2025(m: MajorStat): real { m.figures.qty2025 }
  function RankedLabel(r: RankedStat): string { r.stat.major }
  function RankedAmount2025(r: RankedStat): int { r.stat.figures.amount2025 }

  function SubStatOf(items: seq<StockRow>, sub: string): SubStat {
    SubStat(sub, FiguresOf(Where(items, StockSub, sub)))
  }

  function SubStatEntries(subs: seq<string>, items: seq<StockRow>): (es: seq<SubStat>)
    ensures |es| == |subs|
  {
    seq(|subs|, i requires 0 <= i < |subs| => SubStatOf(items, subs[i]))
  }

  /** 小分類明細: one entry per sub category of a mid category's rows, by 金額差異, highest first. */
  function SubStats(items: seq<StockRow>): seq<SubStat> {
    SortDesc(SubStatEntries(Keys(items, StockSub), items), SubAmountChange)
  }

  function MidStatOf(items: seq<StockRow>, mid: string): MidStat {
    var midItems := Where(items, StockMid, mid);
    MidStat(mid, FiguresOf(midItems), SubStats(midItems))
  }

  function MidStatEntries(mids: seq<string>, items: seq<StockRow>): (es: seq<MidStat>)
    ensures |es| == |mids|
  {
    seq(|mids|, i requires 0 <= i < |mids| => MidStatOf(items, mids[i]))
  }

  /** 中分類明細: one entry per mid category of a major category's rows, by 金額差異, highest
      first. Raw materials are not excluded here. */
  function MidStats(items: seq<StockRow>): seq<MidStat> {
    SortDesc(MidStatEntries(Keys(items, StockMid), items), MidAmountChange)
  }

  function MajorStatOf(merged: seq<StockRow>, major: string): MajorStat {
    var allItems := Where(merged, StockMajor, major);
    MajorStat(major, FiguresOf(allItems), MidStats(allItems))
  }

  function MajorStatEntries(majors: seq<string>, merged: seq<StockRow>): (es: seq<MajorStat>)
    ensures |es| == |majors|
  {
    seq(|majors|, i requires 0 <= i < |majors| => MajorStatOf(merged, majors[i]))
  }

  /** `.map((item, index) => ({...item, 金額排名: index + 1}))`. */
  function Ranked(stats: seq<MajorStat>): (r: seq<RankedStat>)
    ensures |r| == |stats|
  {
    if stats == [] then [] else Ranked(stats[..|stats| - 1]) + [RankedStat(stats[|stats| - 1], |stats|)]
  }

  /** The major categories of the merged rows other than raw materials, by 金額2025, highest
      first, ranked. */
  function StatsOf(merged: seq<StockRow>): (r: seq<RankedStat>)
    ensures |r| == |Without(Keys(merged, StockMajor), RawMaterials)|
  {
    Ranked(SortDesc(MajorStatEntries(Without(Keys(merged, StockMajor), RawMaterials), merged), MajorAmount2025))
  }

  /** `data2024.concat(data2025)`. */
  function Merged(rows: seq<StockRow>): seq<StockRow> {
    Where(rows, StockPeriod, P2024) + Where(rows, StockPeriod, P2025)
  }

  /** `calculateProductStats`. */
  function ProductStats(rows: seq<StockRow>): (r: seq<RankedStat>)
    ensures |r| == |Without(Keys(Merged(rows), StockMajor), RawMaterials)|
  {
    StatsOf(Merged(rows))
  }

  // ------------------------------------------------------------------ ranking

  /** The ranks are 1..N in list order, each holding the entry at its place. */
  lemma {:induction false} RankedSpec(stats: seq<MajorStat>)
    ensures |Ranked(stats)| == |stats|
    ensures forall i :: 0 <= i < |stats| ==> Ranked(stats)[i] == RankedStat(stats[i], i + 1)
  {
    if stats != [] {
      RankedSpec(stats[..|stats| - 1]);
    }
  }

  /** Ranking keeps the order and the distinct labels of the list it numbers. */
  lemma {:induction false} RankedOrder(stats: seq<MajorStat>)
    requires SortedDesc(stats, MajorAmount2025) && DistinctBy(stats, MajorLabel)
    ensures forall i :: 0 <= i < |Ranked(stats)| ==> Ranked(stats)[i].rank == i + 1
    ensures SortedDesc(Ranked(stats), RankedAmount2025)
    ensures DistinctBy(Ranked(stats), RankedLabel)
  {
    var r := Ranked(stats);
    RankedSpec(stats);
    forall i, j | 0 <= i < j < |r| ensures RankedAmount2025(r[i]) >= RankedAmount2025(r[j]) {
      assert MajorAmount2025(stats[i]) >= MajorAmount2025(stats[j]);
    }
    forall i, j | 0 <= i < j < |r| ensures RankedLabel(r[i]) != RankedLabel(r[j]) {
      assert MajorLabel(stats[i]) != MajorLabel(stats[j]);
    }
  }

  /** Numbering neither drops nor adds an entry. */
  lemma {:induction false} RankedMember(stats: seq<MajorStat>, x: MajorStat)
    ensures x in stats <==> exists e :: e in Ranked(stats) && e.stat == x
  {
    RankedSpec(stats);
    if x in stats {
      var i :| 0 <= i < |stats| && stats[i] == x;
      assert Ranked(stats)[i] in Ranked(stats);
    }
  }

  /** Ranking keeps the sum of any figure. */
  lemma {:induction false} SumRanked(stats: seq<MajorStat>, g: RankedStat -> real, h: MajorStat -> real)
    requires forall x, n :: g(RankedStat(x, n)) == h(x)
    ensures Sum(Ranked(stats), g) == Sum(stats, h)
  {
    if stats != [] {
      var p := stats[..|stats| - 1];
      SumRanked(p, g, h);
      SumAppend(Ranked(p), [RankedStat(stats[|stats| - 1], |stats|)], g);
      SumSingle(RankedStat(stats[|stats| - 1], |stats|), g);
    }
  }

  // --------------------------------------------------------------- properties

  /** The sub-category list: sorted by 金額差異, one entry per sub category, each the figures
      of that sub category's rows. */
  lemma {:induction false} SubStatsSpec(items: seq<StockRow>)
    ensures SortedDesc(SubStats(items), SubAmountChange)
    ensures DistinctBy(SubStats(items), SubLabel)
  {
    var ks := Keys(items, StockSub);
    var es := SubStatEntries(ks, items);
    SortDescSorted(es, SubAmountChange);
    TaggedDistinctBy(es, ks, SubLabel);
    SortDescDistinctBy(es, SubAmountChange, SubLabel);
  }

  /** Each entry holds the figures of its category's rows. */
  lemma {:induction false} SubStatsMember(items: seq<StockRow>, e: SubStat)
    requires e in SubStats(items)
    ensures e.sub in Keys(items, StockSub) && e == SubStatOf(items, e.sub)
  {
    var ks := Keys(items, StockSub);
    var es := SubStatEntries(ks, items);
    SortDescIndex(es, SubAmountChange, e);
    var i :| 0 <= i < |es| && es[i] == e;
    assert ks[i] in ks;
  }

  /** Every sub category of the rows has its entry. */
  lemma {:induction false} SubStatsCover(items: seq<StockRow>, x: StockRow)
    requires x in items
    ensures SubStatOf(items, x.sub) in SubStats(items)
  {
    var ks := Keys(items, StockSub);
    var es := SubStatEntries(ks, items);
    var i :| 0 <= i < |ks| && ks[i] == x.sub;
    assert es[i] in es;
    SortDescMembers(es, SubAmountChange);
  }

  /** The mid-category list: sorted by 金額差異, one entry per mid category (raw materials
      included), each the figures and sub-category list of that mid category's rows. */
  lemma {:induction false} MidStatsSpec(items: seq<StockRow>)
    ensures SortedDesc(MidStats(items), MidAmountChange)
    ensures DistinctBy(MidStats(items), MidLabel)
  {
    var ks := Keys(items, StockMid);
    var es := MidStatEntries(ks, items);
    SortDescSorted(es, MidAmountChange);
    TaggedDistinctBy(es, ks, MidLabel);
    SortDescDistinctBy(es, MidAmountChange, MidLabel);
  }

  /** Each entry holds the figures of its category's rows. */
  lemma {:induction false} MidStatsMember(items: seq<StockRow>, e: MidStat)
    requires e in MidStats(items)
    ensures e.mid in Keys(items, StockMid) && e == MidStatOf(items, e.mid)
  {
    var ks := Keys(items, StockMid);
    var es := MidStatEntries(ks, items);
    SortDescIndex(es, MidAmountChange, e);
    var i :| 0 <= i < |es| && es[i] == e;
    assert ks[i] in ks;
  }

  /** Every mid category of the rows has its entry, raw materials too. */
  lemma {:induction false} MidStatsCover(items: seq<StockRow>, x: StockRow)
    requires x in items
    ensures MidStatOf(items, x.mid) in MidStats(items)
  {
    var ks := Keys(items, StockMid);
    var es := MidStatEntries(ks, items);
    var i :| 0 <= i < |ks| && ks[i] == x.mid;
    assert es[i] in es;
    SortDescMembers(es, MidAmountChange);
  }

  /** The quantities of the sub categories add up exactly to their mid category's: quantities
      are never rounded. */
  lemma {:induction false} SubQuantitiesAddUp(items: seq<StockRow>)
    ensures Sum(SubStats(items), SubQty2025) == Quantity2025(items)
  {
    var ks := Keys(items, StockSub);
    WhereSumAdditive(Quantity2025, StockPeriod, P2025, Qty);
    RankedGroupMeasures(SubStatEntries(ks, items), SubAmountChange, SubQty2025, ks, items, StockSub, Quantity2025);
  }

  /** The quantities of the mid categories add up exactly to their major category's. */
  lemma {:induction false} MidQuantitiesAddUp(items: seq<StockRow>)
    ensures Sum(MidStats(items), MidQty2025) == Quantity2025(items)
  {
    var ks := Keys(items, StockMid);
    WhereSumAdditive(Quantity2025, StockPeriod, P2025, Qty);
    RankedGroupMeasures(MidStatEntries(ks, items), MidAmountChange, MidQty2025, ks, items, StockMid, Quantity2025);
  }

  /** The sub categories' rounded 2025 amounts add up to the mid category's 2025 amount, up to
      half a unit per sub category. */
  lemma {:induction false} SubAmountsAddUp(items: seq<StockRow>)
    ensures WithinHalves(Sum(SubStats(items), SubAmount2025Amount), Amount2025(items), |SubStats(items)|)
  {
    var ks := Keys(items, StockSub);
    WhereSumAdditive(Amount2025, StockPeriod, P2025, AmountOf);
    Partition(ks, items, StockSub, Amount2025);
    RankedGroupSums(SubStatEntries(ks, items), SubAmountChange, SubAmount2025Amount, ks, items, StockSub, Amount2025, 0.0, Amount2025(items));
  }

  /** The mid categories' rounded 2025 amounts add up to the major category's 2025 amount, up
      to half a unit per mid category. */
  lemma {:induction false} MidAmountsAddUp(items: seq<StockRow>)
    ensures WithinHalves(Sum(MidStats(items), MidAmount2025Amount), Amount2025(items), |MidStats(items)|)
  {
    var ks := Keys(items, StockMid);
    WhereSumAdditive(Amount2025, StockPeriod, P2025, AmountOf);
    Partition(ks, items, StockMid, Amount2025);
    RankedGroupSums(MidStatEntries(ks, items), MidAmountChange, MidAmount2025Amount, ks, items, StockMid, Amount2025, 0.0, Amount2025(items));
  }

  /** The list in terms of the merged rows: ranks 1..N in list order, 金額2025 non-increasing,
      each major category once. */
  lemma {:induction false} StatsOfSpec(merged: seq<StockRow>)
    ensures forall i :: 0 <= i < |StatsOf(merged)| ==> StatsOf(merged)[i].rank == i + 1
    ensures SortedDesc(StatsOf(merged), RankedAmount2025)
    ensures DistinctBy(StatsOf(merged), RankedLabel)
  {
    var ks := Without(Keys(merged, StockMajor), RawMaterials);
    var es := MajorStatEntries(ks, merged);
    SortDescSorted(es, MajorAmount2025);
    TaggedDistinctBy(es, ks, MajorLabel);
    SortDescDistinctBy(es, MajorAmount2025, MajorLabel);
    RankedOrder(SortDesc(es, MajorAmount2025));
  }

  /** Each entry is a major category of the merged rows other than raw materials, with the
      figures and mid-category list of that category's rows. */
  lemma {:induction false} StatsOfEntries(merged: seq<StockRow>, e: RankedStat)
    requires e in StatsOf(merged)
    ensures e.stat.major in Keys(merged, StockMajor) && e.stat.major != RawMaterials
    ensures e.stat == MajorStatOf(merged, e.stat.major)
  {
    var ks := Without(Keys(merged, StockMajor), RawMaterials);
    var es := MajorStatEntries(ks, merged);
    var sorted := SortDesc(es, MajorAmount2025);
    RankedMember(sorted, e.stat);
    SortDescIndex(es, MajorAmount2025, e.stat);
    var k :| 0 <= k < |ks| && es[k] == e.stat;
    assert ks[k] in ks;
  }

  /** Every major category of the merged rows other than raw materials is listed. */
  lemma {:induction false} StatsOfCover(merged: seq<StockRow>, x: StockRow)
    requires x in merged && x.major != RawMaterials
    ensures exists e :: e in StatsOf(merged) && e.stat == MajorStatOf(merged, x.major)
  {
    var ks := Without(Keys(merged, StockMajor), RawMaterials);
    var es := MajorStatEntries(ks, merged);
    var sorted := SortDesc(es, MajorAmount2025);
    var i :| 0 <= i < |ks| && ks[i] == x.major;
    SortDescHas(es, MajorAmount2025, i);
    RankedMember(sorted, es[i]);
  }

  /** The listed 2025 quantities and the raw-material quantity add up exactly to the 2025
      quantity of all merged rows. */
  lemma {:induction false} StatsOfQuantities(merged: seq<StockRow>)
    ensures Sum(StatsOf(merged), ShownQty2025) + Quantity2025(Where(merged, StockMajor, RawMaterials))
         == Quantity2025(merged)
  {
    var ks0 := Keys(merged, StockMajor);
    var ks := Without(ks0, RawMaterials);
    var es := MajorStatEntries(ks, merged);
    WhereSumAdditive(Quantity2025, StockPeriod, P2025, Qty);
    Partition(ks0, merged, StockMajor, Quantity2025);
    SumGroupsWithout(ks0, merged, StockMajor, Quantity2025, RawMaterials);
    if RawMaterials !in ks0 {
      WhereOfAbsentKey(merged, StockMajor, RawMaterials);
    }
    GroupSums(es, MajorQty2025, ks, merged, StockMajor, Quantity2025);
    SumSortDesc(es, MajorAmount2025, MajorQty2025);
    SumRanked(SortDesc(es, MajorAmount2025), ShownQty2025, MajorQty2025);
  }

  function MajorAmount2025Amount(m: MajorStat): real { m.figures.amount2025 as real }

  /** The listed 2025 amounts, each rounded, and the raw-material amount add up to the 2025
      amount of all merged rows, up to half a unit per listed category. */
  lemma {:induction false} StatsOfAmounts(merged: seq<StockRow>)
    ensures WithinHalves(Sum(StatsOf(merged), ShownAmount2025) + Amount2025(Where(merged, StockMajor, RawMaterials)),
      Amount2025(merged), |StatsOf(merged)|)
  {
    var ks0 := Keys(merged, StockMajor);
    var ks := Without(ks0, RawMaterials);
    var es := MajorStatEntries(ks, merged);
    var raw := Amount2025(Where(merged, StockMajor, RawMaterials));
    WhereSumAdditive(Amount2025, StockPeriod, P2025, AmountOf);
    Partition(ks0, merged, StockMajor, Amount2025);
    SumGroupsWithout(ks0, merged, StockMajor, Amount2025, RawMaterials);
    if RawMaterials !in ks0 {
      WhereOfAbsentKey(merged, StockMajor, RawMaterials);
    }
    RankedGroupSums(es, MajorAmount2025, MajorAmount2025Amount, ks, merged, StockMajor, Amount2025, raw, Amount2025(merged));
    SumRanked(SortDesc(es, MajorAmount2025), ShownAmount2025, MajorAmount2025Amount);
    RankedSpec(SortDesc(es, MajorAmount2025));
  }

  /** The product-stats list: ranks 1..N in list order, 金額2025 non-increasing, each major
      category once. */
  lemma {:induction false} ProductStatsSpec(rows: seq<StockRow>)
    ensures forall i :: 0 <= i < |ProductStats(rows)| ==> ProductStats(rows)[i].rank == i + 1
    ensures SortedDesc(ProductStats(rows), RankedAmount2025)
    ensures DistinctBy(ProductStats(rows), RankedLabel)
  {
    StatsOfSpec(Merged(rows));
  }

  /** Raw materials are never listed; every entry is the figures and mid-category list of the
      rows of its major category in either period. */
  lemma {:induction false} ProductStatsEntries(rows: seq<StockRow>, e: RankedStat)
    requires e in ProductStats(rows)
    ensures e.stat.major != RawMaterials
    ensures e.stat == MajorStatOf(Merged(rows), e.stat.major)
  {
    StatsOfEntries(Merged(rows), e);
  }

  /** Raw materials are left out at the major level only: every other major category of
      either period is listed, and under it every mid category of its rows, raw materials
      included. */
  lemma {:induction false} ProductStatsCover(rows: seq<StockRow>, x: StockRow)
    requires x in rows && (x.period == P2024 || x.period == P2025) && x.major != RawMaterials
    ensures exists e :: (e in ProductStats(rows) && e.stat == MajorStatOf(Merged(rows), x.major)
      && MidStatOf(Where(Merged(rows), StockMajor, x.major), x.mid) in e.stat.mids)
  {
    var merged := Merged(rows);
    WhereMember(rows, StockPeriod, P2024, x);
    WhereMember(rows, StockPeriod, P2025, x);
    assert x in merged;
    StatsOfCover(merged, x);
    WhereMember(merged, StockMajor, x.major, x);
    MidStatsCover(Where(merged, StockMajor, x.major), x);
  }

  /** The listed 2025 quantities and the raw-material 2025 quantity add up exactly to the
      sheet's 2025 quantity. */
  lemma {:induction false} ProductStatsQuantities(rows: seq<StockRow>)
    ensures Sum(ProductStats(rows), ShownQty2025) + Quantity2025(Where(rows, StockMajor, RawMaterials))
         == Quantity2025(rows)
  {
    var merged := Merged(rows);
    StatsOfQuantities(merged);
    WhereOfSplit(rows, StockPeriod, P2024, P2025);
    WhereCommutes(merged, StockMajor, RawMaterials, StockPeriod, P2025);
    WhereCommutes(rows, StockMajor, RawMaterials, StockPeriod, P2025);
  }

  /** The listed 2025 amounts and the raw-material 2025 amount add up to the sheet's 2025
      amount, up to half a unit of rounding per listed category. */
  lemma {:induction false} ProductStatsAmounts(rows: seq<StockRow>)
    ensures WithinHalves(Sum(ProductStats(rows), ShownAmount2025) + Amount2025(Where(rows, StockMajor, RawMaterials)),
      Amount2025(rows), |ProductStats(rows)|)
  {
    var merged := Merged(rows);
    StatsOfAmounts(merged);
    WhereOfSplit(rows, StockPeriod, P2024, P2025);
    WhereCommutes(merged, StockMajor, RawMaterials, StockPeriod, P2025);
    WhereCommutes(rows, StockMajor, RawMaterials, StockPeriod, P2025);
  }

  // --------------------------------------------------------------- totals row

  /** The totals row over the displayed list: sums of the listed figures, then the change and
      rate of those sums. */
  datatype Totals = Totals(
    qty2024: real, amount2024: real, qty2025: real, amount2025: real,
    qtyChange: real, qtyRate: real, amountChange: real, amountRate: real)

  function ShownQty2024(r: RankedStat): real { r.stat.figures.qty2024 }
  function ShownQty2025(r: RankedStat): real { r.stat.figures.qty2025 }
  function ShownAmount2024(r: RankedStat): real { r.stat.figures.amount2024 as real }
  function ShownAmount2025(r: RankedStat): real { r.stat.figures.amount2025 as real }

  /** The totals row under the table; `shown` is the list as displayed (sorted and limited). */
  function TotalsRow(shown: seq<RankedStat>): (t: Totals)
    ensures t.amountChange == t.amount2025 - t.amount2024
    ensures t.qtyChange == t.qty2025 - t.qty2024
    ensures t.qty2024 > 0.0 ==> t.qtyRate * t.qty2024 == t.qtyChange * 100.0
    ensures t.qty2024 <= 0.0 ==> t.qtyRate == (if t.qty2025 > 0.0 then 100.0 else 0.0)
    ensures t.amount2024 > 0.0 ==> t.amountRate * t.amount2024 == t.amountChange * 100.0
    ensures t.amount2024 <= 0.0 ==> t.amountRate == (if t.amount2025 > 0.0 then 100.0 else 0.0)
  {
    var q25, a25 := Sum(shown, ShownQty2025), Sum(shown, ShownAmount2025);
    var q24, a24 := Sum(shown, ShownQty2024), Sum(shown, ShownAmount2024);
    Totals(q24, a24, q25, a25, q25 - q24, ChangeRate(q24, q25), a25 - a24, ChangeRate(a24, a25))
  }

  /** Over the whole list, the totals row's 2025 quantity is the sheet's 2025 quantity
      without raw materials, and its 2025 amount is that amount up to the rounding of each
      listed category. */
  lemma {:induction false} TotalsOfAllStats(rows: seq<StockRow>)
    ensures TotalsRow(ProductStats(rows)).qty2025 + Quantity2025(Where(rows, StockMajor, RawMaterials))
         == Quantity2025(rows)
    ensures WithinHalves(TotalsRow(ProductStats(rows)).amount2025 + Amount2025(Where(rows, StockMajor, RawMaterials)),
      Amount2025(rows), |ProductStats(rows)|)
  {
    ProductStatsQuantities(rows);
    ProductStatsAmounts(rows);
  }
}
