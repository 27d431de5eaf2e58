/** The warehouse analysis of one period (calculateWarehouseAnalysis): per mid category, its
    rent in each of six outside warehouses, and per sub category its stock and rent with their
    shares of the period's totals. */
module Warehouse {
  import opened Numeric
  import opened Collections
  import opened Rows
  import opened Inventory

  /** The six outside warehouses (外倉倉別) reported as columns, in column order. */
  const DaChangHuaJia: string := "大昌華嘉"
  const FengAn: string := "豐安"
  const DaRong: string := "大榮"
  const ChuanTian: string := "川田"
  const ChengGong: string := "成功"
  const ZongYun: string := "宗運"

  /** A sub category of a mid category: 小分類, 庫存數量, 倉租金額, 金額占比 and 庫存占比. */
  datatype SubShare = SubShare(sub: string, stock: real, rent: int, rentShare: real, stockShare: real)

  /** A mid category: 中類, 總計金額, the six warehouse columns and 小分類詳細. */
  datatype MidWarehouses = MidWarehouses(
    mid: string, total: int,
    daChangHuaJia: int, fengAn: int, daRong: int, chuanTian: int, chengGong: int, zongYun: int,
    details: seq<SubShare>)

  function SubName(s: SubShare): string { s.sub }
  function SubRent(s: SubShare): int { s.rent }
  function SubRentAmount(s: SubShare): real { s.rent as real }
  function SubStock(s: SubShare): real { s.stock }
  function MidName(e: MidWarehouses): string { e.mid }
  function MidTotal(e: MidWarehouses): int { e.total }

  /** A part as a percentage of a whole, 0 when the whole is not positive. */
  function Share(part: real, whole: real): (p: real)
    ensures whole > 0.0 ==> p * whole == part * 100.0
    ensures whole <= 0.0 ==> p == 0.0
  {
    if whole > 0.0 then part / whole * 100.0 else 0.0
  }

  /** The inventory quantity a row stands for: its code's closing quantity, or 0. */
  function StockOfRow(index: map<string, real>): RentRow -> real {
    (r: RentRow) => Lookup(index, r.code)
  }

  /** `_.sumBy(rows, item => inventoryMap[item['料號']] || 0)`. */
  function Stock(rows: seq<RentRow>, index: map<string, real>): real {
    Sum(rows, StockOfRow(index))
  }

  // --------------------------------------------------------------- warehouse map

  /** `Math.round(_.sumBy(warehouseItems, '費用總額'))`: the rounded rent of the rows in warehouse `w`. */
  function WarehouseRent(items: seq<RentRow>, w: string): int {
    Round(Rent(Where(items, Warehouse, w)))
  }

  /** A warehouse without rows has no rent. */
  lemma {:induction false} EmptyWarehouse(items: seq<RentRow>, w: string)
    requires forall x :: x in items ==> x.warehouse != w
    ensures WarehouseRent(items, w) == 0
  {
    forall i | 0 <= i < |items| ensures Warehouse(items[i]) != w {
      assert items[i] in items;
    }
    WhereNone(items, Warehouse, w);
    assert Round(0.0) == 0;
  }

  /** The map the `forEach` over the warehouse groups fills, warehouse by warehouse. */
  function WarehouseMapOf(ws: seq<string>, items: seq<RentRow>): map<string, int> {
    if ws == [] then map[]
    else
      var w := ws[|ws| - 1];
      WarehouseMapOf(ws[..|ws| - 1], items)[w := WarehouseRent(items, w)]
  }

  function WarehouseMap(items: seq<RentRow>): map<string, int> {
    WarehouseMapOf(Keys(items, Warehouse), items)
  }

  /** `_(items).groupBy('外倉倉別').forEach(...)`: one assignment per warehouse group. */
  method FillWarehouseMap(items: seq<RentRow>) returns (m: map<string, int>)
    ensures m == WarehouseMap(items)
  {
    m := FillForGroups(Keys(items, Warehouse), items);
  }

  /** The `forEach` itself, over the warehouses in group order. */
  method FillForGroups(ws: seq<string>, items: seq<RentRow>) returns (m: map<string, int>)
    ensures m == WarehouseMapOf(ws, items)
  {
    m := map[];
    for i := 0 to |ws|
      invariant m == WarehouseMapOf(ws[..i], items)
    {
      assert ws[..i + 1][..i] == ws[..i];
      m := m[ws[i] := WarehouseRent(items, ws[i])];
    }
    assert ws[..|ws|] == ws;
  }

  /** The map holds exactly the listed warehouses, each with its rounded rent. */
  lemma {:induction false} WarehouseMapOfSpec(ws: seq<string>, items: seq<RentRow>, w: string)
    ensures w in WarehouseMapOf(ws, items) <==> w in ws
    ensures w in ws ==> WarehouseMapOf(ws, items)[w] == WarehouseRent(items, w)
  {
    if ws != [] {
      var p := ws[..|ws| - 1];
      assert ws == p + [ws[|ws| - 1]];
      WarehouseMapOfSpec(p, items, w);
    }
  }

  /** `warehouseMap[w] || 0`. */
  function MapOrZero(m: map<string, int>, w: string): int {
    if w in m then m[w] else 0
  }

  /** With the default, every warehouse reads as the rounded rent of its rows, which is 0
      for a warehouse without rows. */
  lemma {:induction false} WarehouseRentOrZero(items: seq<RentRow>, w: string)
    ensures MapOrZero(WarehouseMap(items), w) == WarehouseRent(items, w)
  {
    var ws := Keys(items, Warehouse);
    WarehouseMapOfSpec(ws, items, w);
    if w !in ws {
      EmptyWarehouse(items, w);
    }
  }

  // ---------------------------------------------------------- sub categories

  /** One sub category's figures and shares. */
  function SubShareOf(sub: string, subItems: seq<RentRow>, index: map<string, real>, totalRent: real, totalStock: real): SubShare {
    var stock := Stock(subItems, index);
    var rent := Round(Rent(subItems));
    SubShare(sub, stock, rent, Share(rent as real, totalRent), Share(stock, totalStock))
  }

  /** The given sub categories of the rows in order, one entry each. */
  function SubShareEntries(subs: seq<string>, items: seq<RentRow>, index: map<string, real>, totalRent: real, totalStock: real): (r: seq<SubShare>)
    ensures |r| == |subs|
  {
    seq(|subs|, i requires 0 <= i < |subs| => SubShareOf(subs[i], Where(items, Sub, subs[i]), index, totalRent, totalStock))
  }

  /** `小分類詳細`: the sub categories of the rows, `orderBy('倉租金額', 'desc')`. */
  function SubShares(items: seq<RentRow>, index: map<string, real>, totalRent: real, totalStock: real): seq<SubShare> {
    SortDesc(SubShareEntries(Keys(items, Sub), items, index, totalRent, totalStock), SubRent)
  }

  /** Each sub category of the rows appears once, with the figures of its own rows, in
      non-increasing order of rounded rent. */
  lemma {:induction false} SubSharesSpec(items: seq<RentRow>, index: map<string, real>, totalRent: real, totalStock: real)
    ensures var r := SubShares(items, index, totalRent, totalStock);
      && |r| == |Keys(items, Sub)|
      && SortedDesc(r, SubRent)
      && DistinctBy(r, SubName)
      && forall s :: s in r ==>
           && Where(items, Sub, s.sub) != []
           && s == SubShareOf(s.sub, Where(items, Sub, s.sub), index, totalRent, totalStock)
  {
    var subs := Keys(items, Sub);
    var es := SubShareEntries(subs, items, index, totalRent, totalStock);
    KeysOccur(items, Sub);
    SortTagged(es, subs, SubName, SubRent);
    SortDescSorted(es, SubRent);
    forall s | s in SortDesc(es, SubRent)
      ensures Where(items, Sub, s.sub) != []
      ensures s == SubShareOf(s.sub, Where(items, Sub, s.sub), index, totalRent, totalStock)
    {
      var i :| 0 <= i < |es| && es[i] == s;
      assert subs[i] in subs;
    }
  }

  /** A sub category's shares relate its figures to the period's totals. */
  lemma {:induction false} SubShareFigures(sub: string, subItems: seq<RentRow>, index: map<string, real>, totalRent: real, totalStock: real)
    ensures var s := SubShareOf(sub, subItems, index, totalRent, totalStock);
      && RoundsTo(s.rent, Rent(subItems))
      && s.stock == Stock(subItems, index)
      && (totalRent > 0.0 ==> s.rentShare * totalRent == s.rent as real * 100.0)
      && (totalRent <= 0.0 ==> s.rentShare == 0.0)
      && (totalStock > 0.0 ==> s.stockShare * totalStock == s.stock * 100.0)
      && (totalStock <= 0.0 ==> s.stockShare == 0.0)
  {
  }

  /** The sub categories' stock adds up to the mid category's stock: no row is counted twice
      or left out. */
  lemma {:induction false} SubStocksAddUp(items: seq<RentRow>, index: map<string, real>, totalRent: real, totalStock: real)
    ensures Sum(SubShares(items, index, totalRent, totalStock), SubStock) == Stock(items, index)
  {
    var subs := Keys(items, Sub);
    var es := SubShareEntries(subs, items, index, totalRent, totalStock);
    SumSortDesc(es, SubRent, SubStock);
    GroupedSum(es, SubStock, subs, items, Sub, StockOfRow(index));
  }

  /** The sub categories' rounded rents add up to the mid category's rent, up to half a unit
      per sub category. */
  lemma {:induction false} SubRentsAddUp(items: seq<RentRow>, index: map<string, real>, totalRent: real, totalStock: real)
    ensures WithinHalves(Sum(SubShares(items, index, totalRent, totalStock), SubRentAmount), Rent(items),
      |SubShares(items, index, totalRent, totalStock)|)
  {
    var subs := Keys(items, Sub);
    var es := SubShareEntries(subs, items, index, totalRent, totalStock);
    RentAdditive();
    Partition(subs, items, Sub, Rent);
    RankedGroupSums(es, SubRent, SubRentAmount, subs, items, Sub, Rent, 0.0, Rent(items));
  }

  // ------------------------------------------------------------ mid categories

  /** The entry of one mid category of the period. */
  function MidWarehousesOf(mid: string, items: seq<RentRow>, index: map<string, real>, totalRent: real, totalStock: real): MidWarehouses {
    var m := WarehouseMap(items);
    MidWarehouses(mid, Round(Rent(items)),
      MapOrZero(m, DaChangHuaJia), MapOrZero(m, FengAn), MapOrZero(m, DaRong),
      MapOrZero(m, ChuanTian), MapOrZero(m, ChengGong), MapOrZero(m, ZongYun),
      SubShares(items, index, totalRent, totalStock))
  }

  /** Every warehouse column holds the rounded rent of the category's rows in that
      warehouse, with 0 for a warehouse without rows (see `EmptyWarehouse`). */
  lemma {:induction false} WarehouseColumns(mid: string, items: seq<RentRow>, index: map<string, real>, totalRent: real, totalStock: real)
    ensures var e := MidWarehousesOf(mid, items, index, totalRent, totalStock);
      && e.daChangHuaJia == WarehouseRent(items, DaChangHuaJia)
      && e.fengAn == WarehouseRent(items, FengAn)
      && e.daRong == WarehouseRent(items, DaRong)
      && e.chuanTian == WarehouseRent(items, ChuanTian)
      && e.chengGong == WarehouseRent(items, ChengGong)
      && e.zongYun == WarehouseRent(items, ZongYun)
  {
    WarehouseRentOrZero(items, DaChangHuaJia);
    WarehouseRentOrZero(items, FengAn);
    WarehouseRentOrZero(items, DaRong);
    WarehouseRentOrZero(items, ChuanTian);
    WarehouseRentOrZero(items, ChengGong);
    WarehouseRentOrZero(items, ZongYun);
  }

  /** The given mid categories of the period in order, one entry each. */
  function MidWarehousesEntries(mids: seq<string>, rows: seq<RentRow>, index: map<string, real>, totalRent: real, totalStock: real): (r: seq<MidWarehouses>)
    ensures |r| == |mids|
  {
    seq(|mids|, i requires 0 <= i < |mids| => MidWarehousesOf(mids[i], Where(rows, Mid, mids[i]), index, totalRent, totalStock))
  }

  /** `calculateWarehouseAnalysis`: group one period's rows by mid category, order by total
      rent, then drop raw materials; nothing is truncated. */
  function WarehouseAnalysis(rows: seq<RentRow>, index: map<string, real>): (r: seq<MidWarehouses>)
    ensures |r| <= |Keys(rows, Mid)|
    ensures forall e :: e in r ==> e.mid != RawMaterials
  {
    var es := MidWarehousesEntries(Keys(rows, Mid), rows, index, Rent(rows), Stock(rows, index));
    WhereMembers(SortDesc(es, MidTotal), MidName, RawMaterials);
    WhereNot(SortDesc(es, MidTotal), MidName, RawMaterials)
  }

  /** The analysis lists the mid categories of the period but raw materials, each once, in
      non-increasing order of total rent. */
  lemma {:induction false} WarehouseAnalysisSpec(rows: seq<RentRow>, index: map<string, real>)
    ensures var r := WarehouseAnalysis(rows, index);
      && |r| == |Without(Keys(rows, Mid), RawMaterials)|
      && SortedDesc(r, MidTotal)
      && DistinctBy(r, MidName)
  {
    var mids := Keys(rows, Mid);
    var es := MidWarehousesEntries(mids, rows, index, Rent(rows), Stock(rows, index));
    RankedWithout(es, MidTotal, MidName, mids, RawMaterials);
  }

  /** Each entry is a mid category other than raw materials, with the figures of its own rows
      measured against the period's totals. */
  lemma {:induction false} WarehouseAnalysisEntries(rows: seq<RentRow>, index: map<string, real>)
    ensures forall e :: e in WarehouseAnalysis(rows, index) ==>
      && e.mid != RawMaterials
      && Where(rows, Mid, e.mid) != []
      && e == MidWarehousesOf(e.mid, Where(rows, Mid, e.mid), index, Rent(rows), Stock(rows, index))
  {
    forall e | e in WarehouseAnalysis(rows, index)
      ensures e.mid != RawMaterials && Where(rows, Mid, e.mid) != []
      ensures e == MidWarehousesOf(e.mid, Where(rows, Mid, e.mid), index, Rent(rows), Stock(rows, index))
    {
      WarehouseAnalysisEntry(rows, index, e);
    }
  }

  lemma {:induction false} WarehouseAnalysisEntry(rows: seq<RentRow>, index: map<string, real>, e: MidWarehouses)
    requires e in WarehouseAnalysis(rows, index)
    ensures e.mid != RawMaterials && Where(rows, Mid, e.mid) != []
    ensures e == MidWarehousesOf(e.mid, Where(rows, Mid, e.mid), index, Rent(rows), Stock(rows, index))
  {
    var mids := Keys(rows, Mid);
    var es := MidWarehousesEntries(mids, rows, index, Rent(rows), Stock(rows, index));
    KeysOccur(rows, Mid);
    WhereNotOfSortedIndex(es, MidTotal, MidName, RawMaterials, e);
    var i :| 0 <= i < |es| && es[i] == e;
    assert mids[i] in mids;
  }

  /** No mid category of the period other than raw materials is missing. */
  lemma {:induction false} WarehouseAnalysisCovers(rows: seq<RentRow>, index: map<string, real>)
    ensures forall x :: x in rows && x.mid != RawMaterials ==>
      exists e :: e in WarehouseAnalysis(rows, index) && e.mid == x.mid
  {
    var mids := Keys(rows, Mid);
    var es := MidWarehousesEntries(mids, rows, index, Rent(rows), Stock(rows, index));
    forall x | x in rows && x.mid != RawMaterials
      ensures exists e :: e in WarehouseAnalysis(rows, index) && e.mid == x.mid
    {
      var i :| 0 <= i < |mids| && mids[i] == x.mid;
      var e := es[i];
      SortDescHas(es, MidTotal, i);
      WhereMember(SortDesc(es, MidTotal), MidName, RawMaterials, e);
    }
  }

}
