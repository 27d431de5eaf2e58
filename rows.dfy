/** The input records, as the spreadsheet loader hands them over: one sequence of
    rows per sheet, each column a typed field. */
module Rows {
  import opened Collections

  datatype Option<T> = None | Some(value: T)

  /** The two compared periods, as the year-month codes of column 年月. */
  const P2024: int := 202406
  const P2025: int := 202506

  /** The raw-materials category (原材物料), excluded from or folded out of the rankings. */
  const RawMaterials: string := "原材物料"

  /** The label of the synthetic "Others" entry (其他). */
  const OthersLabel: string := "其他"

  /** A row of the merged rent sheet (合併): product code 料號, product name 商品名稱,
      major/mid/sub category 大類/中類/小分類, warehouse 外倉倉別, year-month 年月
      and the rent amount 費用總額. */
  datatype RentRow = RentRow(
    code: string, name: string,
    major: string, mid: string, sub: string,
    warehouse: string, period: int, amount: real)

  function Code(r: RentRow): string { r.code }
  function Major(r: RentRow): string { r.major }
  function Mid(r: RentRow): string { r.mid }
  function Sub(r: RentRow): string { r.sub }
  function Warehouse(r: RentRow): string { r.warehouse }
  function Period(r: RentRow): int { r.period }
  function Amount(r: RentRow): real { r.amount }

  /** `rows.filter(row => row['年月'] === p)`. */
  function InPeriod(rows: seq<RentRow>, p: int): (r: seq<RentRow>)
    ensures forall x {:trigger x in r} :: x in r <==> x in rows && x.period == p
  {
    WhereMembers(rows, Period, p);
    Where(rows, Period, p)
  }

  /** `_.sumBy(rows, '費用總額')`. */
  function Rent(rows: seq<RentRow>): real { Sum(rows, Amount) }

  /** The rent of the rows of one period: the per-period sums every summary computes. */
  function Rent2024(rows: seq<RentRow>): real { Rent(InPeriod(rows, P2024)) }
  function Rent2025(rows: seq<RentRow>): real { Rent(InPeriod(rows, P2025)) }

  lemma {:induction false} PeriodRentSnoc(a: seq<RentRow>, x: RentRow, p: int)
    ensures Rent(InPeriod(a + [x], p)) == Rent(InPeriod(a, p)) + Rent(InPeriod([x], p))
  {
    WhereSnoc(a, x, Period, p);
    WhereSingle(x, Period, p);
    SumAppend(InPeriod(a, p), InPeriod([x], p), Amount);
  }

  /** Rent is a sum over rows, so it adds up over groups of rows. */
  lemma {:induction false} RentAdditive()
    ensures Additive(Rent)
  {
    forall a: seq<RentRow>, x: RentRow ensures Rent(a + [x]) == Rent(a) + Rent([x]) {
      SumAppend(a, [x], Amount);
    }
  }

  /** A period's rent is a sum over rows, so it adds up over groups of rows. */
  lemma {:induction false} PeriodRentsAdditive()
    ensures Additive(Rent2024) && Additive(Rent2025)
  {
    forall a: seq<RentRow>, x: RentRow ensures Rent2024(a + [x]) == Rent2024(a) + Rent2024([x]) {
      PeriodRentSnoc(a, x, P2024);
    }
    forall a: seq<RentRow>, x: RentRow ensures Rent2025(a + [x]) == Rent2025(a) + Rent2025([x]) {
      PeriodRentSnoc(a, x, P2025);
    }
  }

  /** Splitting the merged sheet by period and concatenating the two halves, as
      `data2024.concat(data2025)` does, loses nothing of either period: filtering the
      concatenation again gives back each half exactly. */
  lemma {:induction false} RefilterPeriods(merged: seq<RentRow>)
    ensures InPeriod(InPeriod(merged, P2024) + InPeriod(merged, P2025), P2024) == InPeriod(merged, P2024)
    ensures InPeriod(InPeriod(merged, P2024) + InPeriod(merged, P2025), P2025) == InPeriod(merged, P2025)
  {
    WhereOfSplit(merged, Period, P2024, P2025);
  }
}
