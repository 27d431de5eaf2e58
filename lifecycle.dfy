/** New and discontinued items (calculateNewItems, calculateDiscontinuedItems): the product
    codes of one period that the other period does not have, one row each. */
module Lifecycle {
  import opened Numeric
  import opened Collections
  import opened Rows
  import opened Inventory

  /** A reported item: 料號, 商品名稱, 庫存數量, 倉租金額 and 外倉名稱. */
  datatype Item = Item(code: string, name: string, stock: real, rent: int, warehouse: string)

  function ItemCode(it: Item): string { it.code }
  function ItemRent(it: Item): int { it.rent }

  /** The item reported for a row: its own rounded amount and its code's closing quantity. */
  function ItemOf(r: RentRow, index: map<string, real>): Item {
    Item(r.code, r.name, Lookup(index, r.code), Round(r.amount), r.warehouse)
  }

  // ------------------------------------------------------------- code set

  /** `new Set(rows.map(item => item['料號']))`. */
  function CodesOf(rows: seq<RentRow>): set<string> {
    if rows == [] then {} else CodesOf(rows[..|rows| - 1]) + {rows[|rows| - 1].code}
  }

  lemma {:induction false} CodesOfSpec(rows: seq<RentRow>, c: string)
    ensures c in CodesOf(rows) <==> exists i :: 0 <= i < |rows| && rows[i].code == c
  {
    if rows != [] {
      var p := rows[..|rows| - 1];
      CodesOfSpec(p, c);
      if exists i :: 0 <= i < |p| && p[i].code == c {
        var i :| 0 <= i < |p| && p[i].code == c;
        assert rows[i] == p[i];
      }
    }
  }

  method CodeSet(rows: seq<RentRow>) returns (codes: set<string>)
    ensures codes == CodesOf(rows)
  {
    codes := {};
    for i := 0 to |rows|
      invariant codes == CodesOf(rows[..i])
    {
      assert rows[..i + 1][..i] == rows[..i];
      codes := codes + {rows[i].code};
    }
    assert rows[..|rows|] == rows;
  }

  // ------------------------------------------------------------ code index

  /** The `Map` filled by `set(item['料號'], item)` row by row: each code's last row. */
  function LastByCode(rows: seq<RentRow>): map<string, RentRow> {
    if rows == [] then map[]
    else
      var r := rows[|rows| - 1];
      LastByCode(rows[..|rows| - 1])[r.code := r]
  }

  /** Each code of the rows maps to its last row, and nothing else is in the map. */
  lemma {:induction false} LastByCodeSpec(rows: seq<RentRow>, c: string)
    ensures c in LastByCode(rows) <==> exists i :: 0 <= i < |rows| && rows[i].code == c
    ensures c in LastByCode(rows) ==>
      exists i :: (0 <= i < |rows| && LastByCode(rows)[c] == rows[i]
        && rows[i].code == c && forall j :: i < j < |rows| ==> rows[j].code != c)
  {
    LastByCodeDomain(rows, c);
    if c in LastByCode(rows) {
      LastByCodeLast(rows, c);
    }
  }

  lemma {:induction false} LastByCodeDomain(rows: seq<RentRow>, c: string)
    ensures c in LastByCode(rows) <==> exists i :: 0 <= i < |rows| && rows[i].code == c
  {
    if rows != [] {
      var p := rows[..|rows| - 1];
      LastByCodeDomain(p, c);
      if exists i :: 0 <= i < |p| && p[i].code == c {
        var i :| 0 <= i < |p| && p[i].code == c;
        assert rows[i] == p[i];
      }
    }
  }

  lemma {:induction false} LastByCodeLast(rows: seq<RentRow>, c: string)
    requires c in LastByCode(rows)
    ensures exists i :: (0 <= i < |rows| && LastByCode(rows)[c] == rows[i]
      && rows[i].code == c && forall j :: i < j < |rows| ==> rows[j].code != c)
  {
    var p := rows[..|rows| - 1];
    var r := rows[|rows| - 1];
    if r.code == c {
      assert LastByCode(rows)[c] == rows[|rows| - 1];
    } else {
      LastByCodeLast(p, c);
      var i :| 0 <= i < |p| && LastByCode(p)[c] == p[i] && p[i].code == c
        && forall j :: i < j < |p| ==> p[j].code != c;
      assert rows[i] == p[i];
      forall j | i < j < |rows| ensures rows[j].code != c {
        if j < |p| { assert rows[j] == p[j]; }
      }
    }
  }

  /** The map's keys in first-insertion order: a JavaScript `Map` iterates in that order, and
      setting an existing key again keeps its place. */
  method IndexByCode(rows: seq<RentRow>) returns (byCode: map<string, RentRow>, order: seq<string>)
    ensures byCode == LastByCode(rows)
    ensures order == Keys(rows, Code)
  {
    byCode, order := map[], [];
    for i := 0 to |rows|
      invariant byCode == LastByCode(rows[..i])
      invariant order == Keys(rows[..i], Code)
    {
      assert rows[..i + 1] == rows[..i] + [rows[i]];
      KeysSnoc(rows[..i], rows[i], Code);
      if rows[i].code !in order {
        order := order + [rows[i].code];
      }
      byCode := byCode[rows[i].code := rows[i]];
    }
    assert rows[..|rows|] == rows;
  }

  /** Every code in the key order is in the map. */
  lemma {:induction false} KeysInLastByCode(rows: seq<RentRow>)
    ensures forall c :: c in Keys(rows, Code) ==> c in LastByCode(rows)
  {
    forall c | c in Keys(rows, Code) ensures c in LastByCode(rows) {
      KeysOccur(rows, Code);
      assert Where(rows, Code, c) != [];
      var x := Where(rows, Code, c)[0];
      WhereMember(rows, Code, c, x);
      var i :| 0 <= i < |rows| && rows[i] == x;
      LastByCodeSpec(rows, c);
    }
  }

  // --------------------------------------------------------------- the lists

  /** The items pushed while iterating the map in key order: one per code not in `existing`. */
  function PushUnmatched(codes: seq<string>, existing: set<string>, byCode: map<string, RentRow>, index: map<string, real>): (items: seq<Item>)
    requires forall c :: c in codes ==> c in byCode
    ensures |items| <= |codes|
  {
    if codes == [] then []
    else
      var c := codes[|codes| - 1];
      PushUnmatched(codes[..|codes| - 1], existing, byCode, index)
        + (if c !in existing then [ItemOf(byCode[c], index)] else [])
  }

  /** The items of the codes of `current` that `other` lacks, by rent, highest first. */
  function OnlyIn(current: seq<RentRow>, other: seq<RentRow>, index: map<string, real>): (items: seq<Item>)
    ensures |items| <= |Keys(current, Code)|
  {
    KeysInLastByCode(current);
    SortDesc(PushUnmatched(Keys(current, Code), CodesOf(other), LastByCode(current), index), ItemRent)
  }

  /** The shared body of both calculations: a code set of the other period, a code index of
      this one, one push per unmatched code, then `sort((a, b) => b.倉租金額 - a.倉租金額)`. */
  method ItemsOnlyIn(current: seq<RentRow>, other: seq<RentRow>, index: map<string, real>) returns (items: seq<Item>)
    ensures items == OnlyIn(current, other, index)
  {
    var existing := CodeSet(other);
    var byCode, order := IndexByCode(current);
    KeysInLastByCode(current);
    var pushed := PushEachUnmatched(order, existing, byCode, index);
    items := SortDesc(pushed, ItemRent);
  }

  /** `byCode.forEach((item, code) => { if (!existing.has(code)) list.push(...) })`. */
  method PushEachUnmatched(order: seq<string>, existing: set<string>, byCode: map<string, RentRow>, index: map<string, real>)
    returns (pushed: seq<Item>)
    requires forall c :: c in order ==> c in byCode
    ensures pushed == PushUnmatched(order, existing, byCode, index)
  {
    pushed := [];
    for j := 0 to |order|
      invariant pushed == PushUnmatched(order[..j], existing, byCode, index)
    {
      assert order[..j + 1][..j] == order[..j];
      var code := order[j];
      if code !in existing {
        pushed := pushed + [ItemOf(byCode[code], index)];
      }
    }
    assert order[..|order|] == order;
  }

  /** `calculateNewItems`: the codes of 2025 that 2024 lacks, with the 2025 inventory. */
  method NewItems(data2024: seq<RentRow>, data2025: seq<RentRow>, inventory2025: map<string, real>) returns (items: seq<Item>)
    ensures items == OnlyIn(data2025, data2024, inventory2025)
  {
    items := ItemsOnlyIn(data2025, data2024, inventory2025);
  }

  /** `calculateDiscontinuedItems`: the codes of 2024 that 2025 lacks, with the 2024 inventory. */
  method DiscontinuedItems(data2024: seq<RentRow>, data2025: seq<RentRow>, inventory2024: map<string, real>) returns (items: seq<Item>)
    ensures items == OnlyIn(data2024, data2025, inventory2024)
  {
    items := ItemsOnlyIn(data2024, data2025, inventory2024);
  }

  // -------------------------------------------------------------- properties

  /** An item is pushed exactly for each listed code missing from `existing`, and it is the
      item of that code's row in the map. */
  lemma {:induction false} PushUnmatchedMembers(codes: seq<string>, existing: set<string>, byCode: map<string, RentRow>, index: map<string, real>, it: Item)
    requires forall c :: c in codes ==> c in byCode
    ensures it in PushUnmatched(codes, existing, byCode, index)
        <==> exists c :: c in codes && c !in existing && it == ItemOf(byCode[c], index)
  {
    if codes != [] {
      var p := codes[..|codes| - 1];
      var c := codes[|codes| - 1];
      assert codes == p + [c];
      PushUnmatchedMembers(p, existing, byCode, index, it);
    }
  }

  /** A code is pushed at most once when the codes are distinct and each maps to a row of
      its own code. */
  lemma {:induction false} PushUnmatchedDistinct(codes: seq<string>, existing: set<string>, byCode: map<string, RentRow>, index: map<string, real>)
    requires forall c :: c in codes ==> c in byCode && byCode[c].code == c
    requires Distinct(codes)
    ensures DistinctBy(PushUnmatched(codes, existing, byCode, index), ItemCode)
  {
    if codes != [] {
      var p := codes[..|codes| - 1];
      var c := codes[|codes| - 1];
      assert codes == p + [c];
      PushUnmatchedDistinct(p, existing, byCode, index);
      var q := PushUnmatched(p, existing, byCode, index);
      if c !in existing {
        forall y | y in q ensures ItemCode(y) != ItemCode(ItemOf(byCode[c], index)) {
          PushUnmatchedMembers(p, existing, byCode, index, y);
        }
        DistinctByAppendOne(q, ItemOf(byCode[c], index), ItemCode);
      }
    }
  }

  /** The map sends each code to a row of that code. */
  lemma {:induction false} LastByCodeKeys(rows: seq<RentRow>)
    ensures forall c :: c in LastByCode(rows) ==> LastByCode(rows)[c].code == c
  {
    if rows != [] {
      LastByCodeKeys(rows[..|rows| - 1]);
    }
  }

  /** The list has each code at most once and runs by rent, highest first. */
  lemma {:induction false} OnlyInShape(current: seq<RentRow>, other: seq<RentRow>, index: map<string, real>)
    ensures SortedDesc(OnlyIn(current, other, index), ItemRent)
    ensures DistinctBy(OnlyIn(current, other, index), ItemCode)
  {
    var last := LastByCode(current);
    KeysInLastByCode(current);
    LastByCodeKeys(current);
    var pushed := PushUnmatched(Keys(current, Code), CodesOf(other), last, index);
    SortDescSorted(pushed, ItemRent);
    PushUnmatchedDistinct(Keys(current, Code), CodesOf(other), last, index);
    SortDescDistinctBy(pushed, ItemRent, ItemCode);
  }

  /** A code is listed exactly when some row of `current` has it and no row of `other` does. */
  lemma {:induction false} OnlyInCodes(current: seq<RentRow>, other: seq<RentRow>, index: map<string, real>, c: string)
    ensures (exists it :: it in OnlyIn(current, other, index) && it.code == c)
        <==> ((exists i :: 0 <= i < |current| && current[i].code == c)
              && !(exists i :: 0 <= i < |other| && other[i].code == c))
  {
    if exists it :: it in OnlyIn(current, other, index) && it.code == c {
      var it :| it in OnlyIn(current, other, index) && it.code == c;
      OnlyInListed(current, other, index, it);
    }
    if (exists i :: 0 <= i < |current| && current[i].code == c)
      && !(exists i :: 0 <= i < |other| && other[i].code == c)
    {
      var i :| 0 <= i < |current| && current[i].code == c;
      OnlyInComplete(current, other, index, i);
    }
  }

  /** A listed item's code occurs in `current` and not in `other`. */
  lemma {:induction false} OnlyInListed(current: seq<RentRow>, other: seq<RentRow>, index: map<string, real>, it: Item)
    requires it in OnlyIn(current, other, index)
    ensures exists i :: 0 <= i < |current| && current[i].code == it.code
    ensures !(exists i :: 0 <= i < |other| && other[i].code == it.code)
  {
    var last := LastByCode(current);
    var ks := Keys(current, Code);
    KeysInLastByCode(current);
    LastByCodeKeys(current);
    var pushed := PushUnmatched(ks, CodesOf(other), last, index);
    SortDescIndex(pushed, ItemRent, it);
    PushUnmatchedMembers(ks, CodesOf(other), last, index, it);
    var c :| c in ks && c !in CodesOf(other) && it == ItemOf(last[c], index);
    LastByCodeSpec(current, c);
    CodesOfSpec(other, c);
  }

  /** A code of `current` that `other` lacks is listed. */
  lemma {:induction false} OnlyInComplete(current: seq<RentRow>, other: seq<RentRow>, index: map<string, real>, i: int)
    requires 0 <= i < |current|
    requires !(exists j :: 0 <= j < |other| && other[j].code == current[i].code)
    ensures exists it :: it in OnlyIn(current, other, index) && it.code == current[i].code
  {
    var c := current[i].code;
    var last := LastByCode(current);
    var ks := Keys(current, Code);
    KeysInLastByCode(current);
    LastByCodeKeys(current);
    assert current[i] in current;
    CodesOfSpec(other, c);
    var it := ItemOf(last[c], index);
    var pushed := PushUnmatched(ks, CodesOf(other), last, index);
    PushUnmatchedMembers(ks, CodesOf(other), last, index, it);
    SortDescMembers(pushed, ItemRent);
    assert it in OnlyIn(current, other, index);
  }

  /** The reported row of a code is its last row in `current`: later rows overwrite earlier
      ones in the map. */
  lemma {:induction false} OnlyInLastRowWins(current: seq<RentRow>, other: seq<RentRow>, index: map<string, real>, it: Item)
    requires it in OnlyIn(current, other, index)
    ensures exists i :: (0 <= i < |current| && it == ItemOf(current[i], index)
      && forall j :: i < j < |current| ==> current[j].code != current[i].code)
  {
    var last := LastByCode(current);
    var ks := Keys(current, Code);
    KeysInLastByCode(current);
    var pushed := PushUnmatched(ks, CodesOf(other), last, index);
    SortDescMembers(pushed, ItemRent);
    PushUnmatchedMembers(ks, CodesOf(other), last, index, it);
    var c :| c in ks && c !in CodesOf(other) && it == ItemOf(last[c], index);
    LastByCodeSpec(current, c);
  }

  /** No code is both new and discontinued. */
  lemma {:induction false} NewAndDiscontinuedDisjoint(data2024: seq<RentRow>, data2025: seq<RentRow>,
      inventory2024: map<string, real>, inventory2025: map<string, real>, a: Item, b: Item)
    requires a in OnlyIn(data2025, data2024, inventory2025)
    requires b in OnlyIn(data2024, data2025, inventory2024)
    ensures a.code != b.code
  {
    OnlyInCodes(data2025, data2024, inventory2025, a.code);
    OnlyInCodes(data2024, data2025, inventory2024, b.code);
  }
}
