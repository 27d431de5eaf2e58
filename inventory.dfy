/** The inventory index: product code (料號) to closing quantity (期末存量), built
    from one inventory sheet and looked up with a default of 0. */
module Inventory {
  import opened Rows

  /** A row of an inventory sheet. `closing` is present only when the cell holds a number. */
  datatype InventoryRow = InventoryRow(code: string, closing: Option<real>)

  /** The row enters the index: its code is non-empty and its closing quantity is a number. */
  predicate Indexed(r: InventoryRow) {
    r.code != "" && r.closing.Some?
  }

  /** The index the rows define: scanning in order, each indexed row (over)writes its code's entry. */
  function IndexOf(rows: seq<InventoryRow>): (index: map<string, real>)
    ensures forall c :: c in index ==> c != ""
  {
    if rows == [] then map[]
    else
      var m := IndexOf(rows[..|rows| - 1]);
      var r := rows[|rows| - 1];
      if Indexed(r) then m[r.code := r.closing.value] else m
  }

  /** `createInventoryMap`: one pass over the sheet, filling the map in place. */
  method CreateInventoryMap(rows: seq<InventoryRow>) returns (index: map<string, real>)
    ensures index == IndexOf(rows)
  {
    index := map[];
    for i := 0 to |rows|
      invariant index == IndexOf(rows[..i])
    {
      assert rows[..i + 1][..i] == rows[..i];
      var r := rows[i];
      if r.code != "" && r.closing.Some? {
        index := index[r.code := r.closing.value];
      }
    }
    assert rows[..|rows|] == rows;
  }

  /** `inventoryMap[code] || 0`. */
  function Lookup(index: map<string, real>, code: string): real {
    if code in index then index[code] else 0.0
  }

  /** A code is in the index exactly when some indexed row carries it. */
  lemma {:induction false} IndexDomain(rows: seq<InventoryRow>, code: string)
    ensures code in IndexOf(rows) <==> exists i :: 0 <= i < |rows| && Indexed(rows[i]) && rows[i].code == code
  {
    if rows != [] {
      var p := rows[..|rows| - 1];
      IndexDomain(p, code);
      if exists i :: 0 <= i < |p| && Indexed(p[i]) && p[i].code == code {
        var i :| 0 <= i < |p| && Indexed(p[i]) && p[i].code == code;
        assert rows[i] == p[i];
      }
      if exists i :: 0 <= i < |rows| && Indexed(rows[i]) && rows[i].code == code {
        var i :| 0 <= i < |rows| && Indexed(rows[i]) && rows[i].code == code;
        if i < |p| {
          assert p[i] == rows[i];
        }
      }
    }
  }

  /** The value of a code is the closing quantity of the last indexed row carrying it. */
  lemma {:induction false} IndexLastWins(rows: seq<InventoryRow>, i: int)
    requires 0 <= i < |rows| && Indexed(rows[i])
    requires forall j :: i < j < |rows| && Indexed(rows[j]) ==> rows[j].code != rows[i].code
    ensures rows[i].code in IndexOf(rows)
    ensures IndexOf(rows)[rows[i].code] == rows[i].closing.value
  {
    var p := rows[..|rows| - 1];
    if i < |rows| - 1 {
      assert p[i] == rows[i];
      IndexLastWins(p, i);
    }
  }

  /** A code no indexed row carries looks up as 0: missing stock counts as none. */
  lemma {:induction false} LookupMissing(rows: seq<InventoryRow>, code: string)
    requires forall i :: 0 <= i < |rows| && Indexed(rows[i]) ==> rows[i].code != code
    ensures Lookup(IndexOf(rows), code) == 0.0
  {
    IndexDomain(rows, code);
  }

  /** The index ignores the rows it does not take in: empty codes and non-numeric quantities. */
  lemma {:induction false} IndexIgnoresUnindexed(rows: seq<InventoryRow>, r: InventoryRow)
    requires !Indexed(r)
    ensures IndexOf(rows + [r]) == IndexOf(rows)
    ensures IndexOf([r] + rows) == IndexOf(rows)
  {
    assert (rows + [r])[..|rows|] == rows;
    if rows != [] {
      var p := rows[..|rows| - 1];
      assert ([r] + rows)[..|rows|] == [r] + p;
      IndexIgnoresUnindexed(p, r);
    }
  }
}
