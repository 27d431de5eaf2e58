/** The sequence combinators the analysis is built from, with lodash semantics:
    `filter` (Where, WhereNot), `sumBy` (Sum), `groupBy` (Keys in first-occurrence
    order plus Where for each key) and the stable descending sort that `orderBy(.., 'desc')`
    and `Array.prototype.sort((a, b) => b.k - a.k)` both perform (SortDesc). */
module Collections {
  import opened Numeric

  /** No key occurs twice: each key is new with respect to the keys before it. */
  ghost predicate Distinct<K>(ks: seq<K>) {
    ks == [] || (Distinct(ks[..|ks| - 1]) && ks[|ks| - 1] !in ks[..|ks| - 1])
  }

  /** The same, stated over positions. */
  lemma {:induction false} DistinctIndices<K>(ks: seq<K>)
    requires Distinct(ks)
    ensures forall i, j :: 0 <= i < j < |ks| ==> ks[i] != ks[j]
  {
    if ks != [] {
      var q := ks[..|ks| - 1];
      DistinctIndices(q);
      forall i, j | 0 <= i < j < |ks| ensures ks[i] != ks[j] {
        assert ks[i] == q[i];
        if j < |ks| - 1 {
          assert ks[j] == q[j];
        } else {
          assert q[i] in q;
        }
      }
    }
  }

  // ---------------------------------------------------------------- filtering

  /** The elements whose key equals `k`, in their original order. */
  function Where<T, K(==)>(s: seq<T>, key: T -> K, k: K): (r: seq<T>)
    ensures |r| <= |s|
  {
    if s == [] then []
    else
      var last := s[|s| - 1];
      var p := Where(s[..|s| - 1], key, k);
      assert s == s[..|s| - 1] + [last];
      if key(last) == k then p + [last] else p
  }

  /** The elements whose key differs from `k`, in their original order. */
  function WhereNot<T, K(==)>(s: seq<T>, key: T -> K, k: K): (r: seq<T>)
    ensures |r| <= |s|
  {
    if s == [] then []
    else
      var last := s[|s| - 1];
      var p := WhereNot(s[..|s| - 1], key, k);
      assert s == s[..|s| - 1] + [last];
      if key(last) != k then p + [last] else p
  }

  /** `Where` keeps exactly the elements with key `k`, `WhereNot` exactly the others. */
  lemma {:induction false} WhereMember<T, K>(s: seq<T>, key: T -> K, k: K, x: T)
    ensures x in Where(s, key, k) <==> x in s && key(x) == k
    ensures x in WhereNot(s, key, k) <==> x in s && key(x) != k
  {
    if s != [] {
      var p := s[..|s| - 1];
      WhereMember(p, key, k, x);
      assert s == p + [s[|s| - 1]];
    }
  }

  /** The same for every element at once. */
  lemma {:induction false} WhereMembers<T(!new), K>(s: seq<T>, key: T -> K, k: K)
    ensures forall x {:trigger x in Where(s, key, k)} :: x in Where(s, key, k) <==> x in s && key(x) == k
    ensures forall x {:trigger x in WhereNot(s, key, k)} :: x in WhereNot(s, key, k) <==> x in s && key(x) != k
  {
    forall x ensures x in Where(s, key, k) <==> x in s && key(x) == k {
      WhereMember(s, key, k, x);
    }
    forall x ensures x in WhereNot(s, key, k) <==> x in s && key(x) != k {
      WhereMember(s, key, k, x);
    }
  }

  lemma {:induction false} WhereSnoc<T, K>(s: seq<T>, x: T, key: T -> K, k: K)
    ensures Where(s + [x], key, k) == Where(s, key, k) + (if key(x) == k then [x] else [])
    ensures WhereNot(s + [x], key, k) == WhereNot(s, key, k) + (if key(x) != k then [x] else [])
  {
    assert (s + [x])[..|s + [x]| - 1] == s;
  }

  lemma {:induction false} WhereAppend<T, K>(a: seq<T>, b: seq<T>, key: T -> K, k: K)
    ensures Where(a + b, key, k) == Where(a, key, k) + Where(b, key, k)
    ensures WhereNot(a + b, key, k) == WhereNot(a, key, k) + WhereNot(b, key, k)
  {
    if b == [] {
      assert a + b == a;
    } else {
      var q := b[..|b| - 1];
      var x := b[|b| - 1];
      assert b == q + [x];
      assert a + b == (a + q) + [x];
      WhereAppend(a, q, key, k);
      WhereSnoc(a + q, x, key, k);
      WhereSnoc(q, x, key, k);
      var xs := if key(x) == k then [x] else [];
      calc {
        Where(a + b, key, k);
        Where((a + q) + [x], key, k);
        Where(a + q, key, k) + xs;
        (Where(a, key, k) + Where(q, key, k)) + xs;
        Where(a, key, k) + (Where(q, key, k) + xs);
        Where(a, key, k) + Where(b, key, k);
      }
      var ys := if key(x) != k then [x] else [];
      calc {
        WhereNot(a + b, key, k);
        WhereNot((a + q) + [x], key, k);
        WhereNot(a + q, key, k) + ys;
        (WhereNot(a, key, k) + WhereNot(q, key, k)) + ys;
        WhereNot(a, key, k) + (WhereNot(q, key, k) + ys);
        WhereNot(a, key, k) + WhereNot(b, key, k);
      }
    }
  }

  /** Filtering one key and then another gives the same rows in either order. */
  lemma {:induction false} WhereCommutes<T, K, L>(s: seq<T>, key: T -> K, k: K, key2: T -> L, l: L)
    ensures Where(Where(s, key, k), key2, l) == Where(Where(s, key2, l), key, k)
  {
    if s != [] {
      var p := s[..|s| - 1];
      var x := s[|s| - 1];
      assert s == p + [x];
      WhereCommutes(p, key, k, key2, l);
      WhereSnoc(p, x, key, k);
      WhereSnoc(p, x, key2, l);
      WhereSnoc(Where(p, key, k), x, key2, l);
      WhereSnoc(Where(p, key2, l), x, key, k);
    }
  }

  // ------------------------------------------------------------------ summing

  /** `_.sumBy`: the sum of `f` over the elements. */
  function Sum<T>(s: seq<T>, f: T -> real): real
  {
    if s == [] then 0.0 else Sum(s[..|s| - 1], f) + f(s[|s| - 1])
  }

  lemma {:induction false} SumAppend<T>(a: seq<T>, b: seq<T>, f: T -> real)
    ensures Sum(a + b, f) == Sum(a, f) + Sum(b, f)
  {
    if b == [] {
      assert a + b == a;
    } else {
      var q := b[..|b| - 1];
      assert (a + b)[..|a + b| - 1] == a + q;
      SumAppend(a, q, f);
    }
  }

  lemma {:induction false} SumSingle<T>(x: T, f: T -> real)
    ensures Sum([x], f) == f(x)
  {
    assert [x][..0] == [];
  }

  /** A sum splits at any point of the sequence. */
  lemma {:induction false} SumSplit<T>(s: seq<T>, k: nat, f: T -> real)
    requires k <= |s|
    ensures Sum(s, f) == Sum(s[..k], f) + Sum(s[k..], f)
  {
    assert s == s[..k] + s[k..];
    SumAppend(s[..k], s[k..], f);
  }

  // ----------------------------------------------------------------- grouping

  /** The distinct keys of `s` in order of first occurrence: the group order of `_.groupBy`,
      and the key order of a JavaScript `Map` or `Set` filled from `s`. */
  function Keys<T, K(==)>(s: seq<T>, key: T -> K): (ks: seq<K>)
    ensures Distinct(ks)
    ensures forall x {:trigger x in s} :: x in s ==> key(x) in ks
  {
    if s == [] then []
    else
      var p := s[..|s| - 1];
      var x := s[|s| - 1];
      var ks := Keys(p, key);
      assert s == p + [x];
      assert (ks + [key(x)])[..|ks|] == ks;
      if key(x) in ks then ks else ks + [key(x)]
  }

  /** Every key lists a non-empty group. */
  lemma {:induction false} KeysOccur<T, K>(s: seq<T>, key: T -> K)
    ensures forall k :: k in Keys(s, key) ==> Where(s, key, k) != []
  {
    if s != [] {
      var p := s[..|s| - 1];
      var x := s[|s| - 1];
      assert s == p + [x];
      KeysOccur(p, key);
      forall k | k in Keys(s, key) ensures Where(s, key, k) != [] {
        WhereSnoc(p, x, key, k);
      }
    }
  }

  lemma {:induction false} KeysSnoc<T, K>(s: seq<T>, x: T, key: T -> K)
    ensures Keys(s + [x], key) == if key(x) in Keys(s, key) then Keys(s, key) else Keys(s, key) + [key(x)]
  {
    assert (s + [x])[..|s + [x]| - 1] == s;
  }

  /** Every key is the key of some position of `s`. */
  lemma {:induction false} KeyPosition<T, K>(s: seq<T>, key: T -> K, k: K)
    requires k in Keys(s, key)
    ensures exists a :: 0 <= a < |s| && key(s[a]) == k
  {
    KeysOccur(s, key);
    var y := Where(s, key, k)[0];
    WhereMember(s, key, k, y);
  }

  /** The keys come in order of first occurrence: when key `i` is listed before key `j`,
      some element with key `i` comes before every element with key `j`. */
  lemma {:induction false} KeysFirstOccurrence<T, K>(s: seq<T>, key: T -> K, i: int, j: int, b: int)
    requires 0 <= i < j < |Keys(s, key)|
    requires 0 <= b < |s| && key(s[b]) == Keys(s, key)[j]
    ensures exists a :: 0 <= a < b && key(s[a]) == Keys(s, key)[i]
  {
    var p := s[..|s| - 1];
    var x := s[|s| - 1];
    var ks, kp := Keys(s, key), Keys(p, key);
    KeysSnoc(p, x, key);
    assert s == p + [x];
    assert i < |kp| && ks[i] == kp[i] by {
      if key(x) !in kp {
        assert ks == kp + [key(x)];
      }
    }
    if b < |p| {
      assert s[b] == p[b] && p[b] in p;
      assert j < |kp| && ks[j] == kp[j] by {
        if key(x) !in kp {
          assert ks == kp + [key(x)];
          assert key(p[b]) in kp;
        }
      }
      KeysFirstOccurrence(p, key, i, j, b);
      var a :| 0 <= a < b && key(p[a]) == kp[i];
      assert s[a] == p[a];
    } else if key(x) in kp {
      KeyPosition(p, key, ks[j]);
      var b' :| 0 <= b' < |p| && key(p[b']) == ks[j];
      KeysFirstOccurrence(p, key, i, j, b');
      var a :| 0 <= a < b' && key(p[a]) == kp[i];
      assert s[a] == p[a];
    } else {
      KeyPosition(p, key, kp[i]);
      var a :| 0 <= a < |p| && key(p[a]) == kp[i];
      assert s[a] == p[a];
    }
  }

  /** A key list with every occurrence of `k` removed. */
  function Without<K(==)>(ks: seq<K>, k: K): (r: seq<K>)
    ensures |r| <= |ks|
    ensures forall x :: x in r ==> x in ks && x != k
    ensures forall x :: x in ks && x != k ==> x in r
    ensures Distinct(ks) ==> Distinct(r)
  {
    if ks == [] then []
    else
      var q := ks[..|ks| - 1];
      var p := Without(q, k);
      var last := ks[|ks| - 1];
      assert ks == q + [last];
      assert (p + [last])[..|p|] == p;
      if last != k then p + [last] else p
  }

  /** Removing a key keeps the others in their order: of two kept keys, the earlier one
      stands earlier in the input. */
  lemma {:induction false} WithoutKeepsOrder<K>(ks: seq<K>, k: K, i: int, j: int)
    requires 0 <= i < j < |Without(ks, k)|
    ensures exists a, b :: 0 <= a < b < |ks| && ks[a] == Without(ks, k)[i] && ks[b] == Without(ks, k)[j]
  {
    var q := ks[..|ks| - 1];
    var p := Without(q, k);
    var r := Without(ks, k);
    var last := ks[|ks| - 1];
    assert ks == q + [last];
    if j < |p| {
      assert r[i] == p[i] && r[j] == p[j];
      WithoutKeepsOrder(q, k, i, j);
      var a, b :| 0 <= a < b < |q| && q[a] == p[i] && q[b] == p[j];
      assert ks[a] == q[a] && ks[b] == q[b];
    } else {
      assert last != k && r == p + [last];
      assert r[i] == p[i] && p[i] in q;
      var a :| 0 <= a < |q| && q[a] == p[i];
      assert ks[a] == q[a] && ks[|ks| - 1] == r[j];
    }
  }

  /** A key list that lists every key of `s` exactly once. */
  ghost predicate Covers<T, K>(ks: seq<K>, s: seq<T>, key: T -> K) {
    Distinct(ks) && forall x :: x in s ==> key(x) in ks
  }

  /** A measure of a group that adds up over concatenation (a sum over its rows). */
  ghost predicate Additive<T(!new)>(m: seq<T> -> real) {
    && m([]) == 0.0
    && forall a: seq<T>, x: T :: m(a + [x]) == m(a) + m([x])
  }

  /** The total of a measure over the groups named by `ks`. */
  function SumGroups<T, K(==)>(ks: seq<K>, s: seq<T>, key: T -> K, m: seq<T> -> real): real
  {
    if ks == [] then 0.0
    else SumGroups(ks[..|ks| - 1], s, key, m) + m(Where(s, key, ks[|ks| - 1]))
  }

  lemma {:induction false} SumGroupsOfNothing<T(!new), K>(ks: seq<K>, key: T -> K, m: seq<T> -> real)
    requires Additive(m)
    ensures SumGroups(ks, [], key, m) == 0.0
  {
    if ks != [] {
      SumGroupsOfNothing(ks[..|ks| - 1], key, m);
    }
  }

  lemma {:induction false} SumGroupsSnoc<T(!new), K>(ks: seq<K>, s: seq<T>, x: T, key: T -> K, m: seq<T> -> real)
    requires Additive(m) && Distinct(ks)
    ensures SumGroups(ks, s + [x], key, m) == SumGroups(ks, s, key, m) + (if key(x) in ks then m([x]) else 0.0)
  {
    if ks != [] {
      var q := ks[..|ks| - 1];
      var k := ks[|ks| - 1];
      assert ks == q + [k];
      SumGroupsSnoc(q, s, x, key, m);
      WhereSnoc(s, x, key, k);
      if key(x) == k {
        assert m(Where(s, key, k) + [x]) == m(Where(s, key, k)) + m([x]);
        assert key(x) !in q;
      }
    }
  }

  /** Grouping partitions the rows: the group measures add up to the measure of all rows. */
  lemma {:induction false} Partition<T(!new), K>(ks: seq<K>, s: seq<T>, key: T -> K, m: seq<T> -> real)
    requires Additive(m) && Covers(ks, s, key)
    ensures SumGroups(ks, s, key, m) == m(s)
  {
    if s == [] {
      SumGroupsOfNothing(ks, key, m);
    } else {
      var p := s[..|s| - 1];
      var x := s[|s| - 1];
      assert s == p + [x];
      Partition(ks, p, key, m);
      SumGroupsSnoc(ks, p, x, key, m);
    }
  }

  /** Dropping the key `k` from a key list drops exactly the group of `k` from the total. */
  lemma {:induction false} SumGroupsWithout<T, K>(ks: seq<K>, s: seq<T>, key: T -> K, m: seq<T> -> real, k: K)
    requires Distinct(ks)
    ensures SumGroups(ks, s, key, m)
         == SumGroups(Without(ks, k), s, key, m) + (if k in ks then m(Where(s, key, k)) else 0.0)
  {
    if ks != [] {
      var q := ks[..|ks| - 1];
      var last := ks[|ks| - 1];
      assert ks == q + [last];
      SumGroupsWithout(q, s, key, m, k);
      if last != k {
        var w := Without(q, k);
        assert (w + [last])[..|w + [last]| - 1] == w;
      }
    }
  }

  /** The measures of the groups, held one per group in `es`, add up to `SumGroups`. */
  lemma {:induction false} GroupSums<E, T, K>(es: seq<E>, f: E -> real, ks: seq<K>, s: seq<T>, key: T -> K, m: seq<T> -> real)
    requires |es| == |ks|
    requires forall i :: 0 <= i < |ks| ==> f(es[i]) == m(Where(s, key, ks[i]))
    ensures Sum(es, f) == SumGroups(ks, s, key, m)
  {
    if ks != [] {
      GroupSums(es[..|es| - 1], f, ks[..|ks| - 1], s, key, m);
    }
  }

  /** A sum over elements is additive. */
  lemma {:induction false} SumAdditive<T(!new)>(f: T -> real)
    ensures Additive((xs: seq<T>) => Sum(xs, f))
  {
    forall a: seq<T>, x: T ensures Sum(a + [x], f) == Sum(a, f) + Sum([x], f) {
      SumAppend(a, [x], f);
    }
  }

  /** When each of `es` holds the sum of `f` over one group, and the groups are every key of
      `s` once, they add up to the sum of `f` over `s`. */
  lemma {:induction false} GroupedSum<E, T(!new), K>(es: seq<E>, g: E -> real, ks: seq<K>, s: seq<T>, key: T -> K, f: T -> real)
    requires |es| == |ks| && Covers(ks, s, key)
    requires forall i :: 0 <= i < |ks| ==> g(es[i]) == Sum(Where(s, key, ks[i]), f)
    ensures Sum(es, g) == Sum(s, f)
  {
    var m := (xs: seq<T>) => Sum(xs, f);
    GroupSums(es, g, ks, s, key, m);
    SumAdditive(f);
    Partition(ks, s, key, m);
  }

  /** The same for a measure of whole groups held one per entry, in any ranked order. */
  lemma {:induction false} RankedGroupMeasures<E, T(!new), K>(es: seq<E>, rank: E -> int, g: E -> real, ks: seq<K>, s: seq<T>, key: T -> K, m: seq<T> -> real)
    requires |es| == |ks| && Covers(ks, s, key) && Additive(m)
    requires forall i :: 0 <= i < |ks| ==> g(es[i]) == m(Where(s, key, ks[i]))
    ensures Sum(SortDesc(es, rank), g) == m(s)
  {
    SumSortDesc(es, rank, g);
    GroupSums(es, g, ks, s, key, m);
    Partition(ks, s, key, m);
  }

  /** A sum over the elements of one key is a measure that adds up over concatenation. */
  lemma {:induction false} WhereSumAdditive<T(!new), K>(m: seq<T> -> real, key: T -> K, k: K, f: T -> real)
    requires forall xs :: m(xs) == Sum(Where(xs, key, k), f)
    ensures Additive(m)
  {
    assert m([]) == Sum(Where([], key, k), f);
    forall a: seq<T>, x: T ensures m(a + [x]) == m(a) + m([x]) {
      WhereSnoc(a, x, key, k);
      WhereSingle(x, key, k);
      SumAppend(Where(a, key, k), Where([x], key, k), f);
    }
  }

  /** The same when each group's figure is rounded: the sum drifts by at most half per group. */
  lemma {:induction false} RoundedGroupSums<E, T, K>(es: seq<E>, f: E -> real, ks: seq<K>, s: seq<T>, key: T -> K, m: seq<T> -> real)
    requires |es| == |ks|
    requires forall i :: 0 <= i < |ks| ==> f(es[i]) == Round(m(Where(s, key, ks[i]))) as real
    ensures WithinHalves(Sum(es, f), SumGroups(ks, s, key, m), |ks|)
  {
    if ks != [] {
      var n := |ks| - 1;
      RoundedGroupSums(es[..n], f, ks[..n], s, key, m);
      RoundingDrift(SumGroups(ks[..n], s, key, m), m(Where(s, key, ks[n])), Sum(es[..n], f), n);
    }
  }

  // ------------------------------------------------------------------ sorting

  /** Non-increasing in `key`. */
  ghost predicate SortedDesc<T>(s: seq<T>, key: T -> int) {
    forall i, j :: 0 <= i < j < |s| ==> key(s[i]) >= key(s[j])
  }

  /** Places `x` right behind the last element, from the back, whose key is at least its own. */
  function Insert<T>(x: T, s: seq<T>, key: T -> int): (r: seq<T>)
    ensures |r| == |s| + 1 && multiset(r) == multiset(s) + multiset{x}
  {
    if s == [] || key(s[|s| - 1]) >= key(x) then s + [x]
    else
      assert s == s[..|s| - 1] + [s[|s| - 1]];
      Insert(x, s[..|s| - 1], key) + [s[|s| - 1]]
  }

  lemma {:induction false} InsertMember<T>(x: T, s: seq<T>, key: T -> int, y: T)
    requires y in Insert(x, s, key)
    ensures y == x || y in s
  {
    assert y in multiset(Insert(x, s, key));
  }

  lemma {:induction false} InsertSorted<T>(x: T, s: seq<T>, key: T -> int)
    requires SortedDesc(s, key)
    ensures SortedDesc(Insert(x, s, key), key)
  {
    if s != [] && key(s[|s| - 1]) < key(x) {
      var p, last := s[..|s| - 1], s[|s| - 1];
      var t := Insert(x, p, key);
      InsertSorted(x, p, key);
      forall i | 0 <= i < |t| ensures key(t[i]) >= key(last) {
        assert t[i] in t;
        InsertMember(x, p, key, t[i]);
        if t[i] != x {
          var j :| 0 <= j < |p| && p[j] == t[i];
          assert s[j] == p[j];
        }
      }
    }
  }

  /** The stable descending sort: an insertion sort taking the elements in input order. */
  function SortDesc<T>(s: seq<T>, key: T -> int): (r: seq<T>)
    ensures |r| == |s| && multiset(r) == multiset(s)
  {
    if s == [] then []
    else
      var p := SortDesc(s[..|s| - 1], key);
      assert s == s[..|s| - 1] + [s[|s| - 1]];
      Insert(s[|s| - 1], p, key)
  }

  /** The sort's result is in non-increasing order of `key`. */
  lemma {:induction false} SortDescSorted<T>(s: seq<T>, key: T -> int)
    ensures SortedDesc(SortDesc(s, key), key)
  {
    if s != [] {
      SortDescSorted(s[..|s| - 1], key);
      InsertSorted(s[|s| - 1], SortDesc(s[..|s| - 1], key), key);
    }
  }

  lemma {:induction false} SortDescSnoc<T>(s: seq<T>, x: T, key: T -> int)
    ensures SortDesc(s + [x], key) == Insert(x, SortDesc(s, key), key)
  {
    assert (s + [x])[..|s + [x]| - 1] == s;
  }

  lemma {:induction false} SortDescMembers<T>(s: seq<T>, key: T -> int)
    ensures forall x :: x in SortDesc(s, key) <==> x in s
  {
    var r := SortDesc(s, key);
    forall x ensures x in r <==> x in s {
      assert x in r <==> x in multiset(r);
      assert x in s <==> x in multiset(s);
    }
  }

  /** An element of the sorted list sits at some position of the input. */
  lemma {:induction false} SortDescIndex<T>(s: seq<T>, key: T -> int, x: T)
    requires x in SortDesc(s, key)
    ensures exists i :: 0 <= i < |s| && s[i] == x
  {
    SortDescMembers(s, key);
  }

  /** Every element of the input is in the sorted list. */
  lemma {:induction false} SortDescHas<T>(s: seq<T>, key: T -> int, i: int)
    requires 0 <= i < |s|
    ensures s[i] in SortDesc(s, key)
  {
    SortDescMembers(s, key);
  }

  lemma {:induction false} WhereSingle<T, K>(x: T, key: T -> K, k: K)
    ensures Where([x], key, k) == (if key(x) == k then [x] else [])
    ensures WhereNot([x], key, k) == (if key(x) != k then [x] else [])
  {
    assert [x][..0] == [];
  }

  lemma {:induction false} WhereNone<T, K>(s: seq<T>, key: T -> K, k: K)
    requires forall i :: 0 <= i < |s| ==> key(s[i]) != k
    ensures Where(s, key, k) == []
  {
    if s != [] {
      WhereNone(s[..|s| - 1], key, k);
    }
  }

  /** A key that `Keys` does not list has an empty group. */
  lemma {:induction false} WhereOfAbsentKey<T, K>(s: seq<T>, key: T -> K, k: K)
    requires k !in Keys(s, key)
    ensures Where(s, key, k) == []
  {
    forall i | 0 <= i < |s| ensures key(s[i]) != k {
      assert s[i] in s;
    }
    WhereNone(s, key, k);
  }

  lemma {:induction false} WhereAll<T, K>(s: seq<T>, key: T -> K, k: K)
    requires forall i :: 0 <= i < |s| ==> key(s[i]) == k
    ensures Where(s, key, k) == s
    ensures WhereNot(s, key, k) == []
  {
    if s != [] {
      var p, x := s[..|s| - 1], s[|s| - 1];
      assert forall i :: 0 <= i < |p| ==> p[i] == s[i];
      WhereAll(p, key, k);
      assert key(x) == k;
      assert s == p + [x];
    }
  }

  /** Splitting by two different keys and concatenating the halves loses nothing of either:
      filtering the concatenation again gives back each half exactly. */
  lemma {:induction false} WhereOfSplit<T(!new), K>(s: seq<T>, key: T -> K, a: K, b: K)
    requires a != b
    ensures Where(Where(s, key, a) + Where(s, key, b), key, a) == Where(s, key, a)
    ensures Where(Where(s, key, a) + Where(s, key, b), key, b) == Where(s, key, b)
  {
    var sa, sb := Where(s, key, a), Where(s, key, b);
    WhereAppend(sa, sb, key, a);
    WhereAppend(sa, sb, key, b);
    WhereMembers(s, key, a);
    WhereMembers(s, key, b);
    forall i | 0 <= i < |sa| ensures key(sa[i]) == a { assert sa[i] in sa; }
    forall i | 0 <= i < |sb| ensures key(sb[i]) == b { assert sb[i] in sb; }
    WhereAll(sa, key, a);
    WhereAll(sb, key, b);
    WhereNone(sb, key, a);
    WhereNone(sa, key, b);
  }

  /** Inserting only passes over elements of a smaller key, so among the elements of one key
      the inserted element comes last. */
  lemma {:induction false} WhereInsert<T>(x: T, s: seq<T>, key: T -> int, v: int)
    ensures Where(Insert(x, s, key), key, v) == Where(s, key, v) + (if key(x) == v then [x] else [])
  {
    if key(x) == v {
      WhereInsertMatching(x, s, key);
    } else {
      WhereInsertOther(x, s, key, v);
    }
  }

  /** Inserting an element of key `key(x)` appends it to the elements of that key. */
  lemma {:induction false} WhereInsertMatching<T>(x: T, s: seq<T>, key: T -> int)
    ensures Where(Insert(x, s, key), key, key(x)) == Where(s, key, key(x)) + [x]
  {
    var v := key(x);
    if s == [] || key(s[|s| - 1]) >= v {
      assert Insert(x, s, key) == s + [x];
      WhereSnoc(s, x, key, v);
    } else {
      var p, last := s[..|s| - 1], s[|s| - 1];
      assert s == p + [last];
      assert Insert(x, s, key) == Insert(x, p, key) + [last];
      WhereInsertMatching(x, p, key);
      WhereSnoc(Insert(x, p, key), last, key, v);
      WhereSnoc(p, last, key, v);
    }
  }

  /** Inserting an element of another key leaves the elements of key `v` as they were. */
  lemma {:induction false} WhereInsertOther<T>(x: T, s: seq<T>, key: T -> int, v: int)
    requires key(x) != v
    ensures Where(Insert(x, s, key), key, v) == Where(s, key, v)
  {
    if s == [] || key(s[|s| - 1]) >= key(x) {
      assert Insert(x, s, key) == s + [x];
      WhereSnoc(s, x, key, v);
    } else {
      var p, last := s[..|s| - 1], s[|s| - 1];
      assert s == p + [last];
      assert Insert(x, s, key) == Insert(x, p, key) + [last];
      WhereInsertOther(x, p, key, v);
      WhereSnoc(Insert(x, p, key), last, key, v);
      WhereSnoc(p, last, key, v);
    }
  }

  /** Stability: within each key value the sort keeps the input order, so together with
      sortedness and the permutation property it fixes the output exactly. */
  lemma {:induction false} SortDescStable<T>(s: seq<T>, key: T -> int, v: int)
    ensures Where(SortDesc(s, key), key, v) == Where(s, key, v)
  {
    if s != [] {
      var p := s[..|s| - 1];
      var x := s[|s| - 1];
      assert s == p + [x];
      SortDescStable(p, key, v);
      SortDescSnoc(p, x, key);
      WhereInsert(x, SortDesc(p, key), key, v);
      WhereSnoc(p, x, key, v);
    }
  }

  lemma {:induction false} SumInsert<T>(x: T, s: seq<T>, key: T -> int, f: T -> real)
    ensures Sum(Insert(x, s, key), f) == Sum(s, f) + f(x)
  {
    if s == [] || key(s[|s| - 1]) >= key(x) {
      assert (s + [x])[..|s|] == s;
    } else {
      var p, last := s[..|s| - 1], s[|s| - 1];
      var t := Insert(x, p, key);
      SumInsert(x, p, key, f);
      assert (t + [last])[..|t|] == t;
    }
  }

  /** Sorting does not change a sum. */
  lemma {:induction false} SumSortDesc<T>(s: seq<T>, key: T -> int, f: T -> real)
    ensures Sum(SortDesc(s, key), f) == Sum(s, f)
  {
    if s != [] {
      var p := s[..|s| - 1];
      var x := s[|s| - 1];
      assert s == p + [x];
      SumSortDesc(p, key, f);
      SortDescSnoc(p, x, key);
      SumInsert(x, SortDesc(p, key), key, f);
    }
  }

  lemma {:induction false} WhereNotSorted<T, K>(s: seq<T>, key: T -> int, tag: T -> K, k: K)
    requires SortedDesc(s, key)
    ensures SortedDesc(WhereNot(s, tag, k), key)
  {
    if s != [] {
      var p := s[..|s| - 1];
      var x := s[|s| - 1];
      assert s == p + [x];
      WhereNotSorted(p, key, tag, k);
      WhereSnoc(p, x, tag, k);
      var w := WhereNot(p, tag, k);
      if tag(x) != k {
        forall i | 0 <= i < |w| ensures key(w[i]) >= key(x) {
          assert w[i] in w;
          WhereMember(p, tag, k, w[i]);
          var j :| 0 <= j < |p| && p[j] == w[i];
          assert s[j] == p[j];
        }
      }
    }
  }

  /** Filtering commutes with inserting into a sorted list. */
  lemma {:induction false} WhereNotInsert<T, K>(x: T, s: seq<T>, key: T -> int, tag: T -> K, k: K)
    requires SortedDesc(s, key)
    ensures WhereNot(Insert(x, s, key), tag, k)
         == if tag(x) == k then WhereNot(s, tag, k) else Insert(x, WhereNot(s, tag, k), key)
  {
    if s == [] || key(s[|s| - 1]) >= key(x) {
      WhereNotAppendSmallest(x, s, key, tag, k);
    } else {
      var p, last := s[..|s| - 1], s[|s| - 1];
      assert s == p + [last];
      var wp := WhereNot(p, tag, k);
      assert Insert(x, s, key) == Insert(x, p, key) + [last];
      WhereNotInsert(x, p, key, tag, k);
      WhereSnoc(Insert(x, p, key), last, tag, k);
      WhereSnoc(p, last, tag, k);
      if tag(x) != k && tag(last) != k {
        assert (wp + [last])[..|wp|] == wp;
      }
    }
  }

  /** The case of `WhereNotInsert` where `x` goes last. */
  lemma {:induction false} WhereNotAppendSmallest<T, K>(x: T, s: seq<T>, key: T -> int, tag: T -> K, k: K)
    requires SortedDesc(s, key)
    requires s == [] || key(s[|s| - 1]) >= key(x)
    ensures WhereNot(s + [x], tag, k)
         == if tag(x) == k then WhereNot(s, tag, k) else Insert(x, WhereNot(s, tag, k), key)
  {
    var w := WhereNot(s, tag, k);
    WhereSnoc(s, x, tag, k);
    if tag(x) != k && w != [] {
      var y := w[|w| - 1];
      assert y in w;
      WhereMember(s, tag, k, y);
      var j :| 0 <= j < |s| && s[j] == y;
      assert key(y) >= key(s[|s| - 1]);
    }
  }



  /** Dropping the elements of one tag after sorting is the same as sorting after dropping them. */
  lemma {:induction false} WhereNotSortDesc<T, K>(s: seq<T>, key: T -> int, tag: T -> K, k: K)
    ensures WhereNot(SortDesc(s, key), tag, k) == SortDesc(WhereNot(s, tag, k), key)
  {
    if s != [] {
      var p := s[..|s| - 1];
      var x := s[|s| - 1];
      assert s == p + [x];
      WhereNotSortDesc(p, key, tag, k);
      SortDescSorted(p, key);
      SortDescSnoc(p, x, key);
      WhereNotInsert(x, SortDesc(p, key), key, tag, k);
      WhereSnoc(p, x, tag, k);
      if tag(x) != k {
        SortDescSnoc(WhereNot(p, tag, k), x, key);
      }
    }
  }

  /** No two elements share a tag. */
  ghost predicate DistinctBy<T, K>(s: seq<T>, tag: T -> K) {
    forall i, j :: 0 <= i < j < |s| ==> tag(s[i]) != tag(s[j])
  }

  lemma {:induction false} InsertDistinctBy<T, K>(x: T, s: seq<T>, key: T -> int, tag: T -> K)
    requires DistinctBy(s, tag)
    requires forall y :: y in s ==> tag(y) != tag(x)
    ensures DistinctBy(Insert(x, s, key), tag)
  {
    if s == [] || key(s[|s| - 1]) >= key(x) {
      DistinctByAppendOne(s, x, tag);
    } else {
      var p, last := s[..|s| - 1], s[|s| - 1];
      assert s == p + [last];
      DistinctBySnoc(p, last, tag);
      forall y | y in p ensures tag(y) != tag(x) {
        assert y in s;
      }
      InsertDistinctBy(x, p, key, tag);
      var t := Insert(x, p, key);
      forall y | y in t ensures tag(y) != tag(last) {
        InsertMember(x, p, key, y);
        assert last in s;
      }
      DistinctByAppendOne(t, last, tag);
    }
  }

  lemma {:induction false} DistinctBySnoc<T, K>(p: seq<T>, x: T, tag: T -> K)
    requires DistinctBy(p + [x], tag)
    ensures DistinctBy(p, tag)
    ensures forall y :: y in p ==> tag(y) != tag(x)
  {
    var s := p + [x];
    forall i, j | 0 <= i < j < |p| ensures tag(p[i]) != tag(p[j]) {
      assert p[i] == s[i] && p[j] == s[j];
    }
    forall y | y in p ensures tag(y) != tag(x) {
      var i :| 0 <= i < |p| && p[i] == y;
      assert s[i] == y && s[|p|] == x;
    }
  }

  /** Sorting only reorders, so elements with distinct tags keep them distinct. */
  lemma {:induction false} SortDescDistinctBy<T, K>(s: seq<T>, key: T -> int, tag: T -> K)
    requires DistinctBy(s, tag)
    ensures DistinctBy(SortDesc(s, key), tag)
  {
    if s != [] {
      var p := s[..|s| - 1];
      var x := s[|s| - 1];
      assert s == p + [x];
      DistinctBySnoc(p, x, tag);
      SortDescDistinctBy(p, key, tag);
      SortDescSnoc(p, x, key);
      var sp := SortDesc(p, key);
      forall y | y in sp ensures tag(y) != tag(x) {
        assert y in multiset(sp);
      }
      InsertDistinctBy(x, sp, key, tag);
    }
  }

  /** Entries built one per key: dropping the entries of tag `k` leaves one per remaining key. */
  lemma {:induction false} WhereNotTagged<T, K>(es: seq<T>, tag: T -> K, ks: seq<K>, k: K)
    requires |es| == |ks|
    requires forall i :: 0 <= i < |es| ==> tag(es[i]) == ks[i]
    ensures |WhereNot(es, tag, k)| == |Without(ks, k)|
  {
    if es != [] {
      WhereNotTagged(es[..|es| - 1], tag, ks[..|ks| - 1], k);
    }
  }

  /** Sorting entries built one per distinct key keeps exactly one entry per key. */
  lemma {:induction false} SortTagged<T, K>(es: seq<T>, ks: seq<K>, tag: T -> K, key: T -> int)
    requires |es| == |ks| && Distinct(ks)
    requires forall i :: 0 <= i < |es| ==> tag(es[i]) == ks[i]
    ensures DistinctBy(SortDesc(es, key), tag)
    ensures forall i :: 0 <= i < |es| ==> es[i] in SortDesc(es, key)
    ensures forall y :: y in SortDesc(es, key) ==> y in es
  {
    TaggedDistinctBy(es, ks, tag);
    SortDescDistinctBy(es, key, tag);
    var r := SortDesc(es, key);
    forall i | 0 <= i < |es| ensures es[i] in r {
      assert es[i] in multiset(es);
    }
    forall y | y in r ensures y in es {
      assert y in multiset(r);
    }
  }

  lemma {:induction false} DistinctByAppendOne<T, K>(q: seq<T>, x: T, tag: T -> K)
    requires DistinctBy(q, tag)
    requires forall y :: y in q ==> tag(y) != tag(x)
    ensures DistinctBy(q + [x], tag)
  {
    var s := q + [x];
    forall i, j | 0 <= i < j < |s| ensures tag(s[i]) != tag(s[j]) {
      if j == |q| {
        assert s[i] == q[i] && q[i] in q;
      } else {
        assert s[i] == q[i] && s[j] == q[j];
      }
    }
  }

  /** Filtering keeps elements with distinct tags distinct. */
  lemma {:induction false} DistinctByWhereNot<T, K, L>(s: seq<T>, tag: T -> K, f: T -> L, k: L)
    requires DistinctBy(s, tag)
    ensures DistinctBy(WhereNot(s, f, k), tag)
  {
    if s != [] {
      var p := s[..|s| - 1];
      var x := s[|s| - 1];
      assert s == p + [x];
      DistinctBySnoc(p, x, tag);
      DistinctByWhereNot(p, tag, f, k);
      WhereSnoc(p, x, f, k);
      if f(x) != k {
        forall y | y in WhereNot(p, f, k) ensures tag(y) != tag(x) {
          WhereMember(p, f, k, y);
        }
        DistinctByAppendOne(WhereNot(p, f, k), x, tag);
      }
    }
  }

  /** A prefix of a sorted list holds its largest elements. */
  lemma {:induction false} PrefixIsLargest<T>(s: seq<T>, n: nat, key: T -> int)
    requires n <= |s| && SortedDesc(s, key)
    ensures SortedDesc(s[..n], key)
    ensures forall y, z :: y in s[..n] && z in s && z !in s[..n] ==> key(y) >= key(z)
  {
    forall y, z | y in s[..n] && z in s && z !in s[..n] ensures key(y) >= key(z) {
      var i :| 0 <= i < n && s[..n][i] == y;
      var j :| 0 <= j < |s| && s[j] == z;
      assert s[i] == y;
    }
  }

  lemma {:induction false} PrefixDistinctBy<T, K>(s: seq<T>, n: nat, tag: T -> K)
    requires n <= |s| && DistinctBy(s, tag)
    ensures DistinctBy(s[..n], tag)
  {
  }

  lemma {:induction false} PrefixMembers<T>(s: seq<T>, n: nat)
    requires n <= |s|
    ensures forall y :: y in s[..n] ==> y in s
  {
    forall y | y in s[..n] ensures y in s {
      var i :| 0 <= i < n && s[..n][i] == y;
      assert s[i] == y;
    }
  }

  /** Entries built one per distinct key carry distinct tags. */
  lemma {:induction false} TaggedDistinctBy<T, K>(es: seq<T>, ks: seq<K>, tag: T -> K)
    requires |es| == |ks| && Distinct(ks)
    requires forall i :: 0 <= i < |es| ==> tag(es[i]) == ks[i]
    ensures DistinctBy(es, tag)
  {
    DistinctIndices(ks);
  }

  /** Every key that tags one of the entries tags an entry of their ranking. */
  lemma {:induction false} RankedTagged<T, K>(es: seq<T>, key: T -> int, tag: T -> K, ks: seq<K>)
    requires |es| == |ks|
    requires forall i :: 0 <= i < |es| ==> tag(es[i]) == ks[i]
    ensures forall k :: k in ks ==> exists e :: e in SortDesc(es, key) && tag(e) == k
  {
    SortDescMembers(es, key);
    forall k | k in ks ensures exists e :: e in SortDesc(es, key) && tag(e) == k {
      var i :| 0 <= i < |ks| && ks[i] == k;
      assert es[i] in es;
    }
  }

  /** Ranking entries built one per distinct key and dropping key `k` leaves one entry per
      other key, each tag once, in non-increasing order. */
  lemma {:induction false} RankedWithout<T, K>(es: seq<T>, key: T -> int, tag: T -> K, ks: seq<K>, k: K)
    requires |es| == |ks| && Distinct(ks)
    requires forall i :: 0 <= i < |es| ==> tag(es[i]) == ks[i]
    ensures var r := WhereNot(SortDesc(es, key), tag, k);
      |r| == |Without(ks, k)| && SortedDesc(r, key) && DistinctBy(r, tag)
  {
    WhereNotOfSorted(es, key, tag, k);
    WhereNotTagged(es, tag, ks, k);
    TaggedDistinctBy(es, ks, tag);
    SortDescDistinctBy(es, key, tag);
    DistinctByWhereNot(SortDesc(es, key), tag, tag, k);
  }

  /** Rank by `key`, drop the elements tagged `k`, keep the first `n`: the exclusion is
      applied to the whole ranking before it is cut. */
  function TopExcept<T, K(==)>(s: seq<T>, key: T -> int, tag: T -> K, k: K, n: nat): seq<T> {
    var kept := WhereNot(SortDesc(s, key), tag, k);
    kept[..Min(n, |kept|)]
  }

  /** Filtering a ranking keeps its order and the number of elements kept. */
  lemma {:induction false} WhereNotOfSorted<T, K>(s: seq<T>, key: T -> int, tag: T -> K, k: K)
    ensures SortedDesc(WhereNot(SortDesc(s, key), tag, k), key)
    ensures |WhereNot(SortDesc(s, key), tag, k)| == |WhereNot(s, tag, k)|
  {
    WhereNotSortDesc(s, key, tag, k);
    SortDescSorted(WhereNot(s, tag, k), key);
  }

  /** Filtering a ranking keeps exactly the elements of the input not tagged `k`. */
  lemma {:induction false} WhereNotOfSortedMembers<T, K>(s: seq<T>, key: T -> int, tag: T -> K, k: K)
    ensures forall y :: y in WhereNot(SortDesc(s, key), tag, k) <==> y in s && tag(y) != k
  {
    SortDescMembers(s, key);
    forall y ensures y in WhereNot(SortDesc(s, key), tag, k) <==> y in s && tag(y) != k {
      WhereMember(SortDesc(s, key), tag, k, y);
    }
  }

  /** An element kept by the ranking sits at some position of the input and is not tagged `k`. */
  lemma {:induction false} WhereNotOfSortedIndex<T, K>(s: seq<T>, key: T -> int, tag: T -> K, k: K, y: T)
    requires y in WhereNot(SortDesc(s, key), tag, k)
    ensures tag(y) != k && exists i :: 0 <= i < |s| && s[i] == y
  {
    WhereMember(SortDesc(s, key), tag, k, y);
    SortDescIndex(s, key, y);
  }

  /** The result holds min(n, m) of the m elements not tagged `k`, in non-increasing order. */
  lemma {:induction false} TopExceptSorted<T, K>(s: seq<T>, key: T -> int, tag: T -> K, k: K, n: nat)
    ensures |TopExcept(s, key, tag, k, n)| == Min(n, |WhereNot(s, tag, k)|)
    ensures SortedDesc(TopExcept(s, key, tag, k, n), key)
  {
    var kept := WhereNot(SortDesc(s, key), tag, k);
    WhereNotOfSorted(s, key, tag, k);
    PrefixIsLargest(kept, Min(n, |kept|), key);
  }

  /** Every element kept is an element of the input not tagged `k`. */
  lemma {:induction false} TopExceptMembers<T, K>(s: seq<T>, key: T -> int, tag: T -> K, k: K, n: nat)
    ensures forall y :: y in TopExcept(s, key, tag, k, n) ==> y in s && tag(y) != k
  {
    var kept := WhereNot(SortDesc(s, key), tag, k);
    WhereNotOfSortedMembers(s, key, tag, k);
    PrefixMembers(kept, Min(n, |kept|));
    forall y | y in kept[..Min(n, |kept|)] ensures y in s && tag(y) != k {
      assert y in kept;
      WhereMember(SortDesc(s, key), tag, k, y);
      assert y in multiset(SortDesc(s, key));
    }
  }

  /** None of the elements not tagged `k` that are left out ranks above one kept. */
  lemma {:induction false} TopExceptLargest<T, K>(s: seq<T>, key: T -> int, tag: T -> K, k: K, n: nat)
    ensures var r := TopExcept(s, key, tag, k, n);
      forall y, z :: y in r && z in s && tag(z) != k && z !in r ==> key(y) >= key(z)
  {
    var kept := WhereNot(SortDesc(s, key), tag, k);
    var m := Min(n, |kept|);
    WhereNotOfSorted(s, key, tag, k);
    WhereNotOfSortedMembers(s, key, tag, k);
    PrefixIsLargest(kept, m, key);
    forall y, z | y in kept[..m] && z in s && tag(z) != k && z !in kept[..m] ensures key(y) >= key(z) {
      assert z in kept;
    }
  }

  /** Ranking, filtering and truncating keep elements with distinct tags distinct. */
  lemma {:induction false} TopExceptDistinctBy<T, K, L>(s: seq<T>, key: T -> int, tag: T -> K, k: K, n: nat, other: T -> L)
    requires DistinctBy(s, other)
    ensures DistinctBy(TopExcept(s, key, tag, k, n), other)
  {
    var sorted := SortDesc(s, key);
    var kept := WhereNot(sorted, tag, k);
    SortDescDistinctBy(s, key, other);
    DistinctByWhereNot(sorted, other, tag, k);
    PrefixDistinctBy(kept, Min(n, |kept|), other);
  }

  /** Entries holding the rounded measures of the groups, ranked in any order, add up to
      the total of the groups up to half a unit per group. */
  lemma {:induction false} RankedGroupSums<E, T, K>(es: seq<E>, rank: E -> int, f: E -> real, ks: seq<K>, s: seq<T>, key: T -> K, m: seq<T> -> real, rest: real, total: real)
    requires |es| == |ks|
    requires forall i :: 0 <= i < |ks| ==> f(es[i]) == Round(m(Where(s, key, ks[i]))) as real
    requires SumGroups(ks, s, key, m) + rest == total
    ensures WithinHalves(Sum(SortDesc(es, rank), f) + rest, total, |SortDesc(es, rank)|)
  {
    RoundedGroupSums(es, f, ks, s, key, m);
    SumSortDesc(es, rank, f);
    var sorted := Sum(SortDesc(es, rank), f);
    var groups := SumGroups(ks, s, key, m);
    assert sorted + rest - total == sorted - groups;
  }
}
