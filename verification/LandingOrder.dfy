/**
 The order in which landings are written, and why a dictionary's insertion order cannot be read off
 the rows.
 */
module LandingOrder {
  import opened ByteStrings
  import opened KeyOrder
  import opened RowTables
  import opened RowStore
  import opened RowWriter

  predicate Ascends(items: seq<Landing>) {
    forall i, j :: 0 <= i < j < |items| ==> KeyBefore(items[i].key, items[j].key)
  }

  lemma KeyBeforeIsStrict(a: (Bytes, Bytes))
    ensures !KeyBefore(a, a)
  {
    BeforeIsStrict(a.0);
    BeforeIsStrict(a.1);
  }

  lemma KeyBeforeIsTransitive(a: (Bytes, Bytes), b: (Bytes, Bytes), c: (Bytes, Bytes))
    requires KeyBefore(a, b) && KeyBefore(b, c)
    ensures KeyBefore(a, c)
  {
    if Before(a.0, b.0) && Before(b.0, c.0) {
      BeforeIsTransitive(a.0, b.0, c.0);
    }
    if Before(a.1, b.1) && Before(b.1, c.1) {
      BeforeIsTransitive(a.1, b.1, c.1);
    }
  }

  lemma KeyBeforeIsConnected(a: (Bytes, Bytes), b: (Bytes, Bytes))
    ensures a == b || KeyBefore(a, b) || KeyBefore(b, a)
  {
    BeforeIsConnected(a.0, b.0);
    BeforeIsConnected(a.1, b.1);
  }

  lemma {:induction false} Permuted(items: seq<Landing>)
    ensures |SortLandings(items)| == |items|
    ensures forall x :: x in SortLandings(items) <==> x in items
  {
    assert |multiset(items)| == |items| && |multiset(SortLandings(items))| == |SortLandings(items)|;
    forall x ensures x in SortLandings(items) <==> x in items {
      assert x in SortLandings(items) <==> x in multiset(SortLandings(items));
    }
  }

  lemma {:induction false} InsertAscends(x: Landing, sorted: seq<Landing>)
    requires Ascends(sorted) && forall y :: y in sorted ==> y.key != x.key
    ensures Ascends(InsertLanding(x, sorted))
  {
    if sorted != [] {
      KeyBeforeIsConnected(x.key, sorted[0].key);
      if KeyBefore(x.key, sorted[0].key) {
        forall i | 0 <= i < |sorted| ensures KeyBefore(x.key, sorted[i].key) {
          if i > 0 {
            KeyBeforeIsTransitive(x.key, sorted[0].key, sorted[i].key);
          }
        }
      } else {
        InsertAscends(x, sorted[1..]);
        var r := InsertLanding(x, sorted[1..]);
        forall i | 0 <= i < |r| ensures KeyBefore(sorted[0].key, r[i].key) {
          assert r[i] in multiset(r);
        }
      }
    }
  }

  /** Items with distinct keys come out in strictly ascending key order. */
  lemma {:induction false} SortAscends(items: seq<Landing>)
    requires DistinctLandings(items)
    ensures Ascends(SortLandings(items))
  {
    if items != [] {
      SortAscends(items[1..]);
      Permuted(items[1..]);
      InsertAscends(items[0], SortLandings(items[1..]));
    }
  }

  lemma AscendingAreDistinct(items: seq<Landing>)
    requires Ascends(items)
    ensures DistinctLandings(items)
  {
    forall i, j | 0 <= i < j < |items| ensures items[i].key != items[j].key {
      KeyBeforeIsStrict(items[i].key);
    }
  }

  lemma TailElements(a: seq<Landing>)
    requires Ascends(a) && a != []
    ensures forall x :: x in a[1..] <==> x in a && x != a[0]
  {
    AscendingAreDistinct(a);
  }

  lemma HeadsAgree(a: seq<Landing>, b: seq<Landing>)
    requires Ascends(a) && Ascends(b) && a != [] && b != [] && a[0] in b && b[0] in a
    ensures a[0] == b[0]
  {
    var i :| 0 <= i < |a| && a[i] == b[0];
    var j :| 0 <= j < |b| && b[j] == a[0];
    if i > 0 && j > 0 {
      KeyBeforeIsTransitive(a[0].key, b[0].key, a[0].key);
      KeyBeforeIsStrict(a[0].key);
    }
  }

  lemma {:induction false} AscendingIsUnique(a: seq<Landing>, b: seq<Landing>)
    requires Ascends(a) && Ascends(b) && forall x :: x in a <==> x in b
    ensures a == b
  {
    if |a| > 0 {
      assert a[0] in a;
    }
    if |b| > 0 {
      assert b[0] in b;
    }
    if a != [] {
      HeadsAgree(a, b);
      TailElements(a);
      TailElements(b);
      AscendingIsUnique(a[1..], b[1..]);
    }
  }

  /** A dictionary's contents are its items. */
  lemma {:induction false} BindingsAreItems(items: seq<Landing>, key: (Bytes, Bytes), value: Bytes)
    requires DistinctLandings(items)
    ensures (key in BindingsOf(items) && BindingsOf(items)[key] == value) <==> Landing(key, value) in items
    decreases |items|
  {
    if items != [] {
      var n := |items| - 1;
      BindingsAreItems(items[..n], key, value);
      LastItem(items, Landing(key, value));
    }
  }

  lemma LastItem(items: seq<Landing>, x: Landing)
    requires items != [] && DistinctLandings(items)
    ensures x in items <==> x in items[..|items| - 1] || x == items[|items| - 1]
    ensures x in items[..|items| - 1] ==> x.key != items[|items| - 1].key
  {
    assert items == items[..|items| - 1] + [items[|items| - 1]];
  }

  lemma SameItemsSameBindings(a: seq<Landing>, b: seq<Landing>)
    requires DistinctLandings(a) && DistinctLandings(b) && forall x :: x in a <==> x in b
    ensures BindingsOf(a) == BindingsOf(b)
  {
    forall key | key in BindingsOf(a) ensures key in BindingsOf(b) && BindingsOf(b)[key] == BindingsOf(a)[key] {
      BindingsAreItems(a, key, BindingsOf(a)[key]);
      BindingsAreItems(b, key, BindingsOf(a)[key]);
    }
    forall key | key in BindingsOf(b) ensures key in BindingsOf(a) {
      BindingsAreItems(a, key, BindingsOf(b)[key]);
      BindingsAreItems(b, key, BindingsOf(b)[key]);
    }
  }

  /** Equal dictionaries are written as the same rows, whatever their insertion order, and only they are. */
  lemma RowsFollowBindings(a: seq<Landing>, b: seq<Landing>)
    requires DistinctLandings(a) && DistinctLandings(b)
    ensures SortLandings(a) == SortLandings(b) <==> BindingsOf(a) == BindingsOf(b)
  {
    Permuted(a);
    Permuted(b);
    if SortLandings(a) == SortLandings(b) {
      SameItemsSameBindings(a, b);
    }
    if BindingsOf(a) == BindingsOf(b) {
      forall x ensures x in a <==> x in b {
        BindingsAreItems(a, x.key, x.value);
        BindingsAreItems(b, x.key, x.value);
        assert x == Landing(x.key, x.value);
      }
      SortAscends(a);
      SortAscends(b);
      AscendingIsUnique(SortLandings(a), SortLandings(b));
    }
  }

  /** Sorting changes neither the keys' distinctness nor the dictionary. */
  lemma SortedBindings(items: seq<Landing>)
    requires DistinctLandings(items)
    ensures DistinctLandings(SortLandings(items)) && BindingsOf(SortLandings(items)) == BindingsOf(items)
  {
    SortAscends(items);
    AscendingAreDistinct(SortLandings(items));
    Permuted(items);
    SameItemsSameBindings(SortLandings(items), items);
  }
}
