/**
 Sorting lists that may repeat elements, with the orders of texts and of tuples of texts: the sorted
 list is a normal form of the multiset.
 */
module MultisetSort {
  import opened ByteStrings
  import opened KeyOrder

  ghost predicate StrictOrder<T(!new)>(less: (T, T) -> bool) {
    && (forall a :: !less(a, a))
    && (forall a, b, c {:trigger less(a, b), less(b, c)} :: less(a, b) && less(b, c) ==> less(a, c))
    && (forall a, b {:trigger less(a, b)} :: a == b || less(a, b) || less(b, a))
  }

  function InsertBy<T(==)>(less: (T, T) -> bool, x: T, sorted: seq<T>): (r: seq<T>)
    ensures multiset(r) == multiset(sorted) + multiset{x}
  {
    if sorted == [] || !less(sorted[0], x) then [x] + sorted
    else
      assert sorted == [sorted[0]] + sorted[1..];
      [sorted[0]] + InsertBy(less, x, sorted[1..])
  }

  function SortBy<T(==)>(less: (T, T) -> bool, items: seq<T>): (r: seq<T>)
    ensures multiset(r) == multiset(items)
  {
    if items == [] then []
    else
      assert items == [items[0]] + items[1..];
      InsertBy(less, items[0], SortBy(less, items[1..]))
  }

  predicate Nondecreasing<T>(less: (T, T) -> bool, items: seq<T>) {
    forall i, j :: 0 <= i < j < |items| ==> !less(items[j], items[i])
  }

  lemma {:induction false} InsertByIsOrdered<T(!new)>(less: (T, T) -> bool, x: T, sorted: seq<T>)
    requires StrictOrder(less) && Nondecreasing(less, sorted)
    ensures Nondecreasing(less, InsertBy(less, x, sorted))
  {
    if sorted == [] {
    } else if less(sorted[0], x) {
      InsertByIsOrdered(less, x, sorted[1..]);
      var r := InsertBy(less, x, sorted[1..]);
      forall j | 0 <= j < |r| ensures !less(r[j], sorted[0]) {
        assert r[j] in multiset(r);
        assert r[j] == x || r[j] in sorted[1..];
      }
    } else {
      forall j | 0 <= j < |sorted| ensures !less(sorted[j], x) {
        var head, y := sorted[0], sorted[j];
        assert y == head || !less(y, head);
        assert head == x || less(head, x) || less(x, head);
      }
    }
  }

  lemma {:induction false} SortByIsOrdered<T(!new)>(less: (T, T) -> bool, items: seq<T>)
    requires StrictOrder(less)
    ensures Nondecreasing(less, SortBy(less, items))
  {
    if items != [] {
      SortByIsOrdered(less, items[1..]);
      InsertByIsOrdered(less, items[0], SortBy(less, items[1..]));
    }
  }

  /** An ordered list is determined by its elements and how often they occur. */
  lemma {:induction false} OrderedIsUnique<T(!new)>(less: (T, T) -> bool, a: seq<T>, b: seq<T>)
    requires StrictOrder(less) && Nondecreasing(less, a) && Nondecreasing(less, b) && multiset(a) == multiset(b)
    ensures a == b
  {
    if a == [] {
      assert |multiset(b)| == |b| && |multiset(a)| == |a|;
    } else {
      HeadsAgree(less, a, b);
      assert a == [a[0]] + a[1..] && b == [b[0]] + b[1..];
      assert multiset(a[1..]) == multiset(a) - multiset{a[0]} && multiset(b[1..]) == multiset(b) - multiset{a[0]};
      OrderedIsUnique(less, a[1..], b[1..]);
    }
  }

  lemma HeadsAgree<T(!new)>(less: (T, T) -> bool, a: seq<T>, b: seq<T>)
    requires StrictOrder(less) && Nondecreasing(less, a) && Nondecreasing(less, b) && multiset(a) == multiset(b) && a != []
    ensures b != [] && a[0] == b[0]
  {
    assert a[0] in multiset(b);
    assert b[0] in multiset(a);
    var i :| 0 <= i < |a| && a[i] == b[0];
    var j :| 0 <= j < |b| && b[j] == a[0];
    assert i == 0 || !less(b[0], a[0]);
    assert j == 0 || !less(a[0], b[0]);
  }

  /** Sorting is a normal form: equal results exactly for equal multisets. */
  lemma SortByIsCanonical<T(!new)>(less: (T, T) -> bool, a: seq<T>, b: seq<T>)
    requires StrictOrder(less)
    ensures SortBy(less, a) == SortBy(less, b) <==> multiset(a) == multiset(b)
  {
    SortByIsOrdered(less, a);
    SortByIsOrdered(less, b);
    if multiset(a) == multiset(b) {
      OrderedIsUnique(less, SortBy(less, a), SortBy(less, b));
    }
  }

  // ---- the orders of texts and of tuples of texts ----

  lemma TextsAreOrdered()
    ensures StrictOrder(Before)
  {
    forall a, b, c | Before(a, b) && Before(b, c) ensures Before(a, c) {
      BeforeIsTransitive(a, b, c);
    }
    forall a: Bytes ensures !Before(a, a) {
      BeforeIsStrict(a);
    }
    forall a: Bytes, b: Bytes ensures a == b || Before(a, b) || Before(b, a) {
      BeforeIsConnected(a, b);
    }
  }

  /** Tuples of texts compare element by element, a proper prefix coming first. */
  predicate TupleBefore(a: seq<Bytes>, b: seq<Bytes>) {
    b != [] && (a == [] || Before(a[0], b[0]) || (a[0] == b[0] && TupleBefore(a[1..], b[1..])))
  }

  lemma {:induction false} TupleIsStrict(a: seq<Bytes>)
    ensures !TupleBefore(a, a)
  {
    if a != [] {
      BeforeIsStrict(a[0]);
      TupleIsStrict(a[1..]);
    }
  }

  lemma {:induction false} TupleIsTransitive(a: seq<Bytes>, b: seq<Bytes>, c: seq<Bytes>)
    requires TupleBefore(a, b) && TupleBefore(b, c)
    ensures TupleBefore(a, c)
  {
    if a != [] {
      if Before(a[0], b[0]) && Before(b[0], c[0]) {
        BeforeIsTransitive(a[0], b[0], c[0]);
      }
      if a[0] == b[0] && b[0] == c[0] && TupleBefore(a[1..], b[1..]) && TupleBefore(b[1..], c[1..]) {
        TupleIsTransitive(a[1..], b[1..], c[1..]);
      }
    }
  }

  lemma {:induction false} TupleIsConnected(a: seq<Bytes>, b: seq<Bytes>)
    ensures a == b || TupleBefore(a, b) || TupleBefore(b, a)
  {
    if a != [] && b != [] {
      BeforeIsConnected(a[0], b[0]);
      if a[0] == b[0] {
        TupleIsConnected(a[1..], b[1..]);
        assert a == [a[0]] + a[1..] && b == [b[0]] + b[1..];
      }
    }
  }

  lemma TuplesAreOrdered()
    ensures StrictOrder(TupleBefore)
  {
    forall a, b, c | TupleBefore(a, b) && TupleBefore(b, c) ensures TupleBefore(a, c) {
      TupleIsTransitive(a, b, c);
    }
    forall a: seq<Bytes> ensures !TupleBefore(a, a) {
      TupleIsStrict(a);
    }
    forall a: seq<Bytes>, b: seq<Bytes> ensures a == b || TupleBefore(a, b) || TupleBefore(b, a) {
      TupleIsConnected(a, b);
    }
  }
}
