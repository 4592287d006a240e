/**
 Byte-wise order on keys, and sorting the pairs of a mapping by key: the order of fields in canonical JSON
 and of sorted sets of texts.
 */
module KeyOrder {
  import opened ByteStrings

  datatype Pair<+T> = Pair(key: Bytes, value: T)

  /** Byte-wise lexicographic order; on UTF-8 it is the order of code points. */
  predicate Before(a: Bytes, b: Bytes) {
    b != [] && (a == [] || a[0] < b[0] || (a[0] == b[0] && Before(a[1..], b[1..])))
  }

  /** Up to some place the texts agree, and there the first ends, or has the smaller byte. */
  ghost predicate ByteLess(a: Bytes, b: Bytes) {
    exists n: nat :: n <= |a| && n < |b| && a[..n] == b[..n] && (n == |a| || a[n] < b[n])
  }

  /** The order is that of the first byte that differs, a text coming before its extensions. */
  lemma BeforeIs(a: Bytes, b: Bytes)
    ensures Before(a, b) <==> ByteLess(a, b)
  {
    if Before(a, b) {
      var n := Divergence(a, b);
    }
    forall n: nat | n <= |a| && n < |b| && a[..n] == b[..n] && (n == |a| || a[n] < b[n]) ensures Before(a, b) {
      DivergingIsBefore(a, b, n);
    }
  }

  lemma {:induction false} Divergence(a: Bytes, b: Bytes) returns (n: nat)
    requires Before(a, b)
    ensures n <= |a| && n < |b| && a[..n] == b[..n] && (n == |a| || a[n] < b[n])
  {
    n := 0;
    if a != [] && a[0] == b[0] {
      var m := Divergence(a[1..], b[1..]);
      n := m + 1;
      assert a[..n] == [a[0]] + a[1..][..m] && b[..n] == [b[0]] + b[1..][..m];
    }
  }

  lemma {:induction false} DivergingIsBefore(a: Bytes, b: Bytes, n: nat)
    requires n <= |a| && n < |b| && a[..n] == b[..n] && (n == |a| || a[n] < b[n])
    ensures Before(a, b)
    decreases n
  {
    if n > 0 {
      assert a[0] == a[..n][0] && b[0] == b[..n][0];
      assert a[1..][..n - 1] == a[..n][1..] && b[1..][..n - 1] == b[..n][1..];
      DivergingIsBefore(a[1..], b[1..], n - 1);
    }
  }

  lemma {:induction false} BeforeIsStrict(a: Bytes)
    ensures !Before(a, a)
  {
    if a != [] {
      BeforeIsStrict(a[1..]);
    }
  }

  lemma {:induction false} BeforeIsTransitive(a: Bytes, b: Bytes, c: Bytes)
    requires Before(a, b) && Before(b, c)
    ensures Before(a, c)
  {
    if a != [] && b != [] && c != [] && a[0] == b[0] && b[0] == c[0] {
      BeforeIsTransitive(a[1..], b[1..], c[1..]);
    }
  }

  lemma {:induction false} BeforeIsConnected(a: Bytes, b: Bytes)
    ensures a == b || Before(a, b) || Before(b, a)
  {
    if a != [] && b != [] && a[0] == b[0] {
      BeforeIsConnected(a[1..], b[1..]);
      assert a == [a[0]] + a[1..] && b == [b[0]] + b[1..];
    }
  }

  predicate DistinctKeys<T>(pairs: seq<Pair<T>>) {
    forall i, j :: 0 <= i < j < |pairs| ==> pairs[i].key != pairs[j].key
  }

  predicate Ascending<T>(pairs: seq<Pair<T>>) {
    forall i, j :: 0 <= i < j < |pairs| ==> Before(pairs[i].key, pairs[j].key)
  }

  function Insert<T(!new)>(x: Pair<T>, sorted: seq<Pair<T>>): (r: seq<Pair<T>>)
    ensures |r| == |sorted| + 1
    ensures forall p :: p in r <==> p == x || p in sorted
  {
    if sorted == [] || Before(x.key, sorted[0].key) then [x] + sorted
    else [sorted[0]] + Insert(x, sorted[1..])
  }

  function Sort<T(!new)>(pairs: seq<Pair<T>>): (r: seq<Pair<T>>)
    ensures |r| == |pairs|
    ensures forall p :: p in r <==> p in pairs
  {
    if pairs == [] then []
    else
      assert forall p :: p in pairs <==> p == pairs[0] || p in pairs[1..];
      Insert(pairs[0], Sort(pairs[1..]))
  }

  lemma {:induction false} InsertAscends<T(!new)>(x: Pair<T>, sorted: seq<Pair<T>>)
    requires Ascending(sorted) && forall p :: p in sorted ==> p.key != x.key
    ensures Ascending(Insert(x, sorted))
  {
    if sorted != [] {
      BeforeIsConnected(x.key, sorted[0].key);
      if Before(x.key, sorted[0].key) {
        forall i | 0 <= i < |sorted| ensures Before(x.key, sorted[i].key) {
          if i > 0 {
            BeforeIsTransitive(x.key, sorted[0].key, sorted[i].key);
          }
        }
      } else {
        InsertAscends(x, sorted[1..]);
        var r := Insert(x, sorted[1..]);
        forall i | 0 <= i < |r| ensures Before(sorted[0].key, r[i].key) {
          assert r[i] in r;
        }
      }
    }
  }

  /** Sorting pairs with distinct keys puts the keys in strictly ascending order. */
  lemma {:induction false} SortAscends<T(!new)>(pairs: seq<Pair<T>>)
    requires DistinctKeys(pairs)
    ensures Ascending(Sort(pairs))
  {
    if pairs != [] {
      SortAscends(pairs[1..]);
      InsertAscends(pairs[0], Sort(pairs[1..]));
    }
  }

  lemma AscendingAreDistinct<T(!new)>(pairs: seq<Pair<T>>)
    requires Ascending(pairs)
    ensures DistinctKeys(pairs)
  {
    forall i, j | 0 <= i < j < |pairs| ensures pairs[i].key != pairs[j].key {
      BeforeIsStrict(pairs[i].key);
    }
  }

  /** An ascending sequence is determined by its elements. */
  lemma {:induction false} AscendingIsUnique<T(!new)>(a: seq<Pair<T>>, b: seq<Pair<T>>)
    requires Ascending(a) && Ascending(b) && forall p :: p in a <==> p in b
    ensures a == b
  {
    if |a| > 0 {
      assert a[0] in a;
    }
    if |b| > 0 {
      assert b[0] in b;
    }
    if a != [] {
      assert b[0] in a && a[0] in b;
      var i :| 0 <= i < |a| && a[i] == b[0];
      var j :| 0 <= j < |b| && b[j] == a[0];
      if i > 0 && j > 0 {
        BeforeIsTransitive(a[0].key, b[0].key, a[0].key);
        BeforeIsStrict(a[0].key);
      }
      assert a[0] == b[0];
      TailElements(a);
      TailElements(b);
      AscendingIsUnique(a[1..], b[1..]);
    }
  }

  lemma TailElements<T(!new)>(a: seq<Pair<T>>)
    requires Ascending(a) && a != []
    ensures forall p :: p in a[1..] <==> p in a && p != a[0]
  {
    AscendingAreDistinct(a);
  }

  lemma SortIsUnique<T(!new)>(a: seq<Pair<T>>, b: seq<Pair<T>>)
    requires DistinctKeys(a) && DistinctKeys(b) && forall p :: p in a <==> p in b
    ensures Sort(a) == Sort(b)
  {
    SortAscends(a);
    SortAscends(b);
    AscendingIsUnique(Sort(a), Sort(b));
  }

  /** Sorting looks at keys only, so it carries any relation between values along. */
  lemma {:induction false} SortCarries<A(!new), B(!new)>(a: seq<Pair<A>>, b: seq<Pair<B>>, rel: (A, B) -> bool)
    requires |a| == |b| && forall i :: 0 <= i < |a| ==> a[i].key == b[i].key && rel(a[i].value, b[i].value)
    ensures forall i :: 0 <= i < |a| ==> Sort(a)[i].key == Sort(b)[i].key && rel(Sort(a)[i].value, Sort(b)[i].value)
  {
    if a != [] {
      SortCarries(a[1..], b[1..], rel);
      InsertCarries(a[0], Sort(a[1..]), b[0], Sort(b[1..]), rel);
    }
  }

  lemma {:induction false} InsertCarries<A(!new), B(!new)>(x: Pair<A>, a: seq<Pair<A>>, y: Pair<B>, b: seq<Pair<B>>, rel: (A, B) -> bool)
    requires x.key == y.key && rel(x.value, y.value)
    requires |a| == |b| && forall i :: 0 <= i < |a| ==> a[i].key == b[i].key && rel(a[i].value, b[i].value)
    ensures forall i :: 0 <= i < |a| + 1 ==>
              Insert(x, a)[i].key == Insert(y, b)[i].key && rel(Insert(x, a)[i].value, Insert(y, b)[i].value)
  {
    if a != [] && !Before(x.key, a[0].key) {
      InsertCarries(x, a[1..], y, b[1..], rel);
    }
  }
}
