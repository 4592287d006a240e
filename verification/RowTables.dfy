/** Tables whose rows are numbered inside groups, and the text rules shared by all of them. */
module RowTables {
  import opened ByteStrings
  import opened KeyOrder

  /** Unicode case folding and stripping, as far as they are used. */
  datatype Env = Env(fold: Bytes -> Bytes, strip: Bytes -> Bytes)

  const MAX_TEXT_BYTES: nat := 16 * 1024

  predicate ValidText(s: Bytes) {
    s != [] && |s| <= MAX_TEXT_BYTES
  }

  function Stripped(env: Env, texts: seq<Bytes>): (r: seq<Bytes>)
    ensures |r| == |texts| && forall i :: 0 <= i < |r| ==> r[i] == env.strip(texts[i])
  {
    seq(|texts|, i requires 0 <= i < |texts| => env.strip(texts[i]))
  }

  /** A row: its group (the leading key columns), its ordinal inside the group, and the other columns. */
  datatype Row<+G, +V> = Row(group: G, ordinal: int, value: V)

  /** The values of all rows, in table order. */
  function Values<G, V>(rows: seq<Row<G, V>>): (r: seq<V>)
    ensures |r| == |rows| && forall i :: 0 <= i < |r| ==> r[i] == rows[i].value
  {
    seq(|rows|, i requires 0 <= i < |rows| => rows[i].value)
  }

  /** The values of one group, in table order. */
  function Group<G(==), V>(rows: seq<Row<G, V>>, g: G): seq<V> {
    if rows == [] then []
    else
      var last := rows[|rows| - 1];
      Group(rows[..|rows| - 1], g) + (if last.group == g then [last.value] else [])
  }

  /** Each row's ordinal counts the rows of its group before it. */
  predicate Contiguous<G(==), V>(rows: seq<Row<G, V>>) {
    forall i :: 0 <= i < |rows| ==> Counts(rows, i)
  }

  predicate Counts<G(==), V>(rows: seq<Row<G, V>>, i: nat)
    requires i < |rows|
  {
    rows[i].ordinal == |Group(rows[..i], rows[i].group)|
  }

  /** The rows that a list of values is written as. */
  function Numbered<G, V>(g: G, values: seq<V>): (r: seq<Row<G, V>>)
    ensures |r| == |values|
  {
    seq(|values|, i requires 0 <= i < |values| => Row(g, i, values[i]))
  }

  lemma {:induction false} GroupOfConcat<G, V>(a: seq<Row<G, V>>, b: seq<Row<G, V>>, g: G)
    ensures Group(a + b, g) == Group(a, g) + Group(b, g)
    decreases |b|
  {
    if b == [] {
      assert a + b == a;
    } else {
      assert (a + b)[..|a + b| - 1] == a + b[..|b| - 1];
      GroupOfConcat(a, b[..|b| - 1], g);
    }
  }

  lemma {:induction false} GroupOfNumbered<G, V>(h: G, values: seq<V>, g: G)
    ensures Group(Numbered(h, values), g) == if h == g then values else []
    decreases |values|
  {
    if values != [] {
      var n := |values| - 1;
      assert Numbered(h, values)[..n] == Numbered(h, values[..n]);
      GroupOfNumbered(h, values[..n], g);
      assert values[..n] + [values[n]] == values;
    }
  }

  lemma {:induction false} GroupIsEmpty<G, V>(rows: seq<Row<G, V>>, g: G)
    ensures Group(rows, g) == [] <==> forall i :: 0 <= i < |rows| ==> rows[i].group != g
    decreases |rows|
  {
    if rows != [] {
      var n := |rows| - 1;
      GroupIsEmpty(rows[..n], g);
      assert forall i :: 0 <= i < n ==> rows[..n][i] == rows[i];
    }
  }

  lemma {:induction false} GroupIn<G, V>(rows: seq<Row<G, V>>, g: G, x: V)
    ensures x in Group(rows, g) <==> exists i :: 0 <= i < |rows| && rows[i].group == g && rows[i].value == x
    decreases |rows|
  {
    if rows != [] {
      var n := |rows| - 1;
      GroupIn(rows[..n], g, x);
      assert forall i :: 0 <= i < n ==> rows[..n][i] == rows[i];
    }
  }

  /** Appending a freshly numbered group keeps a table contiguous. */
  lemma ContiguousAppend<G, V>(rows: seq<Row<G, V>>, g: G, values: seq<V>)
    requires Contiguous(rows) && Group(rows, g) == []
    ensures Contiguous(rows + Numbered(g, values))
  {
    var all := rows + Numbered(g, values);
    forall i | 0 <= i < |all| ensures Counts(all, i) {
      if i < |rows| {
        assert all[..i] == rows[..i] && Counts(rows, i);
      } else {
        var k := i - |rows|;
        assert all[..i] == rows + Numbered(g, values[..k]);
        GroupOfConcat(rows, Numbered(g, values[..k]), g);
        GroupOfNumbered(g, values[..k], g);
      }
    }
  }

  lemma ContiguousExtend<G, V>(rows: seq<Row<G, V>>, i: nat)
    requires i < |rows| && Contiguous(rows[..i]) && Counts(rows, i)
    ensures Contiguous(rows[..i + 1])
  {
    var head := rows[..i + 1];
    forall j | 0 <= j < |head| ensures Counts(head, j) {
      assert rows[..i + 1][..j] == rows[..j] && rows[..i + 1][j] == rows[j];
      if j < i {
        assert rows[..i][..j] == rows[..j] && rows[..i][j] == rows[j] && Counts(rows[..i], j);
      }
    }
  }

  /** Every row lies in an allowed group, counts up inside it, and holds a valid value. */
  predicate Collectable<G(==), V>(rows: seq<Row<G, V>>, allowed: G -> bool, valid: V -> bool) {
    Contiguous(rows) && forall i :: 0 <= i < |rows| ==> allowed(rows[i].group) && valid(rows[i].value)
  }

  lemma CollectableStep<G, V>(rows: seq<Row<G, V>>, i: nat, allowed: G -> bool, valid: V -> bool)
    requires i < |rows|
    ensures Collectable(rows, allowed, valid) ==> allowed(rows[i].group) && Counts(rows, i) && valid(rows[i].value)
    ensures Collectable(rows[..i], allowed, valid) && allowed(rows[i].group) && Counts(rows, i) && valid(rows[i].value) ==>
              Collectable(rows[..i + 1], allowed, valid)
  {
    if Collectable(rows[..i], allowed, valid) && Counts(rows, i) {
      ContiguousExtend(rows, i);
      assert forall k :: 0 <= k < i ==> rows[..i + 1][k] == rows[..i][k];
      assert rows[..i + 1][i] == rows[i];
    }
  }

  /** The lists held by group: absent and empty mean the same. */
  predicate Lists<G, V(==)>(lists: map<G, seq<V>>, rows: seq<Row<G, V>>) {
    (forall g :: g in lists ==> lists[g] == Group(rows, g)) && forall i :: 0 <= i < |rows| ==> rows[i].group in lists
  }

  function ListOf<G, V>(lists: map<G, seq<V>>, g: G): seq<V> {
    if g in lists then lists[g] else []
  }

  lemma ListsAreGroups<G, V>(lists: map<G, seq<V>>, rows: seq<Row<G, V>>, g: G)
    requires Lists(lists, rows)
    ensures ListOf(lists, g) == Group(rows, g)
  {
    GroupIsEmpty(rows, g);
  }

  /** The reading loop of a table: append each row to its group's list, or stop at the first bad row. */
  method Collect<G(==), V(==)>(rows: seq<Row<G, V>>, allowed: G -> bool, valid: V -> bool) returns (lists: Option<map<G, seq<V>>>)
    ensures lists.Some? <==> Collectable(rows, allowed, valid)
    ensures lists.Some? ==> Lists(lists.value, rows)
  {
    var found: map<G, seq<V>> := map[];
    var i := 0;
    while i < |rows|
      invariant 0 <= i <= |rows|
      invariant Collectable(rows[..i], allowed, valid) && Lists(found, rows[..i])
    {
      var row := rows[i];
      var list := ListOf(found, row.group);
      ListsAreGroups(found, rows[..i], row.group);
      CollectableStep(rows, i, allowed, valid);
      if !allowed(row.group) || row.ordinal != |list| || !valid(row.value) {
        return None;
      }
      Append(found, rows, i);
      found := found[row.group := list + [row.value]];
      i := i + 1;
    }
    assert rows[..i] == rows;
    return Some(found);
  }

  lemma Append<G, V>(found: map<G, seq<V>>, rows: seq<Row<G, V>>, i: nat)
    requires i < |rows| && Lists(found, rows[..i])
    ensures Lists(found[rows[i].group := ListOf(found, rows[i].group) + [rows[i].value]], rows[..i + 1])
  {
    ListsAreGroups(found, rows[..i], rows[i].group);
    assert rows[..i + 1][..i] == rows[..i];
  }

  // ---- distinct folded names ----

  predicate DistinctFolds(env: Env, names: seq<Bytes>) {
    forall i, j :: 0 <= i < j < |names| ==> env.fold(names[i]) != env.fold(names[j])
  }

  function Folds(env: Env, names: seq<Bytes>): set<Bytes> {
    set i | 0 <= i < |names| :: env.fold(names[i])
  }

  /** The folded names, if no two coincide. */
  method FoldNames(env: Env, names: seq<Bytes>) returns (keys: Option<set<Bytes>>)
    ensures keys == if DistinctFolds(env, names) then Some(Folds(env, names)) else None
  {
    var seen: set<Bytes> := {};
    var i := 0;
    while i < |names|
      invariant 0 <= i <= |names| && seen == Folds(env, names[..i]) && DistinctFolds(env, names[..i])
    {
      if env.fold(names[i]) in seen {
        return None;
      }
      assert names[..i + 1] == names[..i] + [names[i]];
      assert Folds(env, names[..i + 1]) == seen + {env.fold(names[i])} by {
        assert forall k :: 0 <= k < i ==> names[..i + 1][k] == names[..i][k];
        assert names[..i + 1][i] == names[i];
      }
      seen := seen + {env.fold(names[i])};
      i := i + 1;
    }
    assert names[..i] == names;
    return Some(seen);
  }
}
