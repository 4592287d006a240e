/** Loading what was written: which topologies come back unchanged. */
module RowRoundTrip {
  import opened ByteStrings
  import opened KeyOrder
  import opened RowTables
  import opened MergeJoin
  import opened RowStore
  import opened RowWriter
  import opened LandingOrder

  // ---- tables made of numbered groups ----

  lemma EmptyIsContiguous<G, V>(g: G, values: seq<V>)
    ensures Contiguous(Numbered(g, values))
  {
    var none: seq<Row<G, V>> := [];
    assert Contiguous(none);
    ContiguousAppend(none, g, values);
    assert none + Numbered(g, values) == Numbered(g, values);
  }

  lemma ContiguousConcat<G, V>(a: seq<Row<G, V>>, b: seq<Row<G, V>>)
    requires Contiguous(a) && Contiguous(b) && forall j :: 0 <= j < |b| ==> Group(a, b[j].group) == []
    ensures Contiguous(a + b)
  {
    var all := a + b;
    forall i | 0 <= i < |all| ensures Counts(all, i) {
      if i < |a| {
        assert all[..i] == a[..i] && Counts(a, i);
      } else {
        var k := i - |a|;
        assert all[..i] == a + b[..k] && Counts(b, k);
        GroupOfConcat(a, b[..k], b[k].group);
      }
    }
  }

  lemma TwoGroups<V>(a: seq<V>, b: seq<V>, kind: int)
    ensures Group(Numbered(0, a) + Numbered(1, b), kind) == if kind == 0 then a else if kind == 1 then b else []
    ensures Contiguous(Numbered(0, a) + Numbered(1, b))
  {
    GroupOfConcat(Numbered(0, a), Numbered(1, b), kind);
    GroupOfNumbered(0, a, kind);
    GroupOfNumbered(1, b, kind);
    EmptyIsContiguous(0, a);
    GroupOfNumbered(0, a, 1);
    ContiguousAppend(Numbered(0, a), 1, b);
  }

  lemma ValuesOfConcat<G, V>(a: seq<Row<G, V>>, b: seq<Row<G, V>>)
    ensures Values(a + b) == Values(a) + Values(b)
  {
  }

  lemma ValuesOfNumbered<G, V>(g: G, values: seq<V>)
    ensures Values(Numbered(g, values)) == values
  {
  }

  // ---- nodes ----

  lemma NodesRoundTrip(env: Env, raw: seq<Bytes>, t: Built)
    ensures var rows := NodeRows(env, raw, t);
            && Values(rows) == Flat(env, raw, t) && Group(rows, 0) == t.quotient && Group(rows, 1) == t.external
            && (NodesFit(env, raw, rows) <==> DistinctFolds(env, Flat(env, raw, t)) && AllValid(Flat(env, raw, t)))
  {
    var a, b, c := Numbered(0, t.quotient), Numbered(1, t.external), Numbered(2, Artwork(env, raw));
    var rows := a + b + c;
    NodeGroups(t.quotient, t.external, Artwork(env, raw), 0);
    NodeGroups(t.quotient, t.external, Artwork(env, raw), 1);
    NodeGroups(t.quotient, t.external, Artwork(env, raw), 2);
    ValuesOfConcat(a + b, c);
    ValuesOfConcat(a, b);
    ValuesOfNumbered(0, t.quotient);
    ValuesOfNumbered(1, t.external);
    ValuesOfNumbered(2, Artwork(env, raw));
    assert Values(rows) == Flat(env, raw, t);
    NodeTexts(rows, t.quotient, t.external, Artwork(env, raw));
  }

  lemma NodeGroups(q: seq<Bytes>, e: seq<Bytes>, w: seq<Bytes>, kind: int)
    ensures var rows := Numbered(0, q) + Numbered(1, e) + Numbered(2, w);
            && Group(rows, kind) == (if kind == 0 then q else if kind == 1 then e else if kind == 2 then w else [])
            && Contiguous(rows)
  {
    TwoGroups(q, e, kind);
    TwoGroups(q, e, 2);
    GroupOfConcat(Numbered(0, q) + Numbered(1, e), Numbered(2, w), kind);
    GroupOfNumbered(2, w, kind);
    ContiguousAppend(Numbered(0, q) + Numbered(1, e), 2, w);
  }

  lemma NodeTexts(rows: seq<NodeRow>, q: seq<Bytes>, e: seq<Bytes>, w: seq<Bytes>)
    requires rows == Numbered(0, q) + Numbered(1, e) + Numbered(2, w) && Contiguous(rows)
    ensures Collectable(rows, NodeKind, ValidText) <==> AllValid(Values(rows))
  {
    assert forall i :: 0 <= i < |rows| ==> NodeKind(rows[i].group);
    assert forall i :: 0 <= i < |rows| ==> Values(rows)[i] == rows[i].value;
  }

  // ---- links and owners ----

  function Cells(flat: seq<Bytes>, links: seq<Link>): (r: seq<LinkCells>)
    requires forall i :: 0 <= i < |links| ==> Anchored(flat, links[i])
    ensures |r| == |links| && forall i :: 0 <= i < |r| ==> r[i] == CellsOf(flat, links[i])
  {
    seq(|links|, i requires 0 <= i < |links| => CellsOf(flat, links[i]))
  }

  predicate AllAnchored(flat: seq<Bytes>, links: seq<Link>) {
    forall i :: 0 <= i < |links| ==> Anchored(flat, links[i])
  }

  /** Both kinds of links, one table. */
  function LinkTable(flat: seq<Bytes>, a: seq<Link>, b: seq<Link>): (r: seq<LinkRow>)
    requires AllAnchored(flat, a) && AllAnchored(flat, b)
    ensures |r| == |a| + |b|
  {
    LinkRows(flat, 0, a) + LinkRows(flat, 1, b)
  }

  function OwnerTable(a: seq<Link>, b: seq<Link>): seq<OwnerRow> {
    OwnerRows(0, a) + OwnerRows(1, b)
  }

  function LinkAt(a: seq<Link>, b: seq<Link>, i: nat): Link
    requires i < |a| + |b|
  {
    if i < |a| then a[i] else b[i - |a|]
  }

  function KeyAt(a: seq<Link>, b: seq<Link>, i: nat): (int, int)
    requires i < |a| + |b|
  {
    if i < |a| then (0, i) else (1, i - |a|)
  }

  lemma LinkTableRows(flat: seq<Bytes>, a: seq<Link>, b: seq<Link>)
    requires AllAnchored(flat, a) && AllAnchored(flat, b)
    ensures var rows := LinkTable(flat, a, b);
            && Contiguous(rows) && LinksSorted(rows)
            && (forall i :: 0 <= i < |rows| ==> Anchored(flat, LinkAt(a, b, i)) && LinkKey(rows[i]) == KeyAt(a, b, i)
                                                && rows[i].value == CellsOf(flat, LinkAt(a, b, i)))
            && LinkIds(rows) == Ids(a) + Ids(b)
  {
    hide CellsOf, Contiguous;
    TwoGroups(Cells(flat, a), Cells(flat, b), 0);
    assert LinkTable(flat, a, b) == Numbered(0, Cells(flat, a)) + Numbered(1, Cells(flat, b));
    var rows := LinkTable(flat, a, b);
    assert forall i :: 0 <= i < |rows| ==> rows[i] == Row(KeyAt(a, b, i).0, KeyAt(a, b, i).1, CellsOf(flat, LinkAt(a, b, i)));
    LinkIdsAre(flat, a, b);
  }

  lemma LinkIdsAre(flat: seq<Bytes>, a: seq<Link>, b: seq<Link>)
    requires AllAnchored(flat, a) && AllAnchored(flat, b)
    ensures LinkIds(LinkTable(flat, a, b)) == Ids(a) + Ids(b)
  {
    var rows := LinkTable(flat, a, b);
    forall i | 0 <= i < |rows| ensures LinkIds(rows)[i] == (Ids(a) + Ids(b))[i] {
      assert rows[i].value == CellsOf(flat, LinkAt(a, b, i));
    }
  }

  lemma {:induction false} OwnersOfKind(kind: int, links: seq<Link>, g: (int, int))
    ensures Group(OwnerRows(kind, links), g) == if g.0 == kind && 0 <= g.1 < |links| then links[g.1].owners else []
    decreases |links|
  {
    if links != [] {
      var n := |links| - 1;
      OwnersOfKind(kind, links[..n], g);
      GroupOfConcat(OwnerRows(kind, links[..n]), Numbered((kind, n), links[n].owners), g);
      GroupOfNumbered((kind, n), links[n].owners, g);
    }
  }

  /** Every owner row lies in the group of its link, in order of links. */
  lemma {:induction false} OwnerRowsShape(kind: int, links: seq<Link>)
    ensures var rows := OwnerRows(kind, links);
            && Contiguous(rows) && OwnersSorted(rows)
            && (forall q :: 0 <= q < |rows| ==> rows[q].group.0 == kind && 0 <= rows[q].group.1 < |links|)
    decreases |links|
  {
    if links != [] {
      var n := |links| - 1;
      OwnerRowsShape(kind, links[..n]);
      OwnersOfKind(kind, links[..n], (kind, n));
      ContiguousAppend(OwnerRows(kind, links[..n]), (kind, n), links[n].owners);
    }
  }

  predicate OfSomeLink(a: seq<Link>, b: seq<Link>, g: (int, int)) {
    (g.0 == 0 && 0 <= g.1 < |a|) || (g.0 == 1 && 0 <= g.1 < |b|)
  }

  lemma OwnerTableRows(a: seq<Link>, b: seq<Link>)
    ensures var rows := OwnerTable(a, b);
            && Contiguous(rows) && OwnersSorted(rows)
            && (forall q :: 0 <= q < |rows| ==> OfSomeLink(a, b, rows[q].group))
  {
    OwnerRowsShape(0, a);
    OwnerRowsShape(1, b);
    var head, tail := OwnerRows(0, a), OwnerRows(1, b);
    forall j | 0 <= j < |tail| ensures Group(head, tail[j].group) == [] {
      OwnersOfKind(0, a, tail[j].group);
    }
    ContiguousConcat(head, tail);
    var rows := OwnerTable(a, b);
    assert forall q :: 0 <= q < |tail| ==> rows[|head| + q] == tail[q];
  }

  lemma OwnersOfLink(a: seq<Link>, b: seq<Link>, i: nat)
    requires i < |a| + |b|
    ensures Group(OwnerTable(a, b), KeyAt(a, b, i)) == LinkAt(a, b, i).owners
  {
    GroupOfConcat(OwnerRows(0, a), OwnerRows(1, b), KeyAt(a, b, i));
    OwnersOfKind(0, a, KeyAt(a, b, i));
    OwnersOfKind(1, b, KeyAt(a, b, i));
  }

  lemma {:induction false} OwnerIdsOfKind(kind: int, links: seq<Link>)
    ensures OwnerIds(OwnerRows(kind, links)) == AllOwners(links)
    decreases |links|
  {
    if links != [] {
      var n := |links| - 1;
      OwnerIdsOfKind(kind, links[..n]);
      assert OwnerIds(OwnerRows(kind, links)) == OwnerIds(OwnerRows(kind, links[..n])) + OwnerIds(Numbered((kind, n), links[n].owners));
      assert OwnerIds(Numbered((kind, n), links[n].owners)) == links[n].owners;
    }
  }

  lemma OwnerTableIds(a: seq<Link>, b: seq<Link>)
    ensures OwnerIds(OwnerTable(a, b)) == AllOwners(a) + AllOwners(b)
  {
    OwnerIdsOfKind(0, a);
    OwnerIdsOfKind(1, b);
    assert OwnerIds(OwnerTable(a, b)) == OwnerIds(OwnerRows(0, a)) + OwnerIds(OwnerRows(1, b));
  }

  predicate OwnerTexts(kind: int, owners: seq<Bytes>) {
    forall i :: 0 <= i < |owners| ==> ValidText(owners[i]) && (kind == 1 ==> VIA_PREFIX <= owners[i])
  }

  /** One link: fit to be loaded, its owners good, and unchanged by loading, exactly if it is storable. */
  lemma LinkRoundTrip(env: Env, flat: seq<Bytes>, kind: int, ordinal: int, link: Link)
    requires Anchored(flat, link) && (kind == 0 || kind == 1)
    ensures var row := Row(kind, ordinal, CellsOf(flat, link));
            (LinkFits(env, flat, row, link.owners) && Rebuilt(env, flat, row, link.owners) == link && OwnerTexts(kind, link.owners)) <==>
            LinkStorable(env, flat, kind, link)
  {
    var row := Row(kind, ordinal, CellsOf(flat, link));
    assert flat[row.value.first] == link.first && flat[row.value.second] == link.second;
    assert LinkFits(env, flat, row, link.owners) ==> ImpedanceOf(row) == link.impedance;
    assert LinkStorable(env, flat, kind, link) ==> LinkFits(env, flat, row, link.owners);
    assert LinkStorable(env, flat, kind, link) ==> Rebuilt(env, flat, row, link.owners) == link;
    assert LinkStorable(env, flat, kind, link) ==> OwnerTexts(kind, link.owners);
  }

  lemma {:induction false} OwnerRowIn(kind: int, links: seq<Link>, k: nat, j: nat)
    requires k < |links| && j < |links[k].owners|
    ensures exists q :: 0 <= q < |OwnerRows(kind, links)| && OwnerRows(kind, links)[q] == Row((kind, k), j, links[k].owners[j])
    decreases |links|
  {
    var n := |links| - 1;
    var head := OwnerRows(kind, links[..n]);
    if k == n {
      assert OwnerRows(kind, links)[|head| + j] == Row((kind, k), j, links[k].owners[j]);
    } else {
      OwnerRowIn(kind, links[..n], k, j);
      var q :| 0 <= q < |head| && head[q] == Row((kind, k), j, links[k].owners[j]);
      assert OwnerRows(kind, links)[q] == head[q];
    }
  }

  lemma {:induction false} OwnerRowFrom(kind: int, links: seq<Link>, q: nat)
    requires q < |OwnerRows(kind, links)|
    ensures var row := OwnerRows(kind, links)[q];
            row.group.0 == kind && 0 <= row.group.1 < |links| && 0 <= row.ordinal < |links[row.group.1].owners|
            && row.value == links[row.group.1].owners[row.ordinal]
    decreases |links|
  {
    var n := |links| - 1;
    var head := OwnerRows(kind, links[..n]);
    if q < |head| {
      OwnerRowFrom(kind, links[..n], q);
    }
  }

  predicate RowsOk(rows: seq<OwnerRow>) {
    forall q :: 0 <= q < |rows| ==> OwnerOk(rows[q])
  }

  predicate TextsOk(kind: int, links: seq<Link>) {
    forall k :: 0 <= k < |links| ==> OwnerTexts(kind, links[k].owners)
  }

  lemma OwnerRowsOk(kind: int, links: seq<Link>)
    requires kind == 0 || kind == 1
    ensures RowsOk(OwnerRows(kind, links)) <==> TextsOk(kind, links)
  {
    var rows := OwnerRows(kind, links);
    if TextsOk(kind, links) {
      forall q | 0 <= q < |rows| ensures OwnerOk(rows[q]) {
        OwnerRowFrom(kind, links, q);
        assert OwnerTexts(kind, links[rows[q].group.1].owners);
      }
    }
    if RowsOk(rows) {
      forall k, j | 0 <= k < |links| && 0 <= j < |links[k].owners|
        ensures ValidText(links[k].owners[j]) && (kind == 1 ==> VIA_PREFIX <= links[k].owners[j])
      {
        OwnerRowIn(kind, links, k, j);
        var q :| 0 <= q < |rows| && rows[q] == Row((kind, k), j, links[k].owners[j]);
        assert OwnerOk(rows[q]);
      }
    }
  }

  lemma OwnerTableOk(a: seq<Link>, b: seq<Link>)
    ensures RowsOk(OwnerTable(a, b)) <==> TextsOk(0, a) && TextsOk(1, b)
  {
    OwnerRowsOk(0, a);
    OwnerRowsOk(1, b);
    RowsOkConcat(OwnerRows(0, a), OwnerRows(1, b));
  }

  lemma RowsOkConcat(head: seq<OwnerRow>, tail: seq<OwnerRow>)
    ensures RowsOk(head + tail) <==> RowsOk(head) && RowsOk(tail)
  {
    var rows := head + tail;
    assert forall q :: 0 <= q < |head| ==> rows[q] == head[q];
    assert forall q :: 0 <= q < |tail| ==> rows[|head| + q] == tail[q];
  }

  /** Every link row fits the owners filed under it. */
  predicate AllFit(env: Env, flat: seq<Bytes>, links: seq<LinkRow>, owners: seq<OwnerRow>) {
    forall k :: 0 <= k < |links| ==> LinkFits(env, flat, links[k], Group(owners, LinkKey(links[k])))
  }

  /** Link i of the written tables comes back as itself. */
  predicate ReturnsAt(env: Env, flat: seq<Bytes>, links: seq<LinkRow>, owners: seq<OwnerRow>, i: nat, link: Link)
    requires i < |links|
  {
    LinkFits(env, flat, links[i], Group(owners, LinkKey(links[i]))) && Rebuilt(env, flat, links[i], Group(owners, LinkKey(links[i]))) == link
  }

  lemma ReturnsIffStorable(env: Env, flat: seq<Bytes>, a: seq<Link>, b: seq<Link>, i: nat)
    requires AllAnchored(flat, a) && AllAnchored(flat, b) && i < |a| + |b|
    ensures var kind := KeyAt(a, b, i).0;
            ReturnsAt(env, flat, LinkTable(flat, a, b), OwnerTable(a, b), i, LinkAt(a, b, i)) && OwnerTexts(kind, LinkAt(a, b, i).owners) <==>
            LinkStorable(env, flat, kind, LinkAt(a, b, i))
  {
    hide LinkFits, Rebuilt, LinkStorable, OwnerTexts;
    LinkTableRows(flat, a, b);
    OwnersOfLink(a, b, i);
    var key := KeyAt(a, b, i);
    LinkRoundTrip(env, flat, key.0, key.1, LinkAt(a, b, i));
    var row := LinkTable(flat, a, b)[i];
    assert row == Row(key.0, key.1, CellsOf(flat, LinkAt(a, b, i)));
  }

  /** Each kind's links, put together from the rows, are the written ones exactly if each link returns. */
  lemma RebuiltTable(env: Env, flat: seq<Bytes>, a: seq<Link>, b: seq<Link>)
    requires AllAnchored(flat, a) && AllAnchored(flat, b)
    requires AllFit(env, flat, LinkTable(flat, a, b), OwnerTable(a, b))
    ensures var links, owners := LinkTable(flat, a, b), OwnerTable(a, b);
            var rows := RebuiltRows(env, flat, links, owners, |links|);
            Group(rows, 0) == a && Group(rows, 1) == b <==>
            forall i :: 0 <= i < |links| ==> ReturnsAt(env, flat, links, owners, i, LinkAt(a, b, i))
  {
    hide LinkFits, Rebuilt, LinkTable, OwnerTable, Group;
    var links, owners := LinkTable(flat, a, b), OwnerTable(a, b);
    LinkTableRows(flat, a, b);
    var rows := RebuiltRows(env, flat, links, owners, |links|);
    var first := seq(|a|, i requires 0 <= i < |a| => rows[i].value);
    var second := seq(|b|, i requires 0 <= i < |b| => rows[|a| + i].value);
    assert rows == Numbered(0, first) + Numbered(1, second);
    TwoGroups(first, second, 0);
    TwoGroups(first, second, 1);
    forall i | 0 <= i < |links|
      ensures ReturnsAt(env, flat, links, owners, i, LinkAt(a, b, i)) <==> (if i < |a| then first[i] == a[i] else second[i - |a|] == b[i - |a|])
    {
      assert rows[i].value == Rebuilt(env, flat, links[i], Group(owners, LinkKey(links[i])));
    }
    PointwiseBoth(env, flat, links, owners, a, b, first, second);
  }

  lemma PointwiseBoth(env: Env, flat: seq<Bytes>, links: seq<LinkRow>, owners: seq<OwnerRow>,
                      a: seq<Link>, b: seq<Link>, first: seq<Link>, second: seq<Link>)
    requires |links| == |a| + |b| && |first| == |a| && |second| == |b|
    requires forall i :: 0 <= i < |links| ==>
               (ReturnsAt(env, flat, links, owners, i, LinkAt(a, b, i)) <==> (if i < |a| then first[i] == a[i] else second[i - |a|] == b[i - |a|]))
    ensures first == a && second == b <==> forall i :: 0 <= i < |links| ==> ReturnsAt(env, flat, links, owners, i, LinkAt(a, b, i))
  {
    hide ReturnsAt;
    if forall i :: 0 <= i < |links| ==> ReturnsAt(env, flat, links, owners, i, LinkAt(a, b, i)) {
      forall i | 0 <= i < |a| ensures first[i] == a[i] {
        assert ReturnsAt(env, flat, links, owners, i, LinkAt(a, b, i));
      }
      forall i | 0 <= i < |b| ensures second[i] == b[i] {
        assert ReturnsAt(env, flat, links, owners, |a| + i, LinkAt(a, b, |a| + i));
      }
    }
  }

  predicate AllStorable(env: Env, flat: seq<Bytes>, a: seq<Link>, b: seq<Link>) {
    forall i :: 0 <= i < |a| + |b| ==> LinkStorable(env, flat, KeyAt(a, b, i).0, LinkAt(a, b, i))
  }

  predicate AllReturn(env: Env, flat: seq<Bytes>, a: seq<Link>, b: seq<Link>)
    requires AllAnchored(flat, a) && AllAnchored(flat, b)
  {
    forall i :: 0 <= i < |a| + |b| ==> ReturnsAt(env, flat, LinkTable(flat, a, b), OwnerTable(a, b), i, LinkAt(a, b, i))
  }

  lemma AllReturnIffStorable(env: Env, flat: seq<Bytes>, a: seq<Link>, b: seq<Link>)
    requires AllAnchored(flat, a) && AllAnchored(flat, b)
    ensures AllReturn(env, flat, a, b) && TextsOk(0, a) && TextsOk(1, b) <==> AllStorable(env, flat, a, b)
  {
    hide ReturnsAt, LinkStorable, OwnerTexts, LinkTable, OwnerTable;
    forall i | 0 <= i < |a| + |b|
      ensures ReturnsAt(env, flat, LinkTable(flat, a, b), OwnerTable(a, b), i, LinkAt(a, b, i))
              && OwnerTexts(KeyAt(a, b, i).0, LinkAt(a, b, i).owners) <==>
              LinkStorable(env, flat, KeyAt(a, b, i).0, LinkAt(a, b, i))
    {
      ReturnsIffStorable(env, flat, a, b, i);
    }
    TextsAt(a, b);
  }

  lemma TextsAt(a: seq<Link>, b: seq<Link>)
    ensures TextsOk(0, a) && TextsOk(1, b) <==> forall i :: 0 <= i < |a| + |b| ==> OwnerTexts(KeyAt(a, b, i).0, LinkAt(a, b, i).owners)
  {
    hide OwnerTexts;
    if forall i :: 0 <= i < |a| + |b| ==> OwnerTexts(KeyAt(a, b, i).0, LinkAt(a, b, i).owners) {
      forall k | 0 <= k < |a| ensures OwnerTexts(0, a[k].owners) {
        assert KeyAt(a, b, k).0 == 0 && LinkAt(a, b, k) == a[k];
      }
      forall k | 0 <= k < |b| ensures OwnerTexts(1, b[k].owners) {
        assert KeyAt(a, b, |a| + k).0 == 1 && LinkAt(a, b, |a| + k) == b[k];
      }
    }
  }

  lemma StorableAt(env: Env, flat: seq<Bytes>, a: seq<Link>, b: seq<Link>)
    ensures AllStorable(env, flat, a, b) <==>
            (forall i :: 0 <= i < |a| ==> LinkStorable(env, flat, 0, a[i])) && (forall i :: 0 <= i < |b| ==> LinkStorable(env, flat, 1, b[i]))
  {
    hide LinkStorable;
    if AllStorable(env, flat, a, b) {
      forall k | 0 <= k < |a| ensures LinkStorable(env, flat, 0, a[k]) {
        assert KeyAt(a, b, k).0 == 0 && LinkAt(a, b, k) == a[k];
      }
      forall k | 0 <= k < |b| ensures LinkStorable(env, flat, 1, b[k]) {
        assert KeyAt(a, b, |a| + k).0 == 1 && LinkAt(a, b, |a| + k) == b[k];
      }
    }
  }

  /** Written link and owner tables are consistent as far as their shape goes. */
  lemma WrittenIsConsistent(env: Env, flat: seq<Bytes>, a: seq<Link>, b: seq<Link>)
    requires AllAnchored(flat, a) && AllAnchored(flat, b)
    ensures var links, owners := LinkTable(flat, a, b), OwnerTable(a, b);
            Consistent(env, flat, links, owners) <==>
            && AllFit(env, flat, links, owners)
            && TextsOk(0, a) && TextsOk(1, b)
            && DistinctFolds(env, Ids(a) + Ids(b)) && DistinctFolds(env, AllOwners(a) + AllOwners(b))
  {
    hide LinkFits, DistinctFolds, OwnerOk, OwnerTexts, Contiguous, OwnersSorted, LinksSorted, LinkTable, OwnerTable, Group;
    var links, owners := LinkTable(flat, a, b), OwnerTable(a, b);
    LinkTableRows(flat, a, b);
    OwnerTableRows(a, b);
    OwnerTableIds(a, b);
    OwnerTableOk(a, b);
    forall q | 0 <= q < |owners| ensures Attached(links, owners[q].group) {
      var g := owners[q].group;
      var i := if g.0 == 0 then g.1 else |a| + g.1;
      assert LinkKey(links[i]) == owners[q].group;
    }
  }

  /** Links and owner lists come back unchanged exactly if they are storable. */
  lemma LinksRoundTrip(env: Env, flat: seq<Bytes>, a: seq<Link>, b: seq<Link>)
    requires AllAnchored(flat, a) && AllAnchored(flat, b)
    ensures var links, owners := LinkTable(flat, a, b), OwnerTable(a, b);
            && LinksSorted(links) && OwnersSorted(owners)
            && (LinksStorable(env, flat, a, b) <==>
                Consistent(env, flat, links, owners)
                && Group(RebuiltRows(env, flat, links, owners, |links|), 0) == a
                && Group(RebuiltRows(env, flat, links, owners, |links|), 1) == b)
  {
    hide LinkFits, LinkStorable, DistinctFolds, Consistent, OwnerTexts, LinksSorted, OwnersSorted, Rebuilt, LinkTable, OwnerTable, Group;
    var links, owners := LinkTable(flat, a, b), OwnerTable(a, b);
    LinkTableRows(flat, a, b);
    OwnerTableRows(a, b);
    WrittenIsConsistent(env, flat, a, b);
    AllReturnIffStorable(env, flat, a, b);
    StorableAt(env, flat, a, b);
    if AllFit(env, flat, links, owners) {
      RebuiltTable(env, flat, a, b);
    }
  }
}
