/** What link and owner tables are accepted, and what links they give, written out. */
module LinkTables {
  import opened ByteStrings
  import opened KeyOrder
  import opened RowTables
  import opened MergeJoin
  import opened LinkConstructor

  /** One link row: its position, columns, endpoints and the owners filed under it. */
  predicate RowFits(env: Env, nodes: seq<Bytes>, links: seq<LinkRow>, owners: seq<OwnerRow>, i: nat)
    requires i < |links|
  {
    var row := links[i];
    var c, own := row.value, Group(owners, (row.group, row.ordinal));
    && (row.group == 0 || row.group == 1) && row.ordinal == |Group(links[..i], row.group)|
    && 0 <= c.first < |nodes| && 0 <= c.second < |nodes| && c.count >= 1 && 1 <= |c.id| <= 16384
    && env.strip(c.id) != [] && env.strip(nodes[c.first]) != [] && env.strip(nodes[c.second]) != []
    && env.strip(nodes[c.first]) != env.strip(nodes[c.second])
    && own != [] && (forall k :: 0 <= k < |own| ==> env.strip(own[k]) != [])
    && (row.group == 0 ==> c.count == 1 && c.resistance == Null && c.inductance == Null)
    && (row.group == 1 ==>
          && c.count <= |own| && |own| % c.count == 0 && c.resistance.Finite? && c.inductance.Finite?
          && c.resistance.x >= 0.0 && c.inductance.x >= 0.0 && c.resistance.x + c.inductance.x > 0.0)
  }

  /** One owner row: its position, its text, and the link it belongs to. */
  predicate OwnerFits(links: seq<LinkRow>, owners: seq<OwnerRow>, q: nat)
    requires q < |owners|
  {
    var row := owners[q];
    && row.ordinal == |Group(owners[..q], row.group)| && 1 <= |row.value| <= 16384
    && (row.group.0 == 1 ==> |row.value| >= 4 && row.value[..4] == Ascii("via:"))
    && exists i :: 0 <= i < |links| && links[i].group == row.group.0 && links[i].ordinal == row.group.1
  }

  /** The tables that are accepted. */
  predicate TablesFit(env: Env, nodes: seq<Bytes>, links: seq<LinkRow>, owners: seq<OwnerRow>) {
    && (forall i :: 0 <= i < |links| ==> RowFits(env, nodes, links, owners, i))
    && (forall q :: 0 <= q < |owners| ==> OwnerFits(links, owners, q))
    && (forall i, j :: 0 <= i < j < |links| ==> env.fold(links[i].value.id) != env.fold(links[j].value.id))
    && forall p, q :: 0 <= p < q < |owners| ==> env.fold(owners[p].value) != env.fold(owners[q].value)
  }

  lemma RowIs(env: Env, nodes: seq<Bytes>, links: seq<LinkRow>, owners: seq<OwnerRow>, i: nat)
    requires i < |links| && forall q :: 0 <= q < |owners| ==> OwnerFits(links, owners, q) || OwnerOk(owners[q])
    ensures RowFits(env, nodes, links, owners, i) <==>
            Counts(links, i) && LinkFits(env, nodes, links[i], Group(owners, LinkKey(links[i])))
  {
    hide Group;
  }

  lemma PrefixIs(s: Bytes)
    ensures VIA_PREFIX <= s <==> |s| >= 4 && s[..4] == Ascii("via:")
  {
    assert VIA_PREFIX == Ascii("via:");
    if VIA_PREFIX <= s {
      assert s[..4] == VIA_PREFIX;
    }
  }

  lemma OwnerIs(links: seq<LinkRow>, owners: seq<OwnerRow>, q: nat)
    requires q < |owners|
    ensures OwnerFits(links, owners, q) <==> Counts(owners, q) && Attached(links, owners[q].group) && OwnerOk(owners[q])
  {
    hide Group, Ascii;
    PrefixIs(owners[q].value);
    var row := owners[q];
    if Attached(links, row.group) {
      var i :| 0 <= i < |links| && LinkKey(links[i]) == row.group;
    }
    if i :| 0 <= i < |links| && links[i].group == row.group.0 && links[i].ordinal == row.group.1 {
      assert LinkKey(links[i]) == row.group;
    }
  }

  /** The merge-join accepts exactly these tables. */
  lemma ConsistentIs(env: Env, nodes: seq<Bytes>, links: seq<LinkRow>, owners: seq<OwnerRow>)
    ensures Consistent(env, nodes, links, owners) <==> TablesFit(env, nodes, links, owners)
  {
    hide Group, LinkFits, RowFits, OwnerFits, OwnerOk, Attached, Counts;
    forall q | 0 <= q < |owners|
      ensures OwnerFits(links, owners, q) <==> Counts(owners, q) && Attached(links, owners[q].group) && OwnerOk(owners[q])
    {
      OwnerIs(links, owners, q);
    }
    if forall q :: 0 <= q < |owners| ==> OwnerFits(links, owners, q) {
      forall i | 0 <= i < |links|
        ensures RowFits(env, nodes, links, owners, i) <==>
                Counts(links, i) && LinkFits(env, nodes, links[i], Group(owners, LinkKey(links[i])))
      {
        RowIs(env, nodes, links, owners, i);
      }
    }
    NamesAre(env, links, owners);
  }

  lemma NamesAre(env: Env, links: seq<LinkRow>, owners: seq<OwnerRow>)
    ensures DistinctFolds(env, LinkIds(links)) <==>
            forall i, j :: 0 <= i < j < |links| ==> env.fold(links[i].value.id) != env.fold(links[j].value.id)
    ensures DistinctFolds(env, OwnerIds(owners)) <==>
            forall p, q :: 0 <= p < q < |owners| ==> env.fold(owners[p].value) != env.fold(owners[q].value)
  {
    var a, b := LinkIds(links), OwnerIds(owners);
    assert forall i :: 0 <= i < |links| ==> a[i] == links[i].value.id;
    assert forall q :: 0 <= q < |owners| ==> b[q] == owners[q].value;
  }

  // ---- the links ----

  /** The link of a row: stripped texts of two different nodes, the row's count and impedance, and its own owners, ascending. */
  ghost predicate LinkOfRow(env: Env, nodes: seq<Bytes>, row: LinkRow, own: seq<Bytes>, link: Link) {
    && 0 <= row.value.first < |nodes| && 0 <= row.value.second < |nodes|
    && link.id == env.strip(row.value.id) && link.first == env.strip(nodes[row.value.first])
    && link.second == env.strip(nodes[row.value.second])
    && link.id != [] && link.first != [] && link.second != [] && link.first != link.second && link.count == row.value.count
    && (row.group == 0 ==> link.impedance == Ideal)
    && (row.group == 1 ==> link.impedance.FiniteRL? && row.value.resistance == Finite(link.impedance.resistance)
                           && row.value.inductance == Finite(link.impedance.inductance))
    && link.owners != [] && (forall y :: y in link.owners <==> exists k :: 0 <= k < |own| && y == env.strip(own[k]))
    && (forall i, j :: 0 <= i < j < |link.owners| ==> ByteLess(link.owners[i], link.owners[j]))
  }

  lemma RebuiltIs(env: Env, nodes: seq<Bytes>, row: LinkRow, own: seq<Bytes>)
    requires LinkFits(env, nodes, row, own)
    ensures LinkOfRow(env, nodes, row, own, Rebuilt(env, nodes, row, own))
  {
    hide ByteLess;
    var link, texts := Rebuilt(env, nodes, row, own), Stripped(env, own);
    SortedSetIs(texts);
    assert texts[0] in link.owners;
    forall y ensures y in link.owners <==> exists k :: 0 <= k < |own| && y == env.strip(own[k]) {
      if y in texts {
        var k :| 0 <= k < |texts| && texts[k] == y;
      }
      if k :| 0 <= k < |own| && y == env.strip(own[k]) {
        assert texts[k] == y;
      }
    }
    forall i, j | 0 <= i < j < |link.owners| ensures ByteLess(link.owners[i], link.owners[j]) {
      BeforeIs(link.owners[i], link.owners[j]);
    }
  }

  /** In a table whose ordinals count up, a row's ordinal is its place in its group. */
  lemma {:induction false} PlaceInGroup<V>(rows: seq<Row<int, V>>, i: nat)
    requires Contiguous(rows) && i < |rows|
    ensures 0 <= rows[i].ordinal < |Group(rows, rows[i].group)| && Group(rows, rows[i].group)[rows[i].ordinal] == rows[i].value
    decreases |rows|
  {
    var n := |rows| - 1;
    assert Counts(rows, n);
    if i < n {
      assert Contiguous(rows[..n]) by {
        forall j | 0 <= j < n ensures Counts(rows[..n], j) {
          assert Counts(rows, j) && rows[..n][..j] == rows[..j];
        }
      }
      PlaceInGroup(rows[..n], i);
    }
  }

  lemma RebuiltAreContiguous(env: Env, nodes: seq<Bytes>, links: seq<LinkRow>, owners: seq<OwnerRow>)
    requires Contiguous(links) && forall k :: 0 <= k < |links| ==> LinkFits(env, nodes, links[k], Group(owners, LinkKey(links[k])))
    ensures Contiguous(RebuiltRows(env, nodes, links, owners, |links|))
  {
    hide LinkFits, Rebuilt, Group;
    var rows := RebuiltRows(env, nodes, links, owners, |links|);
    forall i | 0 <= i < |rows| ensures Counts(rows, i) {
      assert Counts(links, i);
      RebuiltSizes(env, nodes, links, owners, i, links[i].group);
      assert rows[..i] == RebuiltRows(env, nodes, links, owners, i);
    }
  }

  /** Each row's link stands at its ordinal in the list of its kind. */
  lemma CollectedIs(env: Env, nodes: seq<Bytes>, links: seq<LinkRow>, owners: seq<OwnerRow>, lists: LinksByKind, i: nat)
    requires Consistent(env, nodes, links, owners) && Collected(env, nodes, links, owners, |links|, lists) && i < |links|
    ensures var list := if links[i].group == 0 then lists.topology else lists.finite;
            && 0 <= links[i].ordinal < |list|
            && LinkOfRow(env, nodes, links[i], Group(owners, (links[i].group, links[i].ordinal)), list[links[i].ordinal])
  {
    hide Group, LinkOfRow, Rebuilt;
    var rows := RebuiltRows(env, nodes, links, owners, |links|);
    RebuiltAreContiguous(env, nodes, links, owners);
    PlaceInGroup(rows, i);
    assert links[i].group == 0 || links[i].group == 1;
    RebuiltIs(env, nodes, links[i], Group(owners, LinkKey(links[i])));
  }
}
