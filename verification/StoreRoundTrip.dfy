/** Ports, landings, and the round trip of the whole store. */
module StoreRoundTrip {
  import opened ByteStrings
  import opened KeyOrder
  import opened RowTables
  import opened MergeJoin
  import opened RowStore
  import opened RowWriter
  import opened LandingOrder
  import opened RowRoundTrip

  // ---- ports ----

  function MemberList(port: Port, kind: int): seq<Bytes> {
    if kind == 0 then port.positivePins
    else if kind == 1 then port.negativePins
    else if kind == 2 then port.positiveAnchors
    else if kind == 3 then port.negativeAnchors
    else []
  }

  lemma AppendGroup<G, V>(rows: seq<Row<G, V>>, g: G, values: seq<V>, h: G)
    ensures Group(rows + Numbered(g, values), h) == if g == h then Group(rows, h) + values else Group(rows, h)
    ensures Contiguous(rows) && Group(rows, g) == [] ==> Contiguous(rows + Numbered(g, values))
  {
    GroupOfConcat(rows, Numbered(g, values), h);
    GroupOfNumbered(g, values, h);
    if Contiguous(rows) && Group(rows, g) == [] {
      ContiguousAppend(rows, g, values);
    }
  }

  /** The four lists of a fresh port are appended under its ordinal, and nothing else changes. */
  lemma WithMembersGroup(rows: seq<MemberRow>, port: Port, n: int, g: (int, int))
    requires forall kind :: Group(rows, (n, kind)) == []
    ensures Group(WithMembers(rows, port, n), g) == if g.0 == n then MemberList(port, g.1) else Group(rows, g)
  {
    hide Group, Contiguous;
    var a := rows + Numbered((n, 0), port.positivePins);
    var b := a + Numbered((n, 1), port.negativePins);
    var c := b + Numbered((n, 2), port.positiveAnchors);
    AppendGroup(rows, (n, 0), port.positivePins, g);
    AppendGroup(a, (n, 1), port.negativePins, g);
    AppendGroup(b, (n, 2), port.positiveAnchors, g);
    AppendGroup(c, (n, 3), port.negativeAnchors, g);
    if g.0 == n {
      var kind := g.1;
      assert g == (n, kind) && Group(rows, (n, kind)) == [];
    }
  }

  lemma WithMembersCounts(rows: seq<MemberRow>, port: Port, n: int)
    requires Contiguous(rows) && forall kind :: Group(rows, (n, kind)) == []
    ensures Contiguous(WithMembers(rows, port, n))
  {
    hide Contiguous, Group;
    var a := rows + Numbered((n, 0), port.positivePins);
    var b := a + Numbered((n, 1), port.negativePins);
    var c := b + Numbered((n, 2), port.positiveAnchors);
    AppendGroup(rows, (n, 0), port.positivePins, (n, 1));
    AppendGroup(rows, (n, 0), port.positivePins, (n, 2));
    AppendGroup(rows, (n, 0), port.positivePins, (n, 3));
    AppendGroup(a, (n, 1), port.negativePins, (n, 2));
    AppendGroup(a, (n, 1), port.negativePins, (n, 3));
    AppendGroup(b, (n, 2), port.positiveAnchors, (n, 3));
    AppendGroup(c, (n, 3), port.negativeAnchors, (n, 3));
  }

  /** Each port's four lists are found again under its ordinal. */
  lemma {:induction false} MembersOf(ports: seq<Port>, g: (int, int))
    ensures Group(MemberRows(ports), g) == if 0 <= g.0 < |ports| then MemberList(ports[g.0], g.1) else []
    decreases |ports|
  {
    hide Group, WithMembers;
    if ports == [] {
      NoRows(g);
    } else {
      var n := |ports| - 1;
      MembersOf(ports[..n], g);
      forall kind ensures Group(MemberRows(ports[..n]), (n, kind)) == [] {
        MembersOf(ports[..n], (n, kind));
      }
      WithMembersGroup(MemberRows(ports[..n]), ports[n], n, g);
    }
  }

  lemma NoRows(g: (int, int))
    ensures Group<(int, int), Bytes>([], g) == []
  {
  }

  lemma {:induction false} MembersCount(ports: seq<Port>)
    ensures Contiguous(MemberRows(ports))
    decreases |ports|
  {
    if ports != [] {
      var n := |ports| - 1;
      MembersCount(ports[..n]);
      forall kind ensures Group(MemberRows(ports[..n]), (n, kind)) == [] {
        MembersOf(ports[..n], (n, kind));
      }
      WithMembersCounts(MemberRows(ports[..n]), ports[n], n);
    }
  }

  predicate ListsValid(port: Port) {
    AllValid(port.positivePins) && AllValid(port.negativePins) && AllValid(port.positiveAnchors) && AllValid(port.negativeAnchors)
  }

  lemma MembersValid(ports: seq<Port>)
    ensures Collectable(MemberRows(ports), MemberGroup(|ports|), ValidText) <==> forall p :: 0 <= p < |ports| ==> ListsValid(ports[p])
  {
    hide MemberRows, Group, ValidText, Contiguous;
    var rows := MemberRows(ports);
    MembersCount(ports);
    if Collectable(rows, MemberGroup(|ports|), ValidText) {
      forall p | 0 <= p < |ports| ensures ListsValid(ports[p]) {
        PortListsValid(ports, p);
      }
    }
    if forall p :: 0 <= p < |ports| ==> ListsValid(ports[p]) {
      forall i | 0 <= i < |rows| ensures MemberGroup(|ports|)(rows[i].group) && ValidText(rows[i].value) {
        MemberValid(ports, i);
      }
    }
  }

  lemma PortListsValid(ports: seq<Port>, p: nat)
    requires p < |ports| && forall i :: 0 <= i < |MemberRows(ports)| ==> ValidText(MemberRows(ports)[i].value)
    ensures ListsValid(ports[p])
  {
    hide MemberRows, Group, AllValid;
    var rows := MemberRows(ports);
    ListValid(rows, (p, 0));
    ListValid(rows, (p, 1));
    ListValid(rows, (p, 2));
    ListValid(rows, (p, 3));
    MembersOf(ports, (p, 0));
    MembersOf(ports, (p, 1));
    MembersOf(ports, (p, 2));
    MembersOf(ports, (p, 3));
  }

  lemma MemberValid(ports: seq<Port>, i: nat)
    requires i < |MemberRows(ports)| && forall p :: 0 <= p < |ports| ==> ListsValid(ports[p])
    ensures MemberGroup(|ports|)(MemberRows(ports)[i].group) && ValidText(MemberRows(ports)[i].value)
  {
    hide MemberRows, Group, ValidText;
    var row := MemberRows(ports)[i];
    MembersOf(ports, row.group);
    GroupIn(MemberRows(ports), row.group, row.value);
    assert row.value in Group(MemberRows(ports), row.group);
    assert ListsValid(ports[row.group.0]);
  }

  lemma ListValid(rows: seq<MemberRow>, g: (int, int))
    requires forall i :: 0 <= i < |rows| ==> ValidText(rows[i].value)
    ensures AllValid(Group(rows, g))
  {
    forall i | 0 <= i < |Group(rows, g)| ensures ValidText(Group(rows, g)[i]) {
      GroupIn(rows, g, Group(rows, g)[i]);
    }
  }

  function EvidenceIn(port: Port): Evidence {
    Evidence(port.positivePins, port.negativePins, port.positiveAnchors, port.negativeAnchors)
  }

  lemma PortRoundTrip(env: Env, flat: seq<Bytes>, port: Port)
    requires PortAnchored(flat, port)
    ensures PortFits(env, flat, PortCellsOf(flat, port), EvidenceIn(port)) && ListsValid(port) <==> PortStorable(env, flat, port)
    ensures PortOf(flat, PortCellsOf(flat, port), EvidenceIn(port)) == port
  {
    hide Folds;
  }

  lemma EvidenceOfPort(ports: seq<Port>, i: nat)
    requires i < |ports|
    ensures EvidenceOf(MemberRows(ports), i) == EvidenceIn(ports[i])
  {
    hide MemberRows, Group;
    MembersOf(ports, (i, 0));
    MembersOf(ports, (i, 1));
    MembersOf(ports, (i, 2));
    MembersOf(ports, (i, 3));
  }

  /** The ports come back exactly if they are storable. */
  lemma PortsRoundTrip(env: Env, flat: seq<Bytes>, ports: seq<Port>)
    requires forall i :: 0 <= i < |ports| ==> PortAnchored(flat, ports[i])
    ensures PortsStorable(env, flat, ports) <==> PortsFit(env, flat, MemberRows(ports), PortRows(flat, ports))
    ensures PortsFit(env, flat, MemberRows(ports), PortRows(flat, ports)) ==>
              PortsRead(env, flat, MemberRows(ports), PortRows(flat, ports), |ports|) == ports
  {
    hide MemberRows, DistinctFolds, PortFits, PortStorable, ListsValid, Collectable;
    var members, rows := MemberRows(ports), PortRows(flat, ports);
    MembersValid(ports);
    forall i | 0 <= i < |ports|
      ensures PortRowFits(env, flat, members, rows, i) && ListsValid(ports[i]) <==> PortStorable(env, flat, ports[i])
      ensures PortRowFits(env, flat, members, rows, i) ==> PortOf(flat, rows[i].value, EvidenceOf(members, i)) == ports[i]
    {
      EvidenceOfPort(ports, i);
      PortRoundTrip(env, flat, ports[i]);
    }
    if PortRowsFit(env, flat, members, rows, |ports|) {
      assert PortsRead(env, flat, members, rows, |ports|) == ports by {
        assert forall i :: 0 <= i < |ports| ==> PortRowFits(env, flat, members, rows, i);
      }
    }
  }

  // ---- landings ----

  lemma LandingsRoundTrip(env: Env, nodeKeys: set<Bytes>, linkKeys: set<Bytes>, v: seq<Landing>, e: seq<Landing>)
    requires DistinctLandings(v) && DistinctLandings(e)
    ensures var rows := Numbered(0, SortLandings(v)) + Numbered(1, SortLandings(e));
            && BindingsOf(Group(rows, 0)) == BindingsOf(v) && BindingsOf(Group(rows, 1)) == BindingsOf(e)
            && (LandingsFit(env, nodeKeys, linkKeys, rows) <==> LandingsStorable(env, nodeKeys, v) && LandingsStorable(env, linkKeys, e))
  {
    TwoGroups(SortLandings(v), SortLandings(e), 0);
    TwoGroups(SortLandings(v), SortLandings(e), 1);
    SortedBindings(v);
    SortedBindings(e);
    SortedStorable(env, nodeKeys, v);
    SortedStorable(env, linkKeys, e);
    RowsFit(env, nodeKeys, linkKeys, SortLandings(v), SortLandings(e));
  }

  lemma SortedStorable(env: Env, keys: set<Bytes>, items: seq<Landing>)
    ensures LandingsStorable(env, keys, SortLandings(items)) <==> LandingsStorable(env, keys, items)
  {
    Permuted(items);
    var sorted := SortLandings(items);
    if LandingsStorable(env, keys, sorted) {
      forall i | 0 <= i < |items| ensures LandingStorable(env, keys, items[i]) {
        assert items[i] in sorted;
      }
    }
    if LandingsStorable(env, keys, items) {
      forall i | 0 <= i < |sorted| ensures LandingStorable(env, keys, sorted[i]) {
        assert sorted[i] in items;
      }
    }
  }

  lemma RowsFit(env: Env, nodeKeys: set<Bytes>, linkKeys: set<Bytes>, v: seq<Landing>, e: seq<Landing>)
    requires DistinctLandings(v) && DistinctLandings(e) && Contiguous(Numbered(0, v) + Numbered(1, e))
    ensures LandingsFit(env, nodeKeys, linkKeys, Numbered(0, v) + Numbered(1, e)) <==>
            LandingsStorable(env, nodeKeys, v) && LandingsStorable(env, linkKeys, e)
  {
    hide Contiguous, ValidText;
    var rows := Numbered(0, v) + Numbered(1, e);
    assert forall i :: 0 <= i < |v| ==> rows[i].value == v[i] && rows[i].group == 0;
    assert forall i :: 0 <= i < |e| ==> rows[|v| + i].value == e[i] && rows[|v| + i].group == 1;
    forall i | 0 <= i < |rows| ensures Unbound(rows, i) {
    }
    if LandingsFit(env, nodeKeys, linkKeys, rows) {
      forall i | 0 <= i < |v| ensures LandingStorable(env, nodeKeys, v[i]) {
        assert LandingFits(env, nodeKeys, linkKeys, rows[i]);
      }
      forall i | 0 <= i < |e| ensures LandingStorable(env, linkKeys, e[i]) {
        assert LandingFits(env, nodeKeys, linkKeys, rows[|v| + i]);
      }
    }
  }

  lemma OmittedRoundTrip(omitted: seq<Bytes>)
    ensures OmittedFit(Numbered((), omitted)) <==> AllValid(omitted)
    ensures Values(Numbered((), omitted)) == omitted
  {
    var rows := Numbered((), omitted);
    assert forall i :: 0 <= i < |omitted| ==> rows[i].value == omitted[i];
  }

  // ---- the whole store ----

  /** The tables written, loaded again, are the topology that was written. */
  predicate Returns(env: Env, raw: seq<Bytes>, t: Built) {
    var written := Write(env, raw, t);
    written.Some? && Loadable(env, raw, written.value) && Loaded(env, raw, written.value) == AsTopology(t)
  }

  /**
   The round trip. Rows come back as the topology they were written from exactly if it is storable.
   The landing dictionaries have distinct keys, being dictionaries.
   */
  lemma RoundTrip(env: Env, raw: seq<Bytes>, t: Built)
    requires DistinctLandings(t.vertices) && DistinctLandings(t.edges)
    ensures Write(env, raw, t).Some? ==> Ordered(Write(env, raw, t).value)
    ensures Returns(env, raw, t) <==> Storable(env, raw, t)
  {
    hide AllValid, DistinctFolds, LinksStorable, PortsStorable, LandingsStorable, Consistent, PortsFit, OmittedFit, LandingsFit, NodesFit,
         Group, BindingsOf, SortLandings, MemberRows, LinksSorted, OwnersSorted, Values, Folds, NodeRows, OwnerRows;
    if Writable(env, raw, t) {
      var flat := Flat(env, raw, t);
      NodesRoundTrip(env, raw, t);
      LinksRoundTrip(env, flat, t.links, t.finite);
      LinkTableRows(flat, t.links, t.finite);
      PortsRoundTrip(env, flat, t.ports);
      OmittedRoundTrip(t.omitted);
      LandingsRoundTrip(env, Folds(env, flat), Folds(env, Ids(t.links) + Ids(t.finite)), t.vertices, t.edges);
    }
  }

  /** Flat node indices resolve to the endpoints they were written for. */
  lemma IndicesResolve(env: Env, raw: seq<Bytes>, t: Built, i: nat)
    requires Writable(env, raw, t) && i < |t.links| + |t.finite|
    ensures var tables := Write(env, raw, t).value;
            var cells := tables.links[i].value;
            var link := LinkAt(t.links, t.finite, i);
            && 0 <= cells.first < |tables.nodes| && 0 <= cells.second < |tables.nodes|
            && tables.nodes[cells.first].value == link.first && tables.nodes[cells.second].value == link.second
  {
    var flat := Flat(env, raw, t);
    NodesRoundTrip(env, raw, t);
    LinkTableRows(flat, t.links, t.finite);
    assert Values(NodeRows(env, raw, t)) == flat;
  }
}
