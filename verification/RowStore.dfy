/** The row store of a compiled topology, and loading it. */
module RowStore {
  import opened ByteStrings
  import opened KeyOrder
  import opened RowTables
  import opened MergeJoin

  datatype Port = Port(rail: Bytes, selected: Bytes, reference: Bytes, positive: Bytes, negative: Bytes,
                       positivePins: seq<Bytes>, negativePins: seq<Bytes>, positiveAnchors: seq<Bytes>, negativeAnchors: seq<Bytes>)

  datatype PortCells = PortCells(rail: Bytes, selected: Bytes, reference: Bytes, positive: int, negative: int)

  datatype Landing = Landing(key: (Bytes, Bytes), value: Bytes)

  type Bindings = map<(Bytes, Bytes), Bytes>

  datatype Topology = Topology(quotient: seq<Bytes>, external: seq<Bytes>, links: seq<Link>, finite: seq<Link>,
                               ports: seq<Port>, omitted: seq<Bytes>, vertices: Bindings, edges: Bindings)

  type NodeRow = Row<int, Bytes>
  type PortRow = Row<(), PortCells>
  type MemberRow = Row<(int, int), Bytes>
  type OmittedRow = Row<(), Bytes>
  type LandingRow = Row<int, Landing>

  datatype Tables = Tables(nodes: seq<NodeRow>, links: seq<LinkRow>, owners: seq<OwnerRow>, ports: seq<PortRow>,
                           members: seq<MemberRow>, omitted: seq<OmittedRow>, landings: seq<LandingRow>)

  // ---- nodes ----

  function Paired(texts: seq<Bytes>): (r: seq<Pair<bool>>)
    ensures |r| == |texts| && forall i :: 0 <= i < |r| ==> r[i] == Pair(texts[i], true)
  {
    seq(|texts|, i requires 0 <= i < |texts| => Pair(texts[i], true))
  }

  /** The project's artwork nodes, stripped and in ascending order. */
  function Artwork(env: Env, raw: seq<Bytes>): (r: seq<Bytes>)
    ensures |r| == |raw|
  {
    var sorted := Sort(Paired(Stripped(env, raw)));
    seq(|sorted|, i requires 0 <= i < |sorted| => sorted[i].key)
  }

  /** The order in which the artwork ids are handed over is immaterial. */
  lemma ArtworkIgnoresOrder(env: Env, a: seq<Bytes>, b: seq<Bytes>)
    requires forall i, j :: 0 <= i < j < |a| ==> env.strip(a[i]) != env.strip(a[j])
    requires forall i, j :: 0 <= i < j < |b| ==> env.strip(b[i]) != env.strip(b[j])
    requires forall x :: x in a <==> x in b
    ensures Artwork(env, a) == Artwork(env, b)
  {
    var p, q := Paired(Stripped(env, a)), Paired(Stripped(env, b));
    forall x ensures x in p <==> x in q {
      if x in p {
        var i :| 0 <= i < |p| && p[i] == x;
        assert a[i] in b;
        var j :| 0 <= j < |b| && b[j] == a[i];
        assert q[j] == x;
      }
      if x in q {
        var i :| 0 <= i < |q| && q[i] == x;
        assert b[i] in a;
        var j :| 0 <= j < |a| && a[j] == b[i];
        assert p[j] == x;
      }
    }
    SortIsUnique(p, q);
  }

  predicate NodeKind(kind: int) {
    kind == 0 || kind == 1 || kind == 2
  }

  predicate NodesFit(env: Env, raw: seq<Bytes>, nodes: seq<NodeRow>) {
    && Collectable(nodes, NodeKind, ValidText)
    && DistinctFolds(env, Values(nodes))
    && Group(nodes, 2) == Artwork(env, raw)
  }

  /** The lists by kind, the flat list that indices refer to, and the folded names. */
  datatype NodeLists = NodeLists(byKind: map<int, seq<Bytes>>, flat: seq<Bytes>, keys: set<Bytes>)

  method LoadNodes(env: Env, raw: seq<Bytes>, nodes: seq<NodeRow>) returns (loaded: Option<NodeLists>)
    ensures loaded.Some? <==> NodesFit(env, raw, nodes)
    ensures loaded.Some? ==>
              && (forall kind :: ListOf(loaded.value.byKind, kind) == Group(nodes, kind))
              && loaded.value.flat == Values(nodes) && loaded.value.keys == Folds(env, Values(nodes))
  {
    var byKind := Collect(nodes, NodeKind, ValidText);
    if byKind.None? {
      return None;
    }
    var keys := FoldNames(env, Values(nodes));
    if keys.None? {
      return None;
    }
    forall kind ensures ListOf(byKind.value, kind) == Group(nodes, kind) {
      ListsAreGroups(byKind.value, nodes, kind);
    }
    if ListOf(byKind.value, 2) != Artwork(env, raw) {
      return None;
    }
    return Some(NodeLists(byKind.value, Values(nodes), keys.value));
  }

  // ---- tables with one ordinal ----

  predicate InOrder<V>(rows: seq<Row<(), V>>) {
    forall i :: 0 <= i < |rows| ==> rows[i].ordinal == i
  }

  predicate OmittedFit(rows: seq<OmittedRow>) {
    InOrder(rows) && forall i :: 0 <= i < |rows| ==> ValidText(rows[i].value)
  }

  method LoadOmitted(rows: seq<OmittedRow>) returns (loaded: Option<seq<Bytes>>)
    ensures loaded == if OmittedFit(rows) then Some(Values(rows)) else None
  {
    var list: seq<Bytes> := [];
    for i := 0 to |rows|
      invariant OmittedFit(rows[..i]) && list == Values(rows[..i])
    {
      if rows[i].ordinal != |list| || !ValidText(rows[i].value) {
        assert !OmittedFit(rows);
        return None;
      }
      list := list + [rows[i].value];
    }
    assert rows[..|rows|] == rows;
    return Some(list);
  }

  // ---- ports ----

  function MemberGroup(ports: nat): ((int, int)) -> bool {
    (group: (int, int)) => 0 <= group.0 < ports && 0 <= group.1 <= 3
  }

  /** The four member lists of one port. */
  datatype Evidence = Evidence(positivePins: seq<Bytes>, negativePins: seq<Bytes>, positiveAnchors: seq<Bytes>, negativeAnchors: seq<Bytes>)

  function EvidenceOf(members: seq<MemberRow>, ordinal: int): Evidence {
    Evidence(Group(members, (ordinal, 0)), Group(members, (ordinal, 1)), Group(members, (ordinal, 2)), Group(members, (ordinal, 3)))
  }

  predicate AllKnown(env: Env, names: seq<Bytes>, keys: set<Bytes>) {
    forall i :: 0 <= i < |names| ==> env.fold(names[i]) in keys
  }

  predicate PortFits(env: Env, flat: seq<Bytes>, cells: PortCells, evidence: Evidence) {
    && 0 <= cells.positive < |flat| && 0 <= cells.negative < |flat|
    && ValidText(cells.rail) && ValidText(cells.selected) && ValidText(cells.reference)
    && evidence.positivePins != [] && evidence.negativePins != []
    && evidence.positiveAnchors != [] && evidence.negativeAnchors != []
    && AllKnown(env, evidence.positiveAnchors, Folds(env, flat)) && AllKnown(env, evidence.negativeAnchors, Folds(env, flat))
  }

  function PortOf(flat: seq<Bytes>, cells: PortCells, e: Evidence): Port
    requires 0 <= cells.positive < |flat| && 0 <= cells.negative < |flat|
  {
    Port(cells.rail, cells.selected, cells.reference, flat[cells.positive], flat[cells.negative],
         e.positivePins, e.negativePins, e.positiveAnchors, e.negativeAnchors)
  }

  predicate PortRowFits(env: Env, flat: seq<Bytes>, members: seq<MemberRow>, ports: seq<PortRow>, i: nat)
    requires i < |ports|
  {
    ports[i].ordinal == i && PortFits(env, flat, ports[i].value, EvidenceOf(members, i))
  }

  /** The first n port rows are acceptable. */
  predicate PortRowsFit(env: Env, flat: seq<Bytes>, members: seq<MemberRow>, ports: seq<PortRow>, n: nat)
    requires n <= |ports|
  {
    forall i :: 0 <= i < n ==> PortRowFits(env, flat, members, ports, i)
  }

  function PortsRead(env: Env, flat: seq<Bytes>, members: seq<MemberRow>, ports: seq<PortRow>, n: nat): (r: seq<Port>)
    requires n <= |ports| && PortRowsFit(env, flat, members, ports, n)
    ensures |r| == n
  {
    seq(n, i requires 0 <= i < n =>
      assert PortRowFits(env, flat, members, ports, i);
      PortOf(flat, ports[i].value, EvidenceOf(members, i)))
  }

  function Rails(ports: seq<Port>): (r: seq<Bytes>)
    ensures |r| == |ports| && forall i :: 0 <= i < |r| ==> r[i] == ports[i].rail
  {
    seq(|ports|, i requires 0 <= i < |ports| => ports[i].rail)
  }

  predicate PortsFit(env: Env, flat: seq<Bytes>, members: seq<MemberRow>, ports: seq<PortRow>) {
    && Collectable(members, MemberGroup(|ports|), ValidText)
    && PortRowsFit(env, flat, members, ports, |ports|)
    && DistinctFolds(env, Rails(PortsRead(env, flat, members, ports, |ports|)))
  }

  method Known(env: Env, names: seq<Bytes>, keys: set<Bytes>) returns (all: bool)
    ensures all == AllKnown(env, names, keys)
  {
    for i := 0 to |names|
      invariant AllKnown(env, names[..i], keys)
    {
      if env.fold(names[i]) !in keys {
        return false;
      }
    }
    assert names[..|names|] == names;
    return true;
  }

  /** One port row and its four member lists. */
  method LoadPort(env: Env, nodes: NodeLists, cells: PortCells, evidence: Evidence) returns (port: Option<Port>)
    requires nodes.keys == Folds(env, nodes.flat)
    ensures port == if PortFits(env, nodes.flat, cells, evidence) then Some(PortOf(nodes.flat, cells, evidence)) else None
  {
    if !(0 <= cells.positive < |nodes.flat|) || !(0 <= cells.negative < |nodes.flat|) {
      return None;
    }
    if !ValidText(cells.rail) || !ValidText(cells.selected) || !ValidText(cells.reference) {
      return None;
    }
    if evidence.positivePins == [] || evidence.negativePins == [] || evidence.positiveAnchors == [] || evidence.negativeAnchors == [] {
      return None;
    }
    var positive := Known(env, evidence.positiveAnchors, nodes.keys);
    var negative := Known(env, evidence.negativeAnchors, nodes.keys);
    if !positive || !negative {
      return None;
    }
    return Some(PortOf(nodes.flat, cells, evidence));
  }

  method LoadPorts(env: Env, nodes: NodeLists, members: seq<MemberRow>, ports: seq<PortRow>) returns (loaded: Option<seq<Port>>)
    requires nodes.keys == Folds(env, nodes.flat)
    ensures loaded.Some? <==> PortsFit(env, nodes.flat, members, ports)
    ensures loaded.Some? ==> loaded.value == PortsRead(env, nodes.flat, members, ports, |ports|)
  {
    var lists := Collect(members, MemberGroup(|ports|), ValidText);
    if lists.None? {
      return None;
    }
    forall group ensures ListOf(lists.value, group) == Group(members, group) {
      ListsAreGroups(lists.value, members, group);
    }
    var read: seq<Port> := [];
    for i := 0 to |ports|
      invariant PortRowsFit(env, nodes.flat, members, ports, i)
      invariant read == PortsRead(env, nodes.flat, members, ports, i)
    {
      var m := lists.value;
      var evidence := Evidence(ListOf(m, (i, 0)), ListOf(m, (i, 1)), ListOf(m, (i, 2)), ListOf(m, (i, 3)));
      var port := LoadPort(env, nodes, ports[i].value, evidence);
      if ports[i].ordinal != |read| || port.None? {
        assert !PortRowFits(env, nodes.flat, members, ports, i);
        return None;
      }
      read := read + [port.value];
    }
    var keys := FoldNames(env, Rails(read));
    return if keys.None? then None else Some(read);
  }

  // ---- landing bindings ----

  predicate LandingFits(env: Env, nodeKeys: set<Bytes>, linkKeys: set<Bytes>, row: LandingRow) {
    && (row.group == 0 || row.group == 1)
    && ValidText(row.value.key.0) && ValidText(row.value.key.1) && ValidText(row.value.value)
    && env.fold(row.value.value) in (if row.group == 0 then nodeKeys else linkKeys)
  }

  predicate Unbound(rows: seq<LandingRow>, i: nat)
    requires i < |rows|
  {
    forall j :: 0 <= j < i ==> rows[j].group == rows[i].group ==> rows[j].value.key != rows[i].value.key
  }

  predicate LandingsFit(env: Env, nodeKeys: set<Bytes>, linkKeys: set<Bytes>, rows: seq<LandingRow>) {
    && Contiguous(rows)
    && forall i :: 0 <= i < |rows| ==> LandingFits(env, nodeKeys, linkKeys, rows[i]) && Unbound(rows, i)
  }

  /** The dictionary that a list of bindings fills, a later key overwriting an earlier one. */
  function BindingsOf(landings: seq<Landing>): (m: Bindings)
    ensures forall k :: k in m ==> Landing(k, m[k]) in landings
    ensures forall i :: 0 <= i < |landings| ==> landings[i].key in m
  {
    if landings == [] then map[]
    else
      var last := landings[|landings| - 1];
      BindingsOf(landings[..|landings| - 1])[last.key := last.value]
  }

  /** The two dictionaries after reading the rows. */
  predicate Bound(rows: seq<LandingRow>, vertices: Bindings, edges: Bindings) {
    && vertices == BindingsOf(Group(rows, 0)) && edges == BindingsOf(Group(rows, 1))
    && |vertices| == |Group(rows, 0)| && |edges| == |Group(rows, 1)|
  }

  lemma {:induction false} BoundIn(landings: seq<Landing>, key: (Bytes, Bytes))
    ensures key in BindingsOf(landings) <==> exists i :: 0 <= i < |landings| && landings[i].key == key
    decreases |landings|
  {
    if landings != [] {
      var n := |landings| - 1;
      BoundIn(landings[..n], key);
      assert forall i :: 0 <= i < n ==> landings[..n][i] == landings[i];
    }
  }

  lemma GroupStep(rows: seq<LandingRow>, i: nat, kind: int)
    requires i < |rows|
    ensures Group(rows[..i + 1], kind) == if rows[i].group == kind then Group(rows[..i], kind) + [rows[i].value] else Group(rows[..i], kind)
  {
    assert rows[..i + 1][..i] == rows[..i];
  }

  /** A key is bound already exactly when an earlier row of the kind has it. */
  lemma BoundBefore(rows: seq<LandingRow>, i: nat)
    requires i < |rows|
    ensures rows[i].value.key in BindingsOf(Group(rows[..i], rows[i].group)) <==> !Unbound(rows, i)
  {
    var kind, key := rows[i].group, rows[i].value.key;
    var list := Group(rows[..i], kind);
    BoundIn(list, key);
    forall x ensures x in list <==> exists j :: 0 <= j < i && rows[j].group == kind && rows[j].value == x {
      GroupIn(rows[..i], kind, x);
      assert forall j :: 0 <= j < i ==> rows[..i][j] == rows[j];
    }
    if !Unbound(rows, i) {
      var j :| 0 <= j < i && rows[j].group == kind && rows[j].value.key == key;
      assert rows[j].value in list;
    }
    if k :| 0 <= k < |list| && list[k].key == key {
      assert list[k] in list;
    }
  }

  lemma BindStep(landings: seq<Landing>, x: Landing)
    ensures BindingsOf(landings + [x]) == BindingsOf(landings)[x.key := x.value]
  {
    assert (landings + [x])[..|landings|] == landings;
  }

  lemma LandingsStep(env: Env, nodeKeys: set<Bytes>, linkKeys: set<Bytes>, rows: seq<LandingRow>, i: nat)
    requires i < |rows| && LandingsFit(env, nodeKeys, linkKeys, rows[..i])
    ensures LandingsFit(env, nodeKeys, linkKeys, rows) ==>
              Counts(rows, i) && LandingFits(env, nodeKeys, linkKeys, rows[i]) && Unbound(rows, i)
    ensures Counts(rows, i) && LandingFits(env, nodeKeys, linkKeys, rows[i]) && Unbound(rows, i) ==>
              LandingsFit(env, nodeKeys, linkKeys, rows[..i + 1])
  {
    if Counts(rows, i) && LandingFits(env, nodeKeys, linkKeys, rows[i]) && Unbound(rows, i) {
      ContiguousExtend(rows, i);
      var more := rows[..i + 1];
      forall j | 0 <= j < |more| ensures LandingFits(env, nodeKeys, linkKeys, more[j]) && Unbound(more, j) {
        if j < i {
          assert more[j] == rows[..i][j] && Unbound(rows[..i], j);
        }
      }
    }
  }

  method LoadLandings(env: Env, nodeKeys: set<Bytes>, linkKeys: set<Bytes>, rows: seq<LandingRow>)
    returns (loaded: Option<(Bindings, Bindings)>)
    ensures loaded == if LandingsFit(env, nodeKeys, linkKeys, rows)
                      then Some((BindingsOf(Group(rows, 0)), BindingsOf(Group(rows, 1)))) else None
  {
    hide LandingsFit, Unbound, BindingsOf, Group, Contiguous;
    var vertices: Bindings, edges: Bindings := map[], map[];
    NoLandings(env, nodeKeys, linkKeys, rows);
    for i := 0 to |rows|
      invariant LandingsFit(env, nodeKeys, linkKeys, rows[..i]) && Bound(rows[..i], vertices, edges)
    {
      var row := rows[i];
      LandingsStep(env, nodeKeys, linkKeys, rows, i);
      if row.group != 0 && row.group != 1 {
        return None;
      }
      var bound := if row.group == 0 then vertices else edges;
      BoundBefore(rows, i);
      if row.ordinal != |bound| || row.value.key in bound {
        return None;
      }
      if !ValidText(row.value.key.0) || !ValidText(row.value.key.1) || !ValidText(row.value.value) {
        return None;
      }
      if env.fold(row.value.value) !in (if row.group == 0 then nodeKeys else linkKeys) {
        return None;
      }
      BoundStep(rows, i, vertices, edges);
      if row.group == 0 {
        vertices := vertices[row.value.key := row.value.value];
      } else {
        edges := edges[row.value.key := row.value.value];
      }
    }
    assert rows[..|rows|] == rows;
    return Some((vertices, edges));
  }

  lemma NoLandings(env: Env, nodeKeys: set<Bytes>, linkKeys: set<Bytes>, rows: seq<LandingRow>)
    ensures LandingsFit(env, nodeKeys, linkKeys, rows[..0]) && Bound(rows[..0], map[], map[])
  {
  }

  lemma BoundStep(rows: seq<LandingRow>, i: nat, vertices: Bindings, edges: Bindings)
    requires i < |rows| && Bound(rows[..i], vertices, edges)
    requires rows[i].group == 0 ==> rows[i].value.key !in vertices
    requires rows[i].group == 1 ==> rows[i].value.key !in edges
    ensures rows[i].group == 0 ==> Bound(rows[..i + 1], vertices[rows[i].value.key := rows[i].value.value], edges)
    ensures rows[i].group == 1 ==> Bound(rows[..i + 1], vertices, edges[rows[i].value.key := rows[i].value.value])
  {
    hide BindingsOf, Group;
    GroupStep(rows, i, 0);
    GroupStep(rows, i, 1);
    BindStep(Group(rows[..i], 0), rows[i].value);
    BindStep(Group(rows[..i], 1), rows[i].value);
  }

  // ---- the whole store ----

  /** The order in which the link and owner rows are queried; the other tables need none. */
  predicate Ordered(tables: Tables) {
    LinksSorted(tables.links) && OwnersSorted(tables.owners)
  }

  predicate Loadable(env: Env, raw: seq<Bytes>, tables: Tables) {
    && NodesFit(env, raw, tables.nodes)
    && Consistent(env, Values(tables.nodes), tables.links, tables.owners)
    && PortsFit(env, Values(tables.nodes), tables.members, tables.ports)
    && OmittedFit(tables.omitted)
    && LandingsFit(env, Folds(env, Values(tables.nodes)), Folds(env, LinkIds(tables.links)), tables.landings)
  }

  /** The topology that acceptable tables stand for. */
  function Loaded(env: Env, raw: seq<Bytes>, tables: Tables): Topology
    requires Loadable(env, raw, tables)
  {
    var flat := Values(tables.nodes);
    var rows := RebuiltRows(env, flat, tables.links, tables.owners, |tables.links|);
    Topology(Group(tables.nodes, 0), Group(tables.nodes, 1), Group(rows, 0), Group(rows, 1),
             PortsRead(env, flat, tables.members, tables.ports, |tables.ports|), Values(tables.omitted),
             BindingsOf(Group(tables.landings, 0)), BindingsOf(Group(tables.landings, 1)))
  }

  /** Loading accepts exactly the acceptable tables and returns what they stand for. */
  method Load(env: Env, raw: seq<Bytes>, tables: Tables) returns (loaded: Option<Topology>)
    requires Ordered(tables)
    ensures loaded.Some? <==> Loadable(env, raw, tables)
    ensures loaded.Some? ==> loaded.value == Loaded(env, raw, tables)
  {
    var nodes := LoadNodes(env, raw, tables.nodes);
    if nodes.None? {
      return None;
    }
    var flat := nodes.value.flat;
    var links := JoinLinks(env, flat, tables.links, tables.owners);
    if links.None? {
      return None;
    }
    var ports := LoadPorts(env, nodes.value, tables.members, tables.ports);
    if ports.None? {
      return None;
    }
    var omitted := LoadOmitted(tables.omitted);
    if omitted.None? {
      return None;
    }
    var landings := LoadLandings(env, nodes.value.keys, Folds(env, LinkIds(tables.links)), tables.landings);
    if landings.None? {
      return None;
    }
    return Some(Topology(ListOf(nodes.value.byKind, 0), ListOf(nodes.value.byKind, 1), links.value.topology, links.value.finite,
                         ports.value, omitted.value, landings.value.0, landings.value.1));
  }
}
