/** Writing a compiled topology as rows, and the proof that loading undoes it. */
module RowWriter {
  import opened ByteStrings
  import opened KeyOrder
  import opened RowTables
  import opened MergeJoin
  import opened RowStore

  /** Landing dictionaries as the builder sees them: items in insertion order. */
  datatype Built = Built(quotient: seq<Bytes>, external: seq<Bytes>, links: seq<Link>, finite: seq<Link>,
                         ports: seq<Port>, omitted: seq<Bytes>, vertices: seq<Landing>, edges: seq<Landing>)

  function Flat(env: Env, raw: seq<Bytes>, t: Built): seq<Bytes> {
    t.quotient + t.external + Artwork(env, raw)
  }

  /** The position of a node in the flat list; only called for nodes that are there. */
  function IndexOf(flat: seq<Bytes>, node: Bytes): (i: nat)
    requires node in flat
    ensures i < |flat| && flat[i] == node
  {
    if flat[0] == node then 0 else 1 + IndexOf(flat[1..], node)
  }

  // ---- rows ----

  predicate Anchored(flat: seq<Bytes>, link: Link) {
    link.first in flat && link.second in flat
  }

  function CellsOf(flat: seq<Bytes>, link: Link): LinkCells
    requires Anchored(flat, link)
  {
    var r := if link.impedance.FiniteRL? then Finite(link.impedance.resistance) else Null;
    var l := if link.impedance.FiniteRL? then Finite(link.impedance.inductance) else Null;
    LinkCells(link.id, IndexOf(flat, link.first), IndexOf(flat, link.second), link.count, r, l)
  }

  function LinkRows(flat: seq<Bytes>, kind: int, links: seq<Link>): (r: seq<LinkRow>)
    requires forall i :: 0 <= i < |links| ==> Anchored(flat, links[i])
    ensures |r| == |links| && forall i :: 0 <= i < |r| ==> r[i] == Row(kind, i, CellsOf(flat, links[i]))
  {
    seq(|links|, i requires 0 <= i < |links| => Row(kind, i, CellsOf(flat, links[i])))
  }

  function OwnerRows(kind: int, links: seq<Link>): seq<OwnerRow> {
    if links == [] then []
    else
      var n := |links| - 1;
      OwnerRows(kind, links[..n]) + Numbered((kind, n), links[n].owners)
  }

  predicate PortAnchored(flat: seq<Bytes>, port: Port) {
    port.positive in flat && port.negative in flat
  }

  function PortCellsOf(flat: seq<Bytes>, port: Port): PortCells
    requires PortAnchored(flat, port)
  {
    PortCells(port.rail, port.selected, port.reference, IndexOf(flat, port.positive), IndexOf(flat, port.negative))
  }

  function PortRows(flat: seq<Bytes>, ports: seq<Port>): (r: seq<PortRow>)
    requires forall i :: 0 <= i < |ports| ==> PortAnchored(flat, ports[i])
    ensures |r| == |ports| && forall i :: 0 <= i < |r| ==> r[i] == Row((), i, PortCellsOf(flat, ports[i]))
  {
    seq(|ports|, i requires 0 <= i < |ports| => Row((), i, PortCellsOf(flat, ports[i])))
  }

  /** Appends the four member lists of port n. */
  function WithMembers(rows: seq<MemberRow>, port: Port, n: int): seq<MemberRow> {
    rows + Numbered((n, 0), port.positivePins) + Numbered((n, 1), port.negativePins)
    + Numbered((n, 2), port.positiveAnchors) + Numbered((n, 3), port.negativeAnchors)
  }

  function MemberRows(ports: seq<Port>): seq<MemberRow> {
    if ports == [] then [] else WithMembers(MemberRows(ports[..|ports| - 1]), ports[|ports| - 1], |ports| - 1)
  }

  /** The order of landing rows: by the two parts of the key. */
  predicate KeyBefore(a: (Bytes, Bytes), b: (Bytes, Bytes)) {
    Before(a.0, b.0) || (a.0 == b.0 && Before(a.1, b.1))
  }

  function InsertLanding(x: Landing, sorted: seq<Landing>): (r: seq<Landing>)
    ensures multiset(r) == multiset(sorted) + multiset{x}
  {
    if sorted == [] || KeyBefore(x.key, sorted[0].key) then [x] + sorted
    else
      assert sorted == [sorted[0]] + sorted[1..];
      [sorted[0]] + InsertLanding(x, sorted[1..])
  }

  function SortLandings(items: seq<Landing>): (r: seq<Landing>)
    ensures multiset(r) == multiset(items)
  {
    if items == [] then []
    else
      assert items == [items[0]] + items[1..];
      InsertLanding(items[0], SortLandings(items[1..]))
  }

  /** What the builder checks or looks up: nodes distinct up to case, and every endpoint among them. */
  predicate Writable(env: Env, raw: seq<Bytes>, t: Built) {
    var flat := Flat(env, raw, t);
    && DistinctFolds(env, flat)
    && (forall i :: 0 <= i < |t.links| ==> Anchored(flat, t.links[i]))
    && (forall i :: 0 <= i < |t.finite| ==> Anchored(flat, t.finite[i]))
    && (forall i :: 0 <= i < |t.ports| ==> PortAnchored(flat, t.ports[i]))
  }

  function NodeRows(env: Env, raw: seq<Bytes>, t: Built): seq<NodeRow> {
    Numbered(0, t.quotient) + Numbered(1, t.external) + Numbered(2, Artwork(env, raw))
  }

  /** All rows of the store, or None if the builder refuses or fails on an unknown endpoint. */
  function Write(env: Env, raw: seq<Bytes>, t: Built): Option<Tables> {
    if !Writable(env, raw, t) then None
    else
      var flat := Flat(env, raw, t);
      Some(Tables(
        NodeRows(env, raw, t),
        LinkRows(flat, 0, t.links) + LinkRows(flat, 1, t.finite),
        OwnerRows(0, t.links) + OwnerRows(1, t.finite),
        PortRows(flat, t.ports),
        MemberRows(t.ports),
        Numbered((), t.omitted),
        Numbered(0, SortLandings(t.vertices)) + Numbered(1, SortLandings(t.edges))))
  }

  // ---- which topologies survive ----

  /** The link is what its constructor makes of its own fields, and is fit for its kind. */
  predicate LinkStorable(env: Env, flat: seq<Bytes>, kind: int, link: Link) {
    && ValidText(link.id)
    && Constructible(env, link.id, link.first, link.second, link.owners)
    && Construct(env, link.id, link.first, link.second, link.count, link.impedance, link.owners) == link
    && link.owners != [] && link.count >= 1
    && (kind == 0 ==> link.count == 1 && link.impedance.Ideal?)
    && (kind == 1 ==> link.count <= |link.owners| && |link.owners| % link.count == 0 && PassiveRL(link.impedance))
    && forall i :: 0 <= i < |link.owners| ==> ValidText(link.owners[i]) && (kind == 1 ==> VIA_PREFIX <= link.owners[i])
  }

  predicate PassiveRL(z: Impedance) {
    z.FiniteRL? && z.resistance >= 0.0 && z.inductance >= 0.0 && (z.resistance != 0.0 || z.inductance != 0.0)
  }

  function Ids(links: seq<Link>): (r: seq<Bytes>)
    ensures |r| == |links| && forall i :: 0 <= i < |r| ==> r[i] == links[i].id
  {
    seq(|links|, i requires 0 <= i < |links| => links[i].id)
  }

  function AllOwners(links: seq<Link>): seq<Bytes> {
    if links == [] then [] else AllOwners(links[..|links| - 1]) + links[|links| - 1].owners
  }

  predicate LinksStorable(env: Env, flat: seq<Bytes>, links: seq<Link>, finite: seq<Link>) {
    && (forall i :: 0 <= i < |links| ==> LinkStorable(env, flat, 0, links[i]))
    && (forall i :: 0 <= i < |finite| ==> LinkStorable(env, flat, 1, finite[i]))
    && DistinctFolds(env, Ids(links) + Ids(finite))
    && DistinctFolds(env, AllOwners(links) + AllOwners(finite))
  }

  predicate AllValid(texts: seq<Bytes>) {
    forall i :: 0 <= i < |texts| ==> ValidText(texts[i])
  }

  predicate PortStorable(env: Env, flat: seq<Bytes>, port: Port) {
    && ValidText(port.rail) && ValidText(port.selected) && ValidText(port.reference)
    && port.positivePins != [] && port.negativePins != [] && port.positiveAnchors != [] && port.negativeAnchors != []
    && AllValid(port.positivePins) && AllValid(port.negativePins) && AllValid(port.positiveAnchors) && AllValid(port.negativeAnchors)
    && AllKnown(env, port.positiveAnchors, Folds(env, flat)) && AllKnown(env, port.negativeAnchors, Folds(env, flat))
  }

  predicate PortsStorable(env: Env, flat: seq<Bytes>, ports: seq<Port>) {
    (forall i :: 0 <= i < |ports| ==> PortStorable(env, flat, ports[i])) && DistinctFolds(env, Rails(ports))
  }

  predicate LandingStorable(env: Env, keys: set<Bytes>, x: Landing) {
    ValidText(x.key.0) && ValidText(x.key.1) && ValidText(x.value) && env.fold(x.value) in keys
  }

  predicate LandingsStorable(env: Env, keys: set<Bytes>, items: seq<Landing>) {
    forall i :: 0 <= i < |items| ==> LandingStorable(env, keys, items[i])
  }

  /** The rules a topology has to meet to come back from the store. */
  predicate Storable(env: Env, raw: seq<Bytes>, t: Built) {
    var flat := Flat(env, raw, t);
    && Writable(env, raw, t) && AllValid(flat)
    && LinksStorable(env, flat, t.links, t.finite)
    && PortsStorable(env, flat, t.ports)
    && AllValid(t.omitted)
    && LandingsStorable(env, Folds(env, flat), t.vertices)
    && LandingsStorable(env, Folds(env, Ids(t.links) + Ids(t.finite)), t.edges)
  }

  predicate DistinctLandings(items: seq<Landing>) {
    forall i, j :: 0 <= i < j < |items| ==> items[i].key != items[j].key
  }

  /** The topology object itself, its landing items read as dictionaries. */
  function AsTopology(t: Built): Topology {
    Topology(t.quotient, t.external, t.links, t.finite, t.ports, t.omitted, BindingsOf(t.vertices), BindingsOf(t.edges))
  }
}
