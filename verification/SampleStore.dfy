/** A small store, written out row by row, that loads. */
module SampleStore {
  import opened ByteStrings
  import opened KeyOrder
  import opened RowTables
  import opened MergeJoin
  import opened RowStore
  import opened RowWriter
  import opened LandingOrder
  import opened RowRoundTrip
  import opened StoreRoundTrip

  /** Texts without capitals and blanks are left alone. */
  const ENV := Env(s => s, s => s)

  const Q: Bytes := [113]
  const E: Bytes := [101]
  const A: Bytes := [97]
  const L: Bytes := [108]
  const R: Bytes := [114]
  const P: Bytes := [112]
  const VIA: Bytes := [118, 105, 97, 58, 49]

  /** A finite link between two nodes, owned by "via:1". */
  const LINK := Link(L, Q, E, 1, FiniteRL(0.5, 0.25), [VIA])

  const PORT := Port(R, P, Q, Q, E, [P], [P], [Q], [A])

  const TABLES := Tables(
    [Row(0, 0, Q), Row(1, 0, E), Row(2, 0, A)],
    [Row(1, 0, LinkCells(L, 0, 1, 1, Finite(0.5), Finite(0.25)))],
    [Row((1, 0), 0, VIA)],
    [Row((), 0, PortCells(R, P, Q, 0, 1))],
    [Row((0, 0), 0, P), Row((0, 1), 0, P), Row((0, 2), 0, Q), Row((0, 3), 0, A)],
    [Row((), 0, P)],
    [Row(0, 0, Landing((R, P), Q)), Row(1, 0, Landing((R, P), L))])

  const BUILT := Built([Q], [E], [], [LINK], [PORT], [P], [Landing((R, P), Q)], [Landing((R, P), L)])

  lemma SampleFlat()
    ensures Flat(ENV, [A], BUILT) == [Q, E, A]
    ensures Artwork(ENV, [A]) == [A]
  {
    assert Stripped(ENV, [A]) == [A];
    assert Paired([A]) == [Pair(A, true)];
    assert Sort([Pair(A, true)][1..]) == [];
    assert Sort([Pair(A, true)]) == [Pair(A, true)];
    assert Artwork(ENV, [A])[0] == A;
    assert [Q] + [E] + [A] == [Q, E, A];
  }

  lemma SampleIndices()
    ensures IndexOf([Q, E, A], Q) == 0 && IndexOf([Q, E, A], E) == 1
  {
    assert [Q, E, A][1..] == [E, A];
  }

  lemma SampleLink()
    ensures LinkStorable(ENV, [Q, E, A], 1, LINK)
  {
    assert Stripped(ENV, [VIA]) == [VIA];
    assert SortedSet([VIA][1..]) == [];
    assert SortedSet([VIA]) == [VIA];
    assert VIA_PREFIX <= VIA;
  }

  lemma SamplePort()
    ensures PortStorable(ENV, [Q, E, A], PORT) && PortAnchored([Q, E, A], PORT)
  {
    var flat := [Q, E, A];
    assert flat[0] == Q && flat[1] == E && flat[2] == A;
    assert ENV.fold(flat[0]) in Folds(ENV, flat) && ENV.fold(flat[2]) in Folds(ENV, flat);
  }

  lemma SampleIsStorable()
    ensures Storable(ENV, [A], BUILT)
  {
    hide LinkStorable, PortStorable;
    SampleFlat();
    SampleLink();
    SamplePort();
    var flat := [Q, E, A];
    assert flat[0] == Q && flat[1] == E;
    assert AllOwners([]) + AllOwners([LINK]) == [VIA] by { assert [LINK][..0] == []; }
    var ids := Ids([]) + Ids([LINK]);
    assert ids == [L];
    assert ENV.fold(flat[0]) in Folds(ENV, flat) && ENV.fold(ids[0]) in Folds(ENV, ids);
    assert Rails([PORT]) == [R];
  }

  lemma SampleRows()
    ensures Write(ENV, [A], BUILT) == Some(TABLES)
  {
    hide Storable, LinkStorable, PortStorable;
    SampleIsStorable();
    assert Writable(ENV, [A], BUILT) by { StorableIsWritable(ENV, [A], BUILT); }
    SampleFlat();
    SampleIndices();
    var written := Write(ENV, [A], BUILT).value;
    assert written.nodes == TABLES.nodes;
    assert written.links == TABLES.links;
    assert OwnerRows(1, [LINK]) == OwnerRows(1, []) + Numbered((1, 0), [VIA]) by { assert [LINK][..0] == []; }
    assert written.owners == TABLES.owners;
    assert written.ports == TABLES.ports;
    assert MemberRows([PORT]) == WithMembers(MemberRows([]), PORT, 0) by { assert [PORT][..0] == []; }
    assert written.members == TABLES.members;
    assert written.omitted == TABLES.omitted;
    assert SortLandings([Landing((R, P), Q)]) == [Landing((R, P), Q)] by { assert SortLandings([Landing((R, P), Q)][1..]) == []; }
    assert SortLandings([Landing((R, P), L)]) == [Landing((R, P), L)] by { assert SortLandings([Landing((R, P), L)][1..]) == []; }
    assert written.landings == TABLES.landings;
  }

  lemma StorableIsWritable(env: Env, raw: seq<Bytes>, t: Built)
    requires Storable(env, raw, t)
    ensures Writable(env, raw, t)
  {
  }

  /** These rows load, and give the topology they say: two nodes and an artwork node, a finite link, a port, an omitted rail, two landings. */
  lemma SampleLoads()
    ensures Ordered(TABLES) && Loadable(ENV, [A], TABLES)
    ensures Loaded(ENV, [A], TABLES) ==
            Topology([Q], [E], [], [LINK], [PORT], [P], map[(R, P) := Q], map[(R, P) := L])
  {
    hide Storable, Write, Loadable, Loaded, Ordered;
    SampleIsStorable();
    SampleRows();
    RoundTrip(ENV, [A], BUILT);
    SampleBindings();
  }

  lemma SampleBindings()
    ensures BindingsOf([Landing((R, P), Q)]) == map[(R, P) := Q] && BindingsOf([Landing((R, P), L)]) == map[(R, P) := L]
  {
    assert BindingsOf([Landing((R, P), Q)][..0]) == map[] && BindingsOf([Landing((R, P), L)][..0]) == map[];
  }
}
