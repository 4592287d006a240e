/** Receiver eligibility over routed copper. */
module EscapeRoutes {
  // Receiver eligibility over routed copper: decap seeds and validated Vias are grouped by connected
  // component, and a receiver rail is served by the components that own a Via landing in its planes.

  import opened UnionFind

  datatype Option<+T> = None | Some(value: T)

  /** A routing node: folded net and node number. */
  type Key = (string, int)

  datatype Node = Node(net: string, layer: string, x: real, y: real)

  datatype Trace = Trace(net: string, first: int, second: int)

  /** quarter says that the Via's rotation is a supported multiple of a right angle. */
  datatype Via = Via(net: string, id: string, upper: int, lower: int, padstack: string, quarter: bool)

  datatype PadStack = PadStack(drill: Option<real>, material: Option<string>)

  /** A plane of a receiver rail: its layer and its copper. */
  datatype Plane = Plane(layer: string, copper: (real, real) -> bool)

  type Fold = string -> string

  datatype Board = Board(
    nodes: map<Key, Node>,
    padstacks: map<string, PadStack>,
    order: map<string, nat>,
    fold: Fold)

  function Min(a: nat, b: nat): nat { if a <= b then a else b }
  function Max(a: nat, b: nat): nat { if a <= b then b else a }

  /** The layer lies between the two ends, all three being known layers. */
  predicate SpanIncludes(board: Board, layer: string, first: string, second: string) {
    var t, a, b := board.fold(layer), board.fold(first), board.fold(second);
    && t in board.order && a in board.order && b in board.order
    && Min(board.order[a], board.order[b]) <= board.order[t] <= Max(board.order[a], board.order[b])
  }

  /** A trace joins two known nodes of one layer. */
  predicate ValidTrace(board: Board, t: Trace) {
    && (t.net, t.first) in board.nodes && (t.net, t.second) in board.nodes
    && board.fold(board.nodes[(t.net, t.first)].layer) == board.fold(board.nodes[(t.net, t.second)].layer)
  }

  /** A Via is a drilled copper barrel between two known nodes straight above each other on different layers. */
  predicate ValidVia(board: Board, v: Via) {
    && (v.net, v.upper) in board.nodes && (v.net, v.lower) in board.nodes && board.fold(v.padstack) in board.padstacks
    && var upper, lower, pad := board.nodes[(v.net, v.upper)], board.nodes[(v.net, v.lower)], board.padstacks[board.fold(v.padstack)];
    && pad.drill.Some? && pad.drill.value > 0.0
    && board.fold(if pad.material.Some? then pad.material.value else "") in {"copper", "cu"}
    && v.quarter
    && upper.x == lower.x && upper.y == lower.y
    && SpanIncludes(board, upper.layer, upper.layer, lower.layer)
    && board.fold(upper.layer) != board.fold(lower.layer)
  }

  // ---- what the report has to say ----

  ghost function RouteEdges(board: Board, traces: seq<Trace>, vias: seq<Via>): Edges<Key> {
    (set t | t in traces && ValidTrace(board, t) :: ((t.net, t.first), (t.net, t.second))) +
    (set v | v in vias && ValidVia(board, v) :: ((v.net, v.upper), (v.net, v.lower)))
  }

  /** The Via spans the plane's layer, and its own position lies in the plane's copper. */
  predicate Lands(board: Board, v: Via, plane: Plane)
    requires ValidVia(board, v)
  {
    var upper, lower := board.nodes[(v.net, v.upper)], board.nodes[(v.net, v.lower)];
    SpanIncludes(board, plane.layer, upper.layer, lower.layer) && plane.copper(upper.x, upper.y)
  }

  /** A known seed is connected to a valid Via that lands in one of the planes. */
  ghost predicate Escapes(board: Board, edges: Edges<Key>, vias: seq<Via>, planes: seq<Plane>, seed: Key) {
    seed in board.nodes &&
    exists v, plane :: v in vias && ValidVia(board, v) && plane in planes && Lands(board, v, plane) && Connected(edges, seed, (v.net, v.upper))
  }

  /** Seeds with the decaps that start there; a dictionary in insertion order. */
  type Seeds = seq<(Key, set<string>)>

  /** The donor sites of one receiver rail. */
  ghost predicate Eligible(board: Board, edges: Edges<Key>, vias: seq<Via>, planes: seq<Plane>, seeds: Seeds, site: string) {
    exists k :: 0 <= k < |seeds| && site in seeds[k].1 && Escapes(board, edges, vias, planes, seeds[k].0)
  }

  // ---- the unions ----

  method UniteTraces(board: Board, traces: seq<Trace>, union: Forest<Key>)
    requires union.Valid()
    modifies union
    ensures union.Valid()
    ensures union.edges == old(union.edges) + RouteEdges(board, traces, [])
  {
    var i := 0;
    while i < |traces|
      invariant 0 <= i <= |traces| && union.Valid()
      invariant union.edges == old(union.edges) + RouteEdges(board, traces[..i], [])
    {
      var t := traces[i];
      assert traces[..i + 1] == traces[..i] + [t];
      if ValidTrace(board, t) {
        union.Union((t.net, t.first), (t.net, t.second));
      }
      i := i + 1;
    }
    assert traces[..i] == traces;
  }

  /** Unites the ends of the valid Vias and keeps those Vias. */
  method UniteVias(board: Board, vias: seq<Via>, union: Forest<Key>) returns (valid: seq<Via>)
    requires union.Valid()
    modifies union
    ensures union.Valid()
    ensures union.edges == old(union.edges) + RouteEdges(board, [], vias)
    ensures forall v :: v in valid <==> v in vias && ValidVia(board, v)
  {
    valid := [];
    var i := 0;
    while i < |vias|
      invariant 0 <= i <= |vias| && union.Valid()
      invariant union.edges == old(union.edges) + RouteEdges(board, [], vias[..i])
      invariant forall v :: v in valid <==> v in vias[..i] && ValidVia(board, v)
    {
      var v := vias[i];
      assert vias[..i + 1] == vias[..i] + [v];
      if ValidVia(board, v) {
        union.Union((v.net, v.upper), (v.net, v.lower));
        valid := valid + [v];
      }
      i := i + 1;
    }
    assert vias[..i] == vias;
  }

  // ---- grouping by representative ----

  type Parents = map<Key, Key>
  type Ranks = map<Key, nat>

  ghost predicate SeedAt(board: Board, parent: Parents, rank: Ranks, seeds: Seeds, k: int, c: Key)
    requires Ranked(parent, rank)
  {
    0 <= k < |seeds| && seeds[k].0 in board.nodes && seeds[k].0 in parent && Root(parent, rank, seeds[k].0) == c
  }

  /** The first n seeds by component: each known seed's decaps are filed under its representative, and nothing else is. */
  ghost predicate SeedsFiled(board: Board, parent: Parents, rank: Ranks, seeds: Seeds, n: nat, filed: map<Key, set<string>>)
    requires Ranked(parent, rank)
  {
    && (forall k :: 0 <= k < n <= |seeds| && seeds[k].0 in board.nodes ==>
          seeds[k].0 in parent && Root(parent, rank, seeds[k].0) in filed)
    && (forall c :: c in filed ==> exists k :: k < n && SeedAt(board, parent, rank, seeds, k, c))
    && (forall c, site :: c in filed ==>
         (site in filed[c] <==> exists k :: k < n && SeedAt(board, parent, rank, seeds, k, c) && site in seeds[k].1))
  }

  /** Later lookups move no representative. */
  ghost predicate SameRoots(parent: Parents, rank: Ranks, parent': Parents, rank': Ranks) {
    && Ranked(parent, rank) && Ranked(parent', rank')
    && forall x :: x in parent ==> x in parent' && Root(parent', rank', x) == Root(parent, rank, x)
  }

  lemma SeedsStay(board: Board, parent: Parents, rank: Ranks, parent': Parents, rank': Ranks, seeds: Seeds, n: nat, filed: map<Key, set<string>>)
    requires SameRoots(parent, rank, parent', rank') && n <= |seeds| && SeedsFiled(board, parent, rank, seeds, n, filed)
    ensures SeedsFiled(board, parent', rank', seeds, n, filed)
  {
    forall k, c | 0 <= k < n ensures SeedAt(board, parent', rank', seeds, k, c) <==> SeedAt(board, parent, rank, seeds, k, c) {
      if seeds[k].0 in board.nodes {
        assert seeds[k].0 in parent;
      }
    }
    forall c, site | c in filed
      ensures site in filed[c] <==> exists k :: k < n && SeedAt(board, parent', rank', seeds, k, c) && site in seeds[k].1
    {
      if site in filed[c] {
        var k :| k < n && SeedAt(board, parent, rank, seeds, k, c) && site in seeds[k].1;
        assert SeedAt(board, parent', rank', seeds, k, c);
      }
    }
    forall c | c in filed ensures exists k :: k < n && SeedAt(board, parent', rank', seeds, k, c) {
      var k :| k < n && SeedAt(board, parent, rank, seeds, k, c);
      assert SeedAt(board, parent', rank', seeds, k, c);
    }
  }

  /** One more seed, filed under its representative c. */
  lemma FileSeed(board: Board, parent: Parents, rank: Ranks, seeds: Seeds, n: nat, filed: map<Key, set<string>>, c: Key)
    requires Ranked(parent, rank) && n < |seeds| && SeedsFiled(board, parent, rank, seeds, n, filed)
    requires SeedAt(board, parent, rank, seeds, n, c)
    ensures SeedsFiled(board, parent, rank, seeds, n + 1, filed[c := (if c in filed then filed[c] else {}) + seeds[n].1])
  {
    var more := filed[c := (if c in filed then filed[c] else {}) + seeds[n].1];
    forall d, site | d in more
      ensures site in more[d] <==> exists k :: k < n + 1 && SeedAt(board, parent, rank, seeds, k, d) && site in seeds[k].1
    {
      if site in more[d] {
        if d == c && site in seeds[n].1 {
          assert SeedAt(board, parent, rank, seeds, n, d);
        } else {
          assert d in filed && site in filed[d];
          var k :| k < n && SeedAt(board, parent, rank, seeds, k, d) && site in seeds[k].1;
          assert k < n + 1;
        }
      }
      if exists k :: k < n + 1 && SeedAt(board, parent, rank, seeds, k, d) && site in seeds[k].1 {
        var k :| k < n + 1 && SeedAt(board, parent, rank, seeds, k, d) && site in seeds[k].1;
        if k < n {
          assert d in filed;
        } else {
          assert d == c;
        }
      }
    }
    forall d | d in more ensures exists k :: k < n + 1 && SeedAt(board, parent, rank, seeds, k, d) {
      if d == c {
        assert SeedAt(board, parent, rank, seeds, n, d);
      } else {
        var k :| k < n && SeedAt(board, parent, rank, seeds, k, d);
        assert k < n + 1;
      }
    }
  }

  lemma SkipSeed(board: Board, parent: Parents, rank: Ranks, seeds: Seeds, n: nat, filed: map<Key, set<string>>)
    requires Ranked(parent, rank) && n < |seeds| && SeedsFiled(board, parent, rank, seeds, n, filed) && seeds[n].0 !in board.nodes
    ensures SeedsFiled(board, parent, rank, seeds, n + 1, filed)
  {
    forall k, c | k < n + 1 ensures SeedAt(board, parent, rank, seeds, k, c) ==> k < n {
    }
    forall c, site | c in filed
      ensures site in filed[c] <==> exists k :: k < n + 1 && SeedAt(board, parent, rank, seeds, k, c) && site in seeds[k].1
    {
      if site in filed[c] {
        var k :| k < n && SeedAt(board, parent, rank, seeds, k, c) && site in seeds[k].1;
        assert k < n + 1;
      }
    }
    forall c | c in filed ensures exists k :: k < n + 1 && SeedAt(board, parent, rank, seeds, k, c) {
      var k :| k < n && SeedAt(board, parent, rank, seeds, k, c);
      assert k < n + 1;
    }
  }

  method FileSeeds(board: Board, seeds: Seeds, union: Forest<Key>) returns (filed: map<Key, set<string>>)
    requires union.Valid()
    modifies union
    ensures union.Valid() && union.edges == old(union.edges)
    ensures SeedsFiled(board, union.parent, union.rank, seeds, |seeds|, filed)
  {
    filed := map[];
    var i := 0;
    while i < |seeds|
      invariant 0 <= i <= |seeds| && union.Valid() && union.edges == old(union.edges)
      invariant SeedsFiled(board, union.parent, union.rank, seeds, i, filed)
    {
      var (seed, sites) := seeds[i];
      if seed in board.nodes {
        ghost var parent, rank := union.parent, union.rank;
        var c := union.Find(seed);
        SeedsStay(board, parent, rank, union.parent, union.rank, seeds, i, filed);
        FileSeed(board, union.parent, union.rank, seeds, i, filed, c);
        filed := filed[c := (if c in filed then filed[c] else {}) + sites];
      } else {
        SkipSeed(board, union.parent, union.rank, seeds, i, filed);
      }
      i := i + 1;
    }
  }

  /** Valid Vias by component. */
  ghost predicate ViasFiled(parent: Parents, rank: Ranks, valid: seq<Via>, filed: map<Key, seq<Via>>)
    requires Ranked(parent, rank)
  {
    && (forall v :: v in valid ==> (v.net, v.upper) in parent && var c := Root(parent, rank, (v.net, v.upper)); c in filed && v in filed[c])
    && (forall c, v :: c in filed && v in filed[c] ==>
         v in valid && (v.net, v.upper) in parent && Root(parent, rank, (v.net, v.upper)) == c)
  }

  lemma ViasStay(parent: Parents, rank: Ranks, parent': Parents, rank': Ranks, valid: seq<Via>, filed: map<Key, seq<Via>>)
    requires SameRoots(parent, rank, parent', rank') && ViasFiled(parent, rank, valid, filed)
    ensures ViasFiled(parent', rank', valid, filed)
  {
  }

  /** One more Via, filed under its representative c. */
  lemma FileVia(parent: Parents, rank: Ranks, valid: seq<Via>, v: Via, filed: map<Key, seq<Via>>, c: Key)
    requires Ranked(parent, rank) && ViasFiled(parent, rank, valid, filed)
    requires (v.net, v.upper) in parent && Root(parent, rank, (v.net, v.upper)) == c
    ensures ViasFiled(parent, rank, valid + [v], filed[c := (if c in filed then filed[c] else []) + [v]])
  {
  }

  method FileVias(board: Board, valid: seq<Via>, union: Forest<Key>) returns (filed: map<Key, seq<Via>>)
    requires union.Valid() && forall v :: v in valid ==> ValidVia(board, v)
    modifies union
    ensures union.Valid() && union.edges == old(union.edges)
    ensures SameRoots(old(union.parent), old(union.rank), union.parent, union.rank)
    ensures ViasFiled(union.parent, union.rank, valid, filed)
  {
    filed := map[];
    var i := 0;
    while i < |valid|
      invariant 0 <= i <= |valid| && union.Valid() && union.edges == old(union.edges)
      invariant SameRoots(old(union.parent), old(union.rank), union.parent, union.rank)
      invariant ViasFiled(union.parent, union.rank, valid[..i], filed)
    {
      var v := valid[i];
      assert valid[..i + 1] == valid[..i] + [v];
      var key := (v.net, v.upper);
      assert v in valid;
      if key in board.nodes {
        ghost var parent, rank := union.parent, union.rank;
        var c := union.Find(key);
        ViasStay(parent, rank, union.parent, union.rank, valid[..i], filed);
        FileVia(union.parent, union.rank, valid[..i], v, filed, c);
        filed := filed[c := (if c in filed then filed[c] else []) + [v]];
      }
      i := i + 1;
    }
    assert valid[..i] == valid;
  }

  // ---- serving the receivers ----

  ghost predicate SomeLands(board: Board, vias: seq<Via>, planes: seq<Plane>) {
    exists v, plane :: v in vias && ValidVia(board, v) && plane in planes && Lands(board, v, plane)
  }

  /** Some Via of a component lands in some plane. */
  method Serves(board: Board, vias: seq<Via>, planes: seq<Plane>) returns (hit: bool)
    requires forall v :: v in vias ==> ValidVia(board, v)
    ensures hit <==> SomeLands(board, vias, planes)
  {
    hit := false;
    var i := 0;
    while i < |vias|
      invariant 0 <= i <= |vias|
      invariant hit <==> SomeLands(board, vias[..i], planes)
    {
      var v := vias[i];
      assert v in vias;
      assert vias[..i + 1] == vias[..i] + [v];
      var j := 0;
      ghost var before := hit;
      while j < |planes|
        invariant 0 <= j <= |planes|
        invariant hit <==> before || exists plane :: plane in planes[..j] && Lands(board, v, plane)
      {
        assert planes[..j + 1] == planes[..j] + [planes[j]];
        var upper, lower := board.nodes[(v.net, v.upper)], board.nodes[(v.net, v.lower)];
        if SpanIncludes(board, planes[j].layer, upper.layer, lower.layer) {
          if planes[j].copper(upper.x, upper.y) {
            assert Lands(board, v, planes[j]) && planes[j] in planes[..j + 1];
            hit := true;
          }
        }
        assert forall plane :: plane in planes[..j + 1] <==> plane in planes[..j] || plane == planes[j];
        j := j + 1;
      }
      assert planes[..j] == planes;
      i := i + 1;
    }
    assert vias[..i] == vias;
  }

  function ViasOf(filed: map<Key, seq<Via>>, c: Key): seq<Via> {
    if c in filed then filed[c] else []
  }

  /** A component is served exactly when each of its seeds escapes along connected copper. */
  lemma ServedIsEscaping(board: Board, parent: Parents, rank: Ranks, edges: Edges<Key>, vias: seq<Via>, valid: seq<Via>,
                         seeds: Seeds, byVia: map<Key, seq<Via>>, planes: seq<Plane>, k: nat, c: Key)
    requires Ranked(parent, rank) && Represents(parent, rank, edges) && ViasFiled(parent, rank, valid, byVia)
    requires forall v :: v in valid <==> v in vias && ValidVia(board, v)
    requires SeedAt(board, parent, rank, seeds, k, c)
    ensures SomeLands(board, ViasOf(byVia, c), planes) <==> Escapes(board, edges, vias, planes, seeds[k].0)
  {
    var seed := seeds[k].0;
    if SomeLands(board, ViasOf(byVia, c), planes) {
      var v, plane :| v in ViasOf(byVia, c) && ValidVia(board, v) && plane in planes && Lands(board, v, plane);
      assert v in byVia[c];
      SameRootIffConnected(parent, rank, edges, seed, (v.net, v.upper));
    }
    if Escapes(board, edges, vias, planes, seed) {
      var v, plane :| v in vias && ValidVia(board, v) && plane in planes && Lands(board, v, plane) && Connected(edges, seed, (v.net, v.upper));
      assert v in valid;
      SameRootIffConnected(parent, rank, edges, seed, (v.net, v.upper));
      assert v in ViasOf(byVia, c);
    }
  }

  /** Receiver planes by folded rail id; a dictionary in insertion order. */
  type Artwork = seq<(string, seq<Plane>)>

  predicate DistinctRails(artwork: Artwork) {
    forall i, j :: 0 <= i < j < |artwork| ==> artwork[i].0 != artwork[j].0
  }

  /** After some components: who serves whom, and every served rail has a table entry. */
  ghost predicate Served(board: Board, byVia: map<Key, seq<Via>>, artwork: Artwork, done: set<Key>, n: nat, last: set<Key>,
                         requested: set<string>, table: map<string, set<Key>>)
  {
    && table.Keys == requested
    && (forall r, c :: 0 <= r < |artwork| && (c in done || (c in last && r < n)) && SomeLands(board, ViasOf(byVia, c), artwork[r].1) ==>
          artwork[r].0 in table && c in table[artwork[r].0])
    && (forall r, c :: 0 <= r < |artwork| && artwork[r].0 in table && c in table[artwork[r].0] ==>
          (c in done || (c in last && r < n)) && SomeLands(board, ViasOf(byVia, c), artwork[r].1))
  }

  /** One rail for the component under consideration. */
  lemma ServeRail(board: Board, byVia: map<Key, seq<Via>>, artwork: Artwork, done: set<Key>, r: nat, c: Key, requested: set<string>, table: map<string, set<Key>>)
    requires DistinctRails(artwork) && r < |artwork| && c !in done
    requires Served(board, byVia, artwork, done, r, {c}, requested, table)
    ensures SomeLands(board, ViasOf(byVia, c), artwork[r].1) && artwork[r].0 in table ==>
              Served(board, byVia, artwork, done, r + 1, {c}, requested, table[artwork[r].0 := table[artwork[r].0] + {c}])
    ensures !SomeLands(board, ViasOf(byVia, c), artwork[r].1) ==> Served(board, byVia, artwork, done, r + 1, {c}, requested, table)
  {
  }

  lemma ServeNext(board: Board, byVia: map<Key, seq<Via>>, artwork: Artwork, done: set<Key>, c: Key, requested: set<string>, table: map<string, set<Key>>)
    ensures Served(board, byVia, artwork, done, 0, {}, requested, table) ==> Served(board, byVia, artwork, done, 0, {c}, requested, table)
    ensures Served(board, byVia, artwork, done, |artwork|, {c}, requested, table) ==>
              Served(board, byVia, artwork, done + {c}, 0, {}, requested, table)
  {
  }

  /** Some rail that the component serves is not in the table. */
  ghost predicate Unserved(board: Board, byVia: map<Key, seq<Via>>, artwork: Artwork, c: Key, requested: set<string>) {
    exists r :: 0 <= r < |artwork| && artwork[r].0 !in requested && SomeLands(board, ViasOf(byVia, c), artwork[r].1)
  }

  /** The rails one component serves. */
  method ServeComponent(board: Board, byVia: map<Key, seq<Via>>, artwork: Artwork, ghost done: set<Key>, c: Key, requested: set<string>,
                        table: map<string, set<Key>>)
    returns (more: Option<map<string, set<Key>>>)
    requires DistinctRails(artwork) && c !in done
    requires forall c, v :: c in byVia && v in byVia[c] ==> ValidVia(board, v)
    requires Served(board, byVia, artwork, done, 0, {}, requested, table)
    ensures more.None? ==> Unserved(board, byVia, artwork, c, requested)
    ensures more.Some? ==> Served(board, byVia, artwork, done + {c}, 0, {}, requested, more.value)
  {
    var eligible := table;
    ServeNext(board, byVia, artwork, done, c, requested, eligible);
    var r := 0;
    while r < |artwork|
      invariant 0 <= r <= |artwork|
      invariant Served(board, byVia, artwork, done, r, {c}, requested, eligible)
    {
      var (rail, planes) := artwork[r];
      var hit := Serves(board, ViasOf(byVia, c), planes);
      ServeRail(board, byVia, artwork, done, r, c, requested, eligible);
      if hit {
        if rail !in eligible {
          return None;
        }
        eligible := eligible[rail := eligible[rail] + {c}];
      }
      r := r + 1;
    }
    ServeNext(board, byVia, artwork, done, c, requested, eligible);
    return Some(eligible);
  }

  /**
   The serving loops over components and rails. The table has one entry per requested rail id as
   spelled, while rails are looked up by folded id: a rail served without an entry is an error.
   */
  method ServeComponents(board: Board, byVia: map<Key, seq<Via>>, components: set<Key>, artwork: Artwork, requested: set<string>)
    returns (table: Option<map<string, set<Key>>>)
    requires DistinctRails(artwork)
    requires forall c, v :: c in byVia && v in byVia[c] ==> ValidVia(board, v)
    ensures table.None? ==> exists c :: c in components && Unserved(board, byVia, artwork, c, requested)
    ensures table.Some? ==> Served(board, byVia, artwork, components, 0, {}, requested, table.value)
  {
    var eligible: map<string, set<Key>> := map id | id in requested :: {};
    var todo := components;
    while todo != {}
      invariant todo <= components
      invariant Served(board, byVia, artwork, components - todo, 0, {}, requested, eligible)
      decreases todo
    {
      var c :| c in todo;
      var more := ServeComponent(board, byVia, artwork, components - todo, c, requested, eligible);
      if more.None? {
        return None;
      }
      assert components - (todo - {c}) == (components - todo) + {c};
      eligible := more.value;
      todo := todo - {c};
    }
    assert components - todo == components;
    return Some(eligible);
  }

  /** The eligible donor sites of every receiver rail, or None when the report stops on a missing table entry. */
  method ReceiverSites(board: Board, traces: seq<Trace>, vias: seq<Via>, seeds: Seeds, artwork: Artwork, requested: set<string>)
    returns (sites: Option<map<string, set<string>>>)
    requires DistinctRails(artwork)
    ensures sites.None? <==> Unlisted(board, RouteEdges(board, traces, vias), vias, seeds, artwork, requested)
    ensures sites.Some? ==> forall r, site :: 0 <= r < |artwork| ==>
              artwork[r].0 in sites.value &&
              (site in sites.value[artwork[r].0] <==> Eligible(board, RouteEdges(board, traces, vias), vias, artwork[r].1, seeds, site))
    ensures ArtworkOfRequests(board, artwork, requested) ==>
              (sites.None? <==> exists id :: Misspelled(board, RouteEdges(board, traces, vias), vias, seeds, artwork, requested, id))
    ensures sites.None? <==> StopsFor(board, traces, vias, seeds, artwork, requested)
    ensures sites.Some? ==> sites.value.Keys == (set r | 0 <= r < |artwork| :: artwork[r].0)
    ensures sites.Some? ==> forall r, site :: 0 <= r < |artwork| ==>
              (site in sites.value[artwork[r].0] <==> SiteOf(board, traces, vias, artwork[r].1, seeds, site))
  {
    ReportIs(board, traces, vias, seeds, artwork, requested);
    hide ArtworkOfRequests, Misspelled, Unlisted, SitesOf, StopsFor, SiteOf;
    if ArtworkOfRequests(board, artwork, requested) {
      UnlistedIsMisspelled(board, RouteEdges(board, traces, vias), vias, seeds, artwork, requested);
    }
    var union := new Forest<Key>();
    UniteTraces(board, traces, union);
    var valid := UniteVias(board, vias, union);
    ghost var edges := RouteEdges(board, traces, vias);
    assert union.edges == edges;
    var bySeed := FileSeeds(board, seeds, union);
    ghost var parent, rank := union.parent, union.rank;
    var byVia := FileVias(board, valid, union);
    SeedsStay(board, parent, rank, union.parent, union.rank, seeds, |seeds|, bySeed);
    var table := ServeComponents(board, byVia, bySeed.Keys, artwork, requested);
    TableIsEligibility(board, union.parent, union.rank, edges, vias, valid, seeds, bySeed, byVia, artwork, requested, table);
    if table.None? {
      return None;
    }
    var rails := set r | 0 <= r < |artwork| :: artwork[r].0;
    sites := Some(map rail | rail in rails :: SitesOf(bySeed, table.value, rail));
    forall r | 0 <= r < |artwork|
      ensures artwork[r].0 in sites.value && sites.value[artwork[r].0] == SitesOf(bySeed, table.value, artwork[r].0)
    {
      assert artwork[r].0 in rails;
    }
  }

  /** The decaps filed under a rail's components; a rail without an entry has none. */
  function SitesOf(bySeed: map<Key, set<string>>, table: map<string, set<Key>>, rail: string): set<string> {
    if rail in table then set c, site | c in table[rail] && c in bySeed && site in bySeed[c] :: site else {}
  }

  /** A rail is served but not listed under its folded id. */
  ghost predicate Unlisted(board: Board, edges: Edges<Key>, vias: seq<Via>, seeds: Seeds, artwork: Artwork, requested: set<string>) {
    exists r, k :: 0 <= r < |artwork| && 0 <= k < |seeds| && artwork[r].0 !in requested
                   && Escapes(board, edges, vias, artwork[r].1, seeds[k].0)
  }

  lemma TableIsEligibility(board: Board, parent: Parents, rank: Ranks, edges: Edges<Key>, vias: seq<Via>, valid: seq<Via>, seeds: Seeds,
                           bySeed: map<Key, set<string>>, byVia: map<Key, seq<Via>>, artwork: Artwork, requested: set<string>,
                           table: Option<map<string, set<Key>>>)
    requires Ranked(parent, rank) && Represents(parent, rank, edges) && ViasFiled(parent, rank, valid, byVia)
    requires forall v :: v in valid <==> v in vias && ValidVia(board, v)
    requires SeedsFiled(board, parent, rank, seeds, |seeds|, bySeed)
    requires table.None? ==> exists c :: c in bySeed && Unserved(board, byVia, artwork, c, requested)
    requires table.Some? ==> Served(board, byVia, artwork, bySeed.Keys, 0, {}, requested, table.value)
    ensures table.None? <==> Unlisted(board, edges, vias, seeds, artwork, requested)
    ensures table.Some? ==> forall r, site :: 0 <= r < |artwork| ==>
              (site in SitesOf(bySeed, table.value, artwork[r].0) <==> Eligible(board, edges, vias, artwork[r].1, seeds, site))
  {
    if table.None? {
      var c :| c in bySeed && Unserved(board, byVia, artwork, c, requested);
      var r :| 0 <= r < |artwork| && artwork[r].0 !in requested && SomeLands(board, ViasOf(byVia, c), artwork[r].1);
      var k :| k < |seeds| && SeedAt(board, parent, rank, seeds, k, c);
      ServedIsEscaping(board, parent, rank, edges, vias, valid, seeds, byVia, artwork[r].1, k, c);
    }
    if Unlisted(board, edges, vias, seeds, artwork, requested) {
      var r, k :| 0 <= r < |artwork| && 0 <= k < |seeds| && artwork[r].0 !in requested && Escapes(board, edges, vias, artwork[r].1, seeds[k].0);
      var c := Root(parent, rank, seeds[k].0);
      assert SeedAt(board, parent, rank, seeds, k, c);
      ServedIsEscaping(board, parent, rank, edges, vias, valid, seeds, byVia, artwork[r].1, k, c);
    }
    if table.Some? {
      forall r, site | 0 <= r < |artwork|
        ensures site in SitesOf(bySeed, table.value, artwork[r].0) <==> Eligible(board, edges, vias, artwork[r].1, seeds, site)
      {
        SiteIsEligible(board, parent, rank, edges, vias, valid, seeds, bySeed, byVia, artwork, requested, table.value, r, site);
      }
    }
  }

  lemma SiteIsEligible(board: Board, parent: Parents, rank: Ranks, edges: Edges<Key>, vias: seq<Via>, valid: seq<Via>, seeds: Seeds,
                       bySeed: map<Key, set<string>>, byVia: map<Key, seq<Via>>, artwork: Artwork, requested: set<string>,
                       table: map<string, set<Key>>, r: nat, site: string)
    requires Ranked(parent, rank) && Represents(parent, rank, edges) && ViasFiled(parent, rank, valid, byVia)
    requires forall v :: v in valid <==> v in vias && ValidVia(board, v)
    requires SeedsFiled(board, parent, rank, seeds, |seeds|, bySeed)
    requires Served(board, byVia, artwork, bySeed.Keys, 0, {}, requested, table) && r < |artwork|
    ensures site in SitesOf(bySeed, table, artwork[r].0) <==> Eligible(board, edges, vias, artwork[r].1, seeds, site)
  {
    var (rail, planes) := artwork[r];
    if site in SitesOf(bySeed, table, rail) {
      var c :| rail in table && c in table[rail] && c in bySeed && site in bySeed[c];
      var k :| k < |seeds| && SeedAt(board, parent, rank, seeds, k, c) && site in seeds[k].1;
      ServedIsEscaping(board, parent, rank, edges, vias, valid, seeds, byVia, planes, k, c);
    }
    if Eligible(board, edges, vias, planes, seeds, site) {
      var k :| 0 <= k < |seeds| && site in seeds[k].1 && Escapes(board, edges, vias, planes, seeds[k].0);
      var c := Root(parent, rank, seeds[k].0);
      assert SeedAt(board, parent, rank, seeds, k, c);
      ServedIsEscaping(board, parent, rank, edges, vias, valid, seeds, byVia, planes, k, c);
      assert c in table[rail] && site in bySeed[c];
    }
  }

  // ---- routes written out ----

  /** Both layers are known, and the third lies between them or on one of them. */
  predicate Between(board: Board, layer: string, first: string, second: string) {
    && board.fold(layer) in board.order && board.fold(first) in board.order && board.fold(second) in board.order
    && var t, a, b := board.order[board.fold(layer)], board.order[board.fold(first)], board.order[board.fold(second)];
    && ((a <= t && t <= b) || (b <= t && t <= a))
  }

  /** A drilled, unrotated copper barrel straight down between two known nodes on two known layers. */
  predicate Barrel(board: Board, v: Via) {
    && (v.net, v.upper) in board.nodes && (v.net, v.lower) in board.nodes && board.fold(v.padstack) in board.padstacks
    && var upper, lower, pad := board.nodes[(v.net, v.upper)], board.nodes[(v.net, v.lower)], board.padstacks[board.fold(v.padstack)];
    && pad.drill.Some? && pad.drill.value > 0.0 && (pad.material.Some? ==> board.fold(pad.material.value) in ["copper", "cu"])
    && (pad.material.None? ==> board.fold("") in ["copper", "cu"])
    && v.quarter && (upper.x, upper.y) == (lower.x, lower.y)
    && board.fold(upper.layer) in board.order && board.fold(lower.layer) in board.order
    && board.fold(upper.layer) != board.fold(lower.layer)
  }

  /** One step along the copper: a trace within a layer or a barrel, either way. */
  predicate Hop(board: Board, traces: seq<Trace>, vias: seq<Via>, a: Key, b: Key) {
    || (exists t :: t in traces && a in board.nodes && b in board.nodes
                    && board.fold(board.nodes[a].layer) == board.fold(board.nodes[b].layer)
                    && ((a == (t.net, t.first) && b == (t.net, t.second)) || (b == (t.net, t.first) && a == (t.net, t.second))))
    || (exists v :: v in vias && Barrel(board, v)
                    && ((a == (v.net, v.upper) && b == (v.net, v.lower)) || (b == (v.net, v.upper) && a == (v.net, v.lower))))
  }

  ghost predicate Route(board: Board, traces: seq<Trace>, vias: seq<Via>, path: seq<Key>, seed: Key, end: Key) {
    && path != [] && path[0] == seed && path[|path| - 1] == end
    && forall i :: 0 <= i < |path| - 1 ==> Hop(board, traces, vias, path[i], path[i + 1])
  }

  ghost predicate RouteToPlane(board: Board, traces: seq<Trace>, vias: seq<Via>, seed: Key, path: seq<Key>, v: Via, plane: Plane) {
    && Route(board, traces, vias, path, seed, (v.net, v.upper)) && Barrel(board, v)
    && var upper, lower := board.nodes[(v.net, v.upper)], board.nodes[(v.net, v.lower)];
    && Between(board, plane.layer, upper.layer, lower.layer) && plane.copper(upper.x, upper.y)
  }

  /** From the seed a route along the copper reaches a barrel that passes through one of the planes, inside its copper. */
  ghost predicate Escaping(board: Board, traces: seq<Trace>, vias: seq<Via>, planes: seq<Plane>, seed: Key) {
    && seed in board.nodes
    && exists path, v, plane :: v in vias && plane in planes && RouteToPlane(board, traces, vias, seed, path, v, plane)
  }

  /** A site of a receiver: some seed it belongs to has a route to one of the rail's planes. */
  ghost predicate SiteOf(board: Board, traces: seq<Trace>, vias: seq<Via>, planes: seq<Plane>, seeds: Seeds, site: string) {
    exists k :: 0 <= k < |seeds| && site in seeds[k].1 && Escaping(board, traces, vias, planes, seeds[k].0)
  }

  /** Some seed has a route to a rail that was not requested under the key its artwork has. */
  ghost predicate StopsFor(board: Board, traces: seq<Trace>, vias: seq<Via>, seeds: Seeds, artwork: Artwork, requested: set<string>) {
    exists r, k :: 0 <= r < |artwork| && 0 <= k < |seeds| && artwork[r].0 !in requested
                   && Escaping(board, traces, vias, artwork[r].1, seeds[k].0)
  }

  lemma ReportIs(board: Board, traces: seq<Trace>, vias: seq<Via>, seeds: Seeds, artwork: Artwork, requested: set<string>)
    ensures Unlisted(board, RouteEdges(board, traces, vias), vias, seeds, artwork, requested) <==>
            StopsFor(board, traces, vias, seeds, artwork, requested)
    ensures forall r, site :: 0 <= r < |artwork| ==>
              (Eligible(board, RouteEdges(board, traces, vias), vias, artwork[r].1, seeds, site) <==>
               SiteOf(board, traces, vias, artwork[r].1, seeds, site))
  {
    hide Escapes, Escaping, RouteEdges;
    var edges := RouteEdges(board, traces, vias);
    forall planes, seed ensures Escapes(board, edges, vias, planes, seed) <==> Escaping(board, traces, vias, planes, seed) {
      EscapingIs(board, traces, vias, planes, seed);
    }
  }

  lemma SpanIs(board: Board, layer: string, first: string, second: string)
    ensures SpanIncludes(board, layer, first, second) <==> Between(board, layer, first, second)
  {
  }

  lemma ViaIs(board: Board, v: Via)
    ensures ValidVia(board, v) <==> Barrel(board, v)
  {
    if Barrel(board, v) || ValidVia(board, v) {
      var upper, lower := board.nodes[(v.net, v.upper)], board.nodes[(v.net, v.lower)];
      SpanIs(board, upper.layer, upper.layer, lower.layer);
    }
  }

  lemma HopIs(board: Board, traces: seq<Trace>, vias: seq<Via>, a: Key, b: Key)
    ensures Adjacent(RouteEdges(board, traces, vias), a, b) <==> Hop(board, traces, vias, a, b)
  {
    hide ValidVia, Barrel;
    forall v | v in vias ensures ValidVia(board, v) <==> Barrel(board, v) {
      ViaIs(board, v);
    }
    if t :| t in traces && a in board.nodes && b in board.nodes
            && board.fold(board.nodes[a].layer) == board.fold(board.nodes[b].layer)
            && ((a == (t.net, t.first) && b == (t.net, t.second)) || (b == (t.net, t.first) && a == (t.net, t.second)))
    {
      assert ValidTrace(board, t);
    }
  }

  lemma EscapingIs(board: Board, traces: seq<Trace>, vias: seq<Via>, planes: seq<Plane>, seed: Key)
    ensures Escapes(board, RouteEdges(board, traces, vias), vias, planes, seed) <==> Escaping(board, traces, vias, planes, seed)
  {
    hide ValidVia, Barrel, RouteEdges, Hop, SpanIncludes, Between;
    var edges := RouteEdges(board, traces, vias);
    forall a, b ensures Adjacent(edges, a, b) <==> Hop(board, traces, vias, a, b) {
      HopIs(board, traces, vias, a, b);
    }
    if Escapes(board, edges, vias, planes, seed) {
      var v, plane :| v in vias && ValidVia(board, v) && plane in planes && Lands(board, v, plane) && Connected(edges, seed, (v.net, v.upper));
      var path :| WalkBetween(edges, path, seed, (v.net, v.upper));
      ViaIs(board, v);
      ViaEnds(board, v);
      SpanIs(board, plane.layer, board.nodes[(v.net, v.upper)].layer, board.nodes[(v.net, v.lower)].layer);
      assert Route(board, traces, vias, path, seed, (v.net, v.upper));
      assert RouteToPlane(board, traces, vias, seed, path, v, plane);
    }
    if Escaping(board, traces, vias, planes, seed) {
      var path, v, plane :| v in vias && plane in planes && RouteToPlane(board, traces, vias, seed, path, v, plane);
      ViaIs(board, v);
      ViaEnds(board, v);
      SpanIs(board, plane.layer, board.nodes[(v.net, v.upper)].layer, board.nodes[(v.net, v.lower)].layer);
      assert WalkBetween(edges, path, seed, (v.net, v.upper));
      assert Connected(edges, seed, (v.net, v.upper));
    }
  }

  lemma ViaEnds(board: Board, v: Via)
    requires ValidVia(board, v)
    ensures (v.net, v.upper) in board.nodes && (v.net, v.lower) in board.nodes
  {
  }

  /** The artwork is that of the requests: its keys are their folded ids. */
  ghost predicate ArtworkOfRequests(board: Board, artwork: Artwork, requested: set<string>) {
    && (forall r :: 0 <= r < |artwork| ==> exists id :: id in requested && artwork[r].0 == board.fold(id))
    && (forall id :: id in requested ==> exists r :: 0 <= r < |artwork| && artwork[r].0 == board.fold(id))
  }

  /** A request whose folded form is no request itself, though some seed reaches its rail. */
  ghost predicate Misspelled(board: Board, edges: Edges<Key>, vias: seq<Via>, seeds: Seeds, artwork: Artwork, requested: set<string>, id: string) {
    && id in requested && board.fold(id) !in requested
    && exists r, k :: 0 <= r < |artwork| && 0 <= k < |seeds| && artwork[r].0 == board.fold(id)
                      && Escapes(board, edges, vias, artwork[r].1, seeds[k].0)
  }

  /** The run stops exactly if some request is spelled otherwise than folded, its folded form is not requested too, and its rail is served. */
  lemma UnlistedIsMisspelled(board: Board, edges: Edges<Key>, vias: seq<Via>, seeds: Seeds, artwork: Artwork, requested: set<string>)
    requires ArtworkOfRequests(board, artwork, requested)
    ensures Unlisted(board, edges, vias, seeds, artwork, requested) <==>
            exists id :: Misspelled(board, edges, vias, seeds, artwork, requested, id)
  {
    hide Escapes;
    if Unlisted(board, edges, vias, seeds, artwork, requested) {
      var r, k :| 0 <= r < |artwork| && 0 <= k < |seeds| && artwork[r].0 !in requested && Escapes(board, edges, vias, artwork[r].1, seeds[k].0);
      var id :| id in requested && artwork[r].0 == board.fold(id);
      assert Misspelled(board, edges, vias, seeds, artwork, requested, id);
    }
  }

  /** Requests spelled in folded form always have their table entry. */
  lemma FoldedRequestsAreListed(board: Board, edges: Edges<Key>, vias: seq<Via>, seeds: Seeds, artwork: Artwork, requested: set<string>)
    requires ArtworkOfRequests(board, artwork, requested) && forall id :: id in requested ==> board.fold(id) in requested
    ensures !Unlisted(board, edges, vias, seeds, artwork, requested)
  {
    UnlistedIsMisspelled(board, edges, vias, seeds, artwork, requested);
  }

  /** One served receiver spelled with a capital stops the report. */
  lemma CapitalRequestIsUnlisted()
    ensures exists board: Board, traces, vias, seeds, artwork ::
              artwork == [(board.fold("RX"), [Plane("l1", (x: real, y: real) => true)])]
              && Unlisted(board, RouteEdges(board, traces, vias), vias, seeds, artwork, {"RX"})
  {
    var fold: Fold := s => if s == "RX" then "rx" else s;
    var board := Board(
      map[("n", 1) := Node("n", "l1", 0.0, 0.0), ("n", 2) := Node("n", "l2", 0.0, 0.0)],
      map["p" := PadStack(Some(1.0), Some("cu"))],
      map["l1" := 0, "l2" := 1],
      fold);
    var via := Via("n", "v", 1, 2, "p", true);
    var plane := Plane("l1", (x: real, y: real) => true);
    var vias, seeds, artwork := [via], [(("n", 1), {"C1"})], [("rx", [plane])];
    var edges := RouteEdges(board, [], vias);
    assert "l1"[1] != "l2"[1];
    assert ValidVia(board, via) && Lands(board, via, plane);
    ConnectedToSelf(edges, ("n", 1));
    assert via in vias && plane in [plane];
    assert Escapes(board, edges, vias, [plane], ("n", 1));
    assert "rx" != "RX" by { assert "rx"[0] != "RX"[0]; }
    assert artwork[0].0 !in {"RX"} && Escapes(board, edges, vias, artwork[0].1, seeds[0].0);
    assert Unlisted(board, edges, vias, seeds, artwork, {"RX"});
  }
}
