/** Graphs of containers, and the trees they unfold to. */
module GraphEmit {
  // The recursive encoder over a graph of containers that may share children or form cycles: the
  // containers being visited are kept in one mutable set.

  import opened ByteStrings
  import opened KeyOrder
  import opened CanonicalJson

  /** The identity of a container object. */
  type Id = nat

  datatype Item = Leaf(value: Json) | Container(id: Id)

  datatype Node =
    | MappingNode(entries: seq<Pair<Item>>)
    | SequenceNode(children: seq<Item>)

  type Graph = map<Id, Node>

  predicate Scalar(v: Json) {
    !v.Array? && !v.Object? && WellFormed(v)
  }

  predicate Known(g: Graph, item: Item) {
    match item
    case Leaf(value) => Scalar(value)
    case Container(id) => id in g
  }

  /** The items a container holds, in its own order. */
  function Children(node: Node): (r: seq<Item>)
    ensures match node
            case MappingNode(entries) => |r| == |entries| && forall i :: 0 <= i < |r| ==> r[i] == entries[i].value
            case SequenceNode(children) => r == children
  {
    match node
    case MappingNode(entries) => seq(|entries|, i requires 0 <= i < |entries| => entries[i].value)
    case SequenceNode(children) => children
  }

  /** A finite graph of containers with string keys, none twice in a mapping, and encodable scalars. */
  ghost predicate ValidGraph(g: Graph) {
    forall id :: id in g ==> ValidNode(g, g[id])
  }

  predicate ValidNode(g: Graph, node: Node) {
    match node
    case SequenceNode(children) => forall i :: 0 <= i < |children| ==> Known(g, children[i])
    case MappingNode(entries) => DistinctKeys(entries) && forall i :: 0 <= i < |entries| ==> Known(g, entries[i].value)
  }

  // ---- the tree a graph unfolds to ----

  /** The tree is what the item looks like when every container is written out in place. */
  ghost predicate Unfolds(g: Graph, item: Item, tree: Json)
    decreases tree
  {
    match item
    case Leaf(value) => tree == value
    case Container(id) =>
      id in g &&
      match g[id]
      case SequenceNode(children) =>
        && tree.Array? && |tree.items| == |children|
        && forall i :: 0 <= i < |children| ==> Unfolds(g, children[i], tree.items[i])
      case MappingNode(entries) =>
        && tree.Object? && |tree.fields| == |entries|
        && forall i :: 0 <= i < |entries| ==>
             tree.fields[i].key == entries[i].key && Unfolds(g, entries[i].value, tree.fields[i].value)
  }

  /** The unfolding met by a visit that has the given containers open, or None if it meets one of them. */
  ghost function Unfold(g: Graph, item: Item, active: set<Id>): Option<Json>
    requires ValidGraph(g) && Known(g, item)
    decreases |g.Keys - active|, 1
  {
    match item
    case Leaf(value) => Some(value)
    case Container(id) =>
      if id in active then None
      else
        Smaller(g, id, active);
        match g[id]
        case SequenceNode(children) =>
          var items := UnfoldItems(g, children, active + {id});
          if items.None? then None else Some(Array(items.value))
        case MappingNode(entries) =>
          var fields := UnfoldEntries(g, entries, active + {id});
          if fields.None? then None else Some(Object(fields.value))
  }

  lemma Smaller(g: Graph, id: Id, active: set<Id>)
    requires id in g && id !in active
    ensures |g.Keys - (active + {id})| < |g.Keys - active|
  {
    assert g.Keys - active == (g.Keys - (active + {id})) + {id};
  }

  ghost function UnfoldItems(g: Graph, items: seq<Item>, active: set<Id>): (r: Option<seq<Json>>)
    requires ValidGraph(g) && forall i :: 0 <= i < |items| ==> Known(g, items[i])
    ensures r.Some? <==> forall i :: 0 <= i < |items| ==> Unfold(g, items[i], active).Some?
    ensures r.Some? ==> |r.value| == |items| && forall i :: 0 <= i < |items| ==> Unfold(g, items[i], active) == Some(r.value[i])
    decreases |g.Keys - active|, 2, |items|
  {
    if items == [] then Some([])
    else
      var head := Unfold(g, items[0], active);
      var tail := UnfoldItems(g, items[1..], active);
      if head.None? || tail.None? then None else Some([head.value] + tail.value)
  }

  ghost function UnfoldEntries(g: Graph, entries: seq<Pair<Item>>, active: set<Id>): (r: Option<seq<Pair<Json>>>)
    requires ValidGraph(g) && forall i :: 0 <= i < |entries| ==> Known(g, entries[i].value)
    ensures r.Some? <==> forall i :: 0 <= i < |entries| ==> Unfold(g, entries[i].value, active).Some?
    ensures r.Some? ==> |r.value| == |entries| && forall i :: 0 <= i < |entries| ==>
              r.value[i].key == entries[i].key && Unfold(g, entries[i].value, active) == Some(r.value[i].value)
    decreases |g.Keys - active|, 2, |entries|
  {
    if entries == [] then Some([])
    else
      var head := Unfold(g, entries[0].value, active);
      var tail := UnfoldEntries(g, entries[1..], active);
      if head.None? || tail.None? then None else Some([Pair(entries[0].key, head.value)] + tail.value)
  }

  /** A visit that succeeds has found the unfolded tree, a JSON value. */
  lemma {:induction false} UnfoldIsUnfolding(g: Graph, item: Item, active: set<Id>)
    requires ValidGraph(g) && Known(g, item) && Unfold(g, item, active).Some?
    ensures Unfolds(g, item, Unfold(g, item, active).value) && WellFormed(Unfold(g, item, active).value)
    decreases |g.Keys - active|
  {
    if item.Container? {
      Smaller(g, item.id, active);
      var inner := active + {item.id};
      match g[item.id]
      case SequenceNode(children) =>
        var items := UnfoldItems(g, children, inner).value;
        forall i | 0 <= i < |children| ensures Unfolds(g, children[i], items[i]) && WellFormed(items[i]) {
          UnfoldIsUnfolding(g, children[i], inner);
        }
      case MappingNode(entries) =>
        var fields := UnfoldEntries(g, entries, inner).value;
        forall i | 0 <= i < |entries| ensures Unfolds(g, entries[i].value, fields[i].value) && WellFormed(fields[i].value) {
          assert Children(g[item.id])[i] == entries[i].value;
          UnfoldIsUnfolding(g, entries[i].value, inner);
        }
    }
  }

  /** There is at most one unfolded tree. */
  lemma {:induction false} UnfoldingIsUnique(g: Graph, item: Item, s: Json, t: Json)
    requires Unfolds(g, item, s) && Unfolds(g, item, t)
    ensures s == t
    decreases s
  {
    if item.Container? {
      match g[item.id]
      case SequenceNode(children) =>
        forall i | 0 <= i < |children| ensures s.items[i] == t.items[i] {
          UnfoldingIsUnique(g, children[i], s.items[i], t.items[i]);
        }
        assert s.items == t.items;
      case MappingNode(entries) =>
        forall i | 0 <= i < |entries| ensures s.fields[i] == t.fields[i] {
          UnfoldingIsUnique(g, entries[i].value, s.fields[i].value, t.fields[i].value);
        }
        assert s.fields == t.fields;
    }
  }

  // ---- cycles ----

  ghost predicate Edge(g: Graph, a: Id, b: Id) {
    a in g && Container(b) in Children(g[a])
  }

  ghost predicate Path(g: Graph, p: seq<Id>) {
    p != [] && (forall i :: 0 <= i < |p| ==> p[i] in g) && forall i :: 0 <= i < |p| - 1 ==> Edge(g, p[i], p[i + 1])
  }

  ghost predicate PathBetween(g: Graph, p: seq<Id>, a: Id, b: Id) {
    Path(g, p) && p[0] == a && p[|p| - 1] == b
  }

  /** Some container reachable from the item lies on a cycle. */
  ghost predicate ReachesCycle(g: Graph, item: Item) {
    item.Container? && exists p, q, c :: PathBetween(g, p, item.id, c) && PathBetween(g, q, c, c) && |q| >= 2
  }

  /** A path into an open container or back into itself. */
  ghost predicate Lasso(g: Graph, p: seq<Id>, active: set<Id>) {
    Path(g, p) && (p[|p| - 1] in active || p[|p| - 1] in p[..|p| - 1])
  }

  ghost predicate ReachesLasso(g: Graph, item: Item, active: set<Id>) {
    item.Container? && exists p :: Lasso(g, p, active) && p[0] == item.id
  }

  lemma {:induction false} FailureHasLasso(g: Graph, item: Item, active: set<Id>) returns (p: seq<Id>)
    requires ValidGraph(g) && Known(g, item) && Unfold(g, item, active).None?
    ensures item.Container? && Lasso(g, p, active) && p[0] == item.id
    decreases |g.Keys - active|
  {
    var id := item.id;
    if id in active {
      p := [id];
    } else {
      Smaller(g, id, active);
      var children := Children(g[id]);
      var k := FailingChild(g, id, active);
      var tail := FailureHasLasso(g, children[k], active + {id});
      p := [id] + tail;
      LassoExtends(g, id, tail, active);
    }
  }

  lemma FailingChild(g: Graph, id: Id, active: set<Id>) returns (k: nat)
    requires ValidGraph(g) && id in g && id !in active && Unfold(g, Container(id), active).None?
    ensures k < |Children(g[id])| && Unfold(g, Children(g[id])[k], active + {id}).None?
  {
    Smaller(g, id, active);
    match g[id]
    case SequenceNode(children) =>
      k :| 0 <= k < |children| && Unfold(g, children[k], active + {id}).None?;
    case MappingNode(entries) =>
      k :| 0 <= k < |entries| && Unfold(g, entries[k].value, active + {id}).None?;
      assert Children(g[id])[k] == entries[k].value;
  }

  lemma LassoExtends(g: Graph, id: Id, tail: seq<Id>, active: set<Id>)
    requires id in g && Lasso(g, tail, active + {id}) && Edge(g, id, tail[0])
    ensures Lasso(g, [id] + tail, active)
  {
    var p := [id] + tail;
    var last := tail[|tail| - 1];
    assert p[|p| - 1] == last && p[..|p| - 1] == [id] + tail[..|tail| - 1];
    assert last in tail[..|tail| - 1] ==> last in p[..|p| - 1];
  }

  lemma {:induction false} LassoFails(g: Graph, item: Item, active: set<Id>, p: seq<Id>)
    requires ValidGraph(g) && Known(g, item) && item.Container? && Lasso(g, p, active) && p[0] == item.id
    ensures Unfold(g, item, active).None?
    decreases |p|
  {
    var id := item.id;
    if id !in active {
      Smaller(g, id, active);
      var tail := p[1..];
      assert |p| > 1;
      assert Edge(g, p[0], p[1]);
      assert p[..|p| - 1] == [id] + tail[..|tail| - 1];
      PathPart(g, p, 1, |p|);
      assert p[1..|p|] == tail;
      assert Lasso(g, tail, active + {id});
      LassoFails(g, Container(tail[0]), active + {id}, tail);
      var k :| 0 <= k < |Children(g[id])| && Children(g[id])[k] == Container(tail[0]);
      if g[id].MappingNode? {
        assert Unfold(g, g[id].entries[k].value, active + {id}).None?;
      }
    }
  }

  /** Visiting from the top, a lasso and a reachable cycle are the same thing. */
  lemma LassoIsCycle(g: Graph, item: Item)
    ensures ReachesLasso(g, item, {}) <==> ReachesCycle(g, item)
  {
    if ReachesLasso(g, item, {}) {
      var p :| Lasso(g, p, {}) && p[0] == item.id;
      var c := p[|p| - 1];
      var i :| 0 <= i < |p| - 1 && p[i] == c;
      assert PathBetween(g, p, item.id, c);
      PathPart(g, p, i, |p|);
      assert PathBetween(g, p[i..|p|], c, c);
    }
    if ReachesCycle(g, item) {
      var p, q, c :| PathBetween(g, p, item.id, c) && PathBetween(g, q, c, c) && |q| >= 2;
      var r := p + q[1..];
      assert Path(g, r) by {
        forall j | 0 <= j < |r| - 1 ensures Edge(g, r[j], r[j + 1]) {
          if j < |p| - 1 {
            assert Edge(g, p[j], p[j + 1]);
          } else {
            assert Edge(g, q[j - |p| + 1], q[j - |p| + 2]);
          }
        }
      }
      assert r[|p| - 1] == c && r[|r| - 1] == c;
      assert r[..|r| - 1][|p| - 1] == c;
      assert Lasso(g, r, {}) && r[0] == item.id;
    }
  }

  /**
   The encoder's verdict: from the top it fails exactly when some reachable container lies on a
   cycle; otherwise the item unfolds to a tree, so shared children without a cycle are allowed.
   */
  lemma UnfoldFailsOnCycles(g: Graph, item: Item)
    requires ValidGraph(g) && Known(g, item)
    ensures Unfold(g, item, {}).None? <==> ReachesCycle(g, item)
    ensures !ReachesCycle(g, item) <==> exists tree :: Unfolds(g, item, tree)
  {
    LassoIsCycle(g, item);
    if Unfold(g, item, {}).None? {
      var p := FailureHasLasso(g, item, {});
      assert ReachesLasso(g, item, {});
    } else {
      UnfoldIsUnfolding(g, item, {});
      var tree := Unfold(g, item, {}).value;
      assert Unfolds(g, item, tree);
    }
    if ReachesLasso(g, item, {}) {
      var p :| Lasso(g, p, {}) && p[0] == item.id;
      LassoFails(g, item, {}, p);
      forall tree ensures !Unfolds(g, item, tree) {
        TreesHaveNoLasso(g, item, tree, p);
      }
    }
  }

  /** A finite tree cannot unfold a path that comes back to one of its own containers. */
  lemma {:induction false} TreesHaveNoLasso(g: Graph, item: Item, tree: Json, p: seq<Id>)
    requires item.Container? && Lasso(g, p, {}) && p[0] == item.id
    ensures !Unfolds(g, item, tree)
  {
    if Unfolds(g, item, tree) {
      var c := p[|p| - 1];
      var i :| 0 <= i < |p| - 1 && p[i] == c;
      PathPart(g, p, 0, i + 1);
      PathPart(g, p, i, |p|);
      var outer := Descend(g, tree, p[0..i + 1]);
      var inner := Descend(g, outer, p[i..|p|]);
      UnfoldingIsUnique(g, Container(c), outer, inner);
    }
  }

  lemma PathPart(g: Graph, p: seq<Id>, i: nat, k: nat)
    requires Path(g, p) && i < k <= |p|
    ensures Path(g, p[i..k])
  {
    forall j | 0 <= j < |p[i..k]| - 1 ensures Edge(g, p[i..k][j], p[i..k][j + 1]) {
      assert Edge(g, p[i + j], p[i + j + 1]);
    }
  }

  /** The subtree at the end of a path, smaller than the tree unless the path is a single container. */
  lemma {:induction false} Descend(g: Graph, tree: Json, p: seq<Id>) returns (sub: Json)
    requires Path(g, p) && Unfolds(g, Container(p[0]), tree)
    ensures Unfolds(g, Container(p[|p| - 1]), sub)
    ensures |p| == 1 ==> sub == tree
    ensures |p| > 1 ==> sub < tree
    decreases |p|
  {
    if |p| == 1 {
      sub := tree;
    } else {
      assert Edge(g, p[0], p[1]);
      var k :| 0 <= k < |Children(g[p[0]])| && Children(g[p[0]])[k] == Container(p[1]);
      var child := if tree.Array? then tree.items[k] else tree.fields[k].value;
      assert Unfolds(g, Container(p[1]), child);
      assert child < tree;
      PathPart(g, p, 1, |p|);
      assert p[1..|p|] == p[1..];
      sub := Descend(g, child, p[1..]);
    }
  }
}
