/** The encoder: a recursive visit that marks the open containers. */
module CanonicalEmitter {
  import opened ByteStrings
  import opened KeyOrder
  import opened CanonicalJson
  import opened GraphEmit

  // ---- appending one more item or field ----

  lemma {:induction false} PrintItemsAppend(items: seq<Json>, v: Json, first: bool)
    ensures PrintItems(items + [v], first) ==
            PrintItems(items, first) + ((if first && items == [] then [] else [COMMA]) + Print(v))
    decreases |items|
  {
    if items == [] {
      assert items + [v] == [v] && PrintItems([v][1..], false) == [];
    } else {
      assert (items + [v])[1..] == items[1..] + [v];
      PrintItemsAppend(items[1..], v, false);
    }
  }

  lemma {:induction false} PrintFieldsAppend(fields: seq<Pair<Json>>, p: Pair<Json>, first: bool)
    ensures PrintFields(fields + [p], first) ==
            PrintFields(fields, first) + ((if first && fields == [] then [] else [COMMA]) + (Quote(p.key) + ([COLON] + Print(p.value))))
    decreases |fields|
  {
    if fields == [] {
      assert fields + [p] == [p] && PrintFields([p][1..], false) == [];
    } else {
      assert (fields + [p])[1..] == fields[1..] + [p];
      PrintFieldsAppend(fields[1..], p, false);
      var mark: Bytes := if first then [] else [COMMA];
      Regroup(mark, Quote(fields[0].key), Print(fields[0].value), PrintFields(fields[1..], false),
              [COMMA] + (Quote(p.key) + ([COLON] + Print(p.value))));
    }
  }

  // ---- what the visits of a container's children add up to ----

  /** The printed form of an item's unfolding is known and is this value. */
  ghost predicate Emits(g: Graph, active: set<Id>, item: Item, v: Json) {
    ValidGraph(g) && Known(g, item) && Unfold(g, item, active).Some? && v == Normal(Unfold(g, item, active).value)
  }

  lemma SequenceEmits(g: Graph, id: Id, active: set<Id>, done: seq<Json>)
    requires ValidGraph(g) && id in g && id !in active && g[id].SequenceNode? && |done| == |g[id].children|
    requires forall i :: 0 <= i < |done| ==> Emits(g, active + {id}, g[id].children[i], done[i])
    ensures Emits(g, active, Container(id), Array(done))
  {
    Smaller(g, id, active);
    var items := UnfoldItems(g, g[id].children, active + {id}).value;
    assert NormalItems(items) == done;
  }

  lemma MappingEmits(g: Graph, id: Id, active: set<Id>, done: seq<Pair<Json>>)
    requires ValidGraph(g) && id in g && id !in active && g[id].MappingNode? && |done| == |g[id].entries|
    requires forall i :: 0 <= i < |done| ==>
               done[i].key == Sort(g[id].entries)[i].key && Emits(g, active + {id}, Sort(g[id].entries)[i].value, done[i].value)
    ensures Emits(g, active, Container(id), Object(done))
  {
    Smaller(g, id, active);
    var entries, inner := g[id].entries, active + {id};
    var sorted := Sort(entries);
    forall i | 0 <= i < |entries| ensures Unfold(g, entries[i].value, inner).Some? {
      assert entries[i] in sorted;
      var j :| 0 <= j < |sorted| && sorted[j] == entries[i];
      assert Emits(g, inner, sorted[j].value, done[j].value);
    }
    var fields := UnfoldEntries(g, entries, inner).value;
    var normal := NormalFields(fields);
    SortCarries(entries, normal, (item, v) => Emits(g, inner, item, v));
    assert Sort(normal) == done;
  }

  /** The first items of a sequence have been emitted as these. */
  ghost predicate ItemsDone(g: Graph, active: set<Id>, children: seq<Item>, done: seq<Json>) {
    |done| <= |children| && forall j :: 0 <= j < |done| ==> Emits(g, active, children[j], done[j])
  }

  predicate ItemsWritten(start: Bytes, done: seq<Json>, output: Bytes) {
    output == start + PrintItems(done, true)
  }

  lemma OneMoreItem(g: Graph, active: set<Id>, children: seq<Item>, done: seq<Json>, v: Json)
    requires ItemsDone(g, active, children, done) && |done| < |children| && Emits(g, active, children[|done|], v)
    ensures ItemsDone(g, active, children, done + [v])
  {
  }

  lemma OneMoreItemText(start: Bytes, done: seq<Json>, v: Json, before: Bytes, output: Bytes)
    requires ItemsWritten(start, done, before)
    requires output == before + ((if |done| == 0 then [] else [COMMA]) + ([] + Print(v)))
    ensures ItemsWritten(start, done + [v], output)
  {
    ItemStep(start, done, v);
  }

  /** The first fields of a mapping have been emitted as these. */
  ghost predicate FieldsDone(g: Graph, active: set<Id>, sorted: seq<Pair<Item>>, done: seq<Pair<Json>>) {
    |done| <= |sorted| && forall j :: 0 <= j < |done| ==> done[j].key == sorted[j].key && Emits(g, active, sorted[j].value, done[j].value)
  }

  predicate FieldsWritten(start: Bytes, done: seq<Pair<Json>>, output: Bytes) {
    output == start + PrintFields(done, true)
  }

  lemma NoFields(start: Bytes)
    ensures FieldsWritten(start, [], start)
  {
  }

  lemma OneMoreField(g: Graph, active: set<Id>, sorted: seq<Pair<Item>>, done: seq<Pair<Json>>, v: Json)
    requires FieldsDone(g, active, sorted, done) && |done| < |sorted| && Emits(g, active, sorted[|done|].value, v)
    ensures FieldsDone(g, active, sorted, done + [Pair(sorted[|done|].key, v)])
  {
  }

  lemma OneMoreText(start: Bytes, done: seq<Pair<Json>>, p: Pair<Json>, before: Bytes, output: Bytes)
    requires FieldsWritten(start, done, before)
    requires output == before + ((if |done| == 0 then [] else [COMMA]) + ((Quote(p.key) + [COLON]) + Print(p.value)))
    ensures FieldsWritten(start, done + [p], output)
  {
    FieldStep(start, done, p);
  }

  lemma SequenceFails(g: Graph, id: Id, active: set<Id>, i: nat)
    requires ValidGraph(g) && id in g && id !in active && g[id].SequenceNode? && i < |g[id].children|
    requires Unfold(g, g[id].children[i], active + {id}).None?
    ensures Unfold(g, Container(id), active).None?
  {
    Smaller(g, id, active);
  }

  lemma MappingFails(g: Graph, id: Id, active: set<Id>, i: nat)
    requires ValidGraph(g) && id in g && id !in active && g[id].MappingNode? && i < |g[id].entries|
    requires Known(g, Sort(g[id].entries)[i].value) && Unfold(g, Sort(g[id].entries)[i].value, active + {id}).None?
    ensures Unfold(g, Container(id), active).None?
  {
    Smaller(g, id, active);
    assert Sort(g[id].entries)[i] in g[id].entries;
  }

  lemma SortedAreKnown(g: Graph, id: Id)
    requires ValidGraph(g) && id in g && g[id].MappingNode?
    ensures forall i :: 0 <= i < |g[id].entries| ==> Known(g, Sort(g[id].entries)[i].value)
  {
    var entries := g[id].entries;
    forall i | 0 <= i < |entries| ensures Known(g, Sort(entries)[i].value) {
      assert Sort(entries)[i] in entries;
    }
  }

  class Emitter {
    const g: Graph
    var active: set<Id>
    var output: Bytes

    constructor (g: Graph)
      ensures this.g == g && active == {} && output == []
    {
      this.g := g;
      active, output := {}, [];
    }

    /** Visit one item. Whatever happens, the set of open containers is restored. */
    method Emit(item: Item) returns (ok: bool)
      requires ValidGraph(g) && Known(g, item)
      modifies this
      ensures active == old(active)
      ensures ok <==> Unfold(g, item, active).Some?
      ensures ok ==> output == old(output) + Encode(Unfold(g, item, active).value)
      decreases |g.Keys - active|, 1
    {
      match item {
        case Leaf(value) =>
          output := output + Print(value);
          ok := true;
        case Container(id) =>
          if id in active {
            return false;
          }
          ghost var before := active;
          Smaller(g, id, active);
          active := active + {id};
          if g[id].MappingNode? {
            ok := EmitMapping(id, before);
          } else {
            ok := EmitSequence(id, before);
          }
          active := active - {id};
          assert active == before;
          assert ok ==> Unfold(g, item, before).Some?;
      }
    }

    /** One element of a container, with the comma and the key it needs; v is its printed value. */
    method EmitElement(first: bool, lead: Bytes, item: Item) returns (ok: bool, ghost v: Json)
      requires ValidGraph(g) && Known(g, item)
      modifies this
      ensures active == old(active)
      ensures ok ==> Emits(g, active, item, v) && output == old(output) + ((if first then [] else [COMMA]) + (lead + Print(v)))
      ensures !ok ==> Unfold(g, item, active).None?
      decreases |g.Keys - active|, 2
    {
      ghost var start := output;
      v := Null;
      if !first {
        output := output + [COMMA];
      }
      output := output + lead;
      ok := Emit(item);
      if ok {
        v := Normal(Unfold(g, item, active).value);
        ghost var mark: Bytes := if first then [] else [COMMA];
        assert output == ((start + mark) + lead) + Print(v) by {
          assert start + [] == start;
        }
        Join(start, mark, lead, Print(v));
      }
    }

    method EmitSequence(id: Id, ghost before: set<Id>) returns (ok: bool)
      requires ValidGraph(g) && id in g && id !in before && active == before + {id} && g[id].SequenceNode?
      modifies this
      ensures active == old(active)
      ensures ok ==> exists v :: Emits(g, before, Container(id), v) && output == old(output) + Print(v)
      ensures !ok ==> Unfold(g, Container(id), before).None?
      decreases |g.Keys - active|, 3
    {
      var children := g[id].children;
      ghost var start := output;
      ghost var done: seq<Json> := [];
      output := output + [OPEN_BRACKET];
      assert ItemsWritten(start + [OPEN_BRACKET], done, output);
      var i := 0;
      while i < |children|
        invariant 0 <= i <= |children| && |done| == i && active == before + {id}
        invariant ItemsDone(g, active, children, done) && ItemsWritten(start + [OPEN_BRACKET], done, output)
      {
        ghost var v;
        ghost var previous := output;
        ok, v := EmitElement(i == 0, [], children[i]);
        if !ok {
          SequenceFails(g, id, before, i);
          return false;
        }
        OneMoreItem(g, active, children, done, v);
        OneMoreItemText(start + [OPEN_BRACKET], done, v, previous, output);
        done := done + [v];
        i := i + 1;
      }
      output := output + [CLOSE_BRACKET];
      SequenceEmits(g, id, before, done);
      Join(start, [OPEN_BRACKET], PrintItems(done, true), [CLOSE_BRACKET]);
      assert Emits(g, before, Container(id), Array(done)) && output == start + Print(Array(done));
      return true;
    }

    /** The fields of a mapping whose keys are already sorted; done holds their printed values. */
    method EmitFields(sorted: seq<Pair<Item>>) returns (ok: bool, ghost done: seq<Pair<Json>>)
      requires ValidGraph(g) && forall i :: 0 <= i < |sorted| ==> Known(g, sorted[i].value)
      modifies this
      ensures active == old(active)
      ensures ok ==> |done| == |sorted| && output == old(output) + PrintFields(done, true)
      ensures ok ==> forall j :: 0 <= j < |sorted| ==> done[j].key == sorted[j].key && Emits(g, active, sorted[j].value, done[j].value)
      ensures !ok ==> exists i :: 0 <= i < |sorted| && Unfold(g, sorted[i].value, active).None?
      decreases |g.Keys - active|, 3
    {
      ghost var start := output;
      done := [];
      NoFields(start);
      var i := 0;
      while i < |sorted|
        invariant 0 <= i <= |sorted| && |done| == i && active == old(active)
        invariant FieldsDone(g, active, sorted, done) && FieldsWritten(start, done, output)
      {
        ghost var v;
        ghost var before := output;
        ok, v := EmitElement(i == 0, Quote(sorted[i].key) + [COLON], sorted[i].value);
        if !ok {
          return false, done;
        }
        OneMoreField(g, active, sorted, done, v);
        OneMoreText(start, done, Pair(sorted[i].key, v), before, output);
        done := done + [Pair(sorted[i].key, v)];
        i := i + 1;
      }
      ok := true;
    }

    method EmitMapping(id: Id, ghost before: set<Id>) returns (ok: bool)
      requires ValidGraph(g) && id in g && id !in before && active == before + {id} && g[id].MappingNode?
      modifies this
      ensures active == old(active)
      ensures ok ==> exists v :: Emits(g, before, Container(id), v) && output == old(output) + Print(v)
      ensures !ok ==> Unfold(g, Container(id), before).None?
      decreases |g.Keys - active|, 4
    {
      var sorted := Sort(g[id].entries);
      SortedAreKnown(g, id);
      ghost var start := output;
      output := output + [OPEN_BRACE];
      ghost var done;
      ok, done := EmitFields(sorted);
      if !ok {
        ghost var i :| 0 <= i < |sorted| && Unfold(g, sorted[i].value, active).None?;
        MappingFails(g, id, before, i);
        return false;
      }
      output := output + [CLOSE_BRACE];
      MappingEmits(g, id, before, done);
      Join(start, [OPEN_BRACE], PrintFields(done, true), [CLOSE_BRACE]);
      assert Emits(g, before, Container(id), Object(done)) && output == start + Print(Object(done));
    }
  }

  lemma ItemStep(start: Bytes, done: seq<Json>, v: Json)
    ensures (start + PrintItems(done, true)) + ((if |done| == 0 then [] else [COMMA]) + ([] + Print(v))) ==
            start + PrintItems(done + [v], true)
  {
    PrintItemsAppend(done, v, true);
    assert [] + Print(v) == Print(v);
    Associate(start, PrintItems(done, true), (if |done| == 0 then [] else [COMMA]) + Print(v));
  }

  lemma FieldStep(start: Bytes, done: seq<Pair<Json>>, p: Pair<Json>)
    ensures (start + PrintFields(done, true)) + ((if |done| == 0 then [] else [COMMA]) + ((Quote(p.key) + [COLON]) + Print(p.value))) ==
            start + PrintFields(done + [p], true)
  {
    PrintFieldsAppend(done, p, true);
    Associate(Quote(p.key), [COLON], Print(p.value));
    Associate(start, PrintFields(done, true), (if |done| == 0 then [] else [COMMA]) + (Quote(p.key) + ([COLON] + Print(p.value))));
  }

  lemma Associate(a: Bytes, b: Bytes, c: Bytes)
    ensures (a + b) + c == a + (b + c)
  {
  }

  lemma Join(a: Bytes, b: Bytes, c: Bytes, d: Bytes)
    ensures ((a + b) + c) + d == a + (b + (c + d))
  {
  }

  /**
   Canonical bytes of an item of any finite graph: an error exactly when a reachable container
   lies on a cycle, and otherwise the canonical encoding of the tree the item unfolds to.
   */
  method CanonicalBytes(g: Graph, item: Item) returns (bytes: Option<Bytes>)
    requires ValidGraph(g) && Known(g, item)
    ensures bytes.None? <==> ReachesCycle(g, item)
    ensures forall tree :: Unfolds(g, item, tree) ==> bytes == Some(Encode(tree))
    ensures bytes.Some? ==> exists tree, sorted :: Unfolds(g, item, tree) && Same(sorted, tree) && InOrder(sorted) && bytes.value == Print(sorted)
  {
    hide InOrder, Normal;
    UnfoldFailsOnCycles(g, item);
    var emitter := new Emitter(g);
    var ok := emitter.Emit(item);
    if !ok {
      return None;
    }
    bytes := Some(emitter.output);
    assert [] + emitter.output == emitter.output;
    assert emitter.output == Encode(Unfold(g, item, {}).value);
    UnfoldIsUnfolding(g, item, {});
    ghost var found := Unfold(g, item, {}).value;
    NormalIsFixed(found);
    NormalIsInOrder(found);
    assert Unfolds(g, item, found) && Same(Normal(found), found) && bytes.value == Print(Normal(found));
    forall tree | Unfolds(g, item, tree) ensures bytes == Some(Encode(tree)) {
      UnfoldIsUnfolding(g, item, {});
      UnfoldingIsUnique(g, item, tree, Unfold(g, item, {}).value);
    }
  }
}
