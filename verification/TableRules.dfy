/** What node and member tables are accepted, written out. */
module TableRules {
  import opened ByteStrings
  import opened KeyOrder
  import opened RowTables
  import opened MergeJoin
  import opened RowStore

  lemma TextIs(s: Bytes)
    ensures ValidText(s) <==> 1 <= |s| <= 16384
  {
  }

  /** Node rows are accepted exactly if of three kinds, numbered in each, with texts that differ by more than case, and if the third kind is the project's artwork. */
  lemma NodesAre(env: Env, raw: seq<Bytes>, nodes: seq<NodeRow>)
    ensures NodesFit(env, raw, nodes) <==>
            && (forall i :: 0 <= i < |nodes| ==>
                  nodes[i].group in {0, 1, 2} && nodes[i].ordinal == |Group(nodes[..i], nodes[i].group)| && 1 <= |nodes[i].value| <= 16384)
            && (forall i, j :: 0 <= i < j < |nodes| ==> env.fold(nodes[i].value) != env.fold(nodes[j].value))
            && Group(nodes, 2) == Artwork(env, raw)
  {
    hide Group, Artwork;
    var values := Values(nodes);
    assert forall i :: 0 <= i < |nodes| ==> values[i] == nodes[i].value;
    if Contiguous(nodes) {
      forall i | 0 <= i < |nodes| ensures nodes[i].ordinal == |Group(nodes[..i], nodes[i].group)| {
        assert Counts(nodes, i);
      }
    }
  }

  /** Member rows of n ports are accepted exactly if filed under a port and one of its four lists, numbered there, and of proper length. */
  lemma MembersAre(members: seq<MemberRow>, n: nat)
    ensures Collectable(members, MemberGroup(n), ValidText) <==>
            forall i :: 0 <= i < |members| ==>
              && members[i].group.0 >= 0 && members[i].group.0 < n && members[i].group.1 in {0, 1, 2, 3}
              && members[i].ordinal == |Group(members[..i], members[i].group)| && 1 <= |members[i].value| <= 16384
  {
    hide Group;
    if Contiguous(members) {
      forall i | 0 <= i < |members| ensures members[i].ordinal == |Group(members[..i], members[i].group)| {
        assert Counts(members, i);
      }
    }
  }

  /** The expected artwork nodes: the ids, stripped, in ascending order, each once if no two strip alike. */
  lemma ArtworkIs(env: Env, raw: seq<Bytes>)
    requires forall i, j :: 0 <= i < j < |raw| ==> env.strip(raw[i]) != env.strip(raw[j])
    ensures forall i, j :: 0 <= i < j < |Artwork(env, raw)| ==> ByteLess(Artwork(env, raw)[i], Artwork(env, raw)[j])
    ensures forall y :: y in Artwork(env, raw) <==> exists i :: 0 <= i < |raw| && env.strip(raw[i]) == y
  {
    hide ByteLess;
    var pairs := Paired(Stripped(env, raw));
    var sorted := Sort(pairs);
    SortAscends(pairs);
    forall i, j | 0 <= i < j < |Artwork(env, raw)| ensures ByteLess(Artwork(env, raw)[i], Artwork(env, raw)[j]) {
      BeforeIs(sorted[i].key, sorted[j].key);
    }
    forall y ensures y in Artwork(env, raw) <==> exists i :: 0 <= i < |raw| && env.strip(raw[i]) == y {
      if y in Artwork(env, raw) {
        var k :| 0 <= k < |sorted| && sorted[k].key == y;
        assert sorted[k] in pairs;
        var i :| 0 <= i < |pairs| && pairs[i] == sorted[k];
        assert env.strip(raw[i]) == y;
      }
      if i :| 0 <= i < |raw| && env.strip(raw[i]) == y {
        assert pairs[i] in sorted;
        var k :| 0 <= k < |sorted| && sorted[k] == pairs[i];
        assert Artwork(env, raw)[k] == y;
      }
    }
  }
}
