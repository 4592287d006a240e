/** What the link constructor makes of its owners. */
module LinkConstructor {
  import opened ByteStrings
  import opened KeyOrder
  import opened RowTables
  import opened MergeJoin

  predicate TextsAscend(texts: seq<Bytes>) {
    forall i, j :: 0 <= i < j < |texts| ==> Before(texts[i], texts[j])
  }

  lemma {:induction false} InsertTextIs(x: Bytes, sorted: seq<Bytes>)
    requires TextsAscend(sorted)
    ensures TextsAscend(InsertText(x, sorted))
    ensures forall y :: y in InsertText(x, sorted) <==> y == x || y in sorted
  {
    if sorted != [] {
      BeforeIsConnected(x, sorted[0]);
      if Before(x, sorted[0]) {
        forall i | 0 <= i < |sorted| ensures Before(x, sorted[i]) {
          if i > 0 {
            BeforeIsTransitive(x, sorted[0], sorted[i]);
          }
        }
      } else if x != sorted[0] {
        InsertTextIs(x, sorted[1..]);
        var r := InsertText(x, sorted[1..]);
        forall i | 0 <= i < |r| ensures Before(sorted[0], r[i]) {
          assert r[i] in r;
        }
      }
    }
  }

  /** The owners of a link: exactly the stripped texts, without repeats, in ascending order. */
  lemma {:induction false} SortedSetIs(texts: seq<Bytes>)
    ensures TextsAscend(SortedSet(texts))
    ensures forall y :: y in SortedSet(texts) <==> y in texts
  {
    if texts != [] {
      SortedSetIs(texts[1..]);
      InsertTextIs(texts[0], SortedSet(texts[1..]));
    }
  }

  lemma {:induction false} SortedSetOfAscending(texts: seq<Bytes>)
    requires TextsAscend(texts)
    ensures SortedSet(texts) == texts
  {
    if |texts| > 0 {
      SortedSetOfAscending(texts[1..]);
      if |texts| > 1 {
        assert Before(texts[0], texts[1]);
      }
    }
  }

  /** Stripping twice strips once, and a link's own owner name has nothing to strip. */
  ghost predicate Strips(env: Env) {
    && (forall s :: env.strip(env.strip(s)) == env.strip(s))
    && forall s :: env.strip(LINK_PREFIX + env.strip(s)) == LINK_PREFIX + env.strip(s)
  }

  /** A link's owners are never missing, have nothing to strip, ascend, and are owners of themselves. */
  lemma OwnersAre(env: Env, id: Bytes, owners: seq<Bytes>)
    requires Strips(env)
    ensures var r := OwnersOf(env, id, owners);
            && r != [] && Stripped(env, r) == r && TextsAscend(r) && OwnersOf(env, env.strip(id), r) == r
            && (owners != [] ==> forall y :: y in r <==> y in Stripped(env, owners))
  {
    var texts, r := Stripped(env, owners), OwnersOf(env, id, owners);
    if owners != [] {
      SortedSetIs(texts);
      assert texts[0] in r;
      forall i | 0 <= i < |r| ensures env.strip(r[i]) == r[i] {
        assert r[i] in texts;
        var j :| 0 <= j < |texts| && texts[j] == r[i];
        assert r[i] == env.strip(owners[j]);
      }
    }
    assert Stripped(env, r) == r;
    SortedSetOfAscending(r);
  }

  /** Constructing a link from a link's own fields gives the same link. */
  lemma ConstructorIsIdempotent(env: Env, id: Bytes, first: Bytes, second: Bytes, count: int, impedance: Impedance, owners: seq<Bytes>)
    requires Strips(env)
    ensures var link := Construct(env, id, first, second, count, impedance, owners);
            Construct(env, link.id, link.first, link.second, link.count, link.impedance, link.owners) == link
  {
    OwnersAre(env, id, owners);
  }

  /** The link is one that its constructor made, from whatever texts, and did not refuse. */
  ghost predicate Constructed(env: Env, link: Link) {
    && link.count >= 1 && (link.impedance.FiniteRL? ==> PassiveImpedance(link.impedance))
    && exists id, first, second, owners ::
         Constructible(env, id, first, second, owners)
         && link == Construct(env, id, first, second, link.count, link.impedance, owners)
  }

  predicate PassiveImpedance(z: Impedance)
    requires z.FiniteRL?
  {
    z.resistance >= 0.0 && z.inductance >= 0.0 && (z.resistance != 0.0 || z.inductance != 0.0)
  }

  /** A made link can be made again from its own fields, and has an owner. */
  lemma ConstructedAgain(env: Env, link: Link)
    requires Strips(env) && Constructed(env, link)
    ensures Constructible(env, link.id, link.first, link.second, link.owners) && link.owners != []
    ensures Construct(env, link.id, link.first, link.second, link.count, link.impedance, link.owners) == link
  {
    var id, first, second, owners :| Constructible(env, id, first, second, owners)
                                     && link == Construct(env, id, first, second, link.count, link.impedance, owners);
    ConstructorIsIdempotent(env, id, first, second, link.count, link.impedance, owners);
    OwnersAre(env, id, owners);
    OwnersAreNotBlank(env, id, owners);
  }

  lemma OwnersAreNotBlank(env: Env, id: Bytes, owners: seq<Bytes>)
    requires Strips(env) && forall i :: 0 <= i < |owners| ==> env.strip(owners[i]) != []
    ensures forall i :: 0 <= i < |OwnersOf(env, id, owners)| ==> env.strip(OwnersOf(env, id, owners)[i]) != []
  {
    var r := OwnersOf(env, id, owners);
    OwnersAre(env, id, owners);
    forall i | 0 <= i < |r| ensures env.strip(r[i]) != [] {
      assert Stripped(env, r)[i] == r[i];
      if owners != [] {
        assert r[i] in Stripped(env, owners);
      }
    }
  }
}
