/** Topologies made of constructed links, and their round trip. */
module ConstructedLinks {
  import opened ByteStrings
  import opened RowTables
  import opened MergeJoin
  import opened RowStore
  import opened RowWriter
  import opened RowRoundTrip
  import opened StoreRoundTrip
  import opened LinkConstructor

  /** What the loader asks of a link beyond what the constructor ensured. */
  predicate LoaderAdmits(kind: int, link: Link) {
    && ValidText(link.id)
    && (kind == 0 ==> link.count == 1 && link.impedance.Ideal?)
    && (kind == 1 ==> 1 <= link.count <= |link.owners| && |link.owners| % link.count == 0 && link.impedance.FiniteRL?)
    && forall i :: 0 <= i < |link.owners| ==> ValidText(link.owners[i]) && (kind == 1 ==> VIA_PREFIX <= link.owners[i])
  }

  lemma ConstructedIsStorable(env: Env, flat: seq<Bytes>, kind: int, link: Link)
    requires Strips(env) && Constructed(env, link)
    ensures LinkStorable(env, flat, kind, link) <==> LoaderAdmits(kind, link)
  {
    hide ValidText;
    ConstructedAgain(env, link);
  }

  ghost predicate AllConstructed(env: Env, links: seq<Link>) {
    forall i :: 0 <= i < |links| ==> Constructed(env, links[i])
  }

  predicate AllAdmitted(kind: int, links: seq<Link>) {
    forall i :: 0 <= i < |links| ==> LoaderAdmits(kind, links[i])
  }

  /** The loader's rules for a topology whose links were constructed. */
  predicate Admissible(env: Env, raw: seq<Bytes>, t: Built) {
    var flat := Flat(env, raw, t);
    && Writable(env, raw, t) && AllValid(flat)
    && AllAdmitted(0, t.links) && AllAdmitted(1, t.finite)
    && DistinctFolds(env, Ids(t.links) + Ids(t.finite)) && DistinctFolds(env, AllOwners(t.links) + AllOwners(t.finite))
    && PortsStorable(env, flat, t.ports) && AllValid(t.omitted)
    && LandingsStorable(env, Folds(env, flat), t.vertices)
    && LandingsStorable(env, Folds(env, Ids(t.links) + Ids(t.finite)), t.edges)
  }

  lemma ConstructedAreStorable(env: Env, flat: seq<Bytes>, links: seq<Link>, finite: seq<Link>)
    requires Strips(env) && AllConstructed(env, links) && AllConstructed(env, finite)
    ensures LinksStorable(env, flat, links, finite) <==>
            && AllAdmitted(0, links) && AllAdmitted(1, finite)
            && DistinctFolds(env, Ids(links) + Ids(finite)) && DistinctFolds(env, AllOwners(links) + AllOwners(finite))
  {
    hide DistinctFolds, LinkStorable, LoaderAdmits, Constructed, Strips;
    forall i | 0 <= i < |links| ensures LinkStorable(env, flat, 0, links[i]) <==> LoaderAdmits(0, links[i]) {
      ConstructedIsStorable(env, flat, 0, links[i]);
    }
    forall i | 0 <= i < |finite| ensures LinkStorable(env, flat, 1, finite[i]) <==> LoaderAdmits(1, finite[i]) {
      ConstructedIsStorable(env, flat, 1, finite[i]);
    }
  }

  /**
   The round trip of a topology as the compiler builds it, every link through the constructor: the
   rows come back as the same topology exactly if it meets the loader's rules.
   */
  lemma ConstructedRoundTrip(env: Env, raw: seq<Bytes>, t: Built)
    requires Strips(env) && AllConstructed(env, t.links) && AllConstructed(env, t.finite)
    requires DistinctLandings(t.vertices) && DistinctLandings(t.edges)
    ensures Returns(env, raw, t) <==> Admissible(env, raw, t)
  {
    hide Returns, Writable, AllValid, DistinctFolds, LinksStorable, PortsStorable, LandingsStorable, AllAdmitted, AllConstructed, Strips;
    RoundTrip(env, raw, t);
    ConstructedAreStorable(env, Flat(env, raw, t), t.links, t.finite);
  }
}
