/** Greedy backward elimination of decap sites against an impedance mask. */
module Elimination {
  import opened ByteStrings
  import opened KeyOrder

  type Site = Bytes
  type Config = set<Site>

  /** The margin left by each configuration, and how often it has been asked for. */
  class Meter {
    const margin: Config -> real
    var calls: nat

    constructor (margin: Config -> real)
      ensures this.margin == margin && calls == 0
    {
      this.margin, calls := margin, 0;
    }

    method Measure(config: Config) returns (m: real)
      modifies this
      ensures m == margin(config) && calls == old(calls) + 1
    {
      calls := calls + 1;
      m := margin(config);
    }
  }

  datatype Ranked = Ranked(margin: real, site: Site)

  /** Larger margin first, then the smaller name. */
  predicate Precedes(a: Ranked, b: Ranked) {
    a.margin > b.margin || (a.margin == b.margin && Before(a.site, b.site))
  }

  function InsertRank(x: Ranked, sorted: seq<Ranked>): (r: seq<Ranked>)
    ensures multiset(r) == multiset(sorted) + multiset{x}
  {
    if sorted == [] || Precedes(x, sorted[0]) then [x] + sorted
    else
      assert sorted == [sorted[0]] + sorted[1..];
      [sorted[0]] + InsertRank(x, sorted[1..])
  }

  function SortRanks(ranks: seq<Ranked>): (r: seq<Ranked>)
    ensures multiset(r) == multiset(ranks)
  {
    if ranks == [] then []
    else
      assert ranks == [ranks[0]] + ranks[1..];
      InsertRank(ranks[0], SortRanks(ranks[1..]))
  }

  function Solos(margin: Config -> real, sites: seq<Site>): (r: seq<Ranked>)
    ensures |r| == |sites| && forall i :: 0 <= i < |r| ==> r[i] == Ranked(margin({sites[i]}), sites[i])
  {
    seq(|sites|, i requires 0 <= i < |sites| => Ranked(margin({sites[i]}), sites[i]))
  }

  /** The walk: which sites are removed after the first n candidates. */
  function Removed(margin: Config -> real, rank: seq<Ranked>, n: nat): seq<Site>
    requires n <= |rank|
  {
    if n == 0 then []
    else
      var before := Removed(margin, rank, n - 1);
      if margin(Sites(before) + {rank[n - 1].site}) >= 1.0 then before + [rank[n - 1].site] else before
  }

  function Sites(list: seq<Site>): Config {
    set i | 0 <= i < |list| :: list[i]
  }

  lemma SitesAppend(list: seq<Site>, site: Site)
    ensures Sites(list + [site]) == Sites(list) + {site}
  {
    var more := list + [site];
    assert forall i :: 0 <= i < |list| ==> more[i] == list[i];
    assert more[|list|] == site;
  }

  datatype Step = Step(site: Site, solo: real, margin: real, removed: bool, mounted: int)

  /** The log entry of candidate n. */
  function StepAt(margin: Config -> real, rank: seq<Ranked>, n: nat): Step
    requires n < |rank|
  {
    var m := margin(Sites(Removed(margin, rank, n)) + {rank[n].site});
    Step(rank[n].site, rank[n].margin, m, m >= 1.0, |rank| - |Removed(margin, rank, n + 1)|)
  }

  /** One candidate: removed if the mask holds without it. */
  lemma WalkStep(margin: Config -> real, rank: seq<Ranked>, n: nat)
    requires n < |rank|
    ensures var before, site := Removed(margin, rank, n), rank[n].site;
            var m := margin(Sites(before) + {site});
            && Removed(margin, rank, n + 1) == (if m >= 1.0 then before + [site] else before)
            && Sites(before + [site]) == Sites(before) + {site}
            && StepAt(margin, rank, n) == Step(site, rank[n].margin, m, m >= 1.0, |rank| - |Removed(margin, rank, n + 1)|)
  {
    SitesAppend(Removed(margin, rank, n), rank[n].site);
  }

  lemma NoSteps(margin: Config -> real, rank: seq<Ranked>)
    ensures Removed(margin, rank, 0) == [] && Sites([]) == {}
  {
  }

  datatype Search = Search(start: real, rank: seq<Ranked>, removed: seq<Site>, config: Config, steps: seq<Step>, final: real)

  method BackwardEliminate(sites: seq<Site>, meter: Meter) returns (search: Search)
    modifies meter
    ensures search.start == meter.margin({}) && search.rank == SortRanks(Solos(meter.margin, sites)) && |search.rank| == |sites|
    ensures search.removed == Removed(meter.margin, search.rank, |search.rank|) && search.config == Sites(search.removed)
    ensures |search.steps| == |sites| && forall i :: 0 <= i < |sites| ==> search.steps[i] == StepAt(meter.margin, search.rank, i)
    ensures search.final == meter.margin(search.config)
    ensures meter.calls == old(meter.calls) + 2 * |sites| + 2
    ensures LogReads(meter.margin, sites, search.steps) && search.config == DroppedBy(search.steps, |sites|)
    ensures (forall i, j :: 0 <= i < j < |sites| ==> sites[i] != sites[j]) ==> LogDescends(search.steps)
  {
    hide Removed, Sites, StepAt, SortRanks, LogReads, LogDescends, DroppedBy;
    var start := meter.Measure({});
    var ranks: seq<Ranked> := [];
    for k := 0 to |sites|
      invariant ranks == Solos(meter.margin, sites[..k]) && meter.calls == old(meter.calls) + 1 + k
    {
      var m := meter.Measure({sites[k]});
      ranks := ranks + [Ranked(m, sites[k])];
    }
    assert sites[..|sites|] == sites;
    var rank := SortRanks(ranks);
    SameLength(ranks);
    var config: Config, removed: seq<Site>, steps: seq<Step> := {}, [], [];
    NoSteps(meter.margin, rank);
    for n := 0 to |rank|
      invariant removed == Removed(meter.margin, rank, n) && config == Sites(removed)
      invariant |steps| == n && forall i :: 0 <= i < n ==> steps[i] == StepAt(meter.margin, rank, i)
      invariant meter.calls == old(meter.calls) + 1 + |sites| + n
    {
      var trial := config + {rank[n].site};
      var m := meter.Measure(trial);
      WalkStep(meter.margin, rank, n);
      if m >= 1.0 {
        config, removed := trial, removed + [rank[n].site];
      }
      steps := steps + [Step(rank[n].site, rank[n].margin, m, m >= 1.0, |sites| - |removed|)];
    }
    var final := meter.Measure(config);
    LogIs(meter.margin, sites, rank, steps);
    return Search(start, rank, removed, config, steps, final);
  }

  lemma SameLength(ranks: seq<Ranked>)
    ensures |SortRanks(ranks)| == |ranks|
  {
    assert |multiset(ranks)| == |ranks| && |multiset(SortRanks(ranks))| == |SortRanks(ranks)|;
  }

  // ---- the order of the candidates ----

  predicate Ordered(ranks: seq<Ranked>) {
    forall i, j :: 0 <= i < j < |ranks| ==> Precedes(ranks[i], ranks[j])
  }

  predicate DistinctSites(ranks: seq<Ranked>) {
    forall i, j :: 0 <= i < j < |ranks| ==> ranks[i].site != ranks[j].site
  }

  lemma PrecedesIsTransitive(a: Ranked, b: Ranked, c: Ranked)
    requires Precedes(a, b) && Precedes(b, c)
    ensures Precedes(a, c)
  {
    if Before(a.site, b.site) && Before(b.site, c.site) {
      BeforeIsTransitive(a.site, b.site, c.site);
    }
  }

  lemma {:induction false} InsertRankOrders(x: Ranked, sorted: seq<Ranked>)
    requires Ordered(sorted) && forall y :: y in sorted ==> y.site != x.site
    ensures Ordered(InsertRank(x, sorted))
  {
    if sorted != [] {
      BeforeIsConnected(x.site, sorted[0].site);
      if Precedes(x, sorted[0]) {
        forall i | 0 <= i < |sorted| ensures Precedes(x, sorted[i]) {
          if i > 0 {
            PrecedesIsTransitive(x, sorted[0], sorted[i]);
          }
        }
      } else {
        InsertRankOrders(x, sorted[1..]);
        var r := InsertRank(x, sorted[1..]);
        forall i | 0 <= i < |r| ensures Precedes(sorted[0], r[i]) {
          assert r[i] in multiset(r);
        }
      }
    }
  }

  /** Distinct sites are walked by falling solo margin, ties by name, each exactly once. */
  lemma {:induction false} RanksAreOrdered(ranks: seq<Ranked>)
    requires DistinctSites(ranks)
    ensures Ordered(SortRanks(ranks)) && multiset(SortRanks(ranks)) == multiset(ranks)
  {
    if ranks != [] {
      RanksAreOrdered(ranks[1..]);
      forall y | y in SortRanks(ranks[1..]) ensures y.site != ranks[0].site {
        assert y in multiset(SortRanks(ranks[1..]));
      }
      InsertRankOrders(ranks[0], SortRanks(ranks[1..]));
    }
  }

  // ---- the log written out ----

  /** The sites dropped by the first n entries of the log. */
  function DroppedBy(steps: seq<Step>, n: nat): Config
    requires n <= |steps|
  {
    set k | 0 <= k < n && steps[k].removed :: steps[k].site
  }

  /** How many of the first n entries dropped their site. */
  function Drops(steps: seq<Step>, n: nat): nat
    requires n <= |steps|
  {
    if n == 0 then 0 else Drops(steps, n - 1) + (if steps[n - 1].removed then 1 else 0)
  }

  function LoggedSites(steps: seq<Step>): (r: seq<Site>)
    ensures |r| == |steps| && forall i :: 0 <= i < |r| ==> r[i] == steps[i].site
  {
    seq(|steps|, i requires 0 <= i < |steps| => steps[i].site)
  }

  /** Each site is tried once, on top of what was dropped before; it is dropped exactly if that leaves a margin of one. */
  ghost predicate LogReads(margin: Config -> real, sites: seq<Site>, steps: seq<Step>) {
    && |steps| == |sites| && multiset(LoggedSites(steps)) == multiset(sites)
    && forall i :: 0 <= i < |steps| ==>
         && steps[i].solo == margin({steps[i].site})
         && steps[i].margin == margin(DroppedBy(steps, i) + {steps[i].site})
         && (steps[i].removed <==> steps[i].margin >= 1.0)
         && steps[i].mounted == |sites| - Drops(steps, i + 1)
  }

  /** The log falls by solo margin; equal margins stand in ascending order of names. */
  ghost predicate LogDescends(steps: seq<Step>) {
    forall i, j :: 0 <= i < j < |steps| ==>
      steps[i].solo > steps[j].solo || (steps[i].solo == steps[j].solo && ByteLess(steps[i].site, steps[j].site))
  }

  lemma {:induction false} DropsAre(margin: Config -> real, rank: seq<Ranked>, steps: seq<Step>, n: nat)
    requires |steps| == |rank| && (forall i :: 0 <= i < |rank| ==> steps[i] == StepAt(margin, rank, i)) && n <= |rank|
    ensures Sites(Removed(margin, rank, n)) == DroppedBy(steps, n) && |Removed(margin, rank, n)| == Drops(steps, n)
    decreases n
  {
    if n > 0 {
      DropsAre(margin, rank, steps, n - 1);
      WalkStep(margin, rank, n - 1);
      assert steps[n - 1] == StepAt(margin, rank, n - 1);
      assert DroppedBy(steps, n) == DroppedBy(steps, n - 1) + (if steps[n - 1].removed then {steps[n - 1].site} else {});
    } else {
      NoSteps(margin, rank);
    }
  }

  lemma ListCons(x: Ranked, rest: seq<Ranked>)
    ensures multiset(SiteList([x] + rest)) == multiset(SiteList(rest)) + multiset{x.site}
  {
    assert SiteList([x] + rest) == [x.site] + SiteList(rest);
  }

  lemma {:induction false} InsertedSites(x: Ranked, sorted: seq<Ranked>)
    ensures multiset(SiteList(InsertRank(x, sorted))) == multiset(SiteList(sorted)) + multiset{x.site}
  {
    hide Precedes, SiteList;
    if sorted == [] || Precedes(x, sorted[0]) {
      ListCons(x, sorted);
    } else {
      InsertedSites(x, sorted[1..]);
      ListCons(sorted[0], sorted[1..]);
      ListCons(sorted[0], InsertRank(x, sorted[1..]));
      assert [sorted[0]] + sorted[1..] == sorted;
    }
  }

  lemma {:induction false} SortedSites(ranks: seq<Ranked>)
    ensures multiset(SiteList(SortRanks(ranks))) == multiset(SiteList(ranks))
  {
    hide SiteList, InsertRank;
    if ranks != [] {
      SortedSites(ranks[1..]);
      InsertedSites(ranks[0], SortRanks(ranks[1..]));
      ListCons(ranks[0], ranks[1..]);
      assert [ranks[0]] + ranks[1..] == ranks;
    }
  }

  function SiteList(ranks: seq<Ranked>): (r: seq<Site>)
    ensures |r| == |ranks| && forall i :: 0 <= i < |r| ==> r[i] == ranks[i].site
  {
    seq(|ranks|, i requires 0 <= i < |ranks| => ranks[i].site)
  }

  lemma RankedHere(margin: Config -> real, sites: seq<Site>, i: nat)
    requires i < |sites|
    ensures SortRanks(Solos(margin, sites)) != [] && |SortRanks(Solos(margin, sites))| == |sites|
    ensures var x := SortRanks(Solos(margin, sites))[i]; x.margin == margin({x.site})
  {
    var solos := Solos(margin, sites);
    SameLength(solos);
    var x := SortRanks(solos)[i];
    assert x in multiset(SortRanks(solos));
    assert x in multiset(solos);
    var k :| 0 <= k < |solos| && solos[k] == x;
  }

  /** The walk's log is what it says of itself. */
  lemma LogIs(margin: Config -> real, sites: seq<Site>, rank: seq<Ranked>, steps: seq<Step>)
    requires rank == SortRanks(Solos(margin, sites)) && |rank| == |sites| == |steps|
    requires forall i :: 0 <= i < |rank| ==> steps[i] == StepAt(margin, rank, i)
    ensures LogReads(margin, sites, steps) && Sites(Removed(margin, rank, |rank|)) == DroppedBy(steps, |sites|)
    ensures (forall i, j :: 0 <= i < j < |sites| ==> sites[i] != sites[j]) ==> LogDescends(steps)
  {
    hide Sites, Removed, DroppedBy, Drops, SortRanks, LogDescends;
    forall i | 0 <= i < |steps|
      ensures steps[i].site == rank[i].site && steps[i].solo == rank[i].margin == margin({rank[i].site})
      ensures steps[i].margin == margin(DroppedBy(steps, i) + {rank[i].site}) && (steps[i].removed <==> steps[i].margin >= 1.0)
      ensures steps[i].mounted == |sites| - Drops(steps, i + 1)
    {
      DropsAre(margin, rank, steps, i);
      DropsAre(margin, rank, steps, i + 1);
      RankedHere(margin, sites, i);
    }
    DropsAre(margin, rank, steps, |rank|);
    SortedSites(Solos(margin, sites));
    assert SiteList(rank) == LoggedSites(steps) && SiteList(Solos(margin, sites)) == sites;
    if forall i, j :: 0 <= i < j < |sites| ==> sites[i] != sites[j] {
      RanksAreOrdered(Solos(margin, sites));
      OrderedLog(rank, steps);
    }
  }

  lemma OrderedLog(rank: seq<Ranked>, steps: seq<Step>)
    requires Ordered(rank) && |rank| == |steps|
    requires forall i :: 0 <= i < |rank| ==> steps[i].site == rank[i].site && steps[i].solo == rank[i].margin
    ensures LogDescends(steps)
  {
    hide ByteLess, Before;
    forall i, j | 0 <= i < j < |steps|
      ensures steps[i].solo > steps[j].solo || (steps[i].solo == steps[j].solo && ByteLess(steps[i].site, steps[j].site))
    {
      BeforeIs(rank[i].site, rank[j].site);
      assert Precedes(rank[i], rank[j]);
    }
  }

  // ---- what the result guarantees ----

  /** The walk stays inside the mask: the final margin holds exactly if the start did or something was removed. */
  lemma {:induction false} MaskHolds(margin: Config -> real, rank: seq<Ranked>, n: nat)
    requires n <= |rank|
    ensures margin(Sites(Removed(margin, rank, n))) >= 1.0 <==> margin({}) >= 1.0 || Removed(margin, rank, n) != []
  {
    if n == 0 {
      assert Sites([]) == {};
    } else {
      MaskHolds(margin, rank, n - 1);
      SitesAppend(Removed(margin, rank, n - 1), rank[n - 1].site);
    }
  }

  /** Removing more sites never raises the margin. */
  ghost predicate Antitone(margin: Config -> real) {
    forall a: Config, b: Config :: a <= b ==> margin(b) <= margin(a)
  }

  /** A broken mask stays broken when more is removed: all that minimality needs of the margin. */
  ghost predicate StaysBroken(margin: Config -> real) {
    forall a: Config, b: Config :: a <= b && margin(a) < 1.0 ==> margin(b) < 1.0
  }

  lemma AntitoneStaysBroken(margin: Config -> real)
    requires Antitone(margin)
    ensures StaysBroken(margin)
  {
    forall a: Config, b: Config | a <= b && margin(a) < 1.0 ensures margin(b) < 1.0 {
      assert margin(b) <= margin(a);
    }
  }

  lemma {:induction false} RemovedGrows(margin: Config -> real, rank: seq<Ranked>, i: nat, n: nat)
    requires i <= n <= |rank|
    ensures Sites(Removed(margin, rank, i)) <= Sites(Removed(margin, rank, n))
    decreases n
  {
    if i < n {
      RemovedGrows(margin, rank, i, n - 1);
      SitesAppend(Removed(margin, rank, n - 1), rank[n - 1].site);
    }
  }

  /** A candidate that stayed mounted had already failed against a smaller configuration. */
  lemma {:induction false} KeptCandidateFailed(margin: Config -> real, rank: seq<Ranked>, i: nat)
    requires i < |rank| && rank[i].site !in Sites(Removed(margin, rank, |rank|))
    ensures margin(Sites(Removed(margin, rank, i)) + {rank[i].site}) < 1.0
  {
    RemovedGrows(margin, rank, i + 1, |rank|);
    SitesAppend(Removed(margin, rank, i), rank[i].site);
  }

  /** If a broken mask stays broken, the result is minimal: no remaining site can go without breaking the mask. */
  lemma ResultIsMinimal(margin: Config -> real, sites: seq<Site>, site: Site)
    requires StaysBroken(margin) && site in sites
    ensures var rank := SortRanks(Solos(margin, sites));
            var config := Sites(Removed(margin, rank, |rank|));
            site !in config ==> margin(config + {site}) < 1.0
  {
    hide Removed, Sites, SortRanks;
    var solos := Solos(margin, sites);
    var rank := SortRanks(solos);
    var k :| 0 <= k < |sites| && sites[k] == site;
    assert solos[k] in multiset(solos);
    assert solos[k] in multiset(rank);
    var i :| 0 <= i < |rank| && rank[i] == solos[k];
    var config := Sites(Removed(margin, rank, |rank|));
    if site !in config {
      KeptCandidateFailed(margin, rank, i);
      RemovedGrows(margin, rank, i, |rank|);
      assert Sites(Removed(margin, rank, i)) + {site} <= config + {site};
    }
  }

  /** Only sites are removed, each at most once, so the mounted count is what is left. */
  lemma {:induction false} RemovedAreSites(margin: Config -> real, rank: seq<Ranked>, n: nat)
    requires n <= |rank| && DistinctSites(rank)
    ensures var removed := Removed(margin, rank, n);
            && |Sites(removed)| == |removed| && |removed| <= n
            && forall s :: s in Sites(removed) ==> exists i :: 0 <= i < n && rank[i].site == s
  {
    hide Sites;
    NoSteps(margin, rank);
    if n > 0 {
      RemovedAreSites(margin, rank, n - 1);
      SitesAppend(Removed(margin, rank, n - 1), rank[n - 1].site);
    }
  }

  // ---- why a broken mask has to stay broken ----

  const A: Site := [97]
  const B: Site := [98]
  const C: Site := [99]

  /** A margin that two removals raise above what one of them leaves. */
  function Rebounding(config: Config): real {
    if config == {} then 4.0
    else if config == {C} then 3.0
    else if config == {A} then 2.0
    else if config == {B} then 1.5
    else if config == {C, A} then 0.9
    else 1.2
  }

  lemma ReboundingMends()
    ensures !StaysBroken(Rebounding)
  {
    var more := {A, B, C};
    assert A in more && B in more && |more| == 3 by { TwoOrThree(); }
    assert {C, A} <= more && Rebounding({C, A}) == 0.9 && Rebounding(more) == 1.2;
  }

  /** Otherwise the greedy walk can stop early: here A could still be removed from the result. */
  lemma ReboundLeavesARemovableSite()
    ensures var rank := SortRanks(Solos(Rebounding, [A, B, C]));
            var config := Sites(Removed(Rebounding, rank, |rank|));
            A !in config && Rebounding(config + {A}) >= 1.0
  {
    hide Removed, Sites, SortRanks, Rebounding, StepAt;
    var a, b, c := Ranked(2.0, A), Ranked(1.5, B), Ranked(3.0, C);
    Singletons();
    TwoOrThree();
    assert Solos(Rebounding, [A, B, C]) == [a, b, c];
    SortThree(a, b, c);
    var rank := [c, a, b];
    NoSteps(Rebounding, rank);
    assert {} + {C} == {C} && {C} + {A} == {C, A} && {C} + {B} == {C, B};
    Walk(Rebounding, rank, 0, {});
    Walk(Rebounding, rank, 1, {C});
    Walk(Rebounding, rank, 2, {C});
  }

  lemma Walk(margin: Config -> real, rank: seq<Ranked>, n: nat, config: Config)
    requires n < |rank| && Sites(Removed(margin, rank, n)) == config
    ensures var trial := config + {rank[n].site};
            Sites(Removed(margin, rank, n + 1)) == if margin(trial) >= 1.0 then trial else config
  {
    WalkStep(margin, rank, n);
  }

  lemma Singletons()
    ensures A != B && B != C && A != C
    ensures {A} != {B} && {A} != {C} && {B} != {C} && {A} != {} && {B} != {} && {C} != {}
    ensures Rebounding({A}) == 2.0 && Rebounding({B}) == 1.5 && Rebounding({C}) == 3.0 && Rebounding({C, A}) == 0.9
  {
    assert A[0] != B[0] && B[0] != C[0] && A[0] != C[0];
    assert A in {A} && B in {B} && C in {C} && A !in {B} && A !in {C} && B !in {C};
    assert A in {C, A} && C in {C, A};
  }

  lemma TwoOrThree()
    ensures Rebounding({C, B}) == 1.2 && Rebounding({C, B} + {A}) == 1.2 && A !in {C, B}
  {
    Singletons();
    var two, three := {C, B}, {C, B} + {A};
    assert B in two && C in two && A !in two;
    assert A in three && B in three && C in three;
  }

  lemma InsertFirst(x: Ranked, rest: seq<Ranked>)
    requires rest == [] || x.margin > rest[0].margin
    ensures InsertRank(x, rest) == [x] + rest
  {
  }

  lemma SortThree(a: Ranked, b: Ranked, c: Ranked)
    requires c.margin > a.margin > b.margin
    ensures SortRanks([a, b, c]) == [c, a, b]
  {
    hide SortRanks, InsertRank, Precedes;
    SortTwo(b, c);
    SortStep(a, [b, c]);
    assert [a] + [b, c] == [a, b, c];
    InsertSecond(a, c, [b]);
    InsertFirst(a, [b]);
    assert [c] + [b] == [c, b] && [c] + ([a] + [b]) == [c, a, b];
  }

  lemma SortTwo(b: Ranked, c: Ranked)
    requires c.margin > b.margin
    ensures SortRanks([b, c]) == [c, b]
  {
    hide SortRanks, InsertRank, Precedes;
    SortStep(c, []);
    InsertFirst(c, []);
    assert [c] + [] == [c];
    SortStep(b, [c]);
    assert [b] + [c] == [b, c];
    InsertSecond(b, c, []);
    InsertFirst(b, []);
    assert [b] + [] == [b] && [c] + [b] == [c, b];
  }

  lemma InsertSecond(x: Ranked, first: Ranked, rest: seq<Ranked>)
    requires first.margin > x.margin
    ensures InsertRank(x, [first] + rest) == [first] + InsertRank(x, rest)
  {
    assert ([first] + rest)[1..] == rest;
  }

  lemma SortStep(x: Ranked, rest: seq<Ranked>)
    ensures SortRanks([x] + rest) == InsertRank(x, SortRanks(rest))
    ensures SortRanks([]) == []
  {
    assert ([x] + rest)[1..] == rest;
  }
}
