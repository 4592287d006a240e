/** Composing retained plane artwork: primitives in order, batched into runs of one polarity. */
module Artwork {
  import opened ByteStrings

  type Point = (real, real)

  /** A region of the plane, as the set of its points. */
  type Region = iset<Point>

  datatype Kind = PositivePolygon | NegativePolygon | PositiveCircle | NegativeCircle

  /** An entry of the primitive order: malformed, or a kind and an index. */
  datatype Reference = Malformed | Reference(kind: Kind, index: int)

  /** The four collections; an entry is None where it is no valid, nondegenerate shape. */
  datatype Collections = Collections(positivePolygons: seq<Option<Region>>, negativePolygons: seq<Option<Region>>,
                                     positiveCircles: seq<Option<Region>>, negativeCircles: seq<Option<Region>>)

  datatype Primitive = Primitive(positive: bool, region: Region)

  datatype PolarityRun = PolarityRun(positive: bool, regions: seq<Region>)

  datatype Outcome = Copper(region: Region) | BadPrimitive | BeginsNegative | NoCopper

  function Collection(c: Collections, kind: Kind): seq<Option<Region>> {
    match kind
    case PositivePolygon => c.positivePolygons
    case NegativePolygon => c.negativePolygons
    case PositiveCircle => c.positiveCircles
    case NegativeCircle => c.negativeCircles
  }

  /** The primitive an entry of the order refers to. */
  function Resolve(c: Collections, r: Reference): Option<Primitive> {
    if r.Malformed? then None
    else
      var values := Collection(c, r.kind);
      if !(0 <= r.index < |values|) || values[r.index].None? then None
      else Some(Primitive(r.kind.PositivePolygon? || r.kind.PositiveCircle?, values[r.index].value))
  }

  predicate AllResolve(c: Collections, order: seq<Reference>) {
    forall i :: 0 <= i < |order| ==> Resolve(c, order[i]).Some?
  }

  function Primitives(c: Collections, order: seq<Reference>): (r: seq<Primitive>)
    requires AllResolve(c, order)
    ensures |r| == |order|
  {
    seq(|order|, i requires 0 <= i < |order| => Resolve(c, order[i]).value)
  }

  // ---- the meaning: one primitive at a time ----

  function Draw(shape: Region, p: Primitive): Region {
    if p.positive then shape + p.region else shape - p.region
  }

  /** The shape after drawing all primitives in order on an empty plane. */
  function Drawn(ps: seq<Primitive>): Region {
    if ps == [] then iset{} else Draw(Drawn(ps[..|ps| - 1]), ps[|ps| - 1])
  }

  /** The last primitive covering the point is positive. */
  predicate LastCoverIsPositive(ps: seq<Primitive>, x: Point) {
    ps != [] &&
    var last := ps[|ps| - 1];
    if x in last.region then last.positive else LastCoverIsPositive(ps[..|ps| - 1], x)
  }

  /** A point is copper exactly when the last primitive covering it is positive. */
  lemma {:induction false} CopperIsLastCover(ps: seq<Primitive>, x: Point)
    ensures x in Drawn(ps) <==> LastCoverIsPositive(ps, x)
    decreases |ps|
  {
    if ps != [] {
      CopperIsLastCover(ps[..|ps| - 1], x);
    }
  }

  /** Primitive i is positive, covers the point, and no later one does. */
  predicate CoversLast(ps: seq<Primitive>, x: Point, i: nat)
    requires i < |ps|
  {
    ps[i].positive && x in ps[i].region && forall j :: i < j < |ps| ==> x !in ps[j].region
  }

  lemma {:induction false} CoverOfCopper(ps: seq<Primitive>, x: Point) returns (i: nat)
    requires x in Drawn(ps)
    ensures i < |ps| && CoversLast(ps, x, i)
    decreases |ps|
  {
    var n := |ps| - 1;
    i := n;
    if x !in ps[n].region {
      i := CoverOfCopper(ps[..n], x);
      assert forall j :: 0 <= j < n ==> ps[..n][j] == ps[j];
    }
  }

  lemma {:induction false} CoverIsCopper(ps: seq<Primitive>, x: Point, i: nat)
    requires i < |ps| && CoversLast(ps, x, i)
    ensures x in Drawn(ps)
    decreases |ps|
  {
    if i < |ps| - 1 {
      CoverIsCopper(ps[..|ps| - 1], x, i);
    }
  }

  /** The same, by positions: some positive primitive covers the point and none covers it later. */
  lemma CopperByPosition(ps: seq<Primitive>, x: Point)
    ensures x in Drawn(ps) <==> exists i :: 0 <= i < |ps| && CoversLast(ps, x, i)
  {
    if x in Drawn(ps) {
      var i := CoverOfCopper(ps, x);
    }
    if i :| 0 <= i < |ps| && CoversLast(ps, x, i) {
      CoverIsCopper(ps, x, i);
    }
  }

  // ---- runs of equal polarity ----

  /** A run written out as primitives again. */
  function OfRun(run: PolarityRun): (r: seq<Primitive>)
    ensures |r| == |run.regions|
  {
    seq(|run.regions|, i requires 0 <= i < |run.regions| => Primitive(run.positive, run.regions[i]))
  }

  function OfRuns(runs: seq<PolarityRun>): seq<Primitive> {
    if runs == [] then [] else OfRuns(runs[..|runs| - 1]) + OfRun(runs[|runs| - 1])
  }

  /** Polarities alternate and no run is empty. */
  predicate Alternating(runs: seq<PolarityRun>) {
    && (forall i :: 0 <= i < |runs| ==> runs[i].regions != [])
    && forall i :: 0 <= i < |runs| - 1 ==> runs[i].positive != runs[i + 1].positive
  }

  function Add(runs: seq<PolarityRun>, p: Primitive): seq<PolarityRun> {
    var n := |runs| - 1;
    if runs != [] && runs[n].positive == p.positive
    then runs[..n] + [PolarityRun(p.positive, runs[n].regions + [p.region])]
    else runs + [PolarityRun(p.positive, [p.region])]
  }

  lemma AddAlternates(runs: seq<PolarityRun>, p: Primitive)
    requires Alternating(runs)
    ensures Alternating(Add(runs, p))
  {
  }

  /** Adding a primitive to the runs adds it to the order they spell out. */
  lemma AddSpells(runs: seq<PolarityRun>, p: Primitive)
    ensures OfRuns(Add(runs, p)) == OfRuns(runs) + [p]
  {
    var n := |runs| - 1;
    var more := Add(runs, p);
    if runs != [] && runs[n].positive == p.positive {
      assert more[..n] == runs[..n];
      assert OfRun(more[n]) == OfRun(runs[n]) + [p];
    } else {
      assert more[..|runs|] == runs;
      assert OfRun(more[|runs|]) == [p];
    }
  }

  /** The union of a batch. */
  function Union(regions: seq<Region>): Region {
    if regions == [] then iset{} else Union(regions[..|regions| - 1]) + regions[|regions| - 1]
  }

  /** One union or difference of the whole batch draws the run's primitives one by one. */
  lemma {:induction false} BatchDrawsRun(before: seq<Primitive>, run: PolarityRun)
    ensures Drawn(before + OfRun(run)) == if run.positive then Drawn(before) + Union(run.regions) else Drawn(before) - Union(run.regions)
    decreases |run.regions|
  {
    if run.regions == [] {
      assert before + OfRun(run) == before;
    } else {
      var n := |run.regions| - 1;
      var shorter := PolarityRun(run.positive, run.regions[..n]);
      BatchDrawsRun(before, shorter);
      var all := before + OfRun(run);
      assert all[..|all| - 1] == before + OfRun(shorter);
      assert all[|all| - 1] == Primitive(run.positive, run.regions[n]);
    }
  }

  method UnaryUnion(regions: seq<Region>) returns (union: Region)
    ensures union == Union(regions)
  {
    union := iset{};
    for i := 0 to |regions|
      invariant union == Union(regions[..i])
    {
      assert regions[..i + 1][..i] == regions[..i];
      union := union + regions[i];
    }
    assert regions[..|regions|] == regions;
  }

  /** What the composition comes to. */
  ghost function Composed(c: Collections, order: seq<Reference>): Outcome {
    if !AllResolve(c, order) then BadPrimitive
    else
      var ps := Primitives(c, order);
      if ps == [] then NoCopper
      else if !ps[0].positive then BeginsNegative
      else if Drawn(ps) == iset{} then NoCopper
      else Copper(Drawn(ps))
  }

  lemma NothingRead(c: Collections, order: seq<Reference>)
    ensures AllResolve(c, order[..0]) && Alternating([]) && OfRuns([]) == Primitives(c, order[..0])
  {
  }

  lemma Unresolved(c: Collections, order: seq<Reference>, i: nat)
    requires i < |order| && Resolve(c, order[i]).None?
    ensures !AllResolve(c, order)
  {
  }

  lemma ResolveStep(c: Collections, order: seq<Reference>, i: nat)
    requires i < |order| && AllResolve(c, order[..i]) && Resolve(c, order[i]).Some?
    ensures AllResolve(c, order[..i + 1]) && Primitives(c, order[..i + 1]) == Primitives(c, order[..i]) + [Resolve(c, order[i]).value]
  {
    assert forall k :: 0 <= k < i ==> order[..i + 1][k] == order[..i][k];
  }

  /** The first loop: resolve the order and batch it. */
  method Batch(c: Collections, order: seq<Reference>) returns (runs: Option<seq<PolarityRun>>)
    ensures runs.Some? <==> AllResolve(c, order)
    ensures runs.Some? ==> Alternating(runs.value) && OfRuns(runs.value) == Primitives(c, order)
    ensures runs.Some? ==>
              forall i :: 0 <= i < |runs.value| ==>
                runs.value[i].regions != [] && (i > 0 ==> runs.value[i].positive == !runs.value[i - 1].positive)
  {
    hide AllResolve, Alternating, OfRuns, Primitives, Resolve;
    var grown: seq<PolarityRun> := [];
    NothingRead(c, order);
    for i := 0 to |order|
      invariant AllResolve(c, order[..i]) && Alternating(grown) && OfRuns(grown) == Primitives(c, order[..i])
    {
      var p := Resolve(c, order[i]);
      if p.None? {
        Unresolved(c, order, i);
        return None;
      }
      AddAlternates(grown, p.value);
      AddSpells(grown, p.value);
      ResolveStep(c, order, i);
      var n := |grown| - 1;
      if grown != [] && grown[n].positive == p.value.positive {
        grown := grown[..n] + [PolarityRun(p.value.positive, grown[n].regions + [p.value.region])];
      } else {
        grown := grown + [PolarityRun(p.value.positive, [p.value.region])];
      }
    }
    assert order[..|order|] == order;
    RunsAlternate(grown);
    return Some(grown);
  }

  lemma RunsAlternate(runs: seq<PolarityRun>)
    requires Alternating(runs)
    ensures forall i :: 0 <= i < |runs| ==> runs[i].regions != [] && (i > 0 ==> runs[i].positive == !runs[i - 1].positive)
  {
    forall i | 0 < i < |runs| ensures runs[i].positive == !runs[i - 1].positive {
      var j := i - 1;
      assert runs[j].positive != runs[j + 1].positive;
    }
  }

  lemma OneMoreRun(before: seq<PolarityRun>, run: PolarityRun)
    ensures OfRuns(before + [run]) == OfRuns(before) + OfRun(run)
  {
    assert (before + [run])[..|before|] == before;
  }

  /** One batch: the shape so far, None before the first. */
  method DrawBatch(before: seq<PolarityRun>, run: PolarityRun, shape: Option<Region>) returns (next: Option<Region>)
    requires shape == if before == [] then None else Some(Drawn(OfRuns(before)))
    requires before == [] ==> run.positive
    ensures next == Some(Drawn(OfRuns(before + [run])))
  {
    var batch := UnaryUnion(run.regions);
    BatchDrawsRun(OfRuns(before), run);
    OneMoreRun(before, run);
    if shape.None? {
      assert OfRuns(before) == [] && iset{} + batch == batch;
      next := Some(batch);
    } else {
      next := Some(if run.positive then shape.value + batch else shape.value - batch);
    }
  }

  /** The geometry library's emptiness test. */
  ghost predicate TestsEmptiness(isEmpty: Region -> bool) {
    forall region: Region :: isEmpty(region) <==> region == iset{}
  }

  // ---- the composition read off the order and the collections ----

  /** The entry refers to a valid shape of its own kind's collection. */
  predicate Shaped(c: Collections, r: Reference) {
    || (r.Reference? && r.kind == PositivePolygon && 0 <= r.index < |c.positivePolygons| && c.positivePolygons[r.index].Some?)
    || (r.Reference? && r.kind == NegativePolygon && 0 <= r.index < |c.negativePolygons| && c.negativePolygons[r.index].Some?)
    || (r.Reference? && r.kind == PositiveCircle && 0 <= r.index < |c.positiveCircles| && c.positiveCircles[r.index].Some?)
    || (r.Reference? && r.kind == NegativeCircle && 0 <= r.index < |c.negativeCircles| && c.negativeCircles[r.index].Some?)
  }

  /** The entry's shape covers the point. */
  predicate Covers(c: Collections, r: Reference, x: Point)
    requires Shaped(c, r)
  {
    match r.kind
    case PositivePolygon => x in c.positivePolygons[r.index].value
    case NegativePolygon => x in c.negativePolygons[r.index].value
    case PositiveCircle => x in c.positiveCircles[r.index].value
    case NegativeCircle => x in c.negativeCircles[r.index].value
  }

  predicate AllShaped(c: Collections, order: seq<Reference>) {
    forall i :: 0 <= i < |order| ==> Shaped(c, order[i])
  }

  /** Entry i adds copper at the point, and no later entry covers it. */
  predicate CopperFrom(c: Collections, order: seq<Reference>, x: Point, i: nat)
    requires AllShaped(c, order) && i < |order|
  {
    && (order[i].kind == PositivePolygon || order[i].kind == PositiveCircle) && Covers(c, order[i], x)
    && forall j :: i < j < |order| ==> !Covers(c, order[j], x)
  }

  ghost predicate CopperAt(c: Collections, order: seq<Reference>, x: Point)
    requires AllShaped(c, order)
  {
    exists i :: 0 <= i < |order| && CopperFrom(c, order, x, i)
  }

  predicate FirstIsNegative(order: seq<Reference>)
    requires forall i :: 0 <= i < |order| ==> order[i].Reference?
  {
    order != [] && (order[0].kind == NegativePolygon || order[0].kind == NegativeCircle)
  }

  lemma ResolveIs(c: Collections, r: Reference)
    ensures Resolve(c, r).Some? <==> Shaped(c, r)
    ensures Shaped(c, r) ==> (Resolve(c, r).value.positive <==> r.kind == PositivePolygon || r.kind == PositiveCircle)
    ensures Shaped(c, r) ==> forall x :: x in Resolve(c, r).value.region <==> Covers(c, r, x)
  {
  }

  lemma AllAreReferences(c: Collections, order: seq<Reference>)
    requires AllShaped(c, order)
    ensures forall i :: 0 <= i < |order| ==> order[i].Reference?
  {
    forall i | 0 <= i < |order| ensures order[i].Reference? {
      assert Shaped(c, order[i]);
    }
  }

  lemma AllShapedIs(c: Collections, order: seq<Reference>)
    ensures AllResolve(c, order) <==> AllShaped(c, order)
  {
    hide Resolve, Shaped;
    forall i | 0 <= i < |order| ensures Resolve(c, order[i]).Some? <==> Shaped(c, order[i]) {
      ResolveIs(c, order[i]);
    }
  }

  lemma DrawnIsCopper(c: Collections, order: seq<Reference>, x: Point)
    requires AllResolve(c, order) && AllShaped(c, order)
    ensures x in Drawn(Primitives(c, order)) <==> CopperAt(c, order, x)
  {
    AllAreReferences(c, order);
    hide Resolve, Shaped, Covers;
    var ps := Primitives(c, order);
    CopperByPosition(ps, x);
    forall i | 0 <= i < |order|
      ensures ps[i].positive <==> order[i].kind == PositivePolygon || order[i].kind == PositiveCircle
      ensures x in ps[i].region <==> Covers(c, order[i], x)
    {
      ResolveIs(c, order[i]);
    }
    forall i | 0 <= i < |order| ensures CoversLast(ps, x, i) <==> CopperFrom(c, order, x, i) {
    }
  }

  /** Each outcome, and the copper, in terms of the order and the collections. */
  lemma ComposedIs(c: Collections, order: seq<Reference>)
    ensures Composed(c, order).BadPrimitive? <==> !AllShaped(c, order)
    ensures AllShaped(c, order) ==> forall i :: 0 <= i < |order| ==> order[i].Reference?
    ensures AllShaped(c, order) ==>
              && (Composed(c, order).BeginsNegative? <==> FirstIsNegative(order))
              && (Composed(c, order).NoCopper? <==> !FirstIsNegative(order) && forall x :: !CopperAt(c, order, x))
    ensures Composed(c, order).Copper? ==> AllShaped(c, order) && forall x :: x in Composed(c, order).region <==> CopperAt(c, order, x)
  {
    hide Resolve, Covers, Drawn, CopperAt;
    AllShapedIs(c, order);
    if AllShaped(c, order) {
      AllAreReferences(c, order);
      var ps := Primitives(c, order);
      forall x ensures x in Drawn(ps) <==> CopperAt(c, order, x) {
        DrawnIsCopper(c, order, x);
      }
      assert Drawn(ps) == iset{} <==> forall x :: x !in Drawn(ps);
      if order != [] {
        ResolveIs(c, order[0]);
      } else {
        NothingDrawn(ps);
      }
    }
  }

  lemma NothingDrawn(ps: seq<Primitive>)
    requires ps == []
    ensures Drawn(ps) == iset{}
  {
  }

  /** The two loops: run-batched composition is composition one primitive at a time. */
  method Compose(c: Collections, order: seq<Reference>, isEmpty: Region -> bool) returns (outcome: Outcome)
    requires TestsEmptiness(isEmpty)
    ensures outcome == Composed(c, order)
    ensures outcome.BadPrimitive? <==> !AllShaped(c, order)
    ensures AllShaped(c, order) ==> forall i :: 0 <= i < |order| ==> order[i].Reference?
    ensures AllShaped(c, order) ==>
              && (outcome.BeginsNegative? <==> FirstIsNegative(order))
              && (outcome.NoCopper? <==> !FirstIsNegative(order) && forall x :: !CopperAt(c, order, x))
    ensures outcome.Copper? ==> AllShaped(c, order) && forall x :: x in outcome.region <==> CopperAt(c, order, x)
  {
    ComposedIs(c, order);
    hide AllShaped, CopperAt, FirstIsNegative;
    var batched := Batch(c, order);
    if batched.None? {
      return BadPrimitive;
    }
    var runs := batched.value;
    FirstPolarity(runs);
    var shape: Option<Region> := None;
    for i := 0 to |runs|
      invariant i > 0 ==> runs[0].positive
      invariant shape == if i == 0 then None else Some(Drawn(OfRuns(runs[..i])))
    {
      if shape.None? && !runs[i].positive {
        return BeginsNegative;
      }
      assert runs[..i + 1] == runs[..i] + [runs[i]];
      shape := DrawBatch(runs[..i], runs[i], shape);
    }
    assert runs[..|runs|] == runs;
    if shape.None? || isEmpty(shape.value) {
      return NoCopper;
    }
    return Copper(shape.value);
  }

  /** The first primitive has the polarity of the first run. */
  lemma {:induction false} FirstPolarity(runs: seq<PolarityRun>)
    requires Alternating(runs)
    ensures runs == [] <==> OfRuns(runs) == []
    ensures runs != [] ==> OfRuns(runs)[0].positive == runs[0].positive
    decreases |runs|
  {
    if |runs| > 1 {
      assert Alternating(runs[..|runs| - 1]);
      FirstPolarity(runs[..|runs| - 1]);
    }
  }
}
