/**
 The project's identity: a canonical JSON payload that is hashed to bind a store to a project, and
 what it takes for two projects to have the same one.
 */
module ProjectBinding {
  import opened ByteStrings
  import opened KeyOrder
  import opened RowTables
  import opened CanonicalJson
  import opened JsonObjects
  import opened MultisetSort

  datatype Record = Record(layer: Bytes, net: Bytes, asset: Bytes, sha: Bytes, islands: seq<Bytes>)

  datatype Rail = Rail(id: Bytes, net: Bytes)

  /** Numbers and materials are carried over as they are, whatever JSON they are. */
  datatype Dielectric = Dielectric(frequency: Json, dk: Json, df: Json)

  datatype Layer = Layer(name: Bytes, thickness: Json, conductivity: Json, dk: Json, df: Json, material: Json,
                         properties: seq<Dielectric>, nets: seq<Bytes>)

  datatype Project = Project(geometry: seq<Record>, rails: seq<Rail>, aliases: seq<Bytes>, stackup: seq<Layer>)

  /** The schema texts, the same for every project. */
  datatype Schema = Schema(binding: Bytes, surface: Bytes, compiler: Bytes)

  // ---- normalised rows ----

  function SortedTexts(env: Env, texts: seq<Bytes>): seq<Bytes> {
    SortBy(Before, Stripped(env, texts))
  }

  /** A geometry row as a tuple: four texts, then the islands, which compare after them. */
  function GeometryRow(env: Env, r: Record): seq<Bytes> {
    [env.fold(env.strip(r.layer)), env.fold(env.strip(r.net)), env.strip(r.asset), env.fold(env.strip(r.sha))] + SortedTexts(env, r.islands)
  }

  function RailRow(env: Env, r: Rail): seq<Bytes> {
    [env.strip(r.id), env.strip(r.net)]
  }

  function GeometryRows(env: Env, p: Project): (r: seq<seq<Bytes>>)
    ensures |r| == |p.geometry| && forall i :: 0 <= i < |r| ==> r[i] == GeometryRow(env, p.geometry[i])
  {
    seq(|p.geometry|, i requires 0 <= i < |p.geometry| => GeometryRow(env, p.geometry[i]))
  }

  function RailRows(env: Env, p: Project): (r: seq<seq<Bytes>>)
    ensures |r| == |p.rails| && forall i :: 0 <= i < |r| ==> r[i] == RailRow(env, p.rails[i])
  {
    seq(|p.rails|, i requires 0 <= i < |p.rails| => RailRow(env, p.rails[i]))
  }

  // ---- the payload ----

  function Texts(texts: seq<Bytes>): (r: seq<Json>)
    ensures |r| == |texts| && forall i :: 0 <= i < |r| ==> r[i] == String(texts[i])
  {
    seq(|texts|, i requires 0 <= i < |texts| => String(texts[i]))
  }

  function GeometryJson(row: seq<Bytes>): Json
    requires |row| >= 4
  {
    Array(Texts(row[..4]) + [Array(Texts(row[4..]))])
  }

  function GeometryJsons(rows: seq<seq<Bytes>>): (r: seq<Json>)
    requires forall i :: 0 <= i < |rows| ==> |rows[i]| >= 4
    ensures |r| == |rows| && forall i :: 0 <= i < |r| ==> r[i] == GeometryJson(rows[i])
  {
    seq(|rows|, i requires 0 <= i < |rows| => GeometryJson(rows[i]))
  }

  function RailJsons(rows: seq<seq<Bytes>>): (r: seq<Json>)
    ensures |r| == |rows| && forall i :: 0 <= i < |r| ==> r[i] == Array(Texts(rows[i]))
  {
    seq(|rows|, i requires 0 <= i < |rows| => Array(Texts(rows[i])))
  }

  function Decimal(n: nat): (r: Bytes)
    ensures NumberToken(r)
  {
    if n < 10 then [(48 + n) as byte] else Decimal(n / 10) + [(48 + n % 10) as byte]
  }

  function DielectricJson(d: Dielectric): Json {
    Object(Keyed([FREQUENCY, DK, DF], [d.frequency, d.dk, d.df]))
  }

  function DielectricJsons(ds: seq<Dielectric>): (r: seq<Json>)
    ensures |r| == |ds| && forall i :: 0 <= i < |r| ==> r[i] == DielectricJson(ds[i])
  {
    seq(|ds|, i requires 0 <= i < |ds| => DielectricJson(ds[i]))
  }

  function LayerValues(env: Env, ordinal: nat, l: Layer): seq<Json> {
    [Number(Decimal(ordinal)), String(env.strip(l.name)), l.thickness, l.conductivity, l.dk, l.df, l.material,
     Array(DielectricJsons(l.properties)), Array(Texts(Stripped(env, l.nets)))]
  }

  function LayerJsons(env: Env, layers: seq<Layer>): (r: seq<Json>)
    ensures |r| == |layers| && forall i :: 0 <= i < |r| ==> r[i] == Object(Keyed(LAYER_KEYS, LayerValues(env, i, layers[i])))
  {
    seq(|layers|, i requires 0 <= i < |layers| => Object(Keyed(LAYER_KEYS, LayerValues(env, i, layers[i]))))
  }

  function GeometryPart(env: Env, p: Project): Json {
    SortedRowsAreLong(env, p);
    Array(GeometryJsons(SortBy(TupleBefore, GeometryRows(env, p))))
  }

  function RailPart(env: Env, p: Project): Json {
    Array(RailJsons(SortBy(TupleBefore, RailRows(env, p))))
  }

  function AliasPart(env: Env, p: Project): Json {
    Array(Texts(SortedTexts(env, p.aliases)))
  }

  function StackupPart(env: Env, p: Project): Json {
    Array(LayerJsons(env, p.stackup))
  }

  function PayloadValues(env: Env, s: Schema, source: Bytes, evidence: Bytes, p: Project): seq<Json> {
    [String(s.binding), String(s.surface), String(s.compiler), String(source), String(evidence),
     GeometryPart(env, p), StackupPart(env, p), RailPart(env, p), AliasPart(env, p)]
  }

  function Payload(env: Env, s: Schema, source: Bytes, evidence: Bytes, p: Project): Json {
    Object(Keyed(PAYLOAD_KEYS, PayloadValues(env, s, source, evidence, p)))
  }

  const FREQUENCY: Bytes := Ascii("frequency_hz")
  const DK: Bytes := Ascii("dk")
  const DF: Bytes := Ascii("df")

  const LAYER_KEYS: seq<Bytes> :=
    [Ascii("ordinal"), Ascii("name"), Ascii("thickness_um"), Ascii("conductivity_s_m"), DK, DF, Ascii("material"),
     Ascii("dielectric_properties"), Ascii("pwr_nets")]

  const PAYLOAD_KEYS: seq<Bytes> :=
    [Ascii("schema"), Ascii("surface_schema"), Ascii("surface_compiler"), Ascii("source_sha256"), Ascii("certificate_evidence_sha256"),
     Ascii("geometry"), Ascii("stackup"), Ascii("rails"), Ascii("gnd_aliases")]

  lemma SortedRowsAreLong(env: Env, p: Project)
    ensures forall i :: 0 <= i < |SortBy(TupleBefore, GeometryRows(env, p))| ==> |SortBy(TupleBefore, GeometryRows(env, p))[i]| >= 4
  {
    var rows, sorted := GeometryRows(env, p), SortBy(TupleBefore, GeometryRows(env, p));
    forall i | 0 <= i < |sorted| ensures |sorted[i]| >= 4 {
      assert sorted[i] in multiset(sorted);
      assert sorted[i] in rows;
    }
  }

  // ---- equality of payloads, part by part ----

  lemma KeysDiffer()
    ensures DistinctTexts(PAYLOAD_KEYS) && DistinctTexts(LAYER_KEYS) && DistinctTexts([FREQUENCY, DK, DF])
  {
    assert DK[1] != DF[1];
    assert Ascii("material")[0] != Ascii("pwr_nets")[0];
  }

  lemma TextsSame(a: seq<Bytes>, b: seq<Bytes>)
    ensures Same(Array(Texts(a)), Array(Texts(b))) <==> a == b
    ensures WellFormed(Array(Texts(a)))
  {
    if Same(Array(Texts(a)), Array(Texts(b))) {
      forall i | 0 <= i < |a| ensures a[i] == b[i] {
        assert Same(Texts(a)[i], Texts(b)[i]);
      }
    }
  }

  lemma GeometrySame(a: seq<Bytes>, b: seq<Bytes>)
    requires |a| >= 4 && |b| >= 4
    ensures Same(GeometryJson(a), GeometryJson(b)) <==> a == b
    ensures WellFormed(GeometryJson(a))
  {
    TextsSame(a[4..], b[4..]);
    TextsSame(a[..4], b[..4]);
    var x, y := Texts(a[..4]) + [Array(Texts(a[4..]))], Texts(b[..4]) + [Array(Texts(b[4..]))];
    if Same(GeometryJson(a), GeometryJson(b)) {
      assert Same(x[4], y[4]);
      forall i | 0 <= i < 4 ensures Same(Texts(a[..4])[i], Texts(b[..4])[i]) {
        assert Same(x[i], y[i]);
      }
      assert a == a[..4] + a[4..] && b == b[..4] + b[4..];
    }
  }

  lemma GeometriesSame(a: seq<seq<Bytes>>, b: seq<seq<Bytes>>)
    requires (forall i :: 0 <= i < |a| ==> |a[i]| >= 4) && (forall i :: 0 <= i < |b| ==> |b[i]| >= 4)
    ensures Same(Array(GeometryJsons(a)), Array(GeometryJsons(b))) <==> a == b
    ensures WellFormed(Array(GeometryJsons(a)))
  {
    forall i | 0 <= i < |a| ensures WellFormed(GeometryJson(a[i])) {
      GeometrySame(a[i], a[i]);
    }
    forall i | 0 <= i < |a| && i < |b| ensures Same(GeometryJson(a[i]), GeometryJson(b[i])) <==> a[i] == b[i] {
      GeometrySame(a[i], b[i]);
    }
    if Same(Array(GeometryJsons(a)), Array(GeometryJsons(b))) {
      forall i | 0 <= i < |a| ensures a[i] == b[i] {
        assert Same(GeometryJsons(a)[i], GeometryJsons(b)[i]);
      }
    }
  }

  lemma RailsSame(a: seq<seq<Bytes>>, b: seq<seq<Bytes>>)
    ensures Same(Array(RailJsons(a)), Array(RailJsons(b))) <==> a == b
    ensures WellFormed(Array(RailJsons(a)))
  {
    forall i | 0 <= i < |a| ensures WellFormed(Array(Texts(a[i]))) {
      TextsSame(a[i], a[i]);
    }
    forall i | 0 <= i < |a| && i < |b| ensures Same(Array(Texts(a[i])), Array(Texts(b[i]))) <==> a[i] == b[i] {
      TextsSame(a[i], b[i]);
    }
    if Same(Array(RailJsons(a)), Array(RailJsons(b))) {
      forall i | 0 <= i < |a| ensures a[i] == b[i] {
        assert Same(RailJsons(a)[i], RailJsons(b)[i]);
      }
    }
  }

  // ---- what agreeing projects are ----

  ghost predicate GeometryAgrees(env: Env, p: Project, q: Project) {
    multiset(GeometryRows(env, p)) == multiset(GeometryRows(env, q))
  }

  ghost predicate RailsAgree(env: Env, p: Project, q: Project) {
    multiset(RailRows(env, p)) == multiset(RailRows(env, q))
  }

  ghost predicate AliasesAgree(env: Env, p: Project, q: Project) {
    multiset(Stripped(env, p.aliases)) == multiset(Stripped(env, q.aliases))
  }

  ghost predicate DielectricAgrees(a: Dielectric, b: Dielectric) {
    Same(a.frequency, b.frequency) && Same(a.dk, b.dk) && Same(a.df, b.df)
  }

  ghost predicate DielectricsAgree(a: seq<Dielectric>, b: seq<Dielectric>) {
    |a| == |b| && forall i :: 0 <= i < |a| ==> DielectricAgrees(a[i], b[i])
  }

  ghost predicate LayerAgrees(env: Env, a: Layer, b: Layer) {
    && env.strip(a.name) == env.strip(b.name) && Same(a.thickness, b.thickness) && Same(a.conductivity, b.conductivity)
    && Same(a.dk, b.dk) && Same(a.df, b.df) && Same(a.material, b.material)
    && DielectricsAgree(a.properties, b.properties) && Stripped(env, a.nets) == Stripped(env, b.nets)
  }

  ghost predicate StackupsAgree(env: Env, a: seq<Layer>, b: seq<Layer>) {
    |a| == |b| && forall i :: 0 <= i < |a| ==> LayerAgrees(env, a[i], b[i])
  }

  predicate DielectricEncodable(d: Dielectric) {
    WellFormed(d.frequency) && WellFormed(d.dk) && WellFormed(d.df)
  }

  predicate LayerEncodable(l: Layer) {
    && WellFormed(l.thickness) && WellFormed(l.conductivity) && WellFormed(l.dk) && WellFormed(l.df) && WellFormed(l.material)
    && forall i :: 0 <= i < |l.properties| ==> DielectricEncodable(l.properties[i])
  }

  predicate Encodable(p: Project) {
    forall i :: 0 <= i < |p.stackup| ==> LayerEncodable(p.stackup[i])
  }

  lemma DielectricSame(a: Dielectric, b: Dielectric)
    ensures Same(DielectricJson(a), DielectricJson(b)) <==> DielectricAgrees(a, b)
    ensures DielectricEncodable(a) ==> WellFormed(DielectricJson(a))
  {
    KeysDiffer();
    var x, y := [a.frequency, a.dk, a.df], [b.frequency, b.dk, b.df];
    KeyedSame([FREQUENCY, DK, DF], x, y);
    if DielectricEncodable(a) {
      KeyedIsWellFormed([FREQUENCY, DK, DF], x);
    }
    assert x[0] == a.frequency && x[1] == a.dk && x[2] == a.df && y[0] == b.frequency && y[1] == b.dk && y[2] == b.df;
  }

  lemma DielectricsSame(a: seq<Dielectric>, b: seq<Dielectric>)
    ensures Same(Array(DielectricJsons(a)), Array(DielectricJsons(b))) <==> DielectricsAgree(a, b)
    ensures (forall i :: 0 <= i < |a| ==> DielectricEncodable(a[i])) ==> WellFormed(Array(DielectricJsons(a)))
  {
    hide DielectricAgrees, DielectricEncodable, DielectricJson;
    forall i | 0 <= i < |a| ensures DielectricEncodable(a[i]) ==> WellFormed(DielectricJson(a[i])) {
      DielectricSame(a[i], a[i]);
    }
    forall i | 0 <= i < |a| && i < |b| ensures Same(DielectricJson(a[i]), DielectricJson(b[i])) <==> DielectricAgrees(a[i], b[i]) {
      DielectricSame(a[i], b[i]);
    }
    if Same(Array(DielectricJsons(a)), Array(DielectricJsons(b))) {
      forall i | 0 <= i < |a| ensures DielectricAgrees(a[i], b[i]) {
        assert Same(DielectricJsons(a)[i], DielectricJsons(b)[i]);
      }
    }
  }

  lemma LayerSame(env: Env, i: nat, a: Layer, b: Layer)
    ensures Same(Object(Keyed(LAYER_KEYS, LayerValues(env, i, a))), Object(Keyed(LAYER_KEYS, LayerValues(env, i, b)))) <==> LayerAgrees(env, a, b)
    ensures LayerEncodable(a) ==> WellFormed(Object(Keyed(LAYER_KEYS, LayerValues(env, i, a))))
  {
    hide Same, WellFormed, Decimal, DielectricsAgree, DielectricJsons, Texts, Stripped, DielectricEncodable, Keyed;
    KeysDiffer();
    NumberSame(Decimal(i));
    StringSame(env.strip(a.name), env.strip(b.name));
    var x, y := LayerValues(env, i, a), LayerValues(env, i, b);
    KeyedSame(LAYER_KEYS, x, y);
    DielectricsSame(a.properties, b.properties);
    TextsSame(Stripped(env, a.nets), Stripped(env, b.nets));
    if LayerEncodable(a) {
      KeyedIsWellFormed(LAYER_KEYS, x);
    }
    NineSame(x, y);
  }

  lemma NineSame(x: seq<Json>, y: seq<Json>)
    requires |x| == 9 && |y| == 9
    ensures (forall i :: 0 <= i < 9 ==> Same(x[i], y[i])) <==>
            Same(x[0], y[0]) && Same(x[1], y[1]) && Same(x[2], y[2]) && Same(x[3], y[3]) && Same(x[4], y[4])
            && Same(x[5], y[5]) && Same(x[6], y[6]) && Same(x[7], y[7]) && Same(x[8], y[8])
  {
    hide Same;
  }

  lemma StackupSame(env: Env, a: seq<Layer>, b: seq<Layer>)
    ensures Same(Array(LayerJsons(env, a)), Array(LayerJsons(env, b))) <==> StackupsAgree(env, a, b)
    ensures (forall i :: 0 <= i < |a| ==> LayerEncodable(a[i])) ==> WellFormed(Array(LayerJsons(env, a)))
  {
    hide LayerAgrees, LayerEncodable, LayerValues, Keyed;
    forall i | 0 <= i < |a| ensures LayerEncodable(a[i]) ==> WellFormed(LayerJsons(env, a)[i]) {
      LayerSame(env, i, a[i], a[i]);
    }
    forall i | 0 <= i < |a| && i < |b| ensures Same(LayerJsons(env, a)[i], LayerJsons(env, b)[i]) <==> LayerAgrees(env, a[i], b[i]) {
      LayerSame(env, i, a[i], b[i]);
    }
    if Same(Array(LayerJsons(env, a)), Array(LayerJsons(env, b))) {
      forall i | 0 <= i < |a| ensures LayerAgrees(env, a[i], b[i]) {
        assert Same(LayerJsons(env, a)[i], LayerJsons(env, b)[i]);
      }
    }
  }

  /** The same geometry, rails and aliases as multisets of normalised rows, and stackups that agree in order. */
  ghost predicate SameProject(env: Env, p: Project, q: Project) {
    GeometryAgrees(env, p, q) && RailsAgree(env, p, q) && AliasesAgree(env, p, q) && StackupsAgree(env, p.stackup, q.stackup)
  }

  /** A geometry row holds its four texts and its islands as a multiset. */
  lemma GeometryRowIs(env: Env, a: Record, b: Record)
    ensures GeometryRow(env, a) == GeometryRow(env, b) <==>
            && env.fold(env.strip(a.layer)) == env.fold(env.strip(b.layer)) && env.fold(env.strip(a.net)) == env.fold(env.strip(b.net))
            && env.strip(a.asset) == env.strip(b.asset) && env.fold(env.strip(a.sha)) == env.fold(env.strip(b.sha))
            && multiset(Stripped(env, a.islands)) == multiset(Stripped(env, b.islands))
  {
    TextsAreOrdered();
    SortByIsCanonical(Before, Stripped(env, a.islands), Stripped(env, b.islands));
    var x, y := GeometryRow(env, a), GeometryRow(env, b);
    assert x[4..] == SortedTexts(env, a.islands) && y[4..] == SortedTexts(env, b.islands);
    if x == y {
      assert x[0] == y[0] && x[1] == y[1] && x[2] == y[2] && x[3] == y[3];
    }
  }

  lemma GeometryPartSame(env: Env, p: Project, q: Project)
    ensures Same(GeometryPart(env, p), GeometryPart(env, q)) <==> GeometryAgrees(env, p, q)
    ensures WellFormed(GeometryPart(env, p))
  {
    hide Same, WellFormed, GeometryJsons, SortBy;
    SortedRowsAreLong(env, p);
    SortedRowsAreLong(env, q);
    TuplesAreOrdered();
    SortByIsCanonical(TupleBefore, GeometryRows(env, p), GeometryRows(env, q));
    GeometriesSame(SortBy(TupleBefore, GeometryRows(env, p)), SortBy(TupleBefore, GeometryRows(env, q)));
  }

  lemma RailPartSame(env: Env, p: Project, q: Project)
    ensures Same(RailPart(env, p), RailPart(env, q)) <==> RailsAgree(env, p, q)
    ensures WellFormed(RailPart(env, p))
  {
    hide Same, WellFormed, RailJsons, SortBy;
    TuplesAreOrdered();
    SortByIsCanonical(TupleBefore, RailRows(env, p), RailRows(env, q));
    RailsSame(SortBy(TupleBefore, RailRows(env, p)), SortBy(TupleBefore, RailRows(env, q)));
  }

  lemma AliasPartSame(env: Env, p: Project, q: Project)
    ensures Same(AliasPart(env, p), AliasPart(env, q)) <==> AliasesAgree(env, p, q)
    ensures WellFormed(AliasPart(env, p))
  {
    hide Same, WellFormed, Texts, SortBy;
    TextsAreOrdered();
    SortByIsCanonical(Before, Stripped(env, p.aliases), Stripped(env, q.aliases));
    TextsSame(SortedTexts(env, p.aliases), SortedTexts(env, q.aliases));
  }

  lemma StackupPartSame(env: Env, p: Project, q: Project)
    ensures Same(StackupPart(env, p), StackupPart(env, q)) <==> StackupsAgree(env, p.stackup, q.stackup)
    ensures Encodable(p) ==> WellFormed(StackupPart(env, p))
  {
    hide Same, WellFormed, LayerJsons, StackupsAgree, LayerEncodable;
    StackupSame(env, p.stackup, q.stackup);
  }

  /** The nine values of the payload, one by one: the texts. */
  lemma TextPartsSame(env: Env, s: Schema, source: Bytes, evidence: Bytes, p: Project, other: Bytes, proof: Bytes, q: Project)
    ensures var x, y := PayloadValues(env, s, source, evidence, p), PayloadValues(env, s, other, proof, q);
            && |x| == 9 && |y| == 9 && Same(x[0], y[0]) && Same(x[1], y[1]) && Same(x[2], y[2])
            && (Same(x[3], y[3]) <==> source == other) && (Same(x[4], y[4]) <==> evidence == proof)
  {
    hide Same, WellFormed, GeometryPart, RailPart, AliasPart, StackupPart;
    StringSame(s.binding, s.binding);
    StringSame(s.surface, s.surface);
    StringSame(s.compiler, s.compiler);
    StringSame(source, other);
    StringSame(evidence, proof);
  }

  /** ... and the rows. */
  lemma RowPartsSame(env: Env, s: Schema, source: Bytes, evidence: Bytes, p: Project, other: Bytes, proof: Bytes, q: Project)
    ensures var x, y := PayloadValues(env, s, source, evidence, p), PayloadValues(env, s, other, proof, q);
            && |x| == 9 && |y| == 9
            && (Same(x[5], y[5]) <==> GeometryAgrees(env, p, q))
            && (Same(x[6], y[6]) <==> StackupsAgree(env, p.stackup, q.stackup))
            && (Same(x[7], y[7]) <==> RailsAgree(env, p, q))
            && (Same(x[8], y[8]) <==> AliasesAgree(env, p, q))
  {
    hide Encodable, Same, WellFormed, GeometryPart, RailPart, AliasPart, StackupPart, GeometryAgrees, RailsAgree, AliasesAgree, StackupsAgree;
    GeometryPartSame(env, p, q);
    StackupPartSame(env, p, q);
    RailPartSame(env, p, q);
    AliasPartSame(env, p, q);
  }

  lemma PartsWellFormed(env: Env, s: Schema, source: Bytes, evidence: Bytes, p: Project)
    requires Encodable(p)
    ensures |PayloadValues(env, s, source, evidence, p)| == 9
    ensures forall i :: 0 <= i < 9 ==> WellFormed(PayloadValues(env, s, source, evidence, p)[i])
  {
    hide Encodable, WellFormed, Same, GeometryPart, RailPart, AliasPart, StackupPart;
    StringSame(s.binding, s.surface);
    StringSame(s.surface, s.compiler);
    StringSame(s.compiler, s.compiler);
    StringSame(source, source);
    StringSame(evidence, evidence);
    GeometryPartSame(env, p, p);
    StackupPartSame(env, p, p);
    RailPartSame(env, p, p);
    AliasPartSame(env, p, p);
  }

  lemma StringSame(a: Bytes, b: Bytes)
    ensures Same(String(a), String(b)) <==> a == b
    ensures WellFormed(String(a))
  {
  }

  lemma NumberSame(token: Bytes)
    requires NumberToken(token)
    ensures Same(Number(token), Number(token)) && WellFormed(Number(token))
  {
  }

  /** Payloads agree exactly for the same source, evidence and project. */
  lemma PayloadSame(env: Env, s: Schema, source: Bytes, evidence: Bytes, p: Project, other: Bytes, proof: Bytes, q: Project)
    ensures Same(Payload(env, s, source, evidence, p), Payload(env, s, other, proof, q)) <==>
            source == other && evidence == proof && SameProject(env, p, q)
    ensures Encodable(p) ==> WellFormed(Payload(env, s, source, evidence, p))
  {
    hide Same, WellFormed, PayloadValues, GeometryAgrees, RailsAgree, AliasesAgree, StackupsAgree, Keyed, Encodable;
    var x, y := PayloadValues(env, s, source, evidence, p), PayloadValues(env, s, other, proof, q);
    TextPartsSame(env, s, source, evidence, p, other, proof, q);
    RowPartsSame(env, s, source, evidence, p, other, proof, q);
    KeysDiffer();
    KeyedSame(PAYLOAD_KEYS, x, y);
    NineSame(x, y);
    if Encodable(p) {
      PartsWellFormed(env, s, source, evidence, p);
      KeyedIsWellFormed(PAYLOAD_KEYS, x);
    }
  }

  /** The bytes that are hashed are a normal form of the project. */
  lemma BindingIsNormalForm(env: Env, s: Schema, source: Bytes, evidence: Bytes, p: Project, other: Bytes, proof: Bytes, q: Project)
    requires Encodable(p) && Encodable(q)
    ensures Encode(Payload(env, s, source, evidence, p)) == Encode(Payload(env, s, other, proof, q)) <==>
            source == other && evidence == proof && SameProject(env, p, q)
  {
    hide Payload, SameProject, Encodable;
    PayloadSame(env, s, source, evidence, p, other, proof, q);
    PayloadSame(env, s, other, proof, q, source, evidence, p);
    EncodeIsCanonical(Payload(env, s, source, evidence, p), Payload(env, s, other, proof, q));
  }
}
