/**
 The rows of the compact certificate views: how a binding row is projected, what the loader asks of
 the projected row, and why every row built passes.
 */
module CompactViews {
  import opened ByteStrings
  import opened KeyOrder
  import opened CanonicalJson
  import opened JsonObjects

  /** Python's casefold, strip and str on text and JSON values, and SHA-256 in hexadecimal. */
  datatype Py = Py(fold: Bytes -> Bytes, strip: Bytes -> Bytes, show: Json -> Bytes, sha: Bytes -> Bytes)

  predicate PlainByte(b: byte) {
    97 <= b <= 122 || 48 <= b <= 57 || b == 95
  }

  predicate Plain(s: Bytes) {
    forall i :: 0 <= i < |s| ==> PlainByte(s[i])
  }

  predicate Hexadecimal(s: Bytes) {
    |s| == 64 && forall i :: 0 <= i < 64 ==> 48 <= s[i] <= 57 || 97 <= s[i] <= 102
  }

  /** Stripping twice strips once, plain lower-case words are left alone, and digests are hexadecimal. */
  ghost predicate Sensible(py: Py) {
    && (forall s :: py.strip(py.strip(s)) == py.strip(s))
    && (forall s {:trigger Plain(s)} :: Plain(s) ==> py.strip(s) == s && py.fold(s) == s)
    && forall s :: Hexadecimal(py.sha(s))
  }

  /** str(row.get(key, "")): the text itself, or what Python shows for another value. */
  function Shown(py: Py, v: Option<Json>): Bytes {
    match v
    case None => []
    case Some(String(t)) => t
    case Some(x) => py.show(Normal(x))
  }

  function Word(py: Py, v: Option<Json>): Bytes {
    py.fold(py.strip(Shown(py, v)))
  }

  function Digest(py: Py, v: Json): Bytes {
    py.sha(Encode(v))
  }

  // ---- keys ----

  const STATUS: Bytes := Ascii("status")
  const ISSUES: Bytes := Ascii("issues")
  const SOURCE_LANDING_KEY: Bytes := Ascii("source_landing_key")
  const ROLE: Bytes := Ascii("role")
  const TARGET_LAYER: Bytes := Ascii("target_layer")
  const DESTINATION_VERTEX: Bytes := Ascii("destination_vertex_id")
  const BINDING: Bytes := Ascii("binding_evidence_sha256")
  const PROJECTION: Bytes := Ascii("projection_evidence_sha256")

  const RUNTIME_KEYS: seq<Bytes> :=
    [SOURCE_LANDING_KEY, ROLE, TARGET_LAYER, STATUS, ISSUES, Ascii("target_rail_id"), Ascii("rail_id"), Ascii("target_net"),
     Ascii("destination_net"), Ascii("net"), Ascii("refdes"), Ascii("via_template_id"), DESTINATION_VERTEX]

  const PROJECTION_KEYS: seq<Bytes> := [Ascii("schema"), Ascii("source_sha256"), Ascii("certificate_evidence_sha256"), Ascii("binding")]

  const PROJECTION_SCHEMA: Bytes := Ascii("spd-retarget-binding-runtime-projection-v1")

  const COMPLETE: Bytes := Ascii("complete")
  const POWER: Bytes := Ascii("power")
  const GROUND: Bytes := Ascii("ground")

  lemma RuntimeKeysDiffer()
    ensures DistinctTexts(RUNTIME_KEYS) && DistinctTexts(PROJECTION_KEYS)
    ensures BINDING !in RUNTIME_KEYS && PROJECTION !in RUNTIME_KEYS && BINDING != PROJECTION
  {
    assert STATUS[0] == 115 && ISSUES[0] == 105 && Ascii("refdes")[0] == 114;
    assert Ascii("destination_net")[0] == 100 && Ascii("via_template_id")[0] == 118;
  }

  // ---- one binding row ----

  predicate EmptyList(v: Option<Json>) {
    v == Some(Array([]))
  }

  /** A two-part landing key without blanks, a role, a layer and a vertex. */
  predicate RouteIdentity(py: Py, row: Json) {
    && var key := Field(row, SOURCE_LANDING_KEY);
       key.Some? && key.value.Array? && |key.value.items| == 2
       && py.strip(Shown(py, Some(key.value.items[0]))) != [] && py.strip(Shown(py, Some(key.value.items[1]))) != []
       && (Word(py, Field(row, ROLE)) == POWER || Word(py, Field(row, ROLE)) == GROUND)
       && py.strip(Shown(py, Field(row, TARGET_LAYER))) != [] && py.strip(Shown(py, Field(row, DESTINATION_VERTEX))) != []
  }

  /** The digest that binds a row to its source and certificate. */
  function ProjectionDigest(py: Py, source: Bytes, evidence: Bytes, row: seq<Pair<Json>>): Bytes {
    Digest(py, Object(Keyed(PROJECTION_KEYS, [String(PROJECTION_SCHEMA), String(source), String(evidence), Object(row)])))
  }

  /** What the builder asks of a row of the full certificate. */
  predicate OriginalRow(py: Py, row: Json) {
    && row.Object?
    && Field(row, STATUS).Some? && Field(row, STATUS).value.String? && Word(py, Field(row, STATUS)) == COMPLETE
    && EmptyList(Field(row, ISSUES))
    && Hexadecimal(Word(py, Field(row, BINDING)))
    && Digest(py, Object(Without(row.fields, BINDING))) == Word(py, Field(row, BINDING))
    && RouteIdentity(py, Object(Pick(row, RUNTIME_KEYS)))
  }

  /** The runtime fields with the original digest. */
  function Projected(py: Py, row: Json): seq<Pair<Json>> {
    Pick(row, RUNTIME_KEYS) + [Pair(BINDING, String(Word(py, Field(row, BINDING))))]
  }

  /** The row that is persisted. */
  function Compact(py: Py, source: Bytes, evidence: Bytes, row: Json): Json {
    Object(Projected(py, row) + [Pair(PROJECTION, String(ProjectionDigest(py, source, evidence, Projected(py, row))))])
  }

  predicate KeysWithin(fields: seq<Pair<Json>>, keys: seq<Bytes>) {
    forall i :: 0 <= i < |fields| ==> fields[i].key in keys
  }

  /** What the loader asks of a persisted row. */
  predicate ProjectedRow(py: Py, source: Bytes, evidence: Bytes, row: Json) {
    && row.Object? && Hexadecimal(source) && Hexadecimal(evidence)
    && KeysWithin(row.fields, RUNTIME_KEYS + [BINDING, PROJECTION])
    && Word(py, Field(row, STATUS)) == COMPLETE && EmptyList(Field(row, ISSUES)) && RouteIdentity(py, row)
    && Hexadecimal(Word(py, Field(row, BINDING))) && Hexadecimal(Word(py, Field(row, PROJECTION)))
    && Word(py, Field(row, PROJECTION)) == ProjectionDigest(py, source, evidence, Without(row.fields, PROJECTION))
  }

  // ---- values seen through normalisation ----

  lemma ShownOfNormal(py: Py, v: Option<Json>)
    requires v.Some? ==> WellFormed(v.value)
    ensures Shown(py, NormalOption(v)) == Shown(py, v)
  {
    if v.Some? {
      NormalIsSame(v.value);
    }
  }

  lemma FieldShown(py: Py, row: Json, key: Bytes)
    requires WellFormed(row)
    ensures Shown(py, Field(Normal(row), key)) == Shown(py, Field(row, key))
    ensures Word(py, Field(Normal(row), key)) == Word(py, Field(row, key))
  {
    FieldOfNormal(row, key);
    LookupWellFormed(row, key);
    ShownOfNormal(py, Field(row, key));
  }

  lemma EmptyListOfNormal(row: Json, key: Bytes)
    requires WellFormed(row)
    ensures EmptyList(Field(Normal(row), key)) <==> EmptyList(Field(row, key))
  {
    FieldOfNormal(row, key);
    if Field(row, key).Some? && Field(row, key).value.Array? {
      assert |NormalItems(Field(row, key).value.items)| == |Field(row, key).value.items|;
    }
  }

  lemma RouteOfNormal(py: Py, row: Json)
    requires WellFormed(row)
    ensures RouteIdentity(py, Normal(row)) <==> RouteIdentity(py, row)
  {
    hide Word;
    FieldOfNormal(row, SOURCE_LANDING_KEY);
    LookupWellFormed(row, SOURCE_LANDING_KEY);
    FieldShown(py, row, ROLE);
    FieldShown(py, row, TARGET_LAYER);
    FieldShown(py, row, DESTINATION_VERTEX);
    var key := Field(row, SOURCE_LANDING_KEY);
    if key.Some? && key.value.Array? && |key.value.items| == 2 {
      ShownOfNormal(py, Some(key.value.items[0]));
      ShownOfNormal(py, Some(key.value.items[1]));
    }
  }

  lemma KeysOfNormal(fields: seq<Pair<Json>>, keys: seq<Bytes>)
    requires WellFormed(Object(fields))
    ensures Normal(Object(fields)).Object?
    ensures KeysWithin(Normal(Object(fields)).fields, keys) <==> KeysWithin(fields, keys)
  {
    var n, sorted := NormalFields(fields), Sort(NormalFields(fields));
    assert Normal(Object(fields)) == Object(sorted);
    if KeysWithin(fields, keys) {
      forall i | 0 <= i < |sorted| ensures sorted[i].key in keys {
        assert sorted[i] in n;
      }
    }
    if KeysWithin(sorted, keys) {
      forall i | 0 <= i < |fields| ensures fields[i].key in keys {
        assert n[i] in sorted;
        var j :| 0 <= j < |sorted| && sorted[j] == n[i];
      }
    }
  }

  /** A digest over an object does not see the order of its fields. */
  lemma ProjectionOfNormal(py: Py, source: Bytes, evidence: Bytes, fields: seq<Pair<Json>>)
    requires WellFormed(Object(fields))
    ensures Normal(Object(fields)).Object?
    ensures ProjectionDigest(py, source, evidence, Without(Normal(Object(fields)).fields, PROJECTION)) ==
            ProjectionDigest(py, source, evidence, Without(fields, PROJECTION))
  {
    hide Normal, Encode, Same, WellFormed;
    var n := NormalObject(fields);
    NormalIsSame(Object(fields));
    WithoutOfNormal(fields, PROJECTION);
    WithoutWellFormed(fields, PROJECTION);
    WithoutWellFormed(n, PROJECTION);
    EncodeIsCanonical(Object(Without(n, PROJECTION)), Object(Without(fields, PROJECTION)));
    ProjectionSame(source, evidence, Without(n, PROJECTION), Without(fields, PROJECTION));
  }

  lemma ProjectionSame(source: Bytes, evidence: Bytes, a: seq<Pair<Json>>, b: seq<Pair<Json>>)
    requires WellFormed(Object(a)) && WellFormed(Object(b)) && Same(Object(a), Object(b))
    ensures var x := [String(PROJECTION_SCHEMA), String(source), String(evidence), Object(a)];
            var y := [String(PROJECTION_SCHEMA), String(source), String(evidence), Object(b)];
            Encode(Object(Keyed(PROJECTION_KEYS, x))) == Encode(Object(Keyed(PROJECTION_KEYS, y)))
  {
    hide Encode;
    RuntimeKeysDiffer();
    var x := [String(PROJECTION_SCHEMA), String(source), String(evidence), Object(a)];
    var y := [String(PROJECTION_SCHEMA), String(source), String(evidence), Object(b)];
    KeyedSame(PROJECTION_KEYS, x, y);
    KeyedIsWellFormed(PROJECTION_KEYS, x);
    KeyedIsWellFormed(PROJECTION_KEYS, y);
    EncodeIsCanonical(Object(Keyed(PROJECTION_KEYS, x)), Object(Keyed(PROJECTION_KEYS, y)));
  }

  /** A row is acceptable exactly if it is acceptable after encoding and decoding. */
  lemma ProjectedRowOfNormal(py: Py, source: Bytes, evidence: Bytes, row: Json)
    requires WellFormed(row)
    ensures ProjectedRow(py, source, evidence, Normal(row)) <==> ProjectedRow(py, source, evidence, row)
  {
    hide Word, RouteIdentity, ProjectionDigest, WellFormed, EmptyList, KeysWithin, Hexadecimal, Without;
    if row.Object? {
      KeysOfNormal(row.fields, RUNTIME_KEYS + [BINDING, PROJECTION]);
      FieldShown(py, row, STATUS);
      FieldShown(py, row, BINDING);
      FieldShown(py, row, PROJECTION);
      EmptyListOfNormal(row, ISSUES);
      RouteOfNormal(py, row);
      ProjectionOfNormal(py, source, evidence, row.fields);
    }
  }

  // ---- building a row ----

  lemma HexadecimalIsPlain(py: Py, s: Bytes)
    requires Sensible(py) && Hexadecimal(s)
    ensures Word(py, Some(String(s))) == s
  {
    assert Plain(s);
  }

  /** The fields of the persisted row: the runtime fields of the original, and the two digests. */
  lemma CompactFields(py: Py, source: Bytes, evidence: Bytes, row: Json)
    requires WellFormed(row)
    ensures var c := Compact(py, source, evidence, row);
            && WellFormed(c) && WellFormed(Object(Projected(py, row))) && Without(c.fields, PROJECTION) == Projected(py, row)
            && (forall key :: key in RUNTIME_KEYS ==> Field(c, key) == Field(row, key))
            && Field(c, BINDING) == Some(String(Word(py, Field(row, BINDING))))
            && Field(c, PROJECTION) == Some(String(ProjectionDigest(py, source, evidence, Projected(py, row))))
            && KeysWithin(c.fields, RUNTIME_KEYS + [BINDING, PROJECTION])
  {
    hide Word, ProjectionDigest, Pick, Without;
    RuntimeKeysDiffer();
    PickedFields(row, RUNTIME_KEYS);
    var f := Pick(row, RUNTIME_KEYS);
    AppendField(f, BINDING, String(Word(py, Field(row, BINDING))));
    var g := Projected(py, row);
    AppendField(g, PROJECTION, String(ProjectionDigest(py, source, evidence, g)));
    PickedKeys(row, RUNTIME_KEYS);
  }

  lemma PickedKeys(row: Json, keys: seq<Bytes>)
    requires DistinctTexts(keys)
    ensures KeysWithin(Pick(row, keys), keys)
  {
    PickIs(row, keys);
    var f := Pick(row, keys);
    forall i | 0 <= i < |f| ensures f[i].key in keys {
      assert f[i] in f;
    }
  }

  lemma RouteOfPicked(py: Py, a: Json, b: Json)
    requires forall key :: key in RUNTIME_KEYS ==> Field(a, key) == Field(b, key)
    ensures RouteIdentity(py, a) <==> RouteIdentity(py, b)
  {
    assert SOURCE_LANDING_KEY in RUNTIME_KEYS && ROLE in RUNTIME_KEYS && TARGET_LAYER in RUNTIME_KEYS && DESTINATION_VERTEX in RUNTIME_KEYS by {
      assert RUNTIME_KEYS[0] == SOURCE_LANDING_KEY && RUNTIME_KEYS[1] == ROLE && RUNTIME_KEYS[2] == TARGET_LAYER;
      assert RUNTIME_KEYS[12] == DESTINATION_VERTEX;
    }
  }

  lemma CheckedKeys()
    ensures STATUS in RUNTIME_KEYS && ISSUES in RUNTIME_KEYS
  {
    assert RUNTIME_KEYS[3] == STATUS && RUNTIME_KEYS[4] == ISSUES;
  }

  /** A compacted row passes the loader's check, fresh or decoded. */
  lemma CompactPasses(py: Py, source: Bytes, evidence: Bytes, row: Json)
    requires Sensible(py) && WellFormed(row) && OriginalRow(py, row) && Hexadecimal(source) && Hexadecimal(evidence)
    ensures ProjectedRow(py, source, evidence, Compact(py, source, evidence, row))
    ensures ProjectedRow(py, source, evidence, Normal(Compact(py, source, evidence, row)))
  {
    hide RouteIdentity, KeysWithin, Pick, Without, Normal, WellFormed, Encode, Keyed;
    var c := Compact(py, source, evidence, row);
    CompactFields(py, source, evidence, row);
    CheckedKeys();
    RuntimeKeysDiffer();
    PickedFields(row, RUNTIME_KEYS);
    RouteOfPicked(py, Object(Pick(row, RUNTIME_KEYS)), c);
    HexadecimalIsPlain(py, Word(py, Field(row, BINDING)));
    HexadecimalIsPlain(py, ProjectionDigest(py, source, evidence, Projected(py, row)));
    ProjectedRowOfNormal(py, source, evidence, c);
  }
}
