/**
 The three compact certificate views as the builder makes them and as the loader validates them, and
 why validation does not tell a decoded view from a fresh one.
 */
module CertificateViews {
  import opened ByteStrings
  import opened KeyOrder
  import opened CanonicalJson
  import opened JsonObjects
  import opened CompactViews
  import opened ViewBytes

  const MAX_TEXT_BYTES: nat := 16 * 1024

  // ---- terminal landing ownership ----

  const VIA_ID: Bytes := Ascii("via_id")
  const OWNER_KIND: Bytes := Ascii("terminal_owner_kind")

  predicate OwnerWord(s: Bytes) {
    s == Ascii("device") || s == Ascii("decap") || s == Ascii("unknown")
  }

  function ViaOf(py: Py, row: Json): Bytes {
    match Field(row, VIA_ID)
    case Some(String(t)) => py.strip(t)
    case _ => []
  }

  function OwnerOf(py: Py, row: Json): Bytes {
    match Field(row, OWNER_KIND)
    case Some(String(t)) => py.fold(py.strip(t))
    case _ => []
  }

  predicate LandingOk(py: Py, row: Json) {
    ViaOf(py, row) != [] && |ViaOf(py, row)| <= MAX_TEXT_BYTES && OwnerWord(OwnerOf(py, row))
  }

  /** Every row names a Via and a known owner, and no Via is named twice up to case. */
  predicate LandingsOk(py: Py, rows: seq<Json>) {
    && (forall i :: 0 <= i < |rows| ==> LandingOk(py, rows[i]))
    && forall i, j :: 0 <= i < j < |rows| ==> py.fold(ViaOf(py, rows[i])) != py.fold(ViaOf(py, rows[j]))
  }

  function Landing(py: Py, row: Json): Json {
    Object(Keyed([VIA_ID, OWNER_KIND], [String(ViaOf(py, row)), String(OwnerOf(py, row))]))
  }

  function Landings(py: Py, rows: seq<Json>): (r: seq<Json>)
    ensures |r| == |rows| && forall i :: 0 <= i < |r| ==> r[i] == Landing(py, rows[i])
  {
    seq(|rows|, i requires 0 <= i < |rows| => Landing(py, rows[i]))
  }

  function SeenVias(py: Py, rows: seq<Json>): set<Bytes> {
    set i | 0 <= i < |rows| :: py.fold(ViaOf(py, rows[i]))
  }

  /** The compaction loop, with the Vias seen so far. */
  method CompactLandings(py: Py, rows: seq<Json>) returns (compact: Option<seq<Json>>)
    ensures compact == if LandingsOk(py, rows) then Some(Landings(py, rows)) else None
  {
    var result: seq<Json>, seen: set<Bytes> := [], {};
    for i := 0 to |rows|
      invariant LandingsOk(py, rows[..i]) && result == Landings(py, rows[..i]) && seen == SeenVias(py, rows[..i])
    {
      var row := rows[i];
      LandingStep(py, rows, i);
      if !LandingOk(py, row) || py.fold(ViaOf(py, row)) in seen {
        return None;
      }
      seen := seen + {py.fold(ViaOf(py, row))};
      result := result + [Landing(py, row)];
    }
    assert rows[..|rows|] == rows;
    return Some(result);
  }

  lemma LandingStep(py: Py, rows: seq<Json>, i: nat)
    requires i < |rows| && LandingsOk(py, rows[..i])
    ensures LandingsOk(py, rows) ==> LandingOk(py, rows[i]) && py.fold(ViaOf(py, rows[i])) !in SeenVias(py, rows[..i])
    ensures LandingOk(py, rows[i]) && py.fold(ViaOf(py, rows[i])) !in SeenVias(py, rows[..i]) ==> LandingsOk(py, rows[..i + 1])
    ensures SeenVias(py, rows[..i + 1]) == SeenVias(py, rows[..i]) + {py.fold(ViaOf(py, rows[i]))}
    ensures Landings(py, rows[..i + 1]) == Landings(py, rows[..i]) + [Landing(py, rows[i])]
  {
    hide ViaOf, LandingOk, Landing;
    var more, before := rows[..i + 1], rows[..i];
    assert forall k :: 0 <= k < i ==> more[k] == before[k] && before[k] == rows[k];
    assert more[i] == rows[i];
    if LandingOk(py, rows[i]) && py.fold(ViaOf(py, rows[i])) !in SeenVias(py, before) {
      forall k | 0 <= k < i ensures py.fold(ViaOf(py, more[k])) != py.fold(ViaOf(py, more[i])) {
        assert py.fold(ViaOf(py, before[k])) in SeenVias(py, before);
      }
    }
  }

  lemma LandingFields(py: Py, row: Json)
    ensures WellFormed(Landing(py, row))
    ensures Field(Landing(py, row), VIA_ID) == Some(String(ViaOf(py, row)))
    ensures Field(Landing(py, row), OWNER_KIND) == Some(String(OwnerOf(py, row)))
  {
    assert |VIA_ID| != |OWNER_KIND|;
    var values := [String(ViaOf(py, row)), String(OwnerOf(py, row))];
    var fields := Keyed([VIA_ID, OWNER_KIND], values);
    KeyedIsWellFormed([VIA_ID, OWNER_KIND], values);
    assert fields[0] == Pair(VIA_ID, values[0]) && fields[1] == Pair(OWNER_KIND, values[1]);
    LookupIs(fields, VIA_ID, values[0]);
    LookupIs(fields, OWNER_KIND, values[1]);
  }

  lemma OwnerWordsArePlain(py: Py, s: Bytes)
    requires Sensible(py) && OwnerWord(s)
    ensures py.fold(py.strip(s)) == s
  {
    assert Plain(Ascii("device")) && Plain(Ascii("decap")) && Plain(Ascii("unknown"));
    assert Plain(s);
  }

  /** Compacting a compacted row changes nothing. */
  lemma LandingTwice(py: Py, row: Json)
    requires Sensible(py) && LandingOk(py, row)
    ensures ViaOf(py, Landing(py, row)) == ViaOf(py, row) && OwnerOf(py, Landing(py, row)) == OwnerOf(py, row)
  {
    LandingFields(py, row);
    OwnerWordsArePlain(py, OwnerOf(py, row));
  }

  /** Compaction is idempotent, and what it gives is acceptable. */
  lemma CompactionIsIdempotent(py: Py, rows: seq<Json>)
    requires Sensible(py) && LandingsOk(py, rows)
    ensures LandingsOk(py, Landings(py, rows)) && Landings(py, Landings(py, rows)) == Landings(py, rows)
  {
    hide ViaOf, OwnerOf, OwnerWord;
    var out := Landings(py, rows);
    forall i | 0 <= i < |rows|
      ensures ViaOf(py, out[i]) == ViaOf(py, rows[i]) && OwnerOf(py, out[i]) == OwnerOf(py, rows[i])
    {
      assert LandingOk(py, rows[i]);
      LandingTwice(py, rows[i]);
    }
    forall i | 0 <= i < |rows| ensures LandingOk(py, out[i]) {
      assert LandingOk(py, rows[i]);
    }
  }

  lemma LandingsOfNormal(py: Py, rows: seq<Json>)
    requires forall i :: 0 <= i < |rows| ==> WellFormed(rows[i])
    ensures LandingsOk(py, NormalItems(rows)) <==> LandingsOk(py, rows)
  {
    hide ViaOf, OwnerOf, OwnerWord, Normal, WellFormed;
    var n := NormalItems(rows);
    forall i | 0 <= i < |rows| ensures ViaOf(py, n[i]) == ViaOf(py, rows[i]) && OwnerOf(py, n[i]) == OwnerOf(py, rows[i]) {
      RowOfNormal(py, rows[i]);
    }
    forall i | 0 <= i < |rows| ensures LandingOk(py, n[i]) <==> LandingOk(py, rows[i]) {
    }
  }

  lemma RowOfNormal(py: Py, row: Json)
    requires WellFormed(row)
    ensures ViaOf(py, Normal(row)) == ViaOf(py, row) && OwnerOf(py, Normal(row)) == OwnerOf(py, row)
  {
    hide Field, WellFormed;
    FieldOfNormal(row, VIA_ID);
    FieldOfNormal(row, OWNER_KIND);
  }

  // ---- keys of the views ----

  const SCHEMA_VERSION: Bytes := Ascii("schema_version")
  const COMPILER: Bytes := Ascii("compiler_id")
  const SOURCE: Bytes := Ascii("source_sha256")
  const EVIDENCE: Bytes := Ascii("evidence_sha256")
  const VIEW_SCHEMA: Bytes := Ascii("view_schema")
  const INTEGRITY: Bytes := Ascii("integrity_validation")
  const VIEW_EVIDENCE: Bytes := Ascii("view_evidence_sha256")
  const CONTACTS: Bytes := Ascii("terminal_landing_contacts")
  const TOPOLOGY: Bytes := Ascii("scenario_decap_terminal_topology")
  const QUOTIENT: Bytes := Ascii("finite_via_quotient")

  const HEADER_KEYS: seq<Bytes> := [SCHEMA_VERSION, COMPILER, SOURCE, EVIDENCE, STATUS, VIEW_SCHEMA, INTEGRITY]

  const INTEGRITY_TEXT: Bytes := Ascii("full-canonical-certificate-verified")

  /** The schema and compiler names a certificate has to carry. */
  datatype Names = Names(schema: Bytes, compiler: Bytes)

  /** The source and certificate digests that the manifest records. */
  datatype Manifest = Manifest(source: Bytes, evidence: Bytes)

  datatype Kind = Surface | Scenario | External

  function SchemaOf(kind: Kind): Bytes {
    match kind
    case Surface => Ascii("spd-layerwise-surface-certificate-view-v1")
    case Scenario => Ascii("spd-layerwise-scenario-certificate-view-v2")
    case External => Ascii("spd-layerwise-external-port-proof-view-v1")
  }

  function GetOr(v: Json, key: Bytes, other: Json): Json {
    match Field(v, key)
    case None => other
    case Some(x) => x
  }

  /** The fields shared by all views, the view's schema, and the integrity mark. */
  function Header(c: Json, kind: Kind): (r: seq<Json>)
    ensures |r| == 7
  {
    [GetOr(c, SCHEMA_VERSION, Null), GetOr(c, COMPILER, Null), GetOr(c, SOURCE, Null), GetOr(c, EVIDENCE, Null), GetOr(c, STATUS, Null),
     String(SchemaOf(kind)), String(INTEGRITY_TEXT)]
  }

  /** The digest of a view over everything else in it; the external view's ends in a newline. */
  function SelfDigest(py: Py, kind: Kind, payload: seq<Pair<Json>>): Bytes {
    py.sha(Encode(Object(payload)) + (if kind.External? then [10] else []))
  }

  function Signed(py: Py, kind: Kind, payload: seq<Pair<Json>>): Json {
    Object(payload + [Pair(VIEW_EVIDENCE, String(SelfDigest(py, kind, payload)))])
  }

  // ---- what the loader asks of a view ----

  predicate HeaderFits(py: Py, names: Names, m: Manifest, kind: Kind, view: Json) {
    && Field(view, VIEW_SCHEMA) == Some(String(SchemaOf(kind))) && Field(view, INTEGRITY) == Some(String(INTEGRITY_TEXT))
    && Field(view, SCHEMA_VERSION) == Some(String(names.schema)) && Field(view, COMPILER) == Some(String(names.compiler))
    && Word(py, Field(view, STATUS)) == COMPLETE
    && Word(py, Field(view, SOURCE)) == m.source && Word(py, Field(view, EVIDENCE)) == m.evidence
  }

  predicate SelfDigestFits(py: Py, kind: Kind, view: Json) {
    && view.Object? && Hexadecimal(Word(py, Field(view, VIEW_EVIDENCE)))
    && SelfDigest(py, kind, Without(view.fields, VIEW_EVIDENCE)) == Word(py, Field(view, VIEW_EVIDENCE))
  }

  predicate AllObjects(rows: seq<Json>) {
    forall i :: 0 <= i < |rows| ==> rows[i].Object?
  }

  /** A list of mappings; a missing list counts as empty. */
  function RowsOr(v: Option<Json>, missing: Option<seq<Json>>): Option<seq<Json>> {
    match v
    case None => missing
    case Some(Array(items)) => if AllObjects(items) then Some(items) else None
    case Some(_) => None
  }

  predicate SurfaceFits(py: Py, view: Json) {
    var rows := RowsOr(Field(view, CONTACTS), Some([]));
    rows.Some? && LandingsOk(py, rows.value)
  }

  const BASE_KEYS: seq<Bytes> := [SCHEMA_VERSION, STATUS, Ascii("conditional_contacts"), Ascii("retarget_landing_xy_coverage")]
  const DESTINATIONS: Bytes := Ascii("retarget_destination_bindings")
  const LANDING_XY: Bytes := Ascii("retarget_landing_xy_bindings")

  predicate BindingsFit(py: Py, source: Bytes, evidence: Bytes, v: Option<Json>) {
    v.Some? ==> v.value.Array? && forall i :: 0 <= i < |v.value.items| ==> ProjectedRow(py, source, evidence, v.value.items[i])
  }

  predicate TopologyFits(py: Py, source: Bytes, evidence: Bytes, topology: Json) {
    && topology.Object? && KeysWithin(topology.fields, BASE_KEYS + [DESTINATIONS, LANDING_XY])
    && BindingsFit(py, source, evidence, Field(topology, DESTINATIONS)) && BindingsFit(py, source, evidence, Field(topology, LANDING_XY))
  }

  predicate QuotientFits(quotient: Json) {
    quotient.Object? && KeysWithin(quotient.fields, [SCHEMA_VERSION, STATUS])
  }

  predicate ScenarioFits(py: Py, view: Json) {
    && Field(view, TOPOLOGY).Some? && Field(view, QUOTIENT).Some? && QuotientFits(Field(view, QUOTIENT).value)
    && TopologyFits(py, Word(py, Field(view, SOURCE)), Word(py, Field(view, EVIDENCE)), Field(view, TOPOLOGY).value)
  }

  predicate Validated(py: Py, names: Names, m: Manifest, kind: Kind, view: Json) {
    && HeaderFits(py, names, m, kind, view) && SelfDigestFits(py, kind, view)
    && (kind.Surface? ==> SurfaceFits(py, view)) && (kind.Scenario? ==> ScenarioFits(py, view))
  }

  // ---- validation does not tell a decoded view from a fresh one ----

  lemma TextOfNormal(view: Json, key: Bytes, text: Bytes)
    requires WellFormed(view)
    ensures Field(Normal(view), key) == Some(String(text)) <==> Field(view, key) == Some(String(text))
  {
    FieldOfNormal(view, key);
  }

  lemma HeaderOfNormal(py: Py, names: Names, m: Manifest, kind: Kind, view: Json)
    requires WellFormed(view)
    ensures HeaderFits(py, names, m, kind, Normal(view)) <==> HeaderFits(py, names, m, kind, view)
  {
    hide Normal, WellFormed, Word, Field;
    TextOfNormal(view, VIEW_SCHEMA, SchemaOf(kind));
    TextOfNormal(view, INTEGRITY, INTEGRITY_TEXT);
    TextOfNormal(view, SCHEMA_VERSION, names.schema);
    TextOfNormal(view, COMPILER, names.compiler);
    FieldShown(py, view, STATUS);
    FieldShown(py, view, SOURCE);
    FieldShown(py, view, EVIDENCE);
  }

  lemma SelfDigestOfNormal(py: Py, kind: Kind, view: Json)
    requires WellFormed(view)
    ensures SelfDigestFits(py, kind, Normal(view)) <==> SelfDigestFits(py, kind, view)
  {
    hide Word, Encode, Hexadecimal, WellFormed, Without;
    if view.Object? {
      FieldShown(py, view, VIEW_EVIDENCE);
      WithoutOfNormal(view.fields, VIEW_EVIDENCE);
      assert Normal(view) == Normal(Object(view.fields));
    }
  }

  lemma RowsOfNormal(v: Option<Json>, missing: Option<seq<Json>>)
    requires missing.None? || missing == Some([])
    ensures RowsOr(NormalOption(v), missing).Some? <==> RowsOr(v, missing).Some?
    ensures RowsOr(v, missing).Some? ==> RowsOr(NormalOption(v), missing) == Some(NormalItems(RowsOr(v, missing).value))
  {
    if v.Some? && v.value.Array? {
      var items := v.value.items;
      assert forall i :: 0 <= i < |items| ==> (NormalItems(items)[i].Object? <==> items[i].Object?);
    }
  }

  lemma SurfaceOfNormal(py: Py, view: Json)
    requires WellFormed(view)
    ensures SurfaceFits(py, Normal(view)) <==> SurfaceFits(py, view)
  {
    FieldOfNormal(view, CONTACTS);
    LookupWellFormed(view, CONTACTS);
    RowsOfNormal(Field(view, CONTACTS), Some([]));
    var rows := RowsOr(Field(view, CONTACTS), Some([]));
    if rows.Some? {
      LandingsOfNormal(py, rows.value);
    }
  }

  lemma BindingsOfNormal(py: Py, source: Bytes, evidence: Bytes, topology: Json, key: Bytes)
    requires WellFormed(topology)
    ensures BindingsFit(py, source, evidence, Field(Normal(topology), key)) <==> BindingsFit(py, source, evidence, Field(topology, key))
  {
    hide ProjectedRow;
    FieldOfNormal(topology, key);
    LookupWellFormed(topology, key);
    var v := Field(topology, key);
    if v.Some? && v.value.Array? {
      var items, n := v.value.items, NormalItems(v.value.items);
      forall i | 0 <= i < |items| ensures ProjectedRow(py, source, evidence, n[i]) <==> ProjectedRow(py, source, evidence, items[i]) {
        ProjectedRowOfNormal(py, source, evidence, items[i]);
      }
    }
  }

  lemma TopologyOfNormal(py: Py, source: Bytes, evidence: Bytes, topology: Json)
    requires WellFormed(topology)
    ensures TopologyFits(py, source, evidence, Normal(topology)) <==> TopologyFits(py, source, evidence, topology)
  {
    hide KeysWithin, BindingsFit, WellFormed;
    if topology.Object? {
      assert topology == Object(topology.fields);
      KeysOfNormal(topology.fields, BASE_KEYS + [DESTINATIONS, LANDING_XY]);
      BindingsOfNormal(py, source, evidence, topology, DESTINATIONS);
      BindingsOfNormal(py, source, evidence, topology, LANDING_XY);
    }
  }

  lemma QuotientOfNormal(quotient: Json)
    requires WellFormed(quotient)
    ensures QuotientFits(Normal(quotient)) <==> QuotientFits(quotient)
  {
    hide KeysWithin, WellFormed;
    if quotient.Object? {
      assert quotient == Object(quotient.fields);
      KeysOfNormal(quotient.fields, [SCHEMA_VERSION, STATUS]);
    }
  }

  lemma ScenarioOfNormal(py: Py, view: Json)
    requires WellFormed(view)
    ensures ScenarioFits(py, Normal(view)) <==> ScenarioFits(py, view)
  {
    hide Word, TopologyFits, QuotientFits, Normal, WellFormed, Field;
    FieldOfNormal(view, TOPOLOGY);
    FieldOfNormal(view, QUOTIENT);
    LookupWellFormed(view, TOPOLOGY);
    LookupWellFormed(view, QUOTIENT);
    FieldShown(py, view, SOURCE);
    FieldShown(py, view, EVIDENCE);
    if Field(view, TOPOLOGY).Some? && Field(view, QUOTIENT).Some? {
      QuotientOfNormal(Field(view, QUOTIENT).value);
      TopologyOfNormal(py, Word(py, Field(view, SOURCE)), Word(py, Field(view, EVIDENCE)), Field(view, TOPOLOGY).value);
    }
  }

  /** A view passes exactly if it passes after encoding and decoding. */
  lemma ValidatedOfNormal(py: Py, names: Names, m: Manifest, kind: Kind, view: Json)
    requires WellFormed(view)
    ensures Validated(py, names, m, kind, Normal(view)) <==> Validated(py, names, m, kind, view)
  {
    hide HeaderFits, SelfDigestFits, SurfaceFits, ScenarioFits, Normal;
    HeaderOfNormal(py, names, m, kind, view);
    SelfDigestOfNormal(py, kind, view);
    SurfaceOfNormal(py, view);
    ScenarioOfNormal(py, view);
  }

  // ---- building the views ----

  /** The certificate is an object, complete, of the right schema and compiler, and the manifest's. */
  predicate CompleteCertificate(py: Py, names: Names, m: Manifest, c: Json) {
    && c.Object? && WellFormed(c)
    && Field(c, SCHEMA_VERSION) == Some(String(names.schema)) && Field(c, COMPILER) == Some(String(names.compiler))
    && Word(py, Field(c, STATUS)) == COMPLETE
    && Word(py, Field(c, SOURCE)) == m.source && Word(py, Field(c, EVIDENCE)) == m.evidence
    && Hexadecimal(m.source) && Hexadecimal(m.evidence)
  }

  const SURFACE_KEYS: seq<Bytes> :=
    [Ascii("geometry_assets"), Ascii("surface_equivalence_components"), Ascii("surface_equivalence_proofs"), CONTACTS]

  function SurfaceView(py: Py, c: Json): Option<Json> {
    var rows := RowsOr(Field(c, CONTACTS), Some([]));
    if rows.None? || !LandingsOk(py, rows.value) then None
    else
      var values := [GetOr(c, SURFACE_KEYS[0], Array([])), GetOr(c, SURFACE_KEYS[1], Array([])), GetOr(c, SURFACE_KEYS[2], Array([])),
                     Array(Landings(py, rows.value))];
      Some(Signed(py, Surface, Keyed(HEADER_KEYS + SURFACE_KEYS, Header(c, Surface) + values)))
  }

  /** The rows under a key: from the topology if it has them, else from the quotient. */
  function SourceRows(topology: Json, quotient: Json, key: Bytes): Option<Json> {
    if Field(topology, key).Some? then Field(topology, key) else Field(quotient, key)
  }

  predicate RowsCompactable(py: Py, v: Option<Json>) {
    v.Some? ==> v.value.Array? && forall i :: 0 <= i < |v.value.items| ==> OriginalRow(py, v.value.items[i])
  }

  function CompactRows(py: Py, source: Bytes, evidence: Bytes, rows: seq<Json>): (r: seq<Json>)
    ensures |r| == |rows| && forall i :: 0 <= i < |r| ==> r[i] == Compact(py, source, evidence, rows[i])
  {
    seq(|rows|, i requires 0 <= i < |rows| => Compact(py, source, evidence, rows[i]))
  }

  /** The retargeting field of the compact topology, if there are source rows. */
  function Retarget(py: Py, source: Bytes, evidence: Bytes, key: Bytes, v: Option<Json>): seq<Pair<Json>>
    requires RowsCompactable(py, v)
  {
    if v.None? then [] else [Pair(key, Array(CompactRows(py, source, evidence, v.value.items)))]
  }

  const SCENARIO_KEYS: seq<Bytes> := [TOPOLOGY, QUOTIENT]

  function CompactTopology(py: Py, source: Bytes, evidence: Bytes, topology: Json, quotient: Json): seq<Pair<Json>>
    requires RowsCompactable(py, SourceRows(topology, quotient, DESTINATIONS)) && RowsCompactable(py, SourceRows(topology, quotient, LANDING_XY))
  {
    Pick(topology, BASE_KEYS) + Retarget(py, source, evidence, DESTINATIONS, SourceRows(topology, quotient, DESTINATIONS))
    + Retarget(py, source, evidence, LANDING_XY, SourceRows(topology, quotient, LANDING_XY))
  }

  function ScenarioView(py: Py, c: Json): Option<Json> {
    var topology, quotient := GetOr(c, TOPOLOGY, Null), GetOr(c, QUOTIENT, Null);
    if !topology.Object? || !quotient.Object? || !RowsCompactable(py, SourceRows(topology, quotient, DESTINATIONS))
       || !RowsCompactable(py, SourceRows(topology, quotient, LANDING_XY)) then None
    else
      var source, evidence := Word(py, Field(c, SOURCE)), Word(py, Field(c, EVIDENCE));
      var values := [Object(CompactTopology(py, source, evidence, topology, quotient)), Object(Pick(quotient, [SCHEMA_VERSION, STATUS]))];
      Some(Signed(py, Scenario, Keyed(HEADER_KEYS + SCENARIO_KEYS, Header(c, Scenario) + values)))
  }

  const PIN: Bytes := Ascii("pin_id")
  const ANCHOR_KEYS: seq<Bytes> := [Ascii("rail_id"), Ascii("branch_id"), Ascii("role"), PIN]
  const CONTACT_KEYS: seq<Bytes> :=
    [PIN, Ascii("net"), Ascii("exposed_quotient_vertex_id"), STATUS, Ascii("incident_via_id"), Ascii("first_via_quotient_edge_id")]

  /** The given fields of a row, null where absent. */
  function Taken(row: Json, keys: seq<Bytes>): Json {
    Object(Keyed(keys, seq(|keys|, i requires 0 <= i < |keys| => GetOr(row, keys[i], Null))))
  }

  function TakenRows(rows: seq<Json>, keys: seq<Bytes>): (r: seq<Json>)
    ensures |r| == |rows| && forall i :: 0 <= i < |r| ==> r[i] == Taken(rows[i], keys)
  {
    seq(|rows|, i requires 0 <= i < |rows| => Taken(rows[i], keys))
  }

  function Pins(py: Py, rows: seq<Json>): set<Bytes> {
    set i | 0 <= i < |rows| :: Word(py, Field(rows[i], PIN))
  }

  function WithPins(py: Py, rows: seq<Json>, pins: set<Bytes>): seq<Json> {
    if rows == [] then []
    else (if Word(py, Field(rows[0], PIN)) in pins then [rows[0]] else []) + WithPins(py, rows[1..], pins)
  }

  const EXTERNAL_KEYS: seq<Bytes> := [Ascii("rail_anchor_bindings"), Ascii("terminal_contacts")]

  /** The external proof: anchors, and the contacts of their pins, which have to cover all of them. */
  function ExternalView(py: Py, c: Json): Option<Json> {
    var anchors, contacts := RowsOr(Field(c, EXTERNAL_KEYS[0]), None), RowsOr(Field(c, EXTERNAL_KEYS[1]), None);
    if anchors.None? || contacts.None? then None
    else
      var compactAnchors := TakenRows(anchors.value, ANCHOR_KEYS);
      var pins := Pins(py, compactAnchors);
      var compactContacts := TakenRows(WithPins(py, contacts.value, pins), CONTACT_KEYS);
      if Pins(py, compactContacts) != pins then None
      else Some(Signed(py, External, Keyed(HEADER_KEYS + EXTERNAL_KEYS, Header(c, External) + [Array(compactAnchors), Array(compactContacts)])))
  }
}
