/**
 The names in compact certificate views, letter by letter: the keys of what is built, and the words that
 are looked for.
 */
module ViewNames {
  import opened ByteStrings
  import opened KeyOrder
  import opened CanonicalJson
  import opened JsonObjects
  import opened CompactViews
  import opened CertificateViews

  // ---- views ----

  /** The fields of a signed view: the certificate's header, the schema and integrity mark, the view's own values, and the digest of all that. */
  lemma SignedKeys(py: Py, c: Json, kind: Kind, keys: seq<Bytes>, values: seq<Json>)
    requires |keys| == |values|
    ensures var view := Signed(py, kind, Keyed(HEADER_KEYS + keys, Header(c, kind) + values));
            var n := 7 + |keys|;
            && |view.fields| == n + 1 && (forall i :: 0 <= i < n ==> view.fields[i].key == (HEADER_KEYS + keys)[i])
            && (forall i :: 0 <= i < 5 ==> view.fields[i].value == GetOr(c, HEADER_KEYS[i], Null))
            && view.fields[5].value == String(SchemaOf(kind)) && view.fields[6].value == String(INTEGRITY_TEXT)
            && (forall i :: 0 <= i < |keys| ==> view.fields[7 + i].value == values[i])
            && view.fields[n] == Pair(VIEW_EVIDENCE, String(py.sha(Print(Normal(Object(view.fields[..n])))
                                                                   + (if kind == External then [10] else []))))
  {
    hide SchemaOf, GetOr, Print, Normal, INTEGRITY_TEXT, VIEW_EVIDENCE, Ascii;
    var payload := Keyed(HEADER_KEYS + keys, Header(c, kind) + values);
    var view := Signed(py, kind, payload);
    assert view.fields[..7 + |keys|] == payload;
    HeaderValues(c, kind);
    assert forall i :: 0 <= i < 7 ==> (Header(c, kind) + values)[i] == Header(c, kind)[i];
    assert forall i :: 0 <= i < |keys| ==> (Header(c, kind) + values)[7 + i] == values[i];
  }

  lemma HeaderValues(c: Json, kind: Kind)
    ensures forall i :: 0 <= i < 5 ==> Header(c, kind)[i] == GetOr(c, HEADER_KEYS[i], Null)
    ensures Header(c, kind)[5] == String(SchemaOf(kind)) && Header(c, kind)[6] == String(INTEGRITY_TEXT)
  {
    hide SchemaOf, GetOr, INTEGRITY_TEXT, Ascii;
  }

  /** The header's keys. */
  lemma HeaderNames()
    ensures HEADER_KEYS == [Ascii("schema_version"), Ascii("compiler_id"), Ascii("source_sha256"), Ascii("evidence_sha256"),
                            Ascii("status"), Ascii("view_schema"), Ascii("integrity_validation")]
  {
  }

  lemma MarkNames()
    ensures VIEW_EVIDENCE == Ascii("view_evidence_sha256") && INTEGRITY_TEXT == Ascii("full-canonical-certificate-verified")
  {
  }

  lemma SurfaceSchema()
    ensures SchemaOf(Surface) == Ascii("spd-layerwise-surface-") + Ascii("certificate-view-v1")
  {
  }

  lemma ScenarioSchema()
    ensures SchemaOf(Scenario) == Ascii("spd-layerwise-scenario-") + Ascii("certificate-view-v2")
  {
  }

  lemma ExternalSchema()
    ensures SchemaOf(External) == Ascii("spd-layerwise-external-") + Ascii("port-proof-view-v1")
  {
  }

  /** The surface view's own keys, and the two of a compacted landing. */
  lemma SurfaceNames()
    ensures SURFACE_KEYS == [Ascii("geometry_assets"), Ascii("surface_equivalence_components"), Ascii("surface_equivalence_proofs"),
                             Ascii("terminal_landing_contacts")]
    ensures CONTACTS == SURFACE_KEYS[3] && VIA_ID == Ascii("via_id") && OWNER_KIND == Ascii("terminal_owner_kind")
  {
  }

  lemma ScenarioNames()
    ensures SCENARIO_KEYS == [Ascii("scenario_decap_terminal_topology"), Ascii("finite_via_quotient")]
    ensures TOPOLOGY == SCENARIO_KEYS[0] && QUOTIENT == SCENARIO_KEYS[1]
    ensures DESTINATIONS == Ascii("retarget_destination_bindings") && LANDING_XY == Ascii("retarget_landing_xy_bindings")
  {
  }

  lemma BaseNames()
    ensures BASE_KEYS == [Ascii("schema_version"), Ascii("status"), Ascii("conditional_contacts"), Ascii("retarget_landing_xy_coverage")]
  {
  }

  lemma ExternalNames()
    ensures EXTERNAL_KEYS == [Ascii("rail_anchor_bindings"), Ascii("terminal_contacts")]
    ensures ANCHOR_KEYS == [Ascii("rail_id"), Ascii("branch_id"), Ascii("role"), Ascii("pin_id")] && PIN == ANCHOR_KEYS[3]
  {
  }

  lemma ContactNames()
    ensures CONTACT_KEYS == [Ascii("pin_id"), Ascii("net"), Ascii("exposed_quotient_vertex_id"), Ascii("status"),
                             Ascii("incident_via_id"), Ascii("first_via_quotient_edge_id")]
  {
  }

  // ---- binding rows ----

  lemma RuntimeNames()
    ensures RUNTIME_KEYS[..7] == [Ascii("source_landing_key"), Ascii("role"), Ascii("target_layer"), Ascii("status"), Ascii("issues"),
                                  Ascii("target_rail_id"), Ascii("rail_id")]
  {
  }

  lemma MoreRuntimeNames()
    ensures RUNTIME_KEYS[7..] == [Ascii("target_net"), Ascii("destination_net"), Ascii("net"), Ascii("refdes"), Ascii("via_template_id"),
                                  Ascii("destination_vertex_id")]
  {
  }

  lemma RowNames()
    ensures BINDING == Ascii("binding_evidence_sha256") && PROJECTION == Ascii("projection_evidence_sha256")
    ensures STATUS == RUNTIME_KEYS[3] && ISSUES == RUNTIME_KEYS[4] && SOURCE_LANDING_KEY == RUNTIME_KEYS[0] && ROLE == RUNTIME_KEYS[1]
    ensures TARGET_LAYER == RUNTIME_KEYS[2] && DESTINATION_VERTEX == RUNTIME_KEYS[12]
    ensures COMPLETE == Ascii("complete") && POWER == Ascii("power") && GROUND == Ascii("ground")
  {
  }

  /** What the projection digest is taken over. */
  lemma ProjectionIs(py: Py, source: Bytes, evidence: Bytes, row: seq<Pair<Json>>)
    ensures ProjectionDigest(py, source, evidence, row) ==
            py.sha(Encode(Object([Pair(Ascii("schema"), String(Ascii("spd-retarget-binding-") + Ascii("runtime-projection-v1"))),
                                  Pair(Ascii("source_sha256"), String(source)),
                                  Pair(Ascii("certificate_evidence_sha256"), String(evidence)), Pair(Ascii("binding"), Object(row))])))
  {
    hide Encode;
    SchemaName();
    var values := [String(PROJECTION_SCHEMA), String(source), String(evidence), Object(row)];
    assert Keyed(PROJECTION_KEYS, values) ==
           [Pair(PROJECTION_KEYS[0], values[0]), Pair(PROJECTION_KEYS[1], values[1]), Pair(PROJECTION_KEYS[2], values[2]),
            Pair(PROJECTION_KEYS[3], values[3])];
  }

  lemma SchemaName()
    ensures PROJECTION_SCHEMA == Ascii("spd-retarget-binding-") + Ascii("runtime-projection-v1")
  {
  }

  // ---- landings ----

  /** A landing is compacted exactly if its Via is named within 16 KiB and its owner is one of three. */
  lemma LandingIs(py: Py, row: Json)
    ensures LandingOk(py, row) <==>
            && NamesVia(py, Field(row, VIA_ID))
            && NamesOwner(py, Field(row, OWNER_KIND))
  {
    hide Field, VIA_ID, OWNER_KIND, Ascii;
    OwnersAreWords();
  }

  predicate NamesVia(py: Py, v: Option<Json>) {
    v.Some? && v.value.String? && 1 <= |py.strip(v.value.text)| <= 16384
  }

  predicate NamesOwner(py: Py, v: Option<Json>) {
    v.Some? && v.value.String? && py.fold(py.strip(v.value.text)) in [Ascii("device"), Ascii("decap"), Ascii("unknown")]
  }

  lemma OwnersAreWords()
    ensures !OwnerWord([])
  {
    assert |Ascii("device")| == 6 && |Ascii("decap")| == 5 && |Ascii("unknown")| == 7;
  }

  /** What is kept of a landing: its Via, stripped, and its owner, folded too. */
  lemma LandingKeeps(py: Py, row: Json)
    requires LandingOk(py, row)
    ensures var via, kind := Field(row, VIA_ID), Field(row, OWNER_KIND);
            && via.Some? && via.value.String? && kind.Some? && kind.value.String?
            && Landing(py, row) == Object([Pair(VIA_ID, String(py.strip(via.value.text))),
                                           Pair(OWNER_KIND, String(py.fold(py.strip(kind.value.text))))])
  {
    hide Field, VIA_ID, OWNER_KIND, Ascii;
    OwnersAreWords();
    var values := [String(ViaOf(py, row)), String(OwnerOf(py, row))];
    assert Keyed([VIA_ID, OWNER_KIND], values) == [Pair(VIA_ID, values[0]), Pair(OWNER_KIND, values[1])];
  }
}
