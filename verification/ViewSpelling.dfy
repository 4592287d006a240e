/**
 The compact views copy the certificate's numbers: building a view writes no number that the
 certificate does not hold.
 */
module ViewSpelling {
  import opened ByteStrings
  import opened KeyOrder
  import opened CanonicalJson
  import opened NumberSpelling
  import opened JsonObjects
  import opened CompactViews
  import opened CertificateViews

  // ---- fields ----

  lemma FieldIsSpelled(v: Json, key: Bytes, tokens: Tokens)
    requires Spelled(v, tokens)
    ensures Field(v, key).Some? ==> Spelled(Field(v, key).value, tokens)
  {
    if Field(v, key).Some? {
      var i :| 0 <= i < |v.fields| && v.fields[i] == Pair(key, Field(v, key).value);
    }
  }

  lemma GetOrIsSpelled(v: Json, key: Bytes, other: Json, tokens: Tokens)
    requires Spelled(v, tokens) && Spelled(other, tokens)
    ensures Spelled(GetOr(v, key, other), tokens)
  {
    FieldIsSpelled(v, key, tokens);
  }

  lemma KeyedIsSpelled(keys: seq<Bytes>, values: seq<Json>, tokens: Tokens)
    requires |keys| == |values| && forall i :: 0 <= i < |values| ==> Spelled(values[i], tokens)
    ensures FieldsSpelled(Keyed(keys, values), tokens) && Spelled(Object(Keyed(keys, values)), tokens)
  {
  }

  lemma {:induction false} PickIsSpelled(v: Json, keys: seq<Bytes>, tokens: Tokens)
    requires Spelled(v, tokens)
    ensures FieldsSpelled(Pick(v, keys), tokens)
  {
    hide Field, Spelled;
    if keys != [] {
      FieldIsSpelled(v, keys[0], tokens);
      PickIsSpelled(v, keys[1..], tokens);
    }
  }

  lemma JoinIsSpelled(a: seq<Pair<Json>>, b: seq<Pair<Json>>, tokens: Tokens)
    requires FieldsSpelled(a, tokens) && FieldsSpelled(b, tokens)
    ensures FieldsSpelled(a + b, tokens) && Spelled(Object(a + b), tokens)
  {
  }

  lemma TextFieldIsSpelled(key: Bytes, text: Bytes, tokens: Tokens)
    ensures FieldsSpelled([Pair(key, String(text))], tokens)
  {
  }

  lemma BareValues(tokens: Tokens)
    ensures Spelled(Null, tokens) && Spelled(Array([]), tokens) && forall text :: Spelled(String(text), tokens)
  {
  }

  lemma ListIsSpelled(items: seq<Json>, tokens: Tokens)
    ensures Spelled(Array(items), tokens) <==> forall i :: 0 <= i < |items| ==> Spelled(items[i], tokens)
  {
  }

  // ---- rows ----

  lemma CompactIsSpelled(py: Py, source: Bytes, evidence: Bytes, row: Json, tokens: Tokens)
    requires Spelled(row, tokens)
    ensures Spelled(Compact(py, source, evidence, row), tokens)
  {
    hide Spelled, Pick, Word, FieldsSpelled, RUNTIME_KEYS, BINDING, PROJECTION, ProjectionDigest;
    PickIsSpelled(row, RUNTIME_KEYS, tokens);
    var binding, projection := Word(py, Field(row, BINDING)), ProjectionDigest(py, source, evidence, Projected(py, row));
    TextFieldIsSpelled(BINDING, binding, tokens);
    TextFieldIsSpelled(PROJECTION, projection, tokens);
    JoinIsSpelled(Pick(row, RUNTIME_KEYS), [Pair(BINDING, String(binding))], tokens);
    JoinIsSpelled(Projected(py, row), [Pair(PROJECTION, String(projection))], tokens);
  }

  lemma LandingIsSpelled(py: Py, row: Json, tokens: Tokens)
    ensures Spelled(Landing(py, row), tokens)
  {
    hide Spelled;
    BareValues(tokens);
    KeyedIsSpelled([VIA_ID, OWNER_KIND], [String(ViaOf(py, row)), String(OwnerOf(py, row))], tokens);
  }

  lemma TakenIsSpelled(row: Json, keys: seq<Bytes>, tokens: Tokens)
    requires Spelled(row, tokens)
    ensures Spelled(Taken(row, keys), tokens)
  {
    hide Spelled, Field;
    var values := seq(|keys|, i requires 0 <= i < |keys| => GetOr(row, keys[i], Null));
    BareValues(tokens);
    forall i | 0 <= i < |keys| ensures Spelled(values[i], tokens) {
      GetOrIsSpelled(row, keys[i], Null, tokens);
    }
    KeyedIsSpelled(keys, values, tokens);
  }

  lemma {:induction false} WithPinsIsSpelled(py: Py, rows: seq<Json>, pins: set<Bytes>, tokens: Tokens)
    requires forall i :: 0 <= i < |rows| ==> Spelled(rows[i], tokens)
    ensures forall i :: 0 <= i < |WithPins(py, rows, pins)| ==> Spelled(WithPins(py, rows, pins)[i], tokens)
  {
    hide Spelled, Word;
    if rows != [] {
      WithPinsIsSpelled(py, rows[1..], pins, tokens);
    }
  }

  // ---- views ----

  lemma SignedIsSpelled(py: Py, c: Json, kind: Kind, keys: seq<Bytes>, values: seq<Json>, tokens: Tokens)
    requires Spelled(c, tokens) && |keys| == |values| && forall i :: 0 <= i < |values| ==> Spelled(values[i], tokens)
    ensures Spelled(Signed(py, kind, Keyed(HEADER_KEYS + keys, Header(c, kind) + values)), tokens)
  {
    hide Spelled, Field, FieldsSpelled, SelfDigest, SchemaOf;
    var payload := Keyed(HEADER_KEYS + keys, Header(c, kind) + values);
    HeaderIsSpelled(c, kind, tokens);
    KeyedIsSpelled(HEADER_KEYS + keys, Header(c, kind) + values, tokens);
    TextFieldIsSpelled(VIEW_EVIDENCE, SelfDigest(py, kind, payload), tokens);
    JoinIsSpelled(payload, [Pair(VIEW_EVIDENCE, String(SelfDigest(py, kind, payload)))], tokens);
  }

  lemma HeaderIsSpelled(c: Json, kind: Kind, tokens: Tokens)
    requires Spelled(c, tokens)
    ensures forall i :: 0 <= i < 7 ==> Spelled(Header(c, kind)[i], tokens)
  {
    hide Spelled, Field, GetOr, SchemaOf;
    BareValues(tokens);
    GetOrIsSpelled(c, SCHEMA_VERSION, Null, tokens);
    GetOrIsSpelled(c, COMPILER, Null, tokens);
    GetOrIsSpelled(c, SOURCE, Null, tokens);
    GetOrIsSpelled(c, EVIDENCE, Null, tokens);
    GetOrIsSpelled(c, STATUS, Null, tokens);
  }

  lemma SurfaceIsSpelled(py: Py, c: Json, tokens: Tokens)
    requires Spelled(c, tokens) && SurfaceView(py, c).Some?
    ensures Spelled(SurfaceView(py, c).value, tokens)
  {
    hide Spelled, Field, GetOr, LandingsOk, Landing, Header, Signed;
    var rows := RowsOr(Field(c, CONTACTS), Some([])).value;
    BareValues(tokens);
    GetOrIsSpelled(c, SURFACE_KEYS[0], Array([]), tokens);
    GetOrIsSpelled(c, SURFACE_KEYS[1], Array([]), tokens);
    GetOrIsSpelled(c, SURFACE_KEYS[2], Array([]), tokens);
    forall i | 0 <= i < |rows| ensures Spelled(Landings(py, rows)[i], tokens) {
      LandingIsSpelled(py, rows[i], tokens);
    }
    ListIsSpelled(Landings(py, rows), tokens);
    var values := [GetOr(c, SURFACE_KEYS[0], Array([])), GetOr(c, SURFACE_KEYS[1], Array([])), GetOr(c, SURFACE_KEYS[2], Array([])),
                   Array(Landings(py, rows))];
    SignedIsSpelled(py, c, Surface, SURFACE_KEYS, values, tokens);
  }

  lemma RetargetIsSpelled(py: Py, source: Bytes, evidence: Bytes, key: Bytes, v: Option<Json>, tokens: Tokens)
    requires RowsCompactable(py, v) && (v.Some? ==> Spelled(v.value, tokens))
    ensures FieldsSpelled(Retarget(py, source, evidence, key, v), tokens)
  {
    hide Spelled, Compact, OriginalRow;
    if v.Some? {
      var items := v.value.items;
      ListIsSpelled(items, tokens);
      forall i | 0 <= i < |items| ensures Spelled(CompactRows(py, source, evidence, items)[i], tokens) {
        CompactIsSpelled(py, source, evidence, items[i], tokens);
      }
      ListIsSpelled(CompactRows(py, source, evidence, items), tokens);
    }
  }

  lemma TopologyIsSpelled(py: Py, source: Bytes, evidence: Bytes, topology: Json, quotient: Json, tokens: Tokens)
    requires Spelled(topology, tokens) && Spelled(quotient, tokens)
    requires RowsCompactable(py, SourceRows(topology, quotient, DESTINATIONS)) && RowsCompactable(py, SourceRows(topology, quotient, LANDING_XY))
    ensures Spelled(Object(CompactTopology(py, source, evidence, topology, quotient)), tokens)
  {
    hide Spelled, Field, FieldsSpelled, RowsCompactable, Retarget, Pick;
    FieldIsSpelled(topology, DESTINATIONS, tokens);
    FieldIsSpelled(quotient, DESTINATIONS, tokens);
    FieldIsSpelled(topology, LANDING_XY, tokens);
    FieldIsSpelled(quotient, LANDING_XY, tokens);
    PickIsSpelled(topology, BASE_KEYS, tokens);
    var a, b := SourceRows(topology, quotient, DESTINATIONS), SourceRows(topology, quotient, LANDING_XY);
    RetargetIsSpelled(py, source, evidence, DESTINATIONS, a, tokens);
    RetargetIsSpelled(py, source, evidence, LANDING_XY, b, tokens);
    JoinIsSpelled(Pick(topology, BASE_KEYS), Retarget(py, source, evidence, DESTINATIONS, a), tokens);
    JoinIsSpelled(Pick(topology, BASE_KEYS) + Retarget(py, source, evidence, DESTINATIONS, a), Retarget(py, source, evidence, LANDING_XY, b), tokens);
  }

  lemma ScenarioIsSpelled(py: Py, c: Json, tokens: Tokens)
    requires Spelled(c, tokens) && ScenarioView(py, c).Some?
    ensures Spelled(ScenarioView(py, c).value, tokens)
  {
    hide Spelled, Field, GetOr, Word, FieldsSpelled, RowsCompactable, CompactTopology, SourceRows, Pick, Header, Signed;
    var topology, quotient := GetOr(c, TOPOLOGY, Null), GetOr(c, QUOTIENT, Null);
    var source, evidence := Word(py, Field(c, SOURCE)), Word(py, Field(c, EVIDENCE));
    BareValues(tokens);
    GetOrIsSpelled(c, TOPOLOGY, Null, tokens);
    GetOrIsSpelled(c, QUOTIENT, Null, tokens);
    TopologyIsSpelled(py, source, evidence, topology, quotient, tokens);
    PickIsSpelled(quotient, [SCHEMA_VERSION, STATUS], tokens);
    FieldsMakeObjects(Pick(quotient, [SCHEMA_VERSION, STATUS]), tokens);
    var values := [Object(CompactTopology(py, source, evidence, topology, quotient)), Object(Pick(quotient, [SCHEMA_VERSION, STATUS]))];
    SignedIsSpelled(py, c, Scenario, SCENARIO_KEYS, values, tokens);
  }

  lemma FieldsMakeObjects(fields: seq<Pair<Json>>, tokens: Tokens)
    requires FieldsSpelled(fields, tokens)
    ensures Spelled(Object(fields), tokens)
  {
  }

  lemma TakenRowsAreSpelled(rows: seq<Json>, keys: seq<Bytes>, tokens: Tokens)
    requires forall i :: 0 <= i < |rows| ==> Spelled(rows[i], tokens)
    ensures Spelled(Array(TakenRows(rows, keys)), tokens)
  {
    hide Spelled, Taken;
    forall i | 0 <= i < |rows| ensures Spelled(TakenRows(rows, keys)[i], tokens) {
      TakenIsSpelled(rows[i], keys, tokens);
    }
    ListIsSpelled(TakenRows(rows, keys), tokens);
  }

  lemma ExternalIsSpelled(py: Py, c: Json, tokens: Tokens)
    requires Spelled(c, tokens) && ExternalView(py, c).Some?
    ensures Spelled(ExternalView(py, c).value, tokens)
  {
    hide Spelled, Field, TakenRows, Pins, WithPins, Header, Signed;
    var anchors, contacts := RowsOr(Field(c, EXTERNAL_KEYS[0]), None).value, RowsOr(Field(c, EXTERNAL_KEYS[1]), None).value;
    var compactAnchors := TakenRows(anchors, ANCHOR_KEYS);
    var pins := Pins(py, compactAnchors);
    FieldIsSpelled(c, EXTERNAL_KEYS[0], tokens);
    FieldIsSpelled(c, EXTERNAL_KEYS[1], tokens);
    ListIsSpelled(anchors, tokens);
    ListIsSpelled(contacts, tokens);
    TakenRowsAreSpelled(anchors, ANCHOR_KEYS, tokens);
    WithPinsIsSpelled(py, contacts, pins, tokens);
    TakenRowsAreSpelled(WithPins(py, contacts, pins), CONTACT_KEYS, tokens);
    SignedIsSpelled(py, c, External, EXTERNAL_KEYS,
                    [Array(compactAnchors), Array(TakenRows(WithPins(py, contacts, pins), CONTACT_KEYS))], tokens);
  }
}
