/**
 Builder and validator of the compact views agree: every view built from a complete certificate is
 read back by the strict reader and passes the loader's validation, digests included.
 */
module ViewRoundTrip {
  import opened ByteStrings
  import opened KeyOrder
  import opened CanonicalJson
  import opened JsonObjects
  import opened CompactViews
  import opened CertificateViews
  import opened ViewBytes
  import opened NumberSpelling
  import opened ViewSpelling

  lemma KeyedLookup(keys: seq<Bytes>, values: seq<Json>, i: nat)
    requires |keys| == |values| && DistinctTexts(keys) && i < |keys|
    ensures Lookup(Keyed(keys, values), keys[i]) == Some(values[i])
  {
    var fields := Keyed(keys, values);
    assert fields[i] == Pair(keys[i], values[i]);
    LookupIs(fields, keys[i], values[i]);
  }

  lemma KeyedMisses(keys: seq<Bytes>, values: seq<Json>, key: Bytes)
    requires |keys| == |values| && key !in keys
    ensures Lookup(Keyed(keys, values), key).None?
  {
    assert forall i :: 0 <= i < |keys| ==> Keyed(keys, values)[i].key == keys[i];
  }

  // ---- signing ----

  /** The keys of a view: those of the header, its own, and none of them the digest's. */
  predicate ViewKeys(keys: seq<Bytes>) {
    DistinctTexts(HEADER_KEYS + keys) && VIEW_EVIDENCE !in HEADER_KEYS + keys
  }

  lemma HeaderKeysDiffer()
    ensures DistinctTexts(HEADER_KEYS) && VIEW_EVIDENCE !in HEADER_KEYS
  {
    assert COMPILER[0] == 99 && VIEW_SCHEMA[0] == 118 && INTEGRITY[0] == 105 && VIEW_EVIDENCE[0] == 118;
  }

  predicate Apart(keys: seq<Bytes>, more: seq<Bytes>) {
    forall i, j :: 0 <= i < |keys| && 0 <= j < |more| ==> keys[i] != more[j]
  }

  lemma ViewKeysAre(keys: seq<Bytes>)
    requires DistinctTexts(keys) && Apart(HEADER_KEYS, keys) && VIEW_EVIDENCE !in keys
    ensures ViewKeys(keys)
  {
    HeaderKeysDiffer();
    JoinedKeysDiffer(HEADER_KEYS, keys);
  }

  lemma JoinedKeysDiffer(a: seq<Bytes>, b: seq<Bytes>)
    requires DistinctTexts(a) && DistinctTexts(b) && Apart(a, b)
    ensures DistinctTexts(a + b)
  {
  }

  lemma SurfaceKeysFit()
    ensures ViewKeys(SURFACE_KEYS)
  {
    assert SURFACE_KEYS[0][0] == 103 && EVIDENCE[0] == 101;
    ViewKeysAre(SURFACE_KEYS);
  }

  lemma ScenarioKeysFit()
    ensures ViewKeys(SCENARIO_KEYS)
  {
    ViewKeysAre(SCENARIO_KEYS);
  }

  lemma ExternalKeysFit()
    ensures ViewKeys(EXTERNAL_KEYS)
  {
    assert EXTERNAL_KEYS[0][0] == 114 && INTEGRITY[0] == 105 && VIEW_EVIDENCE[0] == 118;
    ViewKeysAre(EXTERNAL_KEYS);
  }

  /** The payload of a view: the header and the view's own values. */
  function PayloadOf(c: Json, kind: Kind, keys: seq<Bytes>, values: seq<Json>): seq<Pair<Json>>
    requires |keys| == |values|
  {
    Keyed(HEADER_KEYS + keys, Header(c, kind) + values)
  }

  lemma HeaderIsWellFormed(c: Json, kind: Kind)
    requires WellFormed(c)
    ensures forall i :: 0 <= i < 7 ==> WellFormed(Header(c, kind)[i])
  {
    hide Field, WellFormed, SchemaOf;
    DigestIsText(SchemaOf(kind));
    DigestIsText(INTEGRITY_TEXT);
    NullIsWellFormed();
    LookupWellFormed(c, SCHEMA_VERSION);
    LookupWellFormed(c, COMPILER);
    LookupWellFormed(c, SOURCE);
    LookupWellFormed(c, EVIDENCE);
    LookupWellFormed(c, STATUS);
  }

  /** The fields of a signed view. */
  lemma SignedFields(py: Py, c: Json, kind: Kind, keys: seq<Bytes>, values: seq<Json>)
    requires WellFormed(c) && |keys| == |values| && ViewKeys(keys) && forall i :: 0 <= i < |values| ==> WellFormed(values[i])
    ensures var payload := PayloadOf(c, kind, keys, values);
            var view := Signed(py, kind, payload);
            && WellFormed(view) && Without(view.fields, VIEW_EVIDENCE) == payload
            && (forall i :: 0 <= i < 7 ==> Field(view, HEADER_KEYS[i]) == Some(Header(c, kind)[i]))
            && (forall i :: 0 <= i < |keys| ==> Field(view, keys[i]) == Some(values[i]))
            && Field(view, VIEW_EVIDENCE) == Some(String(SelfDigest(py, kind, payload)))
  {
    hide Header, WellFormed, Without, SelfDigest;
    var all, contents := HEADER_KEYS + keys, Header(c, kind) + values;
    var payload := PayloadOf(c, kind, keys, values);
    HeaderIsWellFormed(c, kind);
    KeyedIsWellFormed(all, contents);
    KeyedMisses(all, contents, VIEW_EVIDENCE);
    DigestIsText(SelfDigest(py, kind, payload));
    AppendField(payload, VIEW_EVIDENCE, String(SelfDigest(py, kind, payload)));
    forall i | 0 <= i < 7 ensures Lookup(payload, HEADER_KEYS[i]) == Some(Header(c, kind)[i]) {
      KeyedLookup(all, contents, i);
    }
    forall i | 0 <= i < |keys| ensures Lookup(payload, keys[i]) == Some(values[i]) {
      KeyedLookup(all, contents, 7 + i);
    }
    EvidenceIsNoKey(keys);
  }

  lemma NullIsWellFormed()
    ensures WellFormed(Null)
  {
  }

  lemma DigestIsText(s: Bytes)
    ensures WellFormed(String(s))
  {
  }

  lemma EvidenceIsNoKey(keys: seq<Bytes>)
    requires ViewKeys(keys)
    ensures forall i :: 0 <= i < 7 ==> HEADER_KEYS[i] != VIEW_EVIDENCE
    ensures forall i :: 0 <= i < |keys| ==> keys[i] != VIEW_EVIDENCE
  {
    var all := HEADER_KEYS + keys;
    assert forall i :: 0 <= i < 7 ==> all[i] == HEADER_KEYS[i];
    assert forall i :: 0 <= i < |keys| ==> all[7 + i] == keys[i];
  }

  /** A signed view of a complete certificate has a fitting header and digest. */
  lemma SignedFits(py: Py, names: Names, m: Manifest, c: Json, kind: Kind, keys: seq<Bytes>, values: seq<Json>)
    requires Sensible(py) && CompleteCertificate(py, names, m, c)
    requires |keys| == |values| && ViewKeys(keys) && forall i :: 0 <= i < |values| ==> WellFormed(values[i])
    ensures var view := Signed(py, kind, PayloadOf(c, kind, keys, values));
            && HeaderFits(py, names, m, kind, view) && SelfDigestFits(py, kind, view)
            && Word(py, Field(view, SOURCE)) == m.source && Word(py, Field(view, EVIDENCE)) == m.evidence
  {
    hide WellFormed, Without, ViewKeys;
    var payload := PayloadOf(c, kind, keys, values);
    var view := Signed(py, kind, payload);
    SignedFields(py, c, kind, keys, values);
    HexadecimalIsPlain(py, SelfDigest(py, kind, payload));
    HeaderOf(py, names, m, c, kind, view);
  }

  lemma HeaderOf(py: Py, names: Names, m: Manifest, c: Json, kind: Kind, view: Json)
    requires Sensible(py) && CompleteCertificate(py, names, m, c)
    requires forall i :: 0 <= i < 7 ==> Field(view, HEADER_KEYS[i]) == Some(Header(c, kind)[i])
    ensures HeaderFits(py, names, m, kind, view)
    ensures Word(py, Field(view, SOURCE)) == m.source && Word(py, Field(view, EVIDENCE)) == m.evidence
  {
    hide WellFormed, SchemaOf;
    assert Plain(COMPLETE);
    assert Field(view, HEADER_KEYS[0]) == Some(GetOr(c, SCHEMA_VERSION, Null));
    assert Field(view, HEADER_KEYS[1]) == Some(GetOr(c, COMPILER, Null));
    assert Field(view, HEADER_KEYS[2]) == Some(GetOr(c, SOURCE, Null));
    assert Field(view, HEADER_KEYS[3]) == Some(GetOr(c, EVIDENCE, Null));
    assert Field(view, HEADER_KEYS[4]) == Some(GetOr(c, STATUS, Null));
    assert Field(view, HEADER_KEYS[5]) == Some(String(SchemaOf(kind)));
    assert Field(view, HEADER_KEYS[6]) == Some(String(INTEGRITY_TEXT));
    AbsentWords(py);
  }

  /** An absent field reads as the empty word, which is neither complete nor a digest. */
  lemma AbsentWords(py: Py)
    requires Sensible(py)
    ensures Word(py, None) == []
  {
    var none: Bytes := [];
    assert Plain(none);
  }

  // ---- the three views ----

  lemma SurfacePasses(py: Py, names: Names, m: Manifest, c: Json)
    requires Sensible(py) && CompleteCertificate(py, names, m, c) && SurfaceView(py, c).Some?
    ensures WellFormed(SurfaceView(py, c).value) && Validated(py, names, m, Surface, SurfaceView(py, c).value)
  {
    hide WellFormed, HeaderFits, SelfDigestFits, LandingsOk, Landing, Signed, Field;
    var rows := RowsOr(Field(c, CONTACTS), Some([])).value;
    var values := [GetOr(c, SURFACE_KEYS[0], Array([])), GetOr(c, SURFACE_KEYS[1], Array([])), GetOr(c, SURFACE_KEYS[2], Array([])),
                   Array(Landings(py, rows))];
    LookupWellFormed(c, SURFACE_KEYS[0]);
    LookupWellFormed(c, SURFACE_KEYS[1]);
    LookupWellFormed(c, SURFACE_KEYS[2]);
    LandingListIsWellFormed(py, rows);
    NoRows();
    SurfaceKeysFit();
    SignedFields(py, c, Surface, SURFACE_KEYS, values);
    SignedFits(py, names, m, c, Surface, SURFACE_KEYS, values);
    CompactionIsIdempotent(py, rows);
    assert SURFACE_KEYS[3] == CONTACTS && values[3] == Array(Landings(py, rows));
  }

  lemma NoRows()
    ensures WellFormed(Array([]))
  {
  }

  lemma LandingListIsWellFormed(py: Py, rows: seq<Json>)
    ensures WellFormed(Array(Landings(py, rows))) && AllObjects(Landings(py, rows))
  {
    forall i | 0 <= i < |rows| ensures WellFormed(Landing(py, rows[i])) {
      LandingFields(py, rows[i]);
    }
  }

  // ---- the scenario view ----

  lemma RetargetRows(py: Py, source: Bytes, evidence: Bytes, v: Option<Json>)
    requires Sensible(py) && Hexadecimal(source) && Hexadecimal(evidence) && RowsCompactable(py, v)
    requires v.Some? ==> WellFormed(v.value)
    ensures v.Some? ==>
              var list := Array(CompactRows(py, source, evidence, v.value.items));
              WellFormed(list) && BindingsFit(py, source, evidence, Some(list))
  {
    hide ProjectedRow, OriginalRow, Compact;
    if v.Some? {
      var items := v.value.items;
      forall i | 0 <= i < |items|
        ensures WellFormed(Compact(py, source, evidence, items[i])) && ProjectedRow(py, source, evidence, Compact(py, source, evidence, items[i]))
      {
        CompactFields(py, source, evidence, items[i]);
        CompactPasses(py, source, evidence, items[i]);
      }
    }
  }

  lemma TopologyKeysDiffer()
    ensures DistinctTexts(BASE_KEYS) && DESTINATIONS !in BASE_KEYS && LANDING_XY !in BASE_KEYS && DESTINATIONS != LANDING_XY
    ensures DistinctTexts([SCHEMA_VERSION, STATUS])
  {
    assert BASE_KEYS[3][20] == 99 && LANDING_XY[20] == 98;
  }

  /** Appending an optional list under a fresh key. */
  lemma AppendRetarget(py: Py, source: Bytes, evidence: Bytes, fields: seq<Pair<Json>>, key: Bytes, v: Option<Json>, keys: seq<Bytes>)
    requires WellFormed(Object(fields)) && RowsCompactable(py, v) && Lookup(fields, key).None? && KeysWithin(fields, keys) && key in keys
    requires v.Some? ==> WellFormed(Array(CompactRows(py, source, evidence, v.value.items)))
    ensures var more := fields + Retarget(py, source, evidence, key, v);
            && WellFormed(Object(more)) && KeysWithin(more, keys)
            && (forall k :: k != key ==> Lookup(more, k) == Lookup(fields, k))
            && Lookup(more, key) == if v.None? then None else Some(Array(CompactRows(py, source, evidence, v.value.items)))
  {
    hide WellFormed, Lookup;
    if v.Some? {
      AppendField(fields, key, Array(CompactRows(py, source, evidence, v.value.items)));
    } else {
      assert fields + Retarget(py, source, evidence, key, v) == fields;
    }
  }

  lemma CompactTopologyFits(py: Py, source: Bytes, evidence: Bytes, topology: Json, quotient: Json)
    requires Sensible(py) && Hexadecimal(source) && Hexadecimal(evidence) && WellFormed(topology) && WellFormed(quotient)
    requires RowsCompactable(py, SourceRows(topology, quotient, DESTINATIONS)) && RowsCompactable(py, SourceRows(topology, quotient, LANDING_XY))
    ensures var t := Object(CompactTopology(py, source, evidence, topology, quotient));
            WellFormed(t) && TopologyFits(py, source, evidence, t)
  {
    hide WellFormed, RowsCompactable, Lookup, BindingsFit, Pick, Retarget, KeysWithin;
    TopologyKeysDiffer();
    var keys := BASE_KEYS + [DESTINATIONS, LANDING_XY];
    var a, b := SourceRows(topology, quotient, DESTINATIONS), SourceRows(topology, quotient, LANDING_XY);
    LookupWellFormed(topology, DESTINATIONS);
    LookupWellFormed(quotient, DESTINATIONS);
    LookupWellFormed(topology, LANDING_XY);
    LookupWellFormed(quotient, LANDING_XY);
    RetargetRows(py, source, evidence, a);
    RetargetRows(py, source, evidence, b);
    var base := Pick(topology, BASE_KEYS);
    PickedFields(topology, BASE_KEYS);
    PickedKeys(topology, BASE_KEYS);
    MoreKeys(base, BASE_KEYS, [DESTINATIONS, LANDING_XY]);
    assert DESTINATIONS in keys && LANDING_XY in keys by {
      assert keys[4] == DESTINATIONS && keys[5] == LANDING_XY;
    }
    AppendRetarget(py, source, evidence, base, DESTINATIONS, a, keys);
    var middle := base + Retarget(py, source, evidence, DESTINATIONS, a);
    AppendRetarget(py, source, evidence, middle, LANDING_XY, b, keys);
    NoBindings(py, source, evidence);
  }

  lemma NoBindings(py: Py, source: Bytes, evidence: Bytes)
    ensures BindingsFit(py, source, evidence, None)
  {
  }

  lemma MoreKeys(fields: seq<Pair<Json>>, keys: seq<Bytes>, more: seq<Bytes>)
    requires KeysWithin(fields, keys)
    ensures KeysWithin(fields, keys + more)
  {
  }

  lemma ScenarioPasses(py: Py, names: Names, m: Manifest, c: Json)
    requires Sensible(py) && CompleteCertificate(py, names, m, c) && ScenarioView(py, c).Some?
    ensures WellFormed(ScenarioView(py, c).value) && Validated(py, names, m, Scenario, ScenarioView(py, c).value)
  {
    hide WellFormed, HeaderFits, SelfDigestFits, Signed, Field, RowsCompactable, CompactTopology, TopologyFits, Pick, Word, KeysWithin;
    var topology, quotient := GetOr(c, TOPOLOGY, Null), GetOr(c, QUOTIENT, Null);
    LookupWellFormed(c, TOPOLOGY);
    LookupWellFormed(c, QUOTIENT);
    CompactTopologyFits(py, m.source, m.evidence, topology, quotient);
    TopologyKeysDiffer();
    PickedFields(quotient, [SCHEMA_VERSION, STATUS]);
    PickedKeys(quotient, [SCHEMA_VERSION, STATUS]);
    var values := [Object(CompactTopology(py, m.source, m.evidence, topology, quotient)), Object(Pick(quotient, [SCHEMA_VERSION, STATUS]))];
    ScenarioKeysFit();
    SignedFields(py, c, Scenario, SCENARIO_KEYS, values);
    SignedFits(py, names, m, c, Scenario, SCENARIO_KEYS, values);
    assert SCENARIO_KEYS[0] == TOPOLOGY && SCENARIO_KEYS[1] == QUOTIENT;
  }

  // ---- the external view ----

  lemma TakenIsWellFormed(rows: seq<Json>, keys: seq<Bytes>)
    requires DistinctTexts(keys) && forall i :: 0 <= i < |rows| ==> WellFormed(rows[i])
    ensures WellFormed(Array(TakenRows(rows, keys)))
  {
    forall i | 0 <= i < |rows| ensures WellFormed(Taken(rows[i], keys)) {
      TakenRowIsWellFormed(rows[i], keys);
    }
  }

  lemma TakenRowIsWellFormed(row: Json, keys: seq<Bytes>)
    requires DistinctTexts(keys) && WellFormed(row)
    ensures WellFormed(Taken(row, keys))
  {
    var values := seq(|keys|, i requires 0 <= i < |keys| => GetOr(row, keys[i], Null));
    forall i | 0 <= i < |keys| ensures WellFormed(values[i]) {
      LookupWellFormed(row, keys[i]);
    }
    KeyedIsWellFormed(keys, values);
  }

  lemma {:induction false} WithPinsIsWellFormed(py: Py, rows: seq<Json>, pins: set<Bytes>)
    requires forall i :: 0 <= i < |rows| ==> WellFormed(rows[i])
    ensures forall i :: 0 <= i < |WithPins(py, rows, pins)| ==> WellFormed(WithPins(py, rows, pins)[i])
  {
    hide WellFormed, Word;
    if rows != [] {
      WithPinsIsWellFormed(py, rows[1..], pins);
    }
  }

  lemma ProofKeysDiffer()
    ensures DistinctTexts(ANCHOR_KEYS) && DistinctTexts(CONTACT_KEYS)
  {
    assert STATUS[0] == 115 && PIN[0] == 112 && CONTACT_KEYS[2][0] == 101 && CONTACT_KEYS[5][0] == 102;
  }

  lemma ExternalPasses(py: Py, names: Names, m: Manifest, c: Json)
    requires Sensible(py) && CompleteCertificate(py, names, m, c) && ExternalView(py, c).Some?
    ensures WellFormed(ExternalView(py, c).value) && Validated(py, names, m, External, ExternalView(py, c).value)
  {
    hide HeaderFits, SelfDigestFits, Signed, Field, Taken, Word;
    var anchors, contacts := RowsOr(Field(c, EXTERNAL_KEYS[0]), None).value, RowsOr(Field(c, EXTERNAL_KEYS[1]), None).value;
    var compactAnchors := TakenRows(anchors, ANCHOR_KEYS);
    var pins := Pins(py, compactAnchors);
    LookupWellFormed(c, EXTERNAL_KEYS[0]);
    LookupWellFormed(c, EXTERNAL_KEYS[1]);
    ProofKeysDiffer();
    TakenIsWellFormed(anchors, ANCHOR_KEYS);
    WithPinsIsWellFormed(py, contacts, pins);
    TakenIsWellFormed(WithPins(py, contacts, pins), CONTACT_KEYS);
    ExternalKeysFit();
    var values := [Array(compactAnchors), Array(TakenRows(WithPins(py, contacts, pins), CONTACT_KEYS))];
    SignedFields(py, c, External, EXTERNAL_KEYS, values);
    SignedFits(py, names, m, c, External, EXTERNAL_KEYS, values);
  }

  function ViewOf(py: Py, kind: Kind, c: Json): Option<Json> {
    match kind
    case Surface => SurfaceView(py, c)
    case Scenario => ScenarioView(py, c)
    case External => ExternalView(py, c)
  }

  /**
   Builder and validator agree: whatever compact view the builder makes from a complete certificate,
   its canonical bytes are read back by the strict reader, and the view read passes validation.
   */
  lemma BuiltViewsPass(py: Py, names: Names, m: Manifest, kind: Kind, c: Json, loads: Reader, tokens: Tokens)
    requires Sensible(py) && Reads(loads, tokens) && Spelled(c, tokens)
    requires CompleteCertificate(py, names, m, c) && ViewOf(py, kind, c).Some?
    ensures var raw := Encode(ViewOf(py, kind, c).value);
            StrictView(loads, raw).Some? && Validated(py, names, m, kind, StrictView(loads, raw).value)
  {
    hide SurfaceView, ScenarioView, ExternalView, Validated, Normal, Encode, Reads, WellFormed, Spelled, StrictView, Field;
    var view := ViewOf(py, kind, c).value;
    match kind {
      case Surface =>
        SurfacePasses(py, names, m, c);
        SurfaceIsSpelled(py, c, tokens);
      case Scenario =>
        ScenarioPasses(py, names, m, c);
        ScenarioIsSpelled(py, c, tokens);
      case External =>
        ExternalPasses(py, names, m, c);
        ExternalIsSpelled(py, c, tokens);
    }
    ValidatedOfNormal(py, names, m, kind, view);
    ViewIsObject(py, names, m, kind, view);
    StrictViewInvertsEncode(loads, tokens, view);
  }

  lemma ViewIsObject(py: Py, names: Names, m: Manifest, kind: Kind, view: Json)
    requires Validated(py, names, m, kind, view)
    ensures view.Object?
  {
  }
}
