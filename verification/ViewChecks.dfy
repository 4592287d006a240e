/**
 Building and checking compact certificate views step by step: the code of the builder and of the loader,
 against what a view is.
 */
module ViewChecks {
  import opened ByteStrings
  import opened KeyOrder
  import opened CanonicalJson
  import opened JsonObjects
  import opened CompactViews
  import opened CertificateViews
  import opened ViewRoundTrip

  // ---- small checks ----

  method IsSha(s: Bytes) returns (ok: bool)
    ensures ok == Hexadecimal(s)
  {
    if |s| != 64 {
      return false;
    }
    for i := 0 to 64
      invariant forall k :: 0 <= k < i ==> 48 <= s[k] <= 57 || 97 <= s[k] <= 102
    {
      if s[i] !in {48, 49, 50, 51, 52, 53, 54, 55, 56, 57, 97, 98, 99, 100, 101, 102} {
        return false;
      }
    }
    return true;
  }

  method OnlyKeys(fields: seq<Pair<Json>>, keys: seq<Bytes>) returns (ok: bool)
    ensures ok == KeysWithin(fields, keys)
  {
    for i := 0 to |fields|
      invariant forall k :: 0 <= k < i ==> fields[k].key in keys
    {
      if fields[i].key !in keys {
        return false;
      }
    }
    return true;
  }

  /** A list of mappings, or None. */
  method Rows(v: Option<Json>, missing: Option<seq<Json>>) returns (rows: Option<seq<Json>>)
    ensures rows == RowsOr(v, missing)
  {
    if v.None? {
      return missing;
    }
    if !v.value.Array? {
      return None;
    }
    var items := v.value.items;
    for i := 0 to |items|
      invariant forall k :: 0 <= k < i ==> items[k].Object?
    {
      if !items[i].Object? {
        return None;
      }
    }
    return Some(items);
  }

  /** The runtime identity of a binding row. */
  method HasRoute(py: Py, row: Json) returns (ok: bool)
    ensures ok == RouteIdentity(py, row)
  {
    var key := Field(row, SOURCE_LANDING_KEY);
    if key.None? || !key.value.Array? || |key.value.items| != 2 {
      return false;
    }
    var first, second := py.strip(Shown(py, Some(key.value.items[0]))), py.strip(Shown(py, Some(key.value.items[1])));
    if |first| == 0 || |second| == 0 {
      return false;
    }
    var role := Word(py, Field(row, ROLE));
    if role != POWER && role != GROUND {
      return false;
    }
    if |py.strip(Shown(py, Field(row, TARGET_LAYER)))| == 0 {
      return false;
    }
    return |py.strip(Shown(py, Field(row, DESTINATION_VERTEX)))| > 0;
  }

  /** The issues of a row: a list, and empty. */
  method NoIssues(row: Json) returns (ok: bool)
    ensures ok == EmptyList(Field(row, ISSUES))
  {
    var issues := Field(row, ISSUES);
    return issues.Some? && issues.value.Array? && |issues.value.items| == 0;
  }

  // ---- the builder's rows ----

  method PickFields(v: Json, keys: seq<Bytes>) returns (fields: seq<Pair<Json>>)
    ensures fields == Pick(v, keys)
  {
    fields := [];
    for i := 0 to |keys|
      invariant fields + Pick(v, keys[i..]) == Pick(v, keys)
    {
      assert keys[i..][1..] == keys[i + 1..];
      var x := Field(v, keys[i]);
      if x.Some? {
        fields := fields + [Pair(keys[i], x.value)];
      }
    }
    assert keys[|keys|..] == [];
  }

  /** A row of the full certificate, checked and projected. */
  method ProjectRow(py: Py, row: Json) returns (fields: Option<seq<Pair<Json>>>)
    ensures fields == if OriginalRow(py, row) then Some(Projected(py, row)) else None
  {
    hide RouteIdentity, Hexadecimal, EmptyList, Word, Pick, Without, Digest;
    if !row.Object? {
      return None;
    }
    var status := Field(row, STATUS);
    if status.None? || !status.value.String? || Word(py, status) != COMPLETE {
      return None;
    }
    var clean := NoIssues(row);
    if !clean {
      return None;
    }
    var observed := Word(py, Field(row, BINDING));
    var valid := IsSha(observed);
    if !valid {
      return None;
    }
    if Digest(py, Object(Without(row.fields, BINDING))) != observed {
      return None;
    }
    var picked := PickFields(row, RUNTIME_KEYS);
    var route := HasRoute(py, Object(picked));
    if !route {
      return None;
    }
    return Some(picked + [Pair(BINDING, String(observed))]);
  }

  /** All rows of a list, or None at the first that is refused. */
  method ProjectRows(py: Py, source: Bytes, evidence: Bytes, v: Json) returns (rows: Option<seq<Json>>)
    ensures rows.Some? <==> RowsCompactable(py, Some(v))
    ensures rows.Some? ==> rows.value == CompactRows(py, source, evidence, v.items)
  {
    hide OriginalRow, Projected, ProjectionDigest;
    if !v.Array? {
      return None;
    }
    var result: seq<Json> := [];
    for i := 0 to |v.items|
      invariant forall k :: 0 <= k < i ==> OriginalRow(py, v.items[k])
      invariant |result| == i && forall k :: 0 <= k < i ==> result[k] == Compact(py, source, evidence, v.items[k])
    {
      var fields := ProjectRow(py, v.items[i]);
      if fields.None? {
        return None;
      }
      var digest := ProjectionDigest(py, source, evidence, fields.value);
      result := result + [Object(fields.value + [Pair(PROJECTION, String(digest))])];
    }
    return Some(result);
  }

  // ---- the builder ----

  /** A view: the shared header, the view's own values, and the digest of all of it. */
  method Sign(py: Py, c: Json, kind: Kind, keys: seq<Bytes>, values: seq<Json>) returns (view: Json)
    requires |keys| == |values|
    ensures view == Signed(py, kind, Keyed(HEADER_KEYS + keys, Header(c, kind) + values))
  {
    var shared := [GetOr(c, SCHEMA_VERSION, Null), GetOr(c, COMPILER, Null), GetOr(c, SOURCE, Null), GetOr(c, EVIDENCE, Null),
                   GetOr(c, STATUS, Null)];
    var schema := SchemaOf(kind);
    assert Header(c, kind) == shared + [String(schema), String(INTEGRITY_TEXT)];
    var payload := Keyed(HEADER_KEYS + keys, shared + [String(schema), String(INTEGRITY_TEXT)] + values);
    var text := Encode(Object(payload));
    if kind == External {
      text := text + [10];
    } else {
      assert text + [] == text;
    }
    return Object(payload + [Pair(VIEW_EVIDENCE, String(py.sha(text)))]);
  }

  method BuildSurface(py: Py, c: Json) returns (view: Option<Json>)
    ensures view == SurfaceView(py, c)
  {
    hide LandingsOk, Signed, Header, Landing;
    var rows := Rows(Field(c, CONTACTS), Some([]));
    if rows.None? {
      return None;
    }
    var landings := CompactLandings(py, rows.value);
    if landings.None? {
      return None;
    }
    var signed := Sign(py, c, Surface, SURFACE_KEYS,
                       [GetOr(c, SURFACE_KEYS[0], Array([])), GetOr(c, SURFACE_KEYS[1], Array([])), GetOr(c, SURFACE_KEYS[2], Array([])),
                        Array(landings.value)]);
    return Some(signed);
  }

  /** The retargeting rows under a key, from the topology if it has them, else from the quotient. */
  method BuildRetarget(py: Py, source: Bytes, evidence: Bytes, key: Bytes, topology: Json, quotient: Json)
    returns (fields: Option<seq<Pair<Json>>>)
    ensures fields.Some? <==> RowsCompactable(py, SourceRows(topology, quotient, key))
    ensures fields.Some? ==> fields.value == Retarget(py, source, evidence, key, SourceRows(topology, quotient, key))
  {
    hide OriginalRow, Compact;
    var rows := Field(topology, key);
    if rows.None? {
      rows := Field(quotient, key);
    }
    if rows.None? {
      return Some([]);
    }
    var compact := ProjectRows(py, source, evidence, rows.value);
    if compact.None? {
      return None;
    }
    return Some([Pair(key, Array(compact.value))]);
  }

  method BuildScenario(py: Py, c: Json) returns (view: Option<Json>)
    ensures view == ScenarioView(py, c)
  {
    hide RowsCompactable, Signed, Header, Pick, Retarget, Word, SourceRows;
    var topology, quotient := GetOr(c, TOPOLOGY, Null), GetOr(c, QUOTIENT, Null);
    if !topology.Object? || !quotient.Object? {
      return None;
    }
    var source, evidence := Word(py, Field(c, SOURCE)), Word(py, Field(c, EVIDENCE));
    var compact := PickFields(topology, BASE_KEYS);
    var destinations := BuildRetarget(py, source, evidence, DESTINATIONS, topology, quotient);
    if destinations.None? {
      return None;
    }
    var landings := BuildRetarget(py, source, evidence, LANDING_XY, topology, quotient);
    if landings.None? {
      return None;
    }
    var kept := PickFields(quotient, [SCHEMA_VERSION, STATUS]);
    var signed := Sign(py, c, Scenario, SCENARIO_KEYS, [Object(compact + destinations.value + landings.value), Object(kept)]);
    return Some(signed);
  }

  /** The given fields of every row, null where absent. */
  method TakeRows(rows: seq<Json>, keys: seq<Bytes>) returns (taken: seq<Json>)
    ensures taken == TakenRows(rows, keys)
  {
    taken := [];
    for i := 0 to |rows|
      invariant |taken| == i && forall k :: 0 <= k < i ==> taken[k] == Taken(rows[k], keys)
    {
      var values: seq<Json> := [];
      for j := 0 to |keys|
        invariant |values| == j && forall k :: 0 <= k < j ==> values[k] == GetOr(rows[i], keys[k], Null)
      {
        var x := Field(rows[i], keys[j]);
        values := values + [if x.Some? then x.value else Null];
      }
      assert values == seq(|keys|, k requires 0 <= k < |keys| => GetOr(rows[i], keys[k], Null));
      taken := taken + [Object(Keyed(keys, values))];
    }
  }

  method PinsOf(py: Py, rows: seq<Json>) returns (pins: set<Bytes>)
    ensures pins == Pins(py, rows)
  {
    pins := {};
    for i := 0 to |rows|
      invariant pins == set k | 0 <= k < i :: Word(py, Field(rows[k], PIN))
    {
      pins := pins + {Word(py, Field(rows[i], PIN))};
    }
  }

  method KeepPins(py: Py, rows: seq<Json>, pins: set<Bytes>) returns (kept: seq<Json>)
    ensures kept == WithPins(py, rows, pins)
  {
    kept := [];
    for i := 0 to |rows|
      invariant kept + WithPins(py, rows[i..], pins) == WithPins(py, rows, pins)
    {
      assert rows[i..][1..] == rows[i + 1..];
      if Word(py, Field(rows[i], PIN)) in pins {
        kept := kept + [rows[i]];
      }
    }
    assert rows[|rows|..] == [];
  }

  method BuildExternal(py: Py, c: Json) returns (view: Option<Json>)
    ensures view == ExternalView(py, c)
  {
    hide Signed, Header, Pins, WithPins, Taken;
    var anchors := Rows(Field(c, EXTERNAL_KEYS[0]), None);
    var contacts := Rows(Field(c, EXTERNAL_KEYS[1]), None);
    if anchors.None? || contacts.None? {
      return None;
    }
    var compactAnchors := TakeRows(anchors.value, ANCHOR_KEYS);
    var pins := PinsOf(py, compactAnchors);
    var kept := KeepPins(py, contacts.value, pins);
    var compactContacts := TakeRows(kept, CONTACT_KEYS);
    var found := PinsOf(py, compactContacts);
    if found != pins {
      return None;
    }
    var signed := Sign(py, c, External, EXTERNAL_KEYS, [Array(compactAnchors), Array(compactContacts)]);
    return Some(signed);
  }

  // ---- the loader ----

  /** One persisted binding row. */
  method CheckRow(py: Py, source: Bytes, evidence: Bytes, row: Json) returns (ok: bool)
    requires Hexadecimal(source) && Hexadecimal(evidence)
    ensures ok == ProjectedRow(py, source, evidence, row)
  {
    hide RouteIdentity, Hexadecimal, EmptyList, Word, Without, KeysWithin, ProjectionDigest;
    if !row.Object? {
      return false;
    }
    var within := OnlyKeys(row.fields, RUNTIME_KEYS + [BINDING, PROJECTION]);
    if !within || Word(py, Field(row, STATUS)) != COMPLETE {
      return false;
    }
    var clean := NoIssues(row);
    var route := HasRoute(py, row);
    var binding := IsSha(Word(py, Field(row, BINDING)));
    var projection := IsSha(Word(py, Field(row, PROJECTION)));
    if !clean || !route || !binding || !projection {
      return false;
    }
    return ProjectionDigest(py, source, evidence, Without(row.fields, PROJECTION)) == Word(py, Field(row, PROJECTION));
  }

  method CheckRows(py: Py, source: Bytes, evidence: Bytes, v: Option<Json>) returns (ok: bool)
    requires Hexadecimal(source) && Hexadecimal(evidence)
    ensures ok == BindingsFit(py, source, evidence, v)
  {
    hide ProjectedRow;
    if v.None? {
      return true;
    }
    if !v.value.Array? {
      return false;
    }
    for i := 0 to |v.value.items|
      invariant forall k :: 0 <= k < i ==> ProjectedRow(py, source, evidence, v.value.items[k])
    {
      var fits := CheckRow(py, source, evidence, v.value.items[i]);
      if !fits {
        return false;
      }
    }
    return true;
  }

  /** The scenario view's topology and quotient, against the view's own source and evidence. */
  method CheckScenario(py: Py, view: Json) returns (ok: bool)
    requires Hexadecimal(Word(py, Field(view, SOURCE))) && Hexadecimal(Word(py, Field(view, EVIDENCE)))
    ensures ok == ScenarioFits(py, view)
  {
    hide Word, BindingsFit, KeysWithin, Hexadecimal;
    var topology, quotient := Field(view, TOPOLOGY), Field(view, QUOTIENT);
    if topology.None? || quotient.None? || !topology.value.Object? || !quotient.value.Object? {
      return false;
    }
    var known := OnlyKeys(topology.value.fields, BASE_KEYS + [DESTINATIONS, LANDING_XY]);
    var bare := OnlyKeys(quotient.value.fields, [SCHEMA_VERSION, STATUS]);
    if !known || !bare {
      return false;
    }
    var source, evidence := Word(py, Field(view, SOURCE)), Word(py, Field(view, EVIDENCE));
    var destinations := CheckRows(py, source, evidence, Field(topology.value, DESTINATIONS));
    var landings := CheckRows(py, source, evidence, Field(topology.value, LANDING_XY));
    return destinations && landings;
  }

  /** The header against the names and digests it has to carry. */
  method CheckHeader(py: Py, names: Names, m: Manifest, kind: Kind, view: Json) returns (ok: bool)
    ensures ok == HeaderFits(py, names, m, kind, view)
  {
    hide Word;
    var schema := SchemaOf(kind);
    if Field(view, VIEW_SCHEMA) != Some(String(schema)) || Field(view, INTEGRITY) != Some(String(INTEGRITY_TEXT)) {
      return false;
    }
    if Field(view, SCHEMA_VERSION) != Some(String(names.schema)) || Field(view, COMPILER) != Some(String(names.compiler)) {
      return false;
    }
    return Word(py, Field(view, STATUS)) == COMPLETE && Word(py, Field(view, SOURCE)) == m.source
           && Word(py, Field(view, EVIDENCE)) == m.evidence;
  }

  /** The view's own digest, recomputed over everything else in it. */
  method CheckDigest(py: Py, kind: Kind, view: Json) returns (ok: bool)
    ensures ok == SelfDigestFits(py, kind, view)
  {
    hide Word, Hexadecimal, Encode, Without;
    var observed := Word(py, Field(view, VIEW_EVIDENCE));
    var valid := IsSha(observed);
    if !view.Object? || !valid {
      return false;
    }
    var text := Encode(Object(Without(view.fields, VIEW_EVIDENCE)));
    if kind == External {
      text := text + [10];
    } else {
      assert text + [] == text;
    }
    return py.sha(text) == observed;
  }

  /** A compact view of the current schemas: header, digest, and what its kind asks for. */
  method Validate(py: Py, names: Names, m: Manifest, kind: Kind, view: Json) returns (ok: bool)
    requires Hexadecimal(m.source) && Hexadecimal(m.evidence)
    ensures ok == Validated(py, names, m, kind, view)
  {
    hide Word, ScenarioFits, LandingsOk, Landing, Hexadecimal, SelfDigestFits;
    var header := CheckHeader(py, names, m, kind, view);
    if !header {
      return false;
    }
    var digest := CheckDigest(py, kind, view);
    if !digest {
      return false;
    }
    if kind == Surface {
      var rows := Rows(Field(view, CONTACTS), Some([]));
      if rows.None? {
        return false;
      }
      var landings := CompactLandings(py, rows.value);
      return landings.Some?;
    }
    if kind == Scenario {
      ok := CheckScenario(py, view);
      return;
    }
    return true;
  }
}
