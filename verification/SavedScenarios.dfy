/** A saved scenario, written canonically and read by both scanners. */
module SavedScenarios {
  import opened ByteStrings
  import opened KeyOrder
  import J = CanonicalJson
  import T = JsonText
  import O = JsonObjects
  import opened JsonKeys
  import opened CanonicalText
  import opened ScenarioMachine
  import opened ScenarioScanner
  import opened DecapsScanner
  import opened KeyReadings

  /** The bytes of a saved scenario: the canonical encoding and a line feed. */
  function Saved(v: J.Json): Bytes {
    J.Encode(v) + [10]
  }

  // ---- what the scanners are to find ----

  predicate HasList(v: J.Json, key: Bytes, limit: nat) {
    var x := O.Field(v, key);
    x.Some? && x.value.Array? && |J.Encode(x.value)| <= limit
  }

  predicate HasObject(v: J.Json, key: Bytes, limit: nat) {
    var x := O.Field(v, key);
    x.Some? && x.value.Object? && |J.Encode(x.value)| <= limit
  }

  /** The scenario has the four targets, each of its type and within its size. */
  predicate HasTargets(v: J.Json) {
    && HasList(v, DECAPS, 0x1000_0000) && HasObject(v, CONNECTION, 0x2000_0000)
    && var project := O.Field(v, PROJECT);
    && project.Some? && project.value.Object?
    && HasList(project.value, RAILS, 0x100_0000) && HasList(project.value, STACKUP, 0x100_0000)
  }

  function Targets(v: J.Json): map<Path, Bytes>
    requires HasTargets(v)
  {
    var project := O.Field(v, PROJECT).value;
    map[
      [DECAPS] := J.Encode(O.Field(v, DECAPS).value),
      [CONNECTION] := J.Encode(O.Field(v, CONNECTION).value),
      [PROJECT, RAILS] := J.Encode(O.Field(project, RAILS).value),
      [PROJECT, STACKUP] := J.Encode(O.Field(project, STACKUP).value)
    ]
  }

  // ---- what is assumed ----

  /** What decoding a canonical text of this value yields. */
  function KindOf(v: J.Json): ScenarioMachine.Decoded {
    match v
    case Array(items) => DecodedList(forall i :: 0 <= i < |items| ==> items[i].Object?)
    case Object(_) => DecodedObject
    case _ => DecodedScalar
  }

  /** The decoder reads canonical texts for what they are. */
  ghost predicate Faithful(decode: Decoder) {
    forall v :: J.WellFormed(v) && TextsValid(v) ==> decode(J.Encode(v)) == KindOf(v)
  }

  /** A name without control characters, quotes and backslashes: nothing in it is escaped. */
  predicate PlainName(s: Bytes) {
    forall i :: 0 <= i < |s| ==> s[i] >= 32 && s[i] != 34 && s[i] != 92
  }

  predicate PlainNames(v: J.Json) {
    v.Object? ==> forall i :: 0 <= i < |v.fields| ==> PlainName(v.fields[i].key)
  }

  /** A scenario as it is saved: an object with plain names at its root and in its project. */
  ghost predicate Scenario(v: J.Json) {
    && v.Object? && J.WellFormed(v) && TextsValid(v) && PlainNames(v)
    && var project := O.Field(v, PROJECT);
    && (project.Some? ==> PlainNames(project.value))
  }

  // ---- fields of the concrete document ----

  lemma {:induction false} PlainNameIsItself(s: Bytes)
    requires PlainName(s)
    ensures J.EscapeAll(s) == s
  {
    if s != [] {
      PlainNameIsItself(s[1..]);
      assert J.Escape(s[0]) == [s[0]] && [s[0]] + s[1..] == s;
    }
  }

  lemma {:induction false} NamesArePlain(fields: seq<Pair<J.Json>>)
    requires forall i :: 0 <= i < |fields| ==> PlainName(fields[i].key)
    ensures PlainKeys(ConcreteFields(fields))
  {
    if fields != [] {
      PlainNameIsItself(fields[0].key);
      NamesArePlain(fields[1..]);
    }
  }

  lemma NormalNames(v: J.Json)
    requires PlainNames(v)
    ensures PlainNames(J.Normal(v))
  {
    if v.Object? {
      var a := J.NormalFields(v.fields);
      var sorted := Sort(a);
      forall i | 0 <= i < |sorted| ensures PlainName(sorted[i].key) {
        assert sorted[i] in sorted;
        var k :| 0 <= k < |a| && a[k] == sorted[i];
        assert v.fields[k].key == sorted[i].key;
      }
    }
  }

  /** JSON finds under a key of the concrete document what the object has there. */
  lemma {:induction false} FieldIsFound(fields: seq<Pair<J.Json>>, key: Bytes)
    requires DistinctKeys(fields)
    ensures ValuesDecoded(ConcreteFields(fields), key) ==
            if O.Lookup(fields, key).Some? then [Concrete(O.Lookup(fields, key).value)] else []
  {
    hide Unescaped, Concrete;
    if fields != [] {
      UnescapeAll(fields[0].key);
      FieldIsFound(fields[1..], key);
    }
  }

  lemma NormalFound(v: J.Json, key: Bytes)
    requires v.Object? && J.WellFormed(v)
    ensures J.Normal(v).Object? && DistinctKeys(J.Normal(v).fields)
    ensures ValuesDecoded(ConcreteFields(J.Normal(v).fields), key) ==
            if O.Field(v, key).Some? then [Concrete(J.Normal(O.Field(v, key).value))] else []
  {
    hide ValuesDecoded, ConcreteFields, Concrete;
    J.NormalIsWellFormed(v);
    FieldIsFound(J.Normal(v).fields, key);
    O.FieldOfNormal(v, key);
  }

  lemma FieldIsValid(v: J.Json, key: Bytes)
    requires J.WellFormed(v) && TextsValid(v)
    ensures O.Field(v, key).Some? ==> J.WellFormed(O.Field(v, key).value) && TextsValid(O.Field(v, key).value)
  {
    if O.Field(v, key).Some? {
      var i :| 0 <= i < |v.fields| && v.fields[i] == Pair(key, O.Field(v, key).value);
    }
  }

  /** The concrete text of a normal form is the canonical encoding, and of the value's kind. */
  lemma ConcreteValue(v: J.Json)
    ensures T.Print(Concrete(J.Normal(v))) == J.Encode(v)
    ensures Concrete(J.Normal(v)).Array? <==> v.Array?
    ensures Concrete(J.Normal(v)).Object? <==> v.Object?
    ensures v.Object? ==> J.Normal(v).Object? && Concrete(J.Normal(v)).members == ConcreteFields(J.Normal(v).fields)
  {
    ConcretePrints(J.Normal(v));
  }

  lemma ListFound(decode: Decoder, v: J.Json, key: Bytes, limit: nat)
    requires Faithful(decode) && v.Object? && J.WellFormed(v) && TextsValid(v)
    ensures J.Normal(v).Object?
    ensures ListHeld(decode, ConcreteFields(J.Normal(v).fields), key, limit) <==> HasList(v, key, limit)
    ensures ObjectHeld(decode, ConcreteFields(J.Normal(v).fields), key, limit) <==> HasObject(v, key, limit)
    ensures O.Field(v, key).Some? ==>
              var found := ValuesDecoded(ConcreteFields(J.Normal(v).fields), key);
              |found| == 1 && T.Print(found[0]) == J.Encode(O.Field(v, key).value)
  {
    hide ValuesDecoded, ConcreteFields, Concrete, J.Normal, O.Field, J.WellFormed, TextsValid, J.Encode, T.Print;
    NormalFound(v, key);
    FieldIsValid(v, key);
    if O.Field(v, key).Some? {
      ConcreteValue(O.Field(v, key).value);
    }
  }

  // ---- the round trip ----

  function DocumentOf(v: J.Json): T.Document {
    T.Document([], Concrete(J.Normal(v)), [10])
  }

  lemma DocumentIsSaved(v: J.Json)
    requires J.WellFormed(v) && TextsValid(v)
    ensures T.WellFormedDocument(DocumentOf(v)) && T.PrintDocument(DocumentOf(v)) == Saved(v)
  {
    J.NormalIsWellFormed(v);
    NormalTextsValid(v);
    ConcreteIsWellFormed(J.Normal(v));
    ConcretePrints(J.Normal(v));
    assert [] + (J.Encode(v) + [10]) == J.Encode(v) + [10];
  }

  lemma SavedIsPlain(v: J.Json)
    requires Scenario(v)
    ensures PlainDocument(DocumentOf(v).root)
  {
    hide Ascii, ValuesDecoded, J.Normal, J.WellFormed, PlainKeys, PlainName;
    ConcreteValue(v);
    NormalNames(v);
    NamesArePlain(J.Normal(v).fields);
    NormalFound(v, PROJECT);
    var project := O.Field(v, PROJECT);
    if project.Some? && project.value.Object? {
      ConcreteValue(project.value);
      NormalNames(project.value);
      NamesArePlain(J.Normal(project.value).fields);
    } else if project.Some? {
      ConcreteValue(project.value);
    }
  }

  lemma TargetsFound(decode: Decoder, v: J.Json)
    requires Scenario(v) && Faithful(decode)
    ensures TargetsHeld(decode, DocumentOf(v).root) <==> HasTargets(v)
    ensures HasTargets(v) ==> TargetTexts(decode, DocumentOf(v).root) == Targets(v)
  {
    hide Ascii, ValuesDecoded, J.Normal, J.WellFormed, PlainName, ListHeld, ObjectHeld, HasList, HasObject, O.Field, ConcreteFields,
         Concrete, J.Encode, T.Print, TextsValid;
    ConcreteValue(v);
    ListFound(decode, v, DECAPS, 0x1000_0000);
    ListFound(decode, v, CONNECTION, 0x2000_0000);
    NormalFound(v, PROJECT);
    FieldIsValid(v, PROJECT);
    var project := O.Field(v, PROJECT);
    if project.Some? {
      ConcreteValue(project.value);
      if project.value.Object? {
        ListFound(decode, project.value, RAILS, 0x100_0000);
        ListFound(decode, project.value, STACKUP, 0x100_0000);
      }
    }
    if HasTargets(v) {
      TargetsHaveFields(v);
    }
  }

  lemma TargetsHaveFields(v: J.Json)
    requires HasTargets(v)
    ensures O.Field(v, DECAPS).Some? && O.Field(v, CONNECTION).Some?
    ensures O.Field(v, PROJECT).Some?
    ensures var project := O.Field(v, PROJECT).value;
            O.Field(project, RAILS).Some? && O.Field(project, STACKUP).Some?
  {
    hide DECAPS, CONNECTION, PROJECT, RAILS, STACKUP, Ascii, O.Field, J.Encode;
  }

  /**
   Writer and reader agree. A saved scenario, its final line feed included, is accepted exactly if it has
   the four targets within their sizes, and what is cut out are the targets' own canonical bytes.
   */
  lemma SavedScenarioIsRead(decode: Decoder, digest: Digest, v: J.Json)
    requires Scenario(v) && Faithful(decode)
    ensures var text := Saved(v);
            var outcome := Verdict(decode, digest, text, |text|, digest(text));
            && (outcome.Fragments? <==> HasTargets(v))
            && (outcome.Fragments? ==> outcome.byPath == Targets(v))
  {
    hide Verdict, TargetsHeld, HasTargets, Scenario, Faithful, Targets, TargetTexts, Saved, T.PrintDocument;
    var text := Saved(v);
    assert J.WellFormed(v) && TextsValid(v) by { ScenarioIsValid(v); }
    DocumentIsSaved(v);
    SavedIsPlain(v);
    PlainDocumentsReadAlike(DocumentOf(v).root);
    VerdictMeetsJson(decode, digest, DocumentOf(v), |text|, digest(text));
    TargetsFound(decode, v);
  }

  lemma ScenarioIsValid(v: J.Json)
    requires Scenario(v)
    ensures v.Object? && J.WellFormed(v) && TextsValid(v)
  {
  }

  /** The depth-one scanner returns the canonical bytes of the decaps, exactly if they are a list of objects within its size. */
  lemma SavedDecapsAreRead(decode: Decoder, digest: Digest, v: J.Json)
    requires Scenario(v) && Faithful(decode)
    ensures var text := Saved(v);
            var decaps := O.Field(v, DECAPS);
            DecapsVerdict(decode, digest, text, |text|, digest(text)) ==
            if decaps.Some? && decaps.value.Array? && (forall i :: 0 <= i < |decaps.value.items| ==> decaps.value.items[i].Object?)
               && |J.Encode(decaps.value)| <= 0x1000_0000
            then Some(J.Encode(decaps.value)) else None
  {
    hide Ascii, DecapsVerdict, Saved, T.PrintDocument, ValuesDecoded, ConcreteFields, Concrete, J.Normal, J.WellFormed, TextsValid,
         J.Encode, T.Print, O.Field;
    var text := Saved(v);
    DocumentIsSaved(v);
    SavedIsPlain(v);
    PlainDocumentsReadAlike(DocumentOf(v).root);
    DecapsVerdictMeetsJson(decode, digest, DocumentOf(v), |text|, digest(text));
    ConcreteValue(v);
    NormalFound(v, DECAPS);
    FieldIsValid(v, DECAPS);
    if O.Field(v, DECAPS).Some? {
      ConcreteValue(O.Field(v, DECAPS).value);
    }
  }
}
