/** The scanners' answers in keys as JSON decodes them. */
module KeyReadings {
  import opened ByteStrings
  import opened JsonText
  import opened JsonKeys
  import opened ScenarioMachine
  import opened ScenarioProof
  import opened ScenarioScanner
  import opened DecapsMachine
  import DecapsProof
  import DecapsScanner

  // ---- what the two scanners are for ----

  /** One list under the key, within the limit, that decodes to a list. */
  predicate ListHeld(decode: Decoder, members: Members, key: Bytes, limit: nat) {
    var found := ValuesDecoded(members, key);
    |found| == 1 && found[0].Array? && |Print(found[0])| <= limit && decode(Print(found[0])).DecodedList?
  }

  predicate ObjectHeld(decode: Decoder, members: Members, key: Bytes, limit: nat) {
    var found := ValuesDecoded(members, key);
    |found| == 1 && found[0].Object? && |Print(found[0])| <= limit && decode(Print(found[0])).DecodedObject?
  }

  /** The JSON document holds every target exactly once at its own key path, of its type and within its size. */
  predicate TargetsHeld(decode: Decoder, root: Value) {
    && root.Object?
    && ListHeld(decode, root.members, Ascii("decaps"), 0x1000_0000)
    && ObjectHeld(decode, root.members, Ascii("connection_analysis"), 0x2000_0000)
    && var projects := ValuesDecoded(root.members, Ascii("normalized_project"));
    && |projects| == 1 && projects[0].Object?
    && ListHeld(decode, projects[0].members, Ascii("rails"), 0x100_0000)
    && ListHeld(decode, projects[0].members, Ascii("stackup_layers"), 0x100_0000)
  }

  /** The bytes of the values JSON finds at the four key paths. */
  function TargetTexts(decode: Decoder, root: Value): map<Path, Bytes>
    requires TargetsHeld(decode, root)
  {
    var project := ValuesDecoded(root.members, Ascii("normalized_project"))[0].members;
    map[
      [Ascii("decaps")] := Print(ValuesDecoded(root.members, Ascii("decaps"))[0]),
      [Ascii("connection_analysis")] := Print(ValuesDecoded(root.members, Ascii("connection_analysis"))[0]),
      [Ascii("normalized_project"), Ascii("rails")] := Print(ValuesDecoded(project, Ascii("rails"))[0]),
      [Ascii("normalized_project"), Ascii("stackup_layers")] := Print(ValuesDecoded(project, Ascii("stackup_layers"))[0])
    ]
  }

  predicate DecapsHeld(decode: Decoder, root: Value) {
    && root.Object?
    && var found := ValuesDecoded(root.members, Ascii("decaps"));
    && |found| == 1 && found[0].Array? && |Print(found[0])| <= 0x1000_0000 && decode(Print(found[0])) == DecodedList(true)
  }

  // ---- the documents on which the scanners read keys as JSON does ----

  predicate ProjectReadsAlike(project: Value) {
    project.Object? ==> ReadsAlike(project.members, RAILS) && ReadsAlike(project.members, STACKUP)
  }

  /** At the root and in the project, exactly the members whose decoded key is a target's have its token. */
  predicate KeysReadAlike(root: Value) {
    root.Object? ==>
      && ReadsAlike(root.members, DECAPS) && ReadsAlike(root.members, CONNECTION) && ReadsAlike(root.members, PROJECT)
      && var projects := ValuesDecoded(root.members, PROJECT);
      && forall i :: 0 <= i < |projects| ==> ProjectReadsAlike(projects[i])
  }

  lemma ReadingsMeet(members: Members, key: Bytes)
    requires ReadsAlike(members, key)
    ensures ValuesAt(members, key) == ValuesDecoded(members, key)
  {
    TokenReadingIsExact(members, key, 0);
  }

  /** The targets' types and sizes, written out. */
  lemma AdmissibleIs(decode: Decoder, v: Value)
    ensures Admissible(decode, [DECAPS], v) <==> v.Array? && |Print(v)| <= 0x1000_0000 && decode(Print(v)).DecodedList?
    ensures Admissible(decode, [CONNECTION], v) <==> v.Object? && |Print(v)| <= 0x2000_0000 && decode(Print(v)).DecodedObject?
    ensures Admissible(decode, [PROJECT, RAILS], v) <==> v.Array? && |Print(v)| <= 0x100_0000 && decode(Print(v)).DecodedList?
    ensures Admissible(decode, [PROJECT, STACKUP], v) <==> v.Array? && |Print(v)| <= 0x100_0000 && decode(Print(v)).DecodedList?
  {
    RootKeys();
    assert |DECAPS| == 6 && |CONNECTION| == 19 && |PROJECT| == 18 && |RAILS| == 5 && |STACKUP| == 14;
  }

  lemma HeldIs(decode: Decoder, members: Members, key: Bytes)
    requires ValuesAt(members, key) == ValuesDecoded(members, key)
    ensures key == DECAPS ==> (HeldOnce(decode, members, [], DECAPS) <==> ListHeld(decode, members, DECAPS, 0x1000_0000))
    ensures key == CONNECTION ==> (HeldOnce(decode, members, [], CONNECTION) <==> ObjectHeld(decode, members, CONNECTION, 0x2000_0000))
    ensures key == RAILS ==> (HeldOnce(decode, members, [PROJECT], RAILS) <==> ListHeld(decode, members, RAILS, 0x100_0000))
    ensures key == STACKUP ==> (HeldOnce(decode, members, [PROJECT], STACKUP) <==> ListHeld(decode, members, STACKUP, 0x100_0000))
  {
    hide DECAPS, CONNECTION, PROJECT, RAILS, STACKUP, Ascii, Admissible, ValuesAt, ValuesDecoded, Print;
    RootKeys();
    if |ValuesDecoded(members, key)| == 1 {
      AdmissibleIs(decode, ValuesDecoded(members, key)[0]);
    }
  }

  lemma TargetsAreHeld(decode: Decoder, root: Value)
    requires KeysReadAlike(root)
    ensures TargetsOnce(decode, root) <==> TargetsHeld(decode, root)
    ensures TargetsOnce(decode, root) ==> Selected(decode, root) == TargetTexts(decode, root)
  {
    hide Ascii, Admissible, HeldOnce, ListHeld, ObjectHeld, ValuesAt, ValuesDecoded, Print, ReadsAlike;
    if root.Object? {
      ReadingsMeet(root.members, DECAPS);
      ReadingsMeet(root.members, CONNECTION);
      ReadingsMeet(root.members, PROJECT);
      HeldIs(decode, root.members, DECAPS);
      HeldIs(decode, root.members, CONNECTION);
      var projects := ValuesDecoded(root.members, PROJECT);
      if |projects| == 1 && projects[0].Object? {
        assert ProjectReadsAlike(projects[0]);
        ReadingsMeet(projects[0].members, RAILS);
        ReadingsMeet(projects[0].members, STACKUP);
        HeldIs(decode, projects[0].members, RAILS);
        HeldIs(decode, projects[0].members, STACKUP);
      }
    }
  }

  /** The frame-stack scanner completes exactly on the documents that JSON reads as holding each target once, with their bytes. */
  lemma ScanMeetsJson(decode: Decoder, doc: Document)
    requires WellFormedDocument(doc) && KeysReadAlike(doc.root)
    ensures var end := Run(decode, Live(INITIAL), PrintDocument(doc));
            && (end.Live? && Complete(end.state) <==> TargetsHeld(decode, doc.root))
            && (TargetsHeld(decode, doc.root) ==> end.state.fragments == TargetTexts(decode, doc.root))
  {
    ScenarioProof.ScanMeetsTree(decode, doc);
    TargetsAreHeld(decode, doc.root);
  }

  /** The reader's answer, size and digest included. */
  lemma VerdictMeetsJson(decode: Decoder, digest: Digest, doc: Document, size: nat, sha: Bytes)
    requires WellFormedDocument(doc) && KeysReadAlike(doc.root)
    ensures var outcome := Verdict(decode, digest, PrintDocument(doc), size, sha);
            && (outcome.Fragments? <==>
                  TargetsHeld(decode, doc.root) && |PrintDocument(doc)| == size && digest(PrintDocument(doc)) == sha)
            && (outcome.Fragments? ==> outcome.byPath == TargetTexts(decode, doc.root))
  {
    VerdictMeetsTree(decode, digest, doc, size, sha);
    TargetsAreHeld(decode, doc.root);
  }

  /** The depth-one scanner looks for one key only, so only that key has to read alike. */
  lemma DecapsVerdictMeetsJson(decode: Decoder, digest: Digest, doc: Document, size: nat, sha: Bytes)
    requires WellFormedDocument(doc)
    requires doc.root.Object? ==> ReadsAlike(doc.root.members, DECAPS)
    ensures DecapsScanner.DecapsVerdict(decode, digest, PrintDocument(doc), size, sha) ==
            if DecapsHeld(decode, doc.root) && |PrintDocument(doc)| == size && digest(PrintDocument(doc)) == sha
            then Some(Print(ValuesDecoded(doc.root.members, DECAPS)[0])) else None
  {
    DecapsScanner.DecapsVerdictMeetsTree(decode, digest, doc, size, sha);
    if doc.root.Object? {
      ReadingsMeet(doc.root.members, DECAPS);
    }
  }

  // ---- documents without escapes in their keys ----

  predicate PlainDocument(root: Value) {
    root.Object? ==>
      && PlainKeys(root.members)
      && var projects := ValuesDecoded(root.members, PROJECT);
      && forall i :: 0 <= i < |projects| && projects[i].Object? ==> PlainKeys(projects[i].members)
  }

  lemma PlainDocumentsReadAlike(root: Value)
    requires PlainDocument(root)
    ensures KeysReadAlike(root)
  {
    if root.Object? {
      PlainKeysReadAlike(root.members, DECAPS);
      PlainKeysReadAlike(root.members, CONNECTION);
      PlainKeysReadAlike(root.members, PROJECT);
      var projects := ValuesDecoded(root.members, PROJECT);
      forall i | 0 <= i < |projects| ensures ProjectReadsAlike(projects[i]) {
        if projects[i].Object? {
          PlainKeysReadAlike(projects[i].members, RAILS);
          PlainKeysReadAlike(projects[i].members, STACKUP);
        }
      }
    }
  }

  /** Without escapes in the keys both scanners answer as JSON does. */
  lemma PlainDocumentsAreRead(decode: Decoder, digest: Digest, doc: Document, size: nat, sha: Bytes)
    requires WellFormedDocument(doc) && PlainDocument(doc.root)
    requires |PrintDocument(doc)| == size && digest(PrintDocument(doc)) == sha
    ensures var outcome := Verdict(decode, digest, PrintDocument(doc), size, sha);
            && (outcome.Fragments? <==> TargetsHeld(decode, doc.root))
            && (outcome.Fragments? ==> outcome.byPath == TargetTexts(decode, doc.root))
    ensures DecapsScanner.DecapsVerdict(decode, digest, PrintDocument(doc), size, sha).Some? <==> DecapsHeld(decode, doc.root)
    ensures DecapsHeld(decode, doc.root) ==>
              DecapsScanner.DecapsVerdict(decode, digest, PrintDocument(doc), size, sha) ==
              Some(Print(ValuesDecoded(doc.root.members, DECAPS)[0]))
  {
    PlainDocumentsReadAlike(doc.root);
    VerdictMeetsJson(decode, digest, doc, size, sha);
    DecapsVerdictMeetsJson(decode, digest, doc, size, sha);
  }
}
