/** Documents on which scanners and JSON disagree. */
module ScannerWitnesses {
  import opened ByteStrings
  import opened JsonText
  import opened JsonKeys
  import opened ScenarioMachine
  import opened ScenarioProof
  import opened ScenarioScanner
  import opened DecapsScanner
  import DecapsProof
  import KeyReadings

  // ---- documents around a compact rest ----

  const EMPTY_LIST := Array([], NoItems)
  const EMPTY_OBJECT := Object([], NoMembers)

  function Compact(key: Bytes, value: Value, rest: Members): Members {
    Member([], key, [], [], value, [], rest)
  }

  const PROJECT_VALUE := Object([], Compact(RAILS, EMPTY_LIST, Compact(STACKUP, EMPTY_LIST, NoMembers)))
  const OTHERS := Compact(CONNECTION, EMPTY_OBJECT, Compact(PROJECT, PROJECT_VALUE, NoMembers))

  function Doc(members: Members): Document {
    Document([], Object([], members), [])
  }

  /** A decoder that reads the empty list and the empty object as such. */
  predicate ReadsEmpty(decode: Decoder) {
    decode([OPEN_BRACKET, CLOSE_BRACKET]) == DecodedList(true) && decode([OPEN_BRACE, CLOSE_BRACE]) == DecodedObject
  }

  // The key "decaps" with its first letter as an escape, and a key of seven characters, the first a line feed.
  const ESCAPED: Bytes := Ascii("\\u0064ecaps")
  const PREFIXED: Bytes := Ascii("\\ndecaps")

  /** A key an ASCII text without quotes and backslashes spells. */
  predicate Simple(key: Bytes) {
    forall i :: 0 <= i < |key| ==> key[i] != BACKSLASH && key[i] != QUOTE && key[i] < 0x80
  }

  lemma SimpleKey(key: Bytes)
    requires Simple(key)
    ensures WellFormedString(key) && KeyToken(key) == key && Unescaped(key) == Some(key)
  {
    PlainBody(key);
    PlainKeyIsItself(key);
    AsciiIsUtf8(key);
  }

  lemma TargetKeys()
    ensures Simple(DECAPS) && Simple(CONNECTION) && Simple(PROJECT) && Simple(RAILS) && Simple(STACKUP)
    ensures |DECAPS| == 6 && |CONNECTION| == 19 && |PROJECT| == 18 && |RAILS| == 5 && |STACKUP| == 14
  {
  }

  lemma Reads(key: Bytes, value: Value, rest: Members, at: Bytes)
    requires WellFormedString(key)
    ensures ValuesAt(Compact(key, value, rest), at) == (if KeyToken(key) == at then [value] else []) + ValuesAt(rest, at)
    ensures ValuesDecoded(Compact(key, value, rest), at) ==
            (if Unescaped(key) == Some(at) then [value] else []) + ValuesDecoded(rest, at)
    ensures WellFormedMembers(Compact(key, value, rest)) <==> WellFormed(value) && WellFormedMembers(rest)
  {
  }

  lemma ReadsSimply(key: Bytes, value: Value, rest: Members, at: Bytes)
    requires Simple(key)
    ensures ValuesAt(Compact(key, value, rest), at) == (if key == at then [value] else []) + ValuesAt(rest, at)
    ensures ValuesDecoded(Compact(key, value, rest), at) == (if key == at then [value] else []) + ValuesDecoded(rest, at)
    ensures WellFormedMembers(Compact(key, value, rest)) <==> WellFormed(value) && WellFormedMembers(rest)
  {
    SimpleKey(key);
    Reads(key, value, rest, at);
  }

  // ---- keys with an escape ----

  lemma EscapedLetter(escaped: Bytes, end: Bytes)
    requires Simple(end) && escaped == [BACKSLASH, LETTER_U, 48, 48, 54, 52] + end
    ensures WellFormedString(escaped) && KeyToken(escaped) == [48, 48, 54, 52] + end && Unescaped(escaped) == Some([100] + end)
  {
    var tail := [48, 48, 54, 52] + end;
    assert escaped[2..] == tail && escaped[6..] == end;
    SimpleKey(tail);
    SimpleKey(end);
    assert CodeUnit(escaped) == Some(100);
  }

  lemma EscapedKey()
    ensures WellFormedString(ESCAPED) && |KeyToken(ESCAPED)| == 9 && Unescaped(ESCAPED) == Some(DECAPS)
  {
    hide StringBody, KeyToken, Unescaped, WellFormedString;
    var end := Ascii("ecaps");
    assert ESCAPED == [BACKSLASH, LETTER_U, 48, 48, 54, 52] + end;
    EscapedLetter(ESCAPED, end);
    assert [100] + end == DECAPS;
  }

  lemma PrefixedKey()
    ensures WellFormedString(PREFIXED) && KeyToken(PREFIXED) == DECAPS && Unescaped(PREFIXED) == Some([10] + DECAPS)
  {
    assert PREFIXED[2..] == DECAPS && PREFIXED[0] == BACKSLASH && PREFIXED[1] == 110;
    SimpleKey(DECAPS);
  }

  lemma Nothing(at: Bytes)
    ensures ValuesAt(NoMembers, at) == [] == ValuesDecoded(NoMembers, at) && WellFormedMembers(NoMembers)
  {
  }

  lemma OthersRead(at: Bytes)
    ensures ValuesAt(OTHERS, at) == ValuesDecoded(OTHERS, at) ==
            (if CONNECTION == at then [EMPTY_OBJECT] else []) + ((if PROJECT == at then [PROJECT_VALUE] else []) + [])
    ensures WellFormedMembers(OTHERS)
  {
    ProjectReads(at);
    assert WellFormed(PROJECT_VALUE) by { assert AllSpace([]); }
    hide DECAPS, Ascii, Simple, ValuesAt, ValuesDecoded, WellFormedMembers, WellFormed;
    TargetKeys();
    Nothing(at);
    EmptyIsWellFormed();
    ReadsSimply(PROJECT, PROJECT_VALUE, NoMembers, at);
    ReadsSimply(CONNECTION, EMPTY_OBJECT, Compact(PROJECT, PROJECT_VALUE, NoMembers), at);
  }

  lemma ProjectReads(at: Bytes)
    ensures ValuesAt(PROJECT_VALUE.members, at) == ValuesDecoded(PROJECT_VALUE.members, at) ==
            (if RAILS == at then [EMPTY_LIST] else []) + ((if STACKUP == at then [EMPTY_LIST] else []) + [])
    ensures WellFormedMembers(PROJECT_VALUE.members)
  {
    hide DECAPS, Ascii, Simple, ValuesAt, ValuesDecoded, WellFormedMembers, WellFormed;
    TargetKeys();
    Nothing(at);
    ReadsSimply(STACKUP, EMPTY_LIST, NoMembers, at);
    ReadsSimply(RAILS, EMPTY_LIST, Compact(STACKUP, EMPTY_LIST, NoMembers), at);
    EmptyIsWellFormed();
  }

  lemma EmptyIsWellFormed()
    ensures WellFormed(EMPTY_LIST) && WellFormed(EMPTY_OBJECT)
  {
  }

  // ---- what remains to be read once the other targets are there ----

  /** The other targets are the compact ones, under either reading. */
  predicate OthersHeld(members: Members) {
    && ValuesAt(members, CONNECTION) == ValuesDecoded(members, CONNECTION) == [EMPTY_OBJECT]
    && ValuesAt(members, PROJECT) == ValuesDecoded(members, PROJECT) == [PROJECT_VALUE]
  }

  lemma EmptyIsAdmissible(decode: Decoder, path: Path)
    requires ReadsEmpty(decode) && IsTarget(path)
    ensures Admissible(decode, path, if Opening(path) == OPEN_BRACKET then EMPTY_LIST else EMPTY_OBJECT)
  {
    hide Ascii;
    assert Print(EMPTY_LIST) == [OPEN_BRACKET, CLOSE_BRACKET] && Print(EMPTY_OBJECT) == [OPEN_BRACE, CLOSE_BRACE];
  }

  lemma ProjectHeld(decode: Decoder)
    requires ReadsEmpty(decode)
    ensures HeldOnce(decode, PROJECT_VALUE.members, [PROJECT], RAILS)
    ensures HeldOnce(decode, PROJECT_VALUE.members, [PROJECT], STACKUP)
    ensures KeyReadings.ListHeld(decode, PROJECT_VALUE.members, RAILS, 0x100_0000)
    ensures KeyReadings.ListHeld(decode, PROJECT_VALUE.members, STACKUP, 0x100_0000)
  {
    TargetKeys();
    hide DECAPS, CONNECTION, RAILS, STACKUP, Ascii, ValuesAt, ValuesDecoded, Admissible, Print, KeyReadings.ListHeld;
    ProjectReads(RAILS);
    ProjectReads(STACKUP);
    RootKeys();
    KeyReadings.HeldIs(decode, PROJECT_VALUE.members, RAILS);
    KeyReadings.HeldIs(decode, PROJECT_VALUE.members, STACKUP);
    EmptyIsAdmissible(decode, [PROJECT, RAILS]);
    EmptyIsAdmissible(decode, [PROJECT, STACKUP]);
  }

  /** Only the decaps list is left to decide. */
  lemma DecapsDecide(decode: Decoder, members: Members)
    requires ReadsEmpty(decode) && OthersHeld(members)
    ensures TargetsOnce(decode, Object([], members)) <==> HeldOnce(decode, members, [], DECAPS)
    ensures KeyReadings.TargetsHeld(decode, Object([], members)) <==> KeyReadings.ListHeld(decode, members, DECAPS, 0x1000_0000)
  {
    hide Ascii, ValuesAt, ValuesDecoded, Admissible;
    RootKeys();
    ProjectHeld(decode);
    EmptyIsAdmissible(decode, [CONNECTION]);
    KeyReadings.HeldIs(decode, members, CONNECTION);
  }

  /** One list under a key of any spelling, before the other targets. */
  lemma ListBeforeOthers(key: Bytes, list: Value)
    requires WellFormedString(key) && WellFormed(list)
    requires |KeyToken(key)| < 18 && Unescaped(key).Some? && |Unescaped(key).value| < 18
    ensures OthersHeld(Compact(key, list, OTHERS)) && WellFormedMembers(Compact(key, list, OTHERS))
    ensures ValuesAt(Compact(key, list, OTHERS), DECAPS) == if KeyToken(key) == DECAPS then [list] else []
    ensures ValuesDecoded(Compact(key, list, OTHERS), DECAPS) == if Unescaped(key) == Some(DECAPS) then [list] else []
  {
    TargetKeys();
    hide DECAPS, Ascii, ValuesAt, ValuesDecoded, WellFormedMembers, KeyToken, Unescaped;
    OthersRead(DECAPS);
    OthersRead(CONNECTION);
    OthersRead(PROJECT);
    Reads(key, list, OTHERS, DECAPS);
    Reads(key, list, OTHERS, CONNECTION);
    Reads(key, list, OTHERS, PROJECT);
  }

  /** Every answer about such a document, from its decaps values alone. */
  lemma AnswersFollow(decode: Decoder, digest: Digest, members: Members)
    requires ReadsEmpty(decode) && OthersHeld(members) && WellFormedMembers(members)
    ensures var doc := Doc(members);
            var text := PrintDocument(doc);
            var found := ValuesAt(members, DECAPS);
            && WellFormedDocument(doc)
            && (Verdict(decode, digest, text, |text|, digest(text)).Fragments? <==> |found| == 1 && Admissible(decode, [DECAPS], found[0]))
            && (DecapsVerdict(decode, digest, text, |text|, digest(text)) ==
                if |found| == 1 && DecapsProof.DecapsAdmissible(decode, found[0]) then Some(Print(found[0])) else None)
    ensures var found := ValuesDecoded(members, DECAPS);
            KeyReadings.TargetsHeld(decode, Doc(members).root) <==> |found| == 1 && Admissible(decode, [DECAPS], found[0])
  {
    hide DECAPS, Ascii, ValuesAt, ValuesDecoded, WellFormedMembers, Admissible, Verdict, DecapsVerdict, PrintDocument, Print;
    var text := PrintDocument(Doc(members));
    assert WellFormedDocument(Doc(members)) by { WellFormedRoot(members); }
    DecapsDecide(decode, members);
    RootKeys();
    if |ValuesDecoded(members, DECAPS)| == 1 {
      KeyReadings.AdmissibleIs(decode, ValuesDecoded(members, DECAPS)[0]);
    }
    VerdictMeetsTree(decode, digest, Doc(members), |text|, digest(text));
    DecapsVerdictMeetsTree(decode, digest, Doc(members), |text|, digest(text));
  }

  lemma WellFormedRoot(members: Members)
    requires WellFormedMembers(members)
    ensures WellFormedDocument(Doc(members))
  {
  }

  lemma EmptyListCounts(decode: Decoder)
    requires ReadsEmpty(decode)
    ensures Admissible(decode, [DECAPS], EMPTY_LIST) && DecapsProof.DecapsAdmissible(decode, EMPTY_LIST)
  {
    hide Ascii;
    EmptyIsAdmissible(decode, [DECAPS]);
    assert Print(EMPTY_LIST) == [OPEN_BRACKET, CLOSE_BRACKET];
  }

  // ---- the documents ----

  /** JSON finds no decaps key here, only one that starts with a line feed; both scanners take its value. */
  lemma PrefixedKeyPasses(decode: Decoder, digest: Digest)
    requires ReadsEmpty(decode)
    ensures var doc := Doc(Compact(PREFIXED, EMPTY_LIST, OTHERS));
            var text := PrintDocument(doc);
            && WellFormedDocument(doc)
            && ValuesDecoded(doc.root.members, DECAPS) == [] && !KeyReadings.TargetsHeld(decode, doc.root)
            && Verdict(decode, digest, text, |text|, digest(text)).Fragments?
            && DecapsVerdict(decode, digest, text, |text|, digest(text)) == Some(Print(EMPTY_LIST))
  {
    TargetKeys();
    PrefixedKey();
    hide DECAPS, Ascii, ValuesAt, ValuesDecoded, WellFormedMembers, KeyToken, Unescaped, Admissible, Verdict,
         DecapsVerdict, PrintDocument, Print;
    EmptyIsWellFormed();
    ListBeforeOthers(PREFIXED, EMPTY_LIST);
    EmptyListCounts(decode);
    AnswersFollow(decode, digest, Compact(PREFIXED, EMPTY_LIST, OTHERS));
  }

  /** JSON finds the decaps key, spelled with an escape, and every other target; both scanners refuse the document. */
  lemma EscapedKeyIsRefused(decode: Decoder, digest: Digest)
    requires ReadsEmpty(decode)
    ensures var doc := Doc(Compact(ESCAPED, EMPTY_LIST, OTHERS));
            var text := PrintDocument(doc);
            && WellFormedDocument(doc) && KeyReadings.TargetsHeld(decode, doc.root)
            && Verdict(decode, digest, text, |text|, digest(text)) == IntegrityError
            && DecapsVerdict(decode, digest, text, |text|, digest(text)) == None
  {
    TargetKeys();
    EscapedKey();
    hide DECAPS, Ascii, ValuesAt, ValuesDecoded, WellFormedMembers, KeyToken, Unescaped, Admissible, Verdict,
         DecapsVerdict, PrintDocument, Print;
    EmptyIsWellFormed();
    ListBeforeOthers(ESCAPED, EMPTY_LIST);
    EmptyListCounts(decode);
    AnswersFollow(decode, digest, Compact(ESCAPED, EMPTY_LIST, OTHERS));
  }

  /** JSON finds the decaps key twice, the second time with an escape; both scanners complete with the first list. */
  lemma RepeatedKeyPasses(decode: Decoder, digest: Digest, last: Value)
    requires ReadsEmpty(decode) && WellFormed(last)
    ensures var doc := Doc(Compact(DECAPS, EMPTY_LIST, Compact(ESCAPED, last, OTHERS)));
            var text := PrintDocument(doc);
            && WellFormedDocument(doc)
            && ValuesDecoded(doc.root.members, DECAPS) == [EMPTY_LIST, last] && !KeyReadings.TargetsHeld(decode, doc.root)
            && Verdict(decode, digest, text, |text|, digest(text)).Fragments?
            && DecapsVerdict(decode, digest, text, |text|, digest(text)) == Some(Print(EMPTY_LIST))
  {
    TargetKeys();
    EscapedKey();
    hide DECAPS, Ascii, Simple, ValuesAt, ValuesDecoded, WellFormedMembers, KeyToken, Unescaped, Admissible, Verdict,
         DecapsVerdict, PrintDocument, Print;
    EmptyIsWellFormed();
    ListBeforeOthers(ESCAPED, last);
    var rest := Compact(ESCAPED, last, OTHERS);
    ReadsSimply(DECAPS, EMPTY_LIST, rest, DECAPS);
    ReadsSimply(DECAPS, EMPTY_LIST, rest, CONNECTION);
    ReadsSimply(DECAPS, EMPTY_LIST, rest, PROJECT);
    EmptyListCounts(decode);
    AnswersFollow(decode, digest, Compact(DECAPS, EMPTY_LIST, rest));
  }

  // ---- a list of something else than objects ----

  /** The list that holds the number one. */
  const NUMBERS := Array([], Item([], Scalar([49]), [], NoItems))

  lemma NumbersPrint()
    ensures Print(NUMBERS) == [OPEN_BRACKET, 49, CLOSE_BRACKET] && WellFormed(NUMBERS)
  {
    assert PrintItems(NUMBERS.items) == [49];
  }

  lemma NumbersCount(decode: Decoder)
    requires decode([OPEN_BRACKET, 49, CLOSE_BRACKET]) == DecodedList(false)
    ensures Admissible(decode, [DECAPS], NUMBERS) && !DecapsProof.DecapsAdmissible(decode, NUMBERS)
  {
    hide Ascii;
    NumbersPrint();
  }

  /** With a decap that is no object the frame-stack scanner completes and the depth-one scanner refuses. */
  lemma NumberedDecapsDivide(decode: Decoder, digest: Digest)
    requires ReadsEmpty(decode) && decode([OPEN_BRACKET, 49, CLOSE_BRACKET]) == DecodedList(false)
    ensures var doc := Doc(Compact(DECAPS, NUMBERS, OTHERS));
            var text := PrintDocument(doc);
            && WellFormedDocument(doc) && KeyReadings.TargetsHeld(decode, doc.root)
            && Verdict(decode, digest, text, |text|, digest(text)).Fragments?
            && DecapsVerdict(decode, digest, text, |text|, digest(text)) == None
  {
    TargetKeys();
    SimpleKey(DECAPS);
    NumbersPrint();
    NumbersCount(decode);
    hide NUMBERS, DECAPS, Ascii, ValuesAt, ValuesDecoded, WellFormedMembers, KeyToken, Unescaped, Admissible, Verdict,
         DecapsVerdict, PrintDocument, Print;
    ListBeforeOthers(DECAPS, NUMBERS);
    AnswersFollow(decode, digest, Compact(DECAPS, NUMBERS, OTHERS));
  }
}
