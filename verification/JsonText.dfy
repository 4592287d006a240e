/** JSON documents as trees that keep every byte. */
module JsonText {
  // Concrete syntax of JSON documents (sections 2 to 7 of RFC 8259): a tree that keeps every
  // insignificant space and the raw bytes of every string and scalar, and its text.
  // The scalar and string alphabets are supersets of the grammar's, so every valid document is covered.

  import opened ByteStrings

  datatype Value =
    | Scalar(text: Bytes)
    | Text(body: Bytes)
    | Array(pad: Bytes, items: Items)
    | Object(pad: Bytes, members: Members)

  datatype Items =
    | NoItems
    | Item(before: Bytes, value: Value, after: Bytes, rest: Items)

  datatype Members =
    | NoMembers
    | Member(before: Bytes, key: Bytes, mid: Bytes, gap: Bytes, value: Value, after: Bytes, rest: Members)

  datatype Document = Document(lead: Bytes, root: Value, trail: Bytes)

  // ---- text ----

  function Quoted(body: Bytes): Bytes {
    [QUOTE] + (body + [QUOTE])
  }

  function Print(v: Value): Bytes {
    match v
    case Scalar(text) => text
    case Text(body) => Quoted(body)
    case Array(pad, items) => [OPEN_BRACKET] + (pad + (PrintItems(items) + [CLOSE_BRACKET]))
    case Object(pad, members) => [OPEN_BRACE] + (pad + (PrintMembers(members) + [CLOSE_BRACE]))
  }

  function PrintItems(items: Items): Bytes {
    match items
    case NoItems => []
    case Item(before, value, after, rest) =>
      before + (Print(value) + (after + (if rest.NoItems? then [] else [COMMA] + PrintItems(rest))))
  }

  function PrintMembers(members: Members): Bytes {
    match members
    case NoMembers => []
    case Member(before, key, mid, gap, value, after, rest) =>
      (before + (Quoted(key) + mid)) +
      ([COLON] + (gap + (Print(value) + (after + (if rest.NoMembers? then [] else [COMMA] + PrintMembers(rest))))))
  }

  function PrintDocument(doc: Document): Bytes {
    doc.lead + (Print(doc.root) + doc.trail)
  }

  // ---- well-formedness ----

  /** Insignificant space (section 2 of RFC 8259): spaces, tabs, line feeds and carriage returns. */
  predicate Padding(s: Bytes) {
    forall i :: 0 <= i < |s| ==> s[i] == 32 || s[i] == 9 || s[i] == 10 || s[i] == 13
  }

  /** Bytes of numbers and of the names true, false and null: no space, quote, bracket, colon or comma. */
  predicate ScalarByte(b: byte) {
    b !in {32, 9, 10, 13, QUOTE, COMMA, COLON, OPEN_BRACKET, CLOSE_BRACKET, OPEN_BRACE, CLOSE_BRACE, BACKSLASH}
  }

  /** A string body: a backslash always escapes the byte after it, and no bare quote occurs. */
  predicate StringBody(body: Bytes) {
    || body == []
    || (body[0] == BACKSLASH && |body| >= 2 && StringBody(body[2..]))
    || (body[0] != BACKSLASH && body[0] != QUOTE && StringBody(body[1..]))
  }

  /** The bytes a scanner's token collects from a string body: every escape is dropped, both its bytes. */
  function KeyToken(body: Bytes): Bytes {
    if body == [] then []
    else if body[0] == BACKSLASH && |body| >= 2 then KeyToken(body[2..])
    else [body[0]] + KeyToken(body[1..])
  }

  predicate WellFormedString(body: Bytes) {
    StringBody(body) && ValidUtf8(KeyToken(body))
  }

  predicate WellFormed(v: Value) {
    match v
    case Scalar(text) => text != [] && forall i :: 0 <= i < |text| ==> ScalarByte(text[i])
    case Text(body) => WellFormedString(body)
    case Array(pad, items) => Padding(pad) && WellFormedItems(items)
    case Object(pad, members) => Padding(pad) && WellFormedMembers(members)
  }

  predicate WellFormedItems(items: Items) {
    match items
    case NoItems => true
    case Item(before, value, after, rest) =>
      Padding(before) && WellFormed(value) && Padding(after) && WellFormedItems(rest)
  }

  predicate WellFormedMembers(members: Members) {
    match members
    case NoMembers => true
    case Member(before, key, mid, gap, value, after, rest) =>
      && Padding(before) && WellFormedString(key) && Padding(mid) && Padding(gap)
      && WellFormed(value) && Padding(after) && WellFormedMembers(rest)
  }

  predicate WellFormedDocument(doc: Document) {
    Padding(doc.lead) && WellFormed(doc.root) && Padding(doc.trail)
  }

  // ---- looking values up by key ----

  /** The values held under a key, in document order; the key of a member is its token. */
  function ValuesAt(members: Members, key: Bytes): seq<Value> {
    match members
    case NoMembers => []
    case Member(_, raw, _, _, value, _, rest) =>
      (if KeyToken(raw) == key then [value] else []) + ValuesAt(rest, key)
  }

  /** Without a backslash the token is the key itself. */
  lemma {:induction false} KeyTokenOfPlainKey(body: Bytes)
    requires forall i :: 0 <= i < |body| ==> body[i] != BACKSLASH
    ensures KeyToken(body) == body
  {
    if body != [] {
      KeyTokenOfPlainKey(body[1..]);
    }
  }

  lemma {:induction false} PlainBody(body: Bytes)
    requires forall i :: 0 <= i < |body| ==> body[i] != BACKSLASH && body[i] != QUOTE
    ensures StringBody(body)
  {
    if body != [] {
      PlainBody(body[1..]);
    }
  }
}
