/** Keys as JSON decodes them, against the scanners' tokens. */
module JsonKeys {
  import opened ByteStrings
  import opened JsonText

  // ---- decoding a string body (section 7 of RFC 8259) ----

  const LETTER_U: byte := 117

  function HexDigit(b: byte): Option<nat> {
    if 48 <= b <= 57 then Some(b - 48)
    else if 65 <= b <= 70 then Some(b - 55)
    else if 97 <= b <= 102 then Some(b - 87)
    else None
  }

  /** The code unit of the escape at the head of the text: a backslash, the letter u and four hexadecimal digits. */
  function CodeUnit(s: Bytes): Option<nat> {
    if |s| < 6 || s[0] != BACKSLASH || s[1] != LETTER_U then None
    else
      var a, b, c, d := HexDigit(s[2]), HexDigit(s[3]), HexDigit(s[4]), HexDigit(s[5]);
      if a.None? || b.None? || c.None? || d.None? then None
      else Some(((a.value * 16 + b.value) * 16 + c.value) * 16 + d.value)
  }

  /** The UTF-8 form of a code point; an unpaired surrogate keeps the three bytes no valid text has. */
  function Utf8(code: nat): Bytes
    requires code < 0x110000
  {
    if code < 0x80 then [code]
    else if code < 0x800 then [0xC0 + code / 0x40, 0x80 + code % 0x40]
    else if code < 0x10000 then [0xE0 + code / 0x1000, 0x80 + code / 0x40 % 0x40, 0x80 + code % 0x40]
    else [0xF0 + code / 0x40000, 0x80 + code / 0x1000 % 0x40, 0x80 + code / 0x40 % 0x40, 0x80 + code % 0x40]
  }

  /** The escapes of two bytes. */
  function ShortEscape(b: byte): Option<byte> {
    if b == QUOTE || b == BACKSLASH || b == 47 then Some(b)
    else if b == 98 then Some(8)
    else if b == 102 then Some(12)
    else if b == 110 then Some(10)
    else if b == 114 then Some(13)
    else if b == 116 then Some(9)
    else None
  }

  function Before(head: Bytes, rest: Option<Bytes>): Option<Bytes> {
    if rest.None? then None else Some(head + rest.value)
  }

  predicate Leads(unit: nat) {
    0xD800 <= unit < 0xDC00
  }

  predicate Trails(unit: Option<nat>) {
    unit.Some? && 0xDC00 <= unit.value < 0xE000
  }

  /** The text a string body stands for, in UTF-8, or None if an escape is none of JSON's. */
  function Unescaped(body: Bytes): Option<Bytes>
    decreases |body|
  {
    if body == [] then Some([])
    else if body[0] != BACKSLASH then Before([body[0]], Unescaped(body[1..]))
    else if |body| < 2 then None
    else if body[1] != LETTER_U then
      var short := ShortEscape(body[1]);
      if short.None? then None else Before([short.value], Unescaped(body[2..]))
    else
      var unit := CodeUnit(body);
      if unit.None? then None
      else
        var next := CodeUnit(body[6..]);
        if Leads(unit.value) && Trails(next) then
          Before(Utf8(0x10000 + (unit.value - 0xD800) * 0x400 + (next.value - 0xDC00)), Unescaped(body[12..]))
        else if unit.value < 0x110000 then Before(Utf8(unit.value), Unescaped(body[6..]))
        else None
  }

  /** The values held under a key as JSON decodes keys, in document order. */
  function ValuesDecoded(members: Members, key: Bytes): seq<Value> {
    match members
    case NoMembers => []
    case Member(_, raw, _, _, value, _, rest) =>
      (if Unescaped(raw) == Some(key) then [value] else []) + ValuesDecoded(rest, key)
  }

  // ---- when the two readings of a key agree ----

  predicate KeyAgrees(raw: Bytes, key: Bytes) {
    KeyToken(raw) == key <==> Unescaped(raw) == Some(key)
  }

  /** No member passes for the key without being it, and none is it in disguise. */
  predicate ReadsAlike(members: Members, key: Bytes) {
    members.Member? ==> KeyAgrees(members.key, key) && ReadsAlike(members.rest, key)
  }

  /** The positions of the members whose token is the key. */
  function TokenPositions(members: Members, key: Bytes, from: nat): seq<nat> {
    if members.NoMembers? then []
    else (if KeyToken(members.key) == key then [from] else []) + TokenPositions(members.rest, key, from + 1)
  }

  /** The positions of the members whose decoded key is the key. */
  function DecodedPositions(members: Members, key: Bytes, from: nat): seq<nat> {
    if members.NoMembers? then []
    else (if Unescaped(members.key) == Some(key) then [from] else []) + DecodedPositions(members.rest, key, from + 1)
  }

  lemma {:induction false} PositionsFollow(members: Members, key: Bytes, from: nat)
    ensures forall i :: 0 <= i < |TokenPositions(members, key, from)| ==> TokenPositions(members, key, from)[i] >= from
    ensures forall i :: 0 <= i < |DecodedPositions(members, key, from)| ==> DecodedPositions(members, key, from)[i] >= from
  {
    if members.Member? {
      PositionsFollow(members.rest, key, from + 1);
    }
  }

  /** The token reading of a key is the decoded one exactly if every member is read alike; then the values are the same. */
  lemma {:induction false} TokenReadingIsExact(members: Members, key: Bytes, from: nat)
    ensures TokenPositions(members, key, from) == DecodedPositions(members, key, from) <==> ReadsAlike(members, key)
    ensures ReadsAlike(members, key) ==> ValuesAt(members, key) == ValuesDecoded(members, key)
  {
    if members.Member? {
      TokenReadingIsExact(members.rest, key, from + 1);
      PositionsFollow(members.rest, key, from + 1);
      var a, b := TokenPositions(members.rest, key, from + 1), DecodedPositions(members.rest, key, from + 1);
      if KeyAgrees(members.key, key) {
        SameHead(from, a, b);
      } else {
        OtherHead(from, a, b);
      }
    }
  }

  lemma SameHead(x: nat, a: seq<nat>, b: seq<nat>)
    ensures [x] + a == [x] + b <==> a == b
    ensures [] + a == a && [] + b == b
  {
    assert ([x] + a)[1..] == a && ([x] + b)[1..] == b;
  }

  lemma OtherHead(x: nat, a: seq<nat>, b: seq<nat>)
    requires (forall i :: 0 <= i < |a| ==> a[i] > x) && (forall i :: 0 <= i < |b| ==> b[i] > x)
    ensures [x] + a != [] + b && [] + a != [x] + b
  {
    assert ([x] + a)[0] == x && ([x] + b)[0] == x;
    assert [] + a == a && [] + b == b;
  }

  // ---- plain keys ----

  predicate PlainKey(body: Bytes) {
    forall i :: 0 <= i < |body| ==> body[i] != BACKSLASH
  }

  lemma {:induction false} PlainKeyIsItself(body: Bytes)
    requires PlainKey(body)
    ensures Unescaped(body) == Some(body) && KeyToken(body) == body
  {
    KeyTokenOfPlainKey(body);
    if body != [] {
      PlainKeyIsItself(body[1..]);
      assert [body[0]] + body[1..] == body;
    }
  }

  predicate PlainKeys(members: Members) {
    members.Member? ==> PlainKey(members.key) && PlainKeys(members.rest)
  }

  /** Keys without a backslash are read alike, whatever key is looked for. */
  lemma {:induction false} PlainKeysReadAlike(members: Members, key: Bytes)
    requires PlainKeys(members)
    ensures ReadsAlike(members, key)
  {
    if members.Member? {
      PlainKeyIsItself(members.key);
      PlainKeysReadAlike(members.rest, key);
    }
  }
}
