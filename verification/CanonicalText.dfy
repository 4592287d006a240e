/** Canonical bytes are JSON text. */
module CanonicalText {
  import opened ByteStrings
  import opened KeyOrder
  import J = CanonicalJson
  import T = JsonText
  import G = JsonGrammar
  import opened JsonKeys
  import opened Utf8Texts

  // ---- what a document's value says ----

  /** A concrete value stands for a JSON value: literals by name, numbers by token, strings as decoded, items and fields in order. */
  ghost predicate Denotes(t: T.Value, v: J.Json) {
    match t
    case Scalar(text) =>
      || (v.Null? && text == Ascii("null"))
      || (v.Bool? && text == if v.b then Ascii("true") else Ascii("false"))
      || (v.Number? && text == v.token)
    case Text(body) => v.String? && Unescaped(body) == Some(v.text)
    case Array(_, items) => v.Array? && DenotesItems(items, v.items)
    case Object(_, members) => v.Object? && DenotesFields(members, v.fields)
  }

  ghost predicate DenotesItems(items: T.Items, values: seq<J.Json>) {
    match items
    case NoItems => values == []
    case Item(_, value, _, rest) => values != [] && Denotes(value, values[0]) && DenotesItems(rest, values[1..])
  }

  ghost predicate DenotesFields(members: T.Members, fields: seq<Pair<J.Json>>) {
    match members
    case NoMembers => fields == []
    case Member(_, key, _, _, value, _, rest) =>
      && fields != [] && Unescaped(key) == Some(fields[0].key) && Denotes(value, fields[0].value)
      && DenotesFields(rest, fields[1..])
  }

  /** Not a byte of space between tokens. */
  predicate Dense(t: T.Value) {
    forall i :: 0 <= i < |G.Pads(t)| ==> G.Pads(t)[i] == []
  }

  /** Every text of the value, keys included, is valid UTF-8. */
  predicate TextsValid(v: J.Json) {
    match v
    case String(text) => ValidUtf8(text)
    case Array(items) => forall i :: 0 <= i < |items| ==> TextsValid(items[i])
    case Object(fields) => forall i :: 0 <= i < |fields| ==> ValidUtf8(fields[i].key) && TextsValid(fields[i].value)
    case _ => true
  }

  // ---- strings ----

  lemma UnescapeByte(b: byte, rest: Bytes)
    ensures Unescaped(J.Escape(b) + rest) == JsonKeys.Before([b], Unescaped(rest))
  {
    var text := J.Escape(b) + rest;
    assert text[|J.Escape(b)|..] == rest;
    assert text[0] == J.Escape(b)[0];
    if b == QUOTE || b == BACKSLASH || b in {8, 9, 10, 12, 13} {
      assert text[1] == J.Escape(b)[1];
    } else if b < 32 {
      ControlUnit(b, rest);
    }
  }

  lemma ControlUnit(b: byte, rest: Bytes)
    requires b < 32 && b !in {8, 9, 10, 12, 13}
    ensures CodeUnit(J.Escape(b) + rest) == Some(b as nat)
  {
    var e := J.Escape(b);
    var text := e + rest;
    assert e == [92, 117, 48, 48, J.HEX[b / 16], J.HEX[b % 16]];
    assert text[0] == e[0] && text[1] == e[1] && text[2] == e[2] && text[3] == e[3] && text[4] == e[4] && text[5] == e[5];
    HexIsDigit(b / 16);
    HexIsDigit(b % 16);
  }

  lemma HexIsDigit(d: nat)
    requires d < 16
    ensures HexDigit(J.HEX[d]) == Some(d)
  {
  }

  /** Reading an escaped text back gives the text. */
  lemma {:induction false} UnescapeAll(text: Bytes)
    ensures Unescaped(J.EscapeAll(text)) == Some(text)
  {
    hide J.Escape, Unescaped;
    if text == [] {
      NothingEscaped();
    } else {
      UnescapeAll(text[1..]);
      UnescapeByte(text[0], J.EscapeAll(text[1..]));
      assert [text[0]] + text[1..] == text;
    }
  }

  lemma NothingEscaped()
    ensures Unescaped([]) == Some([])
  {
  }

  /** A byte is escaped only where it has to be, in two bytes where JSON has such an escape, and else in lower-case hexadecimal. */
  lemma EscapesAreShort(b: byte)
    ensures |J.Escape(b)| == (if b in {8, 9, 10, 12, 13, 34, 92} then 2 else if b < 32 then 6 else 1)
    ensures forall i :: 0 <= i < |J.Escape(b)| && b < 32 ==> !(65 <= J.Escape(b)[i] <= 90)
  {
    if b < 32 && b !in {8, 9, 10, 12, 13} {
      var e := J.Escape(b);
      assert e == [92, 117, 48, 48, J.HEX[b / 16], J.HEX[b % 16]];
      assert forall d :: 0 <= d < 16 ==> !(65 <= J.HEX[d] <= 90);
    }
  }

  /** What the scanners' token keeps of an escaped byte. */
  function Kept(b: byte): Bytes {
    if |J.Escape(b)| == 2 then [] else if |J.Escape(b)| == 6 then J.Escape(b)[2..] else [b]
  }

  lemma TokenByte(b: byte, rest: Bytes)
    ensures T.KeyToken(J.Escape(b) + rest) == Kept(b) + T.KeyToken(rest)
    ensures T.StringBody(rest) ==> T.StringBody(J.Escape(b) + rest)
  {
    EscapesAreShort(b);
    var e := J.Escape(b);
    var text := e + rest;
    assert text[|e|..] == rest && text[0] == e[0];
    if |e| == 2 {
      assert text[1] == e[1];
      assert Kept(b) + T.KeyToken(rest) == T.KeyToken(rest);
    } else if |e| == 6 {
      SixBytes(b, rest);
    }
  }

  lemma SixBytes(b: byte, rest: Bytes)
    requires b < 32 && b !in {8, 9, 10, 12, 13}
    ensures T.KeyToken(J.Escape(b) + rest) == J.Escape(b)[2..] + T.KeyToken(rest)
    ensures T.StringBody(rest) ==> T.StringBody(J.Escape(b) + rest)
  {
    var e := J.Escape(b);
    var x, y := J.HEX[b / 16], J.HEX[b % 16];
    assert e == [92, 117, 48, 48, x, y] && e[2..] == [48, 48, x, y];
    var text := e + rest;
    assert text == [92, 117] + ([48] + ([48] + ([x] + ([y] + rest))));
    assert text[2..] == [48] + ([48] + ([x] + ([y] + rest)));
    PlainByte(y, rest);
    PlainByte(x, [y] + rest);
    PlainByte(48, [x] + ([y] + rest));
    PlainByte(48, [48] + ([x] + ([y] + rest)));
    assert [48] + ([48] + ([x] + ([y] + T.KeyToken(rest)))) == e[2..] + T.KeyToken(rest);
  }

  lemma PlainByte(b: byte, rest: Bytes)
    requires b != QUOTE && b != BACKSLASH
    ensures T.KeyToken([b] + rest) == [b] + T.KeyToken(rest)
    ensures T.StringBody(rest) ==> T.StringBody([b] + rest)
  {
    assert ([b] + rest)[1..] == rest;
  }

  lemma {:induction false} EscapedIsBody(text: Bytes)
    ensures T.StringBody(J.EscapeAll(text))
  {
    hide J.Escape, T.StringBody;
    if text == [] {
      assert T.StringBody([]) by { T.PlainBody([]); }
    } else {
      EscapedIsBody(text[1..]);
      TokenByte(text[0], J.EscapeAll(text[1..]));
    }
  }

  lemma {:induction false} AsciiBefore(head: Bytes, rest: Bytes)
    requires (forall i :: 0 <= i < |head| ==> head[i] < 0x80) && ValidUtf8(rest)
    ensures ValidUtf8(head + rest)
  {
    if head != [] {
      AsciiBefore(head[1..], rest);
      assert (head + rest)[1..] == head[1..] + rest;
    } else {
      assert head + rest == rest;
    }
  }

  lemma {:induction false} HighBytes(s: Bytes, rest: Bytes)
    requires forall i :: 0 <= i < |s| ==> s[i] >= 0x80
    ensures T.KeyToken(J.EscapeAll(s + rest)) == s + T.KeyToken(J.EscapeAll(rest))
  {
    hide T.KeyToken;
    if s == [] {
      assert s + rest == rest;
    } else {
      assert (s + rest)[1..] == s[1..] + rest;
      HighBytes(s[1..], rest);
      TokenByte(s[0], J.EscapeAll(s[1..] + rest));
      assert J.Escape(s[0]) == [s[0]];
      assert [s[0]] + (s[1..] + T.KeyToken(J.EscapeAll(rest))) == s + T.KeyToken(J.EscapeAll(rest));
    }
  }

  /** Escapes are ASCII, so what the token keeps of a valid text is valid. */
  lemma {:induction false} TokenIsValid(text: Bytes)
    requires ValidUtf8(text)
    ensures ValidUtf8(T.KeyToken(J.EscapeAll(text)))
    decreases |text|
  {
    hide ValidUtf8, T.KeyToken, J.Escape, Utf8;
    if text == [] {
      EmptyToken();
    } else {
      var code, n := Head(text);
      var rest := text[n..];
      assert text == text[..n] + rest;
      TokenIsValid(rest);
      if code < 0x80 {
        One(code);
        assert text[0] == text[..n][0] == code && rest == text[1..];
        TokenByte(text[0], J.EscapeAll(rest));
        KeptIsAscii(text[0]);
        AsciiBefore(Kept(text[0]), T.KeyToken(J.EscapeAll(rest)));
      } else {
        HighCode(code);
        HighBytes(text[..n], rest);
        OneMoreCode(code, T.KeyToken(J.EscapeAll(rest)));
      }
    }
  }

  lemma EmptyToken()
    ensures ValidUtf8(T.KeyToken(J.EscapeAll([])))
  {
  }

  lemma KeptIsAscii(b: byte)
    requires b < 0x80
    ensures forall i :: 0 <= i < |Kept(b)| ==> Kept(b)[i] < 0x80
  {
    EscapesAreShort(b);
  }

  lemma HighCode(code: nat)
    requires CodePoint(code) && code >= 0x80
    ensures forall i :: 0 <= i < |Utf8(code)| ==> Utf8(code)[i] >= 0x80
  {
  }

  // ---- values ----

  /** The canonical text of a value as a concrete value. */
  function Concrete(v: J.Json): T.Value
    decreases v, 1
  {
    match v
    case Null => T.Scalar(J.NULL)
    case Bool(b) => T.Scalar(if b then J.TRUE else J.FALSE)
    case Number(token) => T.Scalar(token)
    case String(text) => T.Text(J.EscapeAll(text))
    case Array(items) => T.Array([], ConcreteItems(items))
    case Object(fields) => T.Object([], ConcreteFields(fields))
  }

  function ConcreteItems(items: seq<J.Json>): T.Items
    decreases items, 0
  {
    if items == [] then T.NoItems else T.Item([], Concrete(items[0]), [], ConcreteItems(items[1..]))
  }

  function ConcreteFields(fields: seq<Pair<J.Json>>): T.Members
    decreases fields, 0
  {
    if fields == [] then T.NoMembers
    else T.Member([], J.EscapeAll(fields[0].key), [], [], Concrete(fields[0].value), [], ConcreteFields(fields[1..]))
  }

  lemma {:induction false} ConcretePrints(v: J.Json)
    ensures T.Print(Concrete(v)) == J.Print(v)
    decreases v, 1
  {
    match v
    case Array(items) =>
      ItemsPrint(items, true);
      assert [] + (T.PrintItems(ConcreteItems(items)) + [CLOSE_BRACKET]) == T.PrintItems(ConcreteItems(items)) + [CLOSE_BRACKET];
    case Object(fields) =>
      FieldsPrint(fields, true);
      assert [] + (T.PrintMembers(ConcreteFields(fields)) + [CLOSE_BRACE]) == T.PrintMembers(ConcreteFields(fields)) + [CLOSE_BRACE];
    case _ =>
  }

  lemma {:induction false} ItemsPrint(items: seq<J.Json>, first: bool)
    ensures J.PrintItems(items, first) == (if first || items == [] then [] else [COMMA]) + T.PrintItems(ConcreteItems(items))
    decreases items, 0
  {
    if items != [] {
      ConcretePrints(items[0]);
      ItemsPrint(items[1..], false);
      var p, rest := J.Print(items[0]), J.PrintItems(items[1..], false);
      assert T.PrintItems(ConcreteItems(items)) == [] + (p + ([] + rest));
      assert [] + (p + ([] + rest)) == p + rest;
    }
  }

  lemma {:induction false} FieldsPrint(fields: seq<Pair<J.Json>>, first: bool)
    ensures J.PrintFields(fields, first) == (if first || fields == [] then [] else [COMMA]) + T.PrintMembers(ConcreteFields(fields))
    decreases fields, 0
  {
    if fields != [] {
      ConcretePrints(fields[0].value);
      FieldsPrint(fields[1..], false);
      var q, p, rest := J.Quote(fields[0].key), J.Print(fields[0].value), J.PrintFields(fields[1..], false);
      assert T.PrintMembers(ConcreteFields(fields)) == ([] + (q + [])) + ([COLON] + ([] + (p + ([] + rest))));
      Drop(q, p, rest);
    }
  }

  lemma Drop(q: Bytes, p: Bytes, rest: Bytes)
    ensures ([] + (q + [])) + ([COLON] + ([] + (p + ([] + rest)))) == q + ([COLON] + (p + rest))
  {
    assert [] + (q + []) == q && [] + rest == rest;
    assert [] + (p + rest) == p + rest;
  }

  lemma {:induction false} ConcreteDenotes(v: J.Json)
    ensures Denotes(Concrete(v), v)
    decreases v, 1
  {
    match v
    case Null => assert J.NULL == Ascii("null");
    case Bool(b) => assert J.TRUE == Ascii("true") && J.FALSE == Ascii("false");
    case String(text) => UnescapeAll(text);
    case Array(items) => ItemsDenote(items);
    case Object(fields) => FieldsDenote(fields);
    case _ =>
  }

  lemma {:induction false} ItemsDenote(items: seq<J.Json>)
    ensures DenotesItems(ConcreteItems(items), items)
    decreases items, 0
  {
    if items != [] {
      ConcreteDenotes(items[0]);
      ItemsDenote(items[1..]);
    }
  }

  lemma {:induction false} FieldsDenote(fields: seq<Pair<J.Json>>)
    ensures DenotesFields(ConcreteFields(fields), fields)
    decreases fields, 0
  {
    if fields != [] {
      UnescapeAll(fields[0].key);
      ConcreteDenotes(fields[0].value);
      FieldsDenote(fields[1..]);
    }
  }

  lemma {:induction false} ConcreteIsDense(v: J.Json)
    ensures Dense(Concrete(v))
    decreases v, 1
  {
    match v
    case Array(items) => ItemsAreDense(items);
    case Object(fields) => FieldsAreDense(fields);
    case _ =>
  }

  lemma {:induction false} ItemsAreDense(items: seq<J.Json>)
    ensures forall i :: 0 <= i < |G.ItemPads(ConcreteItems(items))| ==> G.ItemPads(ConcreteItems(items))[i] == []
    decreases items, 0
  {
    if items != [] {
      ConcreteIsDense(items[0]);
      ItemsAreDense(items[1..]);
    }
  }

  lemma {:induction false} FieldsAreDense(fields: seq<Pair<J.Json>>)
    ensures forall i :: 0 <= i < |G.MemberPads(ConcreteFields(fields))| ==> G.MemberPads(ConcreteFields(fields))[i] == []
    decreases fields, 0
  {
    if fields != [] {
      ConcreteIsDense(fields[0].value);
      FieldsAreDense(fields[1..]);
    }
  }

  lemma {:induction false} ConcreteIsWellFormed(v: J.Json)
    requires J.WellFormed(v) && TextsValid(v)
    ensures T.WellFormed(Concrete(v))
    decreases v, 1
  {
    match v
    case String(text) =>
      EscapedIsBody(text);
      TokenIsValid(text);
    case Array(items) => ItemsAreWellFormed(items);
    case Object(fields) => FieldsAreWellFormed(fields);
    case _ =>
  }

  lemma {:induction false} ItemsAreWellFormed(items: seq<J.Json>)
    requires forall i :: 0 <= i < |items| ==> J.WellFormed(items[i]) && TextsValid(items[i])
    ensures T.WellFormedItems(ConcreteItems(items))
    decreases items, 0
  {
    if items != [] {
      ConcreteIsWellFormed(items[0]);
      ItemsAreWellFormed(items[1..]);
    }
  }

  lemma {:induction false} FieldsAreWellFormed(fields: seq<Pair<J.Json>>)
    requires forall i :: 0 <= i < |fields| ==> ValidUtf8(fields[i].key) && J.WellFormed(fields[i].value) && TextsValid(fields[i].value)
    ensures T.WellFormedMembers(ConcreteFields(fields))
    decreases fields, 0
  {
    if fields != [] {
      EscapedIsBody(fields[0].key);
      TokenIsValid(fields[0].key);
      ConcreteIsWellFormed(fields[0].value);
      FieldsAreWellFormed(fields[1..]);
    }
  }

  /**
   The canonical bytes of a value are a JSON text without a byte of space that denotes the value with
   its fields in order.
   */
  lemma CanonicalBytesAreJson(v: J.Json)
    requires J.WellFormed(v) && TextsValid(v)
    ensures exists t, sorted :: T.Print(t) == J.Encode(v) && T.WellFormed(t) && Dense(t)
                                && Denotes(t, sorted) && J.Same(sorted, v) && J.InOrder(sorted)
  {
    var sorted := J.Normal(v);
    J.NormalIsWellFormed(v);
    J.NormalIsFixed(v);
    J.NormalIsInOrder(v);
    NormalTextsValid(v);
    ConcretePrints(sorted);
    ConcreteDenotes(sorted);
    ConcreteIsDense(sorted);
    ConcreteIsWellFormed(sorted);
    assert T.Print(Concrete(sorted)) == J.Encode(v);
  }

  lemma {:induction false} NormalTextsValid(v: J.Json)
    requires TextsValid(v)
    ensures TextsValid(J.Normal(v))
    decreases v
  {
    match v
    case Array(items) =>
      forall i | 0 <= i < |items| ensures TextsValid(J.NormalItems(items)[i]) {
        NormalTextsValid(items[i]);
      }
    case Object(fields) =>
      var a := J.NormalFields(fields);
      forall p | p in a ensures ValidUtf8(p.key) && TextsValid(p.value) {
        var i :| 0 <= i < |a| && a[i] == p;
        NormalTextsValid(fields[i].value);
      }
      forall i | 0 <= i < |Sort(a)| ensures ValidUtf8(Sort(a)[i].key) && TextsValid(Sort(a)[i].value) {
        assert Sort(a)[i] in Sort(a);
      }
    case _ =>
  }
}
