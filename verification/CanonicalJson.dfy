/** The canonical JSON encoding. */
module CanonicalJson {
  // The canonical JSON encoding: sorted keys, no insignificant space, only the escapes that are
  // needed. Strings are their UTF-8 bytes and numbers are tokens.

  import opened ByteStrings
  import opened KeyOrder

  datatype Json =
    | Null
    | Bool(b: bool)
    | Number(token: Bytes)
    | String(text: Bytes)
    | Array(items: seq<Json>)
    | Object(fields: seq<Pair<Json>>)

  /** Bytes of a number token: digits, signs, point and exponent marks. */
  predicate NumberByte(b: byte) {
    48 <= b <= 57 || b == 43 || b == 45 || b == 46 || b == 69 || b == 101
  }

  predicate NumberToken(t: Bytes) {
    t != [] && forall i :: 0 <= i < |t| ==> NumberByte(t[i])
  }

  /** A JSON value: proper number tokens, and no key twice in one object. */
  predicate WellFormed(v: Json) {
    match v
    case Number(token) => NumberToken(token)
    case Array(items) => forall i :: 0 <= i < |items| ==> WellFormed(items[i])
    case Object(fields) => DistinctKeys(fields) && forall i :: 0 <= i < |fields| ==> WellFormed(fields[i].value)
    case _ => true
  }

  /** Equality of JSON values: an object is a mapping, whatever the order of its fields. */
  ghost predicate Same(v: Json, w: Json)
    decreases v
  {
    match v
    case Array(items) =>
      && w.Array? && |items| == |w.items|
      && forall i :: 0 <= i < |items| ==> Same(items[i], w.items[i])
    case Object(fields) =>
      && w.Object? && SameKeys(fields, w.fields)
      && forall i, j :: 0 <= i < |fields| && 0 <= j < |w.fields| && fields[i].key == w.fields[j].key ==>
           Same(fields[i].value, w.fields[j].value)
    case _ => v == w
  }

  ghost predicate HasKey(fields: seq<Pair<Json>>, key: Bytes) {
    exists j :: 0 <= j < |fields| && fields[j].key == key
  }

  ghost predicate SameKeys(f: seq<Pair<Json>>, g: seq<Pair<Json>>) {
    forall key :: HasKey(f, key) <==> HasKey(g, key)
  }

  // ---- text ----

  const HEX: seq<byte> := [48, 49, 50, 51, 52, 53, 54, 55, 56, 57, 97, 98, 99, 100, 101, 102]

  function Escape(b: byte): (r: Bytes)
    ensures r != []
  {
    if b == QUOTE || b == BACKSLASH then [BACKSLASH, b]
    else if b == 8 then [BACKSLASH, 98]
    else if b == 9 then [BACKSLASH, 116]
    else if b == 10 then [BACKSLASH, 110]
    else if b == 12 then [BACKSLASH, 102]
    else if b == 13 then [BACKSLASH, 114]
    else if b < 32 then [BACKSLASH, 117, 48, 48, HEX[b / 16], HEX[b % 16]]
    else [b]
  }

  function EscapeAll(text: Bytes): Bytes {
    if text == [] then [] else Escape(text[0]) + EscapeAll(text[1..])
  }

  function Quote(text: Bytes): Bytes {
    [QUOTE] + (EscapeAll(text) + [QUOTE])
  }

  const NULL: Bytes := [110, 117, 108, 108]
  const TRUE: Bytes := [116, 114, 117, 101]
  const FALSE: Bytes := [102, 97, 108, 115, 101]

  /** The text of a value with its fields in the order given. */
  function Print(v: Json): Bytes
    decreases v, 1
  {
    match v
    case Null => NULL
    case Bool(b) => if b then TRUE else FALSE
    case Number(token) => token
    case String(text) => Quote(text)
    case Array(items) => [OPEN_BRACKET] + (PrintItems(items, true) + [CLOSE_BRACKET])
    case Object(fields) => [OPEN_BRACE] + (PrintFields(fields, true) + [CLOSE_BRACE])
  }

  /** The items with a comma before each but the first of all. */
  function PrintItems(items: seq<Json>, first: bool): Bytes
    decreases items, 0
  {
    if items == [] then []
    else (if first then [] else [COMMA]) + (Print(items[0]) + PrintItems(items[1..], false))
  }

  function PrintFields(fields: seq<Pair<Json>>, first: bool): Bytes
    decreases fields, 0
  {
    if fields == [] then []
    else (if first then [] else [COMMA]) + (Quote(fields[0].key) + ([COLON] + (Print(fields[0].value) + PrintFields(fields[1..], false))))
  }

  /** The same value with the fields of every object sorted by key. */
  function Normal(v: Json): Json
    decreases v, 1
  {
    match v
    case Array(items) => Array(NormalItems(items))
    case Object(fields) => Object(Sort(NormalFields(fields)))
    case _ => v
  }

  function NormalItems(items: seq<Json>): (r: seq<Json>)
    ensures |r| == |items| && forall i :: 0 <= i < |items| ==> r[i] == Normal(items[i])
    decreases items, 0
  {
    if items == [] then [] else [Normal(items[0])] + NormalItems(items[1..])
  }

  function NormalFields(fields: seq<Pair<Json>>): (r: seq<Pair<Json>>)
    ensures |r| == |fields| && forall i :: 0 <= i < |fields| ==> r[i] == Pair(fields[i].key, Normal(fields[i].value))
    decreases fields, 0
  {
    if fields == [] then [] else [Pair(fields[0].key, Normal(fields[0].value))] + NormalFields(fields[1..])
  }

  /** Canonical bytes of a value. */
  function Encode(v: Json): Bytes {
    Print(Normal(v))
  }

  // ---- normal forms ----

  ghost predicate AgreeOnKeys(a: seq<Pair<Json>>, b: seq<Pair<Json>>) {
    forall i, j :: 0 <= i < |a| && 0 <= j < |b| && a[i].key == b[j].key ==> a[i].value == b[j].value
  }

  lemma AgreeingElements(a: seq<Pair<Json>>, b: seq<Pair<Json>>)
    requires SameKeys(a, b) && AgreeOnKeys(a, b)
    ensures forall p :: p in a ==> p in b
  {
    forall p | p in a ensures p in b {
      var i :| 0 <= i < |a| && a[i] == p;
      assert HasKey(a, p.key);
      var j :| 0 <= j < |b| && b[j].key == p.key;
      assert b[j] == p;
    }
  }

  lemma ElementsAgree(a: seq<Pair<Json>>, b: seq<Pair<Json>>)
    requires DistinctKeys(b) && forall p :: p in a ==> p in b
    ensures forall key :: HasKey(a, key) ==> HasKey(b, key)
    ensures AgreeOnKeys(a, b)
  {
    forall i | 0 <= i < |a| ensures HasKey(b, a[i].key) {
      assert a[i] in b;
    }
    forall i, j | 0 <= i < |a| && 0 <= j < |b| && a[i].key == b[j].key ensures a[i].value == b[j].value {
      assert a[i] in b;
      var k :| 0 <= k < |b| && b[k] == a[i];
    }
  }

  /** Two objects sort alike exactly when they hold the same keys with the same values. */
  lemma SortedAlike(a: seq<Pair<Json>>, b: seq<Pair<Json>>)
    requires DistinctKeys(a) && DistinctKeys(b)
    ensures Sort(a) == Sort(b) <==> SameKeys(a, b) && AgreeOnKeys(a, b)
  {
    if Sort(a) == Sort(b) {
      assert forall p :: p in a <==> p in Sort(b);
      ElementsAgree(a, b);
      ElementsAgree(b, a);
    }
    if SameKeys(a, b) && AgreeOnKeys(a, b) {
      AgreeingElements(a, b);
      AgreeingElements(b, a);
      SortIsUnique(a, b);
    }
  }

  lemma NormalKeys(fields: seq<Pair<Json>>)
    ensures SameKeys(NormalFields(fields), fields)
    ensures DistinctKeys(fields) ==> DistinctKeys(NormalFields(fields))
  {
    var a := NormalFields(fields);
    forall key ensures HasKey(a, key) <==> HasKey(fields, key) {
      if HasKey(a, key) {
        var i :| 0 <= i < |a| && a[i].key == key;
        assert fields[i].key == key;
      }
      if HasKey(fields, key) {
        var i :| 0 <= i < |fields| && fields[i].key == key;
        assert a[i].key == key;
      }
    }
  }

  /** Values are the same exactly when they have one normal form. */
  lemma {:induction false} SameNormal(v: Json, w: Json)
    requires WellFormed(v) && WellFormed(w)
    ensures Same(v, w) <==> Normal(v) == Normal(w)
    decreases v
  {
    match v
    case Array(items) =>
      if w.Array? && |items| == |w.items| {
        forall i | 0 <= i < |items| ensures Same(items[i], w.items[i]) <==> NormalItems(items)[i] == NormalItems(w.items)[i] {
          SameNormal(items[i], w.items[i]);
        }
      }
    case Object(fields) =>
      if w.Object? {
        var a, b := NormalFields(fields), NormalFields(w.fields);
        forall i, j | 0 <= i < |fields| && 0 <= j < |w.fields|
          ensures Same(fields[i].value, w.fields[j].value) <==> a[i].value == b[j].value
        {
          SameNormal(fields[i].value, w.fields[j].value);
        }
        NormalKeys(fields);
        NormalKeys(w.fields);
        SortedAlike(a, b);
      }
    case _ =>
  }

  lemma {:induction false} NormalIsWellFormed(v: Json)
    requires WellFormed(v)
    ensures WellFormed(Normal(v))
    decreases v
  {
    match v
    case Array(items) =>
      forall i | 0 <= i < |items| ensures WellFormed(NormalItems(items)[i]) {
        NormalIsWellFormed(items[i]);
      }
    case Object(fields) =>
      var a := NormalFields(fields);
      forall p | p in a ensures WellFormed(p.value) {
        var i :| 0 <= i < |a| && a[i] == p;
        NormalIsWellFormed(fields[i].value);
      }
      assert DistinctKeys(a);
      SortAscends(a);
      AscendingAreDistinct(Sort(a));
      forall i | 0 <= i < |Sort(a)| ensures WellFormed(Sort(a)[i].value) {
        assert Sort(a)[i] in Sort(a);
      }
    case _ =>
  }

  // ---- unique readability ----

  lemma EscapeIsPrefixFree(a: byte, b: byte, r: Bytes, s: Bytes)
    requires Escape(a) + r == Escape(b) + s
    ensures a == b && r == s
  {
    var x, y := Escape(a) + r, Escape(b) + s;
    assert x[0] == Escape(a)[0] && y[0] == Escape(b)[0];
    if x[0] == BACKSLASH {
      assert x[1] == Escape(a)[1] && y[1] == Escape(b)[1];
      if x[1] == 117 {
        assert x[4] == Escape(a)[4] && y[4] == Escape(b)[4];
        assert x[5] == Escape(a)[5] && y[5] == Escape(b)[5];
        HexDigits(a / 16, b / 16);
        HexDigits(a % 16, b % 16);
      }
    }
    assert a == b;
    assert r == x[|Escape(a)|..] && s == y[|Escape(b)|..];
  }

  lemma HexDigits(a: nat, b: nat)
    requires a < 16 && b < 16 && HEX[a] == HEX[b]
    ensures a == b
  {
  }

  lemma Cancel(p: Bytes, x: Bytes, y: Bytes)
    requires p + x == p + y
    ensures x == y
  {
    assert x == (p + x)[|p|..] && y == (p + y)[|p|..];
  }

  lemma CancelByte(a: byte, b: byte, x: Bytes, y: Bytes)
    requires [a] + x == [b] + y
    ensures a == b && x == y
  {
    assert a == ([a] + x)[0] && b == ([b] + y)[0];
    Cancel([a], x, y);
  }

  /** A quoted text and its continuation: the closing quote, or an escape and the rest. */
  lemma StringStart(a: Bytes, r: Bytes)
    requires a != []
    ensures EscapeAll(a) + ([QUOTE] + r) == Escape(a[0]) + (EscapeAll(a[1..]) + ([QUOTE] + r))
    ensures (EscapeAll(a) + ([QUOTE] + r))[0] != QUOTE
  {
    var rest := EscapeAll(a[1..]);
    assert (Escape(a[0]) + rest) + ([QUOTE] + r) == Escape(a[0]) + (rest + ([QUOTE] + r));
    assert (Escape(a[0]) + (rest + ([QUOTE] + r)))[0] == Escape(a[0])[0];
  }

  lemma StringEnd(r: Bytes)
    ensures EscapeAll([]) + ([QUOTE] + r) == [QUOTE] + r
    ensures ([QUOTE] + r)[0] == QUOTE
  {
  }

  lemma {:induction false} StringsAreReadable(a: Bytes, b: Bytes, r: Bytes, s: Bytes)
    requires EscapeAll(a) + ([QUOTE] + r) == EscapeAll(b) + ([QUOTE] + s)
    ensures a == b && r == s
  {
    StringEnd(r);
    StringEnd(s);
    if a != [] {
      StringStart(a, r);
    }
    if b != [] {
      StringStart(b, s);
    }
    if a == [] {
      CancelByte(QUOTE, QUOTE, r, s);
    } else {
      EscapeIsPrefixFree(a[0], b[0], EscapeAll(a[1..]) + ([QUOTE] + r), EscapeAll(b[1..]) + ([QUOTE] + s));
      StringsAreReadable(a[1..], b[1..], r, s);
      assert a == [a[0]] + a[1..] && b == [b[0]] + b[1..];
    }
  }

  lemma QuotesAreReadable(a: Bytes, b: Bytes, r: Bytes, s: Bytes)
    requires Quote(a) + r == Quote(b) + s
    ensures a == b && r == s
  {
    assert Quote(a) + r == [QUOTE] + (EscapeAll(a) + ([QUOTE] + r));
    assert Quote(b) + s == [QUOTE] + (EscapeAll(b) + ([QUOTE] + s));
    CancelByte(QUOTE, QUOTE, EscapeAll(a) + ([QUOTE] + r), EscapeAll(b) + ([QUOTE] + s));
    StringsAreReadable(a, b, r, s);
  }

  /** What may follow a value: nothing, or a byte that cannot continue a number. */
  predicate Delimited(r: Bytes) {
    r == [] || !NumberByte(r[0])
  }

  /** The longest prefix that could belong to a number. */
  function NumberPrefix(x: Bytes): Bytes {
    if x == [] || !NumberByte(x[0]) then [] else [x[0]] + NumberPrefix(x[1..])
  }

  lemma {:induction false} NumberPrefixIsToken(a: Bytes, r: Bytes)
    requires (forall i :: 0 <= i < |a| ==> NumberByte(a[i])) && Delimited(r)
    ensures NumberPrefix(a + r) == a
  {
    if a == [] {
      assert a + r == r;
    } else {
      assert (a + r)[1..] == a[1..] + r;
      NumberPrefixIsToken(a[1..], r);
    }
  }

  lemma NumbersAreReadable(a: Bytes, b: Bytes, r: Bytes, s: Bytes)
    requires (forall i :: 0 <= i < |a| ==> NumberByte(a[i])) && (forall i :: 0 <= i < |b| ==> NumberByte(b[i]))
    requires Delimited(r) && Delimited(s) && a + r == b + s
    ensures a == b && r == s
  {
    NumberPrefixIsToken(a, r);
    NumberPrefixIsToken(b, s);
    Cancel(a, r, s);
  }

  /** The first byte tells the kind of a value. */
  function KindOf(b: byte): nat {
    if b == 110 then 0 else if b == 116 then 1 else if b == 102 then 2 else if NumberByte(b) then 3
    else if b == QUOTE then 4 else if b == OPEN_BRACKET then 5 else 6
  }

  function Kind(v: Json): nat {
    match v
    case Null => 0
    case Bool(b) => if b then 1 else 2
    case Number(_) => 3
    case String(_) => 4
    case Array(_) => 5
    case Object(_) => 6
  }

  lemma FirstByte(v: Json, r: Bytes)
    requires WellFormed(v)
    ensures Print(v) + r != [] && KindOf((Print(v) + r)[0]) == Kind(v)
    ensures (Print(v) + r)[0] != CLOSE_BRACKET
  {
    assert Print(v) != [] && (Print(v) + r)[0] == Print(v)[0];
  }

  /** A text determines the value it starts with and what follows it. */
  lemma {:induction false} PrintIsReadable(v: Json, w: Json, r: Bytes, s: Bytes)
    requires WellFormed(v) && WellFormed(w) && Delimited(r) && Delimited(s)
    requires Print(v) + r == Print(w) + s
    ensures v == w && r == s
    decreases v, 1
  {
    FirstByte(v, r);
    FirstByte(w, s);
    match v
    case Number(token) => NumbersAreReadable(token, w.token, r, s);
    case String(text) => QuotesAreReadable(text, w.text, r, s);
    case Array(items) =>
      ArrayText(items, r);
      ArrayText(w.items, s);
      CancelByte(OPEN_BRACKET, OPEN_BRACKET, PrintItems(items, true) + ([CLOSE_BRACKET] + r), PrintItems(w.items, true) + ([CLOSE_BRACKET] + s));
      ItemsAreReadable(items, w.items, true, r, s);
    case Object(fields) =>
      ObjectText(fields, r);
      ObjectText(w.fields, s);
      CancelByte(OPEN_BRACE, OPEN_BRACE, PrintFields(fields, true) + ([CLOSE_BRACE] + r), PrintFields(w.fields, true) + ([CLOSE_BRACE] + s));
      FieldsAreReadable(fields, w.fields, true, r, s);
    case _ => Cancel(Print(v), r, s);
  }

  lemma ArrayText(items: seq<Json>, r: Bytes)
    ensures Print(Array(items)) + r == [OPEN_BRACKET] + (PrintItems(items, true) + ([CLOSE_BRACKET] + r))
  {
  }

  lemma ObjectText(fields: seq<Pair<Json>>, r: Bytes)
    ensures Print(Object(fields)) + r == [OPEN_BRACE] + (PrintFields(fields, true) + ([CLOSE_BRACE] + r))
  {
  }

  /** The items and their end: the closing bracket, or an item and the rest. */
  lemma ItemsText(a: seq<Json>, first: bool, r: Bytes)
    requires forall i :: 0 <= i < |a| ==> WellFormed(a[i])
    ensures var x := PrintItems(a, first) + ([CLOSE_BRACKET] + r);
            && (a == [] ==> x == [CLOSE_BRACKET] + r)
            && (a != [] ==> x == (if first then [] else [COMMA]) + (Print(a[0]) + (PrintItems(a[1..], false) + ([CLOSE_BRACKET] + r))))
            && (x[0] == CLOSE_BRACKET <==> a == [])
            && (!first ==> Delimited(x))
  {
    var tail := PrintItems(a[if a == [] then 0 else 1..], false) + ([CLOSE_BRACKET] + r);
    if a != [] {
      FirstByte(a[0], tail);
      assert [] + (Print(a[0]) + tail) == Print(a[0]) + tail;
      assert ([COMMA] + (Print(a[0]) + tail))[0] == COMMA;
    }
  }

  lemma {:induction false} ItemsAreReadable(a: seq<Json>, b: seq<Json>, first: bool, r: Bytes, s: Bytes)
    requires forall i :: 0 <= i < |a| ==> WellFormed(a[i])
    requires forall i :: 0 <= i < |b| ==> WellFormed(b[i])
    requires PrintItems(a, first) + ([CLOSE_BRACKET] + r) == PrintItems(b, first) + ([CLOSE_BRACKET] + s)
    ensures a == b && r == s
    decreases a, 0
  {
    ItemsText(a, first, r);
    ItemsText(b, first, s);
    if a == [] {
      CancelByte(CLOSE_BRACKET, CLOSE_BRACKET, r, s);
    } else {
      var x, y := PrintItems(a[1..], false) + ([CLOSE_BRACKET] + r), PrintItems(b[1..], false) + ([CLOSE_BRACKET] + s);
      ItemsText(a[1..], false, r);
      ItemsText(b[1..], false, s);
      Cancel(if first then [] else [COMMA], Print(a[0]) + x, Print(b[0]) + y);
      PrintIsReadable(a[0], b[0], x, y);
      ItemsAreReadable(a[1..], b[1..], false, r, s);
      assert a == [a[0]] + a[1..] && b == [b[0]] + b[1..];
    }
  }

  /** A field, the rest of the fields and their end. */
  lemma FieldsText(a: seq<Pair<Json>>, first: bool, r: Bytes)
    requires a != []
    ensures PrintFields(a, first) + ([CLOSE_BRACE] + r) ==
            (if first then [] else [COMMA]) +
            (Quote(a[0].key) + ([COLON] + (Print(a[0].value) + (PrintFields(a[1..], false) + ([CLOSE_BRACE] + r)))))
  {
    var mark, key, value, rest := (if first then [] else [COMMA]), Quote(a[0].key), Print(a[0].value), PrintFields(a[1..], false);
    Regroup(mark, key, value, rest, [CLOSE_BRACE] + r);
  }

  lemma Regroup(mark: Bytes, key: Bytes, value: Bytes, rest: Bytes, tail: Bytes)
    ensures (mark + (key + ([COLON] + (value + rest)))) + tail == mark + (key + ([COLON] + (value + (rest + tail))))
  {
  }

  lemma FieldsEnd(a: seq<Pair<Json>>, first: bool, r: Bytes)
    ensures var x := PrintFields(a, first) + ([CLOSE_BRACE] + r);
            && (a == [] ==> x == [CLOSE_BRACE] + r)
            && (x[0] == CLOSE_BRACE <==> a == [])
            && (!first ==> Delimited(x))
  {
    if a != [] {
      FieldsText(a, first, r);
      var text := Quote(a[0].key) + ([COLON] + (Print(a[0].value) + (PrintFields(a[1..], false) + ([CLOSE_BRACE] + r))));
      FieldsHead(text, first);
    }
  }

  lemma FieldsHead(text: Bytes, first: bool)
    requires text != [] && text[0] == QUOTE
    ensures ((if first then [] else [COMMA]) + text)[0] == if first then QUOTE else COMMA
  {
  }

  lemma {:induction false} FieldsAreReadable(a: seq<Pair<Json>>, b: seq<Pair<Json>>, first: bool, r: Bytes, s: Bytes)
    requires forall i :: 0 <= i < |a| ==> WellFormed(a[i].value)
    requires forall i :: 0 <= i < |b| ==> WellFormed(b[i].value)
    requires PrintFields(a, first) + ([CLOSE_BRACE] + r) == PrintFields(b, first) + ([CLOSE_BRACE] + s)
    ensures a == b && r == s
    decreases a, 0
  {
    FieldsEnd(a, first, r);
    FieldsEnd(b, first, s);
    if a == [] {
      CancelByte(CLOSE_BRACE, CLOSE_BRACE, r, s);
    } else {
      var x, y := PrintFields(a[1..], false) + ([CLOSE_BRACE] + r), PrintFields(b[1..], false) + ([CLOSE_BRACE] + s);
      var u, w := Print(a[0].value) + x, Print(b[0].value) + y;
      FieldsText(a, first, r);
      FieldsText(b, first, s);
      FieldsEnd(a[1..], false, r);
      FieldsEnd(b[1..], false, s);
      Cancel(if first then [] else [COMMA], Quote(a[0].key) + ([COLON] + u), Quote(b[0].key) + ([COLON] + w));
      QuotesAreReadable(a[0].key, b[0].key, [COLON] + u, [COLON] + w);
      CancelByte(COLON, COLON, u, w);
      PrintIsReadable(a[0].value, b[0].value, x, y);
      FieldsAreReadable(a[1..], b[1..], false, r, s);
      assert a == [a[0]] + a[1..] && b == [b[0]] + b[1..];
    }
  }

  // ---- main results ----

  /**
   The canonical bytes are a complete invariant: two values have the same bytes exactly when they
   are the same JSON value. In one direction the order of fields does not show; in the other no
   two different values collide.
   */
  lemma EncodeIsCanonical(v: Json, w: Json)
    requires WellFormed(v) && WellFormed(w)
    ensures Encode(v) == Encode(w) <==> Same(v, w)
  {
    SameNormal(v, w);
    NormalIsWellFormed(v);
    NormalIsWellFormed(w);
    if Encode(v) == Encode(w) {
      assert Print(Normal(v)) + [] == Print(Normal(w)) + [];
      PrintIsReadable(Normal(v), Normal(w), [], []);
    }
  }

  /** Normalising is idempotent, so a normal form is already in canonical order. */
  lemma NormalIsFixed(v: Json)
    requires WellFormed(v)
    ensures Normal(Normal(v)) == Normal(v) && Same(Normal(v), v) && Encode(Normal(v)) == Encode(v)
  {
    NormalIsWellFormed(v);
    NormalTwice(v);
    SameNormal(Normal(v), v);
  }

  lemma {:induction false} NormalTwice(v: Json)
    requires WellFormed(v)
    ensures Normal(Normal(v)) == Normal(v)
    decreases v
  {
    match v
    case Array(items) =>
      forall i | 0 <= i < |items| ensures Normal(NormalItems(items)[i]) == NormalItems(items)[i] {
        NormalTwice(items[i]);
      }
      assert NormalItems(NormalItems(items)) == NormalItems(items);
    case Object(fields) =>
      var a := NormalFields(fields);
      var sorted := Sort(a);
      assert DistinctKeys(a);
      SortAscends(a);
      forall i | 0 <= i < |sorted| ensures Normal(sorted[i].value) == sorted[i].value {
        assert sorted[i] in sorted && sorted[i] in a;
        var j :| 0 <= j < |a| && a[j] == sorted[i];
        NormalTwice(fields[j].value);
      }
      assert NormalFields(sorted) == sorted;
      AscendingAreDistinct(sorted);
      SortAscends(sorted);
      AscendingIsUnique(Sort(sorted), sorted);
    case _ =>
  }

  // ---- the order of printed fields ----

  /** In every object each key comes before the next ones, byte by byte. */
  ghost predicate InOrder(v: Json) {
    match v
    case Array(items) => forall i :: 0 <= i < |items| ==> InOrder(items[i])
    case Object(fields) =>
      && (forall i, j :: 0 <= i < j < |fields| ==> ByteLess(fields[i].key, fields[j].key))
      && forall i :: 0 <= i < |fields| ==> InOrder(fields[i].value)
    case _ => true
  }

  /** What is printed is the same value with its fields in order. */
  lemma {:induction false} NormalIsInOrder(v: Json)
    requires WellFormed(v)
    ensures InOrder(Normal(v))
    decreases v
  {
    hide ByteLess;
    match v
    case Array(items) =>
      forall i | 0 <= i < |items| ensures InOrder(NormalItems(items)[i]) {
        NormalIsInOrder(items[i]);
      }
    case Object(fields) =>
      var a := NormalFields(fields);
      NormalKeys(fields);
      SortAscends(a);
      var sorted := Sort(a);
      forall i, j | 0 <= i < j < |sorted| ensures ByteLess(sorted[i].key, sorted[j].key) {
        BeforeIs(sorted[i].key, sorted[j].key);
      }
      forall i | 0 <= i < |sorted| ensures InOrder(sorted[i].value) {
        assert sorted[i] in sorted;
        var k :| 0 <= k < |a| && a[k] == sorted[i];
        NormalIsInOrder(fields[k].value);
      }
    case _ =>
  }
}
