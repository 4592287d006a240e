/** The depth-one scanner against the JSON tree, and against the frame-stack scanner. */
module DecapsProof {
  import opened ByteStrings
  import opened JsonText
  import opened ScenarioMachine
  import ScenarioProof
  import opened DecapsMachine

  /** The document holds one top-level decaps array of objects, within the limit. */
  predicate DecapsHeld(decode: Decoder, root: Value) {
    && root.Object?
    && var found := ValuesAt(root.members, DECAPS);
    && |found| == 1 && DecapsAdmissible(decode, found[0])
  }

  predicate DecapsAdmissible(decode: Decoder, v: Value) {
    v.Array? && |Print(v)| <= DECAPS_LIMIT && decode(Print(v)) == DecodedList(true)
  }

  // ---- tokens outside a capture ----

  predicate Idle(s: Scan) {
    s.captureStack.None? && !s.awaiting && !s.quoted && !s.escaped && s.token == []
  }

  lemma {:induction false} AdvanceSpace(decode: Decoder, s: Scan, w: Bytes)
    requires Idle(s) && AllSpace(w)
    ensures Advance(decode, Going(s), w) == Going(s)
  {
    if w != [] {
      AdvanceSpace(decode, s, w[1..]);
    }
  }

  lemma {:induction false} AdvanceScalar(decode: Decoder, s: Scan, w: Bytes)
    requires Idle(s) && w != [] && forall i :: 0 <= i < |w| ==> ScalarByte(w[i])
    ensures Advance(decode, Going(s), w) == Going(s.(lastString := None))
    decreases |w|
  {
    assert Next(decode, s, w[0]) == Going(s.(lastString := None));
    if |w| > 1 {
      AdvanceScalar(decode, s.(lastString := None), w[1..]);
    }
  }

  lemma {:induction false} AdvanceStringBody(decode: Decoder, s: Scan, body: Bytes)
    requires Idle(s.(quoted := false, token := [])) && s.quoted && StringBody(body)
    ensures Advance(decode, Going(s), body) == Going(s.(token := s.token + KeyToken(body)))
    decreases |body|
  {
    if body == [] {
      assert s.token + KeyToken(body) == s.token;
    } else if body[0] == BACKSLASH {
      var t := s.(escaped := true);
      assert body == [body[0]] + ([body[1]] + body[2..]);
      AdvanceCons(decode, s, body[0], [body[1]] + body[2..]);
      AdvanceCons(decode, t, body[1], body[2..]);
      AdvanceStringBody(decode, s, body[2..]);
    } else {
      var t := s.(token := s.token + [body[0]]);
      assert Next(decode, s, body[0]) == Going(t);
      AdvanceStringBody(decode, t, body[1..]);
      assert t.token + KeyToken(body[1..]) == s.token + KeyToken(body);
    }
  }

  lemma AdvanceString(decode: Decoder, s: Scan, body: Bytes)
    requires Idle(s) && WellFormedString(body)
    ensures Advance(decode, Going(s), Quoted(body)) == Going(s.(lastString := Some(KeyToken(body))))
  {
    var inside := s.(quoted := true, token := []);
    var full := inside.(token := KeyToken(body));
    AdvanceStringBody(decode, inside, body);
    assert inside.token + KeyToken(body) == KeyToken(body);
    AdvanceCons(decode, s, QUOTE, body + [QUOTE]);
    AdvanceConcat(decode, Going(inside), body, [QUOTE]);
    AdvanceOne(decode, full, QUOTE);
  }

  // ---- values that are passed over ----

  function LastAfter(v: Value): Option<Bytes> {
    if v.Text? then Some(KeyToken(v.body)) else None
  }

  /** Space, a token run, space, and what follows. */
  lemma AdvanceEntry(decode: Decoder, s: Scan, before: Bytes, text: Bytes, after: Bytes, rest: Bytes, t: Scan)
    requires Idle(s) && Idle(t) && AllSpace(before) && AllSpace(after)
    requires Advance(decode, Going(s), text) == Going(t)
    ensures Advance(decode, Going(s), before + (text + (after + rest))) == Advance(decode, Going(t), rest)
  {
    AdvanceSpace(decode, s, before);
    AdvanceSpace(decode, t, after);
    AdvanceConcat(decode, Going(s), before, text + (after + rest));
    AdvanceConcat(decode, Going(s), text, after + rest);
    AdvanceConcat(decode, Going(t), after, rest);
  }

  lemma AdvanceContainer(decode: Decoder, s: Scan, opening: byte, pad: Bytes, body: Bytes, closing: byte, last: Option<Bytes>)
    requires Idle(s) && AllSpace(pad)
    requires opening == OPEN_BRACKET || opening == OPEN_BRACE
    requires closing == CLOSE_BRACKET || closing == CLOSE_BRACE
    requires var inner := s.(stack := s.stack + [opening], lastString := None);
             Advance(decode, Going(inner), body) == Going(inner.(lastString := last))
    ensures Advance(decode, Going(s), [opening] + (pad + (body + [closing]))) == Going(s.(lastString := None))
  {
    var inner := s.(stack := s.stack + [opening], lastString := None);
    var done := inner.(lastString := last);
    AdvanceConcat(decode, Going(s), [opening], pad + (body + [closing]));
    AdvanceOne(decode, s, opening);
    AdvanceSpace(decode, inner, pad);
    AdvanceConcat(decode, Going(inner), pad, body + [closing]);
    AdvanceConcat(decode, Going(inner), body, [closing]);
    AdvanceOne(decode, done, closing);
    assert done.stack[..|done.stack| - 1] == s.stack;
  }

  lemma {:induction false} PassValue(decode: Decoder, s: Scan, v: Value)
    requires Idle(s) && |s.stack| >= 1 && WellFormed(v)
    ensures Advance(decode, Going(s), Print(v)) == Going(s.(lastString := LastAfter(v)))
    decreases v
  {
    match v
    case Scalar(text) => AdvanceScalar(decode, s, text);
    case Text(body) => AdvanceString(decode, s, body);
    case Array(pad, items) =>
      var inner := s.(stack := s.stack + [OPEN_BRACKET], lastString := None);
      var last := PassItems(decode, inner, items);
      AdvanceContainer(decode, s, OPEN_BRACKET, pad, PrintItems(items), CLOSE_BRACKET, last);
    case Object(pad, members) =>
      var inner := s.(stack := s.stack + [OPEN_BRACE], lastString := None);
      var last := PassMembers(decode, inner, members);
      AdvanceContainer(decode, s, OPEN_BRACE, pad, PrintMembers(members), CLOSE_BRACE, last);
  }

  lemma AdvanceComma(decode: Decoder, s: Scan, rest: Bytes)
    requires Idle(s)
    ensures Advance(decode, Going(s), [COMMA] + rest) == Advance(decode, Going(s.(lastString := None)), rest)
  {
    AdvanceConcat(decode, Going(s), [COMMA], rest);
    AdvanceOne(decode, s, COMMA);
  }

  lemma {:induction false} PassItems(decode: Decoder, s: Scan, items: Items) returns (last: Option<Bytes>)
    requires Idle(s) && |s.stack| >= 1 && s.lastString.None? && WellFormedItems(items)
    ensures Advance(decode, Going(s), PrintItems(items)) == Going(s.(lastString := last))
    decreases items
  {
    match items
    case NoItems => last := None;
    case Item(before, value, after, rest) =>
      PassValue(decode, s, value);
      var t := s.(lastString := LastAfter(value));
      if rest.NoItems? {
        AdvanceEntry(decode, s, before, Print(value), after, [], t);
        last := LastAfter(value);
      } else {
        AdvanceEntry(decode, s, before, Print(value), after, [COMMA] + PrintItems(rest), t);
        AdvanceComma(decode, t, PrintItems(rest));
        last := PassItems(decode, s, rest);
      }
  }

  /** A key up to its colon. */
  lemma AdvanceKey(decode: Decoder, s: Scan, members: Members, rest: Bytes)
    requires Idle(s) && members.Member? && WellFormedMembers(members)
    ensures Advance(decode, Going(s), ScenarioProof.MemberHead(members) + ([COLON] + rest)) ==
            Advance(decode, Next(decode, s.(lastString := Some(KeyToken(members.key))), COLON), rest)
  {
    var t := s.(lastString := Some(KeyToken(members.key)));
    AdvanceString(decode, s, members.key);
    AdvanceEntry(decode, s, members.before, Quoted(members.key), members.mid, [COLON] + rest, t);
    assert ScenarioProof.MemberHead(members) + ([COLON] + rest) ==
           members.before + (Quoted(members.key) + (members.mid + ([COLON] + rest)));
    AdvanceConcat(decode, Going(t), [COLON], rest);
    AdvanceOne(decode, t, COLON);
  }

  /** A member that is not a top-level decaps key. */
  lemma PassMember(decode: Decoder, s: Scan, members: Members, more: Bytes)
    requires Idle(s) && |s.stack| >= 1 && members.Member? && WellFormedMembers(members)
    requires |s.stack| > 1 || KeyToken(members.key) != DECAPS
    ensures Advance(decode, Going(s), ScenarioProof.MemberHead(members) + ([COLON] + (members.gap + (Print(members.value) + (members.after + more))))) ==
            Advance(decode, Going(s.(lastString := LastAfter(members.value))), more)
    decreases members, 0
  {
    AdvanceKey(decode, s, members, members.gap + (Print(members.value) + (members.after + more)));
    var ready := s.(lastString := None);
    assert Next(decode, s.(lastString := Some(KeyToken(members.key))), COLON) == Going(ready);
    PassValue(decode, ready, members.value);
    AdvanceEntry(decode, ready, members.gap, Print(members.value), members.after, more, s.(lastString := LastAfter(members.value)));
  }

  lemma {:induction false} PassMembers(decode: Decoder, s: Scan, members: Members) returns (last: Option<Bytes>)
    requires Idle(s) && |s.stack| > 1 && s.lastString.None? && WellFormedMembers(members)
    ensures Advance(decode, Going(s), PrintMembers(members)) == Going(s.(lastString := last))
    decreases members, 1
  {
    match members
    case NoMembers => last := None;
    case Member(before, key, mid, gap, value, after, rest) =>
      if rest.NoMembers? {
        PassMember(decode, s, members, []);
        last := LastAfter(value);
      } else {
        PassMember(decode, s, members, [COMMA] + PrintMembers(rest));
        AdvanceComma(decode, s.(lastString := LastAfter(value)), PrintMembers(rest));
        last := PassMembers(decode, s, rest);
      }
  }

  // ---- the captured array ----

  predicate InCapture(s: Scan) {
    s.captureStack.Some? && s.captureStack.value != [] && !s.quoted && !s.escaped
  }

  /**
   Some captured bytes later: they are appended, or the limit was passed. Bytes inside a string do
   not meet the size test, so passing the limit need not be noticed at once.
   */
  predicate Appends(s: Scan, more: Bytes, p: Progress) {
    p == Going(s.(text := s.text + more)) || (p.Broken? && |s.text| + |more| > DECAPS_LIMIT)
  }

  lemma AppendBoth(decode: Decoder, s: Scan, a: Bytes, b: Bytes)
    requires InCapture(s) && Appends(s, a, Advance(decode, Going(s), a))
    requires var t := s.(text := s.text + a); Appends(t, b, Advance(decode, Going(t), b))
    ensures Appends(s, a + b, Advance(decode, Going(s), a + b))
  {
    AdvanceConcat(decode, Going(s), a, b);
    assert (s.text + a) + b == s.text + (a + b);
  }

  lemma {:induction false} AppendPlain(decode: Decoder, s: Scan, w: Bytes)
    requires InCapture(s) && forall i :: 0 <= i < |w| ==> ScenarioProof.Plain(w[i])
    ensures Appends(s, w, Advance(decode, Going(s), w))
    decreases |w|
  {
    if w == [] {
      assert s.text + w == s.text;
    } else {
      AdvanceOne(decode, s, w[0]);
      AppendPlain(decode, s.(text := s.text + [w[0]]), w[1..]);
      AppendBoth(decode, s, [w[0]], w[1..]);
      assert w == [w[0]] + w[1..];
    }
  }

  lemma {:induction false} AppendStringBody(decode: Decoder, s: Scan, body: Bytes)
    requires InCapture(s.(quoted := false)) && s.quoted && StringBody(body)
    ensures Advance(decode, Going(s), body) == Going(s.(text := s.text + body))
    decreases |body|
  {
    if body == [] {
      assert s.text + body == s.text;
    } else if body[0] == BACKSLASH {
      var t := s.(escaped := true, text := s.text + [body[0]]);
      var u := s.(text := (s.text + [body[0]]) + [body[1]]);
      assert body == [body[0]] + ([body[1]] + body[2..]);
      AdvanceCons(decode, s, body[0], [body[1]] + body[2..]);
      AdvanceCons(decode, t, body[1], body[2..]);
      AppendStringBody(decode, u, body[2..]);
      ScenarioProof.Join(s.text, [body[0]], [body[1]], body[2..]);
    } else {
      var t := s.(text := s.text + [body[0]]);
      assert Next(decode, s, body[0]) == Going(t);
      AppendStringBody(decode, t, body[1..]);
      assert t.text + body[1..] == s.text + body;
    }
  }

  lemma AppendString(decode: Decoder, s: Scan, body: Bytes)
    requires InCapture(s) && StringBody(body)
    ensures Appends(s, Quoted(body), Advance(decode, Going(s), Quoted(body)))
  {
    var inside := s.(quoted := true, text := s.text + [QUOTE]);
    AdvanceCons(decode, s, QUOTE, body + [QUOTE]);
    AppendStringBody(decode, inside, body);
    AdvanceConcat(decode, Going(inside), body, [QUOTE]);
    AdvanceOne(decode, inside.(text := inside.text + body), QUOTE);
    ScenarioProof.Join(s.text, [QUOTE], body, [QUOTE]);
  }

  /** The closing bracket of a nested container. */
  lemma AppendClose(decode: Decoder, s: Scan, opening: byte, closing: byte, u: Scan)
    requires InCapture(s) && Closes(opening, closing)
    requires u == s.(text := u.text, captureStack := Some(s.captureStack.value + [opening]))
    ensures Advance(decode, Going(u), [closing]) == Bounded(s.(text := u.text + [closing]))
  {
    AdvanceOne(decode, u, closing);
    assert u.captureStack.value[..|u.captureStack.value| - 1] == s.captureStack.value;
  }

  /** The capture once a nested opening bracket has been appended and pushed. */
  function Deeper(s: Scan, opening: byte): Scan
    requires s.captureStack.Some?
  {
    s.(text := s.text + [opening], captureStack := Some(s.captureStack.value + [opening]))
  }

  lemma AppendOpen(decode: Decoder, s: Scan, opening: byte, rest: Bytes)
    requires InCapture(s) && (opening == OPEN_BRACKET || opening == OPEN_BRACE)
    ensures Advance(decode, Going(s), [opening] + rest) == Advance(decode, Bounded(Deeper(s, opening)), rest)
  {
    AdvanceConcat(decode, Going(s), [opening], rest);
    AdvanceOne(decode, s, opening);
  }

  lemma AppendNested(decode: Decoder, s: Scan, opening: byte, body: Bytes, closing: byte)
    requires InCapture(s) && Closes(opening, closing)
    requires Appends(Deeper(s, opening), body, Advance(decode, Going(Deeper(s, opening)), body))
    ensures Appends(s, [opening] + (body + [closing]), Advance(decode, Going(s), [opening] + (body + [closing])))
  {
    var t := Deeper(s, opening);
    AppendOpen(decode, s, opening, body + [closing]);
    if Bounded(t).Going? && Advance(decode, Going(t), body).Going? {
      AppendClose(decode, s, opening, closing, t.(text := t.text + body));
      assert (t.text + body) + [closing] == s.text + ([opening] + (body + [closing]));
    }
    AdvanceConcat(decode, Going(t), body, [closing]);
  }

  lemma {:induction false} AppendValue(decode: Decoder, s: Scan, v: Value)
    requires InCapture(s) && WellFormed(v)
    ensures Appends(s, Print(v), Advance(decode, Going(s), Print(v)))
    decreases v, 1
  {
    match v
    case Scalar(text) => AppendPlain(decode, s, text);
    case Text(body) => AppendString(decode, s, body);
    case _ =>
      var opening, closing := if v.Array? then OPEN_BRACKET else OPEN_BRACE, if v.Array? then CLOSE_BRACKET else CLOSE_BRACE;
      AppendContents(decode, Deeper(s, opening), v);
      AppendNested(decode, s, opening, ScenarioProof.Contents(v), closing);
      assert Print(v) == [opening] + (ScenarioProof.Contents(v) + [closing]);
  }

  lemma {:induction false} AppendContents(decode: Decoder, s: Scan, v: Value)
    requires InCapture(s) && (v.Array? || v.Object?) && WellFormed(v)
    ensures Appends(s, ScenarioProof.Contents(v), Advance(decode, Going(s), ScenarioProof.Contents(v)))
    decreases v, 0
  {
    AppendPlain(decode, s, v.pad);
    var t := s.(text := s.text + v.pad);
    if v.Array? {
      AppendItems(decode, t, v.items);
      AppendBoth(decode, s, v.pad, PrintItems(v.items));
    } else {
      AppendMembers(decode, t, v.members);
      AppendBoth(decode, s, v.pad, PrintMembers(v.members));
    }
  }

  /** Space, a text, space, and what follows. */
  lemma AppendEntry(decode: Decoder, s: Scan, before: Bytes, text: Bytes, after: Bytes, rest: Bytes)
    requires InCapture(s) && AllSpace(before) && AllSpace(after)
    requires forall t :: InCapture(t) ==> Appends(t, text, Advance(decode, Going(t), text))
    requires forall t :: InCapture(t) ==> Appends(t, rest, Advance(decode, Going(t), rest))
    ensures Appends(s, before + (text + (after + rest)), Advance(decode, Going(s), before + (text + (after + rest))))
  {
    var t := s.(text := s.text + before);
    var u := t.(text := t.text + text);
    AppendPlain(decode, s, before);
    AppendPlain(decode, u, after);
    AppendBoth(decode, u, after, rest);
    AppendBoth(decode, t, text, after + rest);
    AppendBoth(decode, s, before, text + (after + rest));
  }

  lemma {:induction false} AppendItems(decode: Decoder, s: Scan, items: Items)
    requires InCapture(s) && WellFormedItems(items)
    ensures Appends(s, PrintItems(items), Advance(decode, Going(s), PrintItems(items)))
    decreases items, 0
  {
    match items
    case NoItems => AppendPlain(decode, s, []);
    case Item(before, value, after, rest) =>
      var more := if rest.NoItems? then [] else [COMMA] + PrintItems(rest);
      forall t | InCapture(t) ensures Appends(t, Print(value), Advance(decode, Going(t), Print(value))) {
        AppendValue(decode, t, value);
      }
      forall t | InCapture(t) ensures Appends(t, more, Advance(decode, Going(t), more)) {
        if rest.NoItems? {
          AppendPlain(decode, t, []);
        } else {
          AppendPlain(decode, t, [COMMA]);
          AppendItems(decode, t.(text := t.text + [COMMA]), rest);
          AppendBoth(decode, t, [COMMA], PrintItems(rest));
        }
      }
      AppendEntry(decode, s, before, Print(value), after, more);
  }

  lemma {:induction false} AppendMembers(decode: Decoder, s: Scan, members: Members)
    requires InCapture(s) && WellFormedMembers(members)
    ensures Appends(s, PrintMembers(members), Advance(decode, Going(s), PrintMembers(members)))
    decreases members, 0
  {
    match members
    case NoMembers => AppendPlain(decode, s, []);
    case Member(before, key, mid, gap, value, after, rest) =>
      var more := if rest.NoMembers? then [] else [COMMA] + PrintMembers(rest);
      forall t | InCapture(t) ensures Appends(t, Print(value), Advance(decode, Going(t), Print(value))) {
        AppendValue(decode, t, value);
      }
      forall t | InCapture(t) ensures Appends(t, more, Advance(decode, Going(t), more)) {
        if rest.NoMembers? {
          AppendPlain(decode, t, []);
        } else {
          AppendPlain(decode, t, [COMMA]);
          AppendMembers(decode, t.(text := t.text + [COMMA]), rest);
          AppendBoth(decode, t, [COMMA], PrintMembers(rest));
        }
      }
      var tail := gap + (Print(value) + (after + more));
      forall t | InCapture(t) ensures Appends(t, [COLON] + tail, Advance(decode, Going(t), [COLON] + tail)) {
        AppendPlain(decode, t, [COLON]);
        AppendEntry(decode, t.(text := t.text + [COLON]), gap, Print(value), after, more);
        AppendBoth(decode, t, [COLON], tail);
      }
      forall t | InCapture(t) ensures Appends(t, Quoted(key), Advance(decode, Going(t), Quoted(key))) {
        AppendString(decode, t, key);
      }
      AppendEntry(decode, s, before, Quoted(key), mid, [COLON] + tail);
      assert before + (Quoted(key) + (mid + ([COLON] + tail))) == (before + (Quoted(key) + mid)) + ([COLON] + tail);
  }

  /** The value after a top-level decaps colon. */
  lemma DecapsValue(decode: Decoder, s: Scan, v: Value, rest: Bytes)
    requires s.awaiting && Idle(s.(awaiting := false)) && WellFormed(v)
    ensures Advance(decode, Going(s), Print(v) + rest) ==
            if DecapsAdmissible(decode, v)
            then Advance(decode, Going(s.(awaiting := false, text := Print(v), decoded := Some(Print(v)))), rest)
            else Broken
  {
    AdvanceConcat(decode, Going(s), Print(v), rest);
    if v.Array? {
      var t := s.(captureStack := Some([OPEN_BRACKET]), text := [OPEN_BRACKET], awaiting := false);
      var body := ScenarioProof.Contents(v);
      assert Print(v) == [OPEN_BRACKET] + (body + [CLOSE_BRACKET]);
      AdvanceConcat(decode, Going(s), [OPEN_BRACKET], body + [CLOSE_BRACKET]);
      AdvanceOne(decode, s, OPEN_BRACKET);
      AppendContents(decode, t, v);
      AdvanceConcat(decode, Going(t), body, [CLOSE_BRACKET]);
      AdvanceOne(decode, t.(text := t.text + body), CLOSE_BRACKET);
      assert (t.text + body) + [CLOSE_BRACKET] == Print(v);
    } else {
      var b := Print(v)[0];
      assert Print(v) == [b] + Print(v)[1..];
      AdvanceConcat(decode, Going(s), [b], Print(v)[1..]);
      AdvanceOne(decode, s, b);
    }
  }

  // ---- the root object's members ----

  /** The decoded array after the members, or None on an error. */
  function Collect(decode: Decoder, members: Members, decoded: Option<Bytes>): Option<Option<Bytes>> {
    match members
    case NoMembers => Some(decoded)
    case Member(_, key, _, _, value, _, rest) =>
      if KeyToken(key) != DECAPS then Collect(decode, rest, decoded)
      else if decoded.Some? || !DecapsAdmissible(decode, value) then None
      else Collect(decode, rest, Some(Print(value)))
  }

  lemma {:induction false} CollectMembers(decode: Decoder, s: Scan, members: Members, tail: Bytes) returns (last: Scan)
    requires Idle(s) && |s.stack| == 1 && s.lastString.None? && WellFormedMembers(members)
    ensures var c := Collect(decode, members, s.decoded);
            Advance(decode, Going(s), PrintMembers(members) + tail) == if c.None? then Broken else Advance(decode, Going(last), tail)
    ensures var c := Collect(decode, members, s.decoded);
            c.Some? ==> Idle(last) && last.stack == s.stack && last.decoded == c.value
    decreases members
  {
    last := s;
    match members
    case NoMembers => assert PrintMembers(members) + tail == tail;
    case Member(before, key, mid, gap, value, after, rest) =>
      var more := ScenarioProof.More(members, tail);
      ScenarioProof.MembersText(members, tail);
      var t := s;
      if KeyToken(key) != DECAPS {
        PassMember(decode, s, members, more);
        t := s.(lastString := LastAfter(value));
      } else {
        AdvanceKey(decode, s, members, gap + (Print(value) + (after + more)));
        if s.decoded.None? {
          DecapsMember(decode, s.(awaiting := true), members, more);
          t := s.(text := Print(value), decoded := Some(Print(value)));
        }
      }
      if KeyToken(key) != DECAPS || (s.decoded.None? && DecapsAdmissible(decode, value)) {
        if rest.NoMembers? {
          assert more == tail;
          last := t;
        } else {
          assert more == [COMMA] + (PrintMembers(rest) + tail);
          AdvanceComma(decode, t, PrintMembers(rest) + tail);
          last := CollectMembers(decode, t.(lastString := None), rest, tail);
        }
      }
  }

  lemma {:induction false} AwaitSpace(decode: Decoder, s: Scan, w: Bytes)
    requires s.awaiting && s.captureStack.None? && AllSpace(w)
    ensures Advance(decode, Going(s), w) == Going(s)
  {
    if w != [] {
      AwaitSpace(decode, s, w[1..]);
    }
  }

  lemma DecapsMember(decode: Decoder, s: Scan, members: Members, more: Bytes)
    requires s.awaiting && Idle(s.(awaiting := false)) && members.Member? && WellFormedMembers(members)
    ensures Advance(decode, Going(s), members.gap + (Print(members.value) + (members.after + more))) ==
            if DecapsAdmissible(decode, members.value)
            then Advance(decode, Going(s.(awaiting := false, text := Print(members.value), decoded := Some(Print(members.value)))), more)
            else Broken
  {
    AwaitSpace(decode, s, members.gap);
    AdvanceConcat(decode, Going(s), members.gap, Print(members.value) + (members.after + more));
    DecapsValue(decode, s, members.value, members.after + more);
    if DecapsAdmissible(decode, members.value) {
      var t := s.(awaiting := false, text := Print(members.value), decoded := Some(Print(members.value)));
      AdvanceSpace(decode, t, members.after);
      AdvanceConcat(decode, Going(t), members.after, more);
    }
  }

  lemma {:induction false} CollectFindsDecaps(decode: Decoder, members: Members, decoded: Option<Bytes>)
    ensures var c, found := Collect(decode, members, decoded), ValuesAt(members, DECAPS);
            c == if decoded.Some? then (if found == [] then Some(decoded) else None)
                 else if found == [] then Some(None)
                 else if |found| == 1 && DecapsAdmissible(decode, found[0]) then Some(Some(Print(found[0])))
                 else None
    decreases members
  {
    if members.Member? {
      CollectFindsDecaps(decode, members.rest, decoded);
      CollectFindsDecaps(decode, members.rest, Some(Print(members.value)));
      if KeyToken(members.key) == DECAPS {
        assert ValuesAt(members, DECAPS) == [members.value] + ValuesAt(members.rest, DECAPS);
      } else {
        assert ValuesAt(members, DECAPS) == ValuesAt(members.rest, DECAPS);
      }
    }
  }

  // ---- whole documents ----

  /** A root that is no object holds no top-level key, so nothing is ever captured. */
  lemma OtherRoot(decode: Decoder, doc: Document)
    requires WellFormedDocument(doc) && !doc.root.Object?
    ensures Advance(decode, Going(START), PrintDocument(doc)).Going? ==>
              !Finished(Advance(decode, Going(START), PrintDocument(doc)).scan)
  {
    var last := START;
    match doc.root {
      case Scalar(text) => AdvanceScalar(decode, START, text);
      case Text(body) =>
        AdvanceString(decode, START, body);
        last := START.(lastString := Some(KeyToken(body)));
      case Array(pad, items) =>
        var inner := START.(stack := [OPEN_BRACKET], lastString := None);
        assert START.stack + [OPEN_BRACKET] == inner.stack;
        var l := PassItems(decode, inner, items);
        AdvanceContainer(decode, START, OPEN_BRACKET, pad, PrintItems(items), CLOSE_BRACKET, l);
    }
    AdvanceEntry(decode, START, doc.lead, Print(doc.root), doc.trail, [], last);
    assert PrintDocument(doc) == doc.lead + (Print(doc.root) + (doc.trail + []));
  }

  lemma ObjectRoot(decode: Decoder, doc: Document)
    requires WellFormedDocument(doc) && doc.root.Object?
    ensures var end, c := Advance(decode, Going(START), PrintDocument(doc)), Collect(decode, doc.root.members, None);
            if c.None? then end.Broken?
            else end.Going? && end.scan.captureStack.None? && !end.scan.awaiting && end.scan.decoded == c.value
  {
    var Document(lead, root, trail) := doc;
    var s := START.(stack := [OPEN_BRACE]);
    var tail := [CLOSE_BRACE] + trail;
    var body := root.pad + (PrintMembers(root.members) + tail);
    assert START.stack + [OPEN_BRACE] == s.stack;
    assert PrintDocument(doc) == lead + ([OPEN_BRACE] + body);
    AdvanceSpace(decode, START, lead);
    AdvanceConcat(decode, Going(START), lead, [OPEN_BRACE] + body);
    AdvanceConcat(decode, Going(START), [OPEN_BRACE], body);
    AdvanceOne(decode, START, OPEN_BRACE);
    AdvanceSpace(decode, s, root.pad);
    AdvanceConcat(decode, Going(s), root.pad, PrintMembers(root.members) + tail);
    var last := CollectMembers(decode, s, root.members, tail);
    if Collect(decode, root.members, None).Some? {
      CloseRoot(decode, last, trail);
    }
  }

  lemma CloseRoot(decode: Decoder, s: Scan, trail: Bytes)
    requires Idle(s) && s.stack == [OPEN_BRACE] && AllSpace(trail)
    ensures Advance(decode, Going(s), [CLOSE_BRACE] + trail) == Going(s.(stack := [], lastString := None))
  {
    AdvanceConcat(decode, Going(s), [CLOSE_BRACE], trail);
    AdvanceOne(decode, s, CLOSE_BRACE);
    AdvanceSpace(decode, s.(stack := [], lastString := None), trail);
  }

  /** The depth-one scanner finishes exactly on the documents that hold one admissible decaps array, with its bytes. */
  lemma ScanMeetsTree(decode: Decoder, doc: Document)
    requires WellFormedDocument(doc)
    ensures var end := Advance(decode, Going(START), PrintDocument(doc));
            && (end.Going? && Finished(end.scan) <==> DecapsHeld(decode, doc.root))
            && (DecapsHeld(decode, doc.root) ==> end.scan.decoded == Some(Print(ValuesAt(doc.root.members, DECAPS)[0])))
  {
    if doc.root.Object? {
      ObjectRoot(decode, doc);
      CollectFindsDecaps(decode, doc.root.members, None);
    } else {
      OtherRoot(decode, doc);
    }
  }

  /**
   The two scanners on one document. Where the frame-stack scanner completes, the depth-one
   scanner finishes exactly when the decaps list decodes to objects only, and with the same bytes.
   */
  lemma ScannersAgree(decode: Decoder, doc: Document)
    requires WellFormedDocument(doc)
    requires var a := Run(decode, Live(INITIAL), PrintDocument(doc)); a.Live? && Complete(a.state)
    ensures var a, b := Run(decode, Live(INITIAL), PrintDocument(doc)), Advance(decode, Going(START), PrintDocument(doc));
            && (b.Going? && Finished(b.scan) <==> decode(a.state.fragments[[DECAPS]]) == DecodedList(true))
            && (b.Going? && Finished(b.scan) ==> b.scan.decoded == Some(a.state.fragments[[DECAPS]]))
  {
    ScenarioProof.ScanMeetsTree(decode, doc);
    ScanMeetsTree(decode, doc);
    ScenarioProof.RootKeys();
  }
}
