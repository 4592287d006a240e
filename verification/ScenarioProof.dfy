/** The frame-stack scanner meets the JSON tree. */
module ScenarioProof {
  // The frame-stack scanner against the JSON tree it never builds: on every well-formed document it
  // accepts exactly when each target occurs once at its key path with its type, and cuts out the
  // target's own text.

  import opened ByteStrings
  import opened JsonText
  import opened ScenarioMachine

  // ---- what the scanner has to find, read off the tree ----

  predicate Opens(path: Path, v: Value) {
    if Opening(path) == OPEN_BRACKET then v.Array? else v.Object?
  }

  /** A target value the audit admits: right type, below the size limit, strictly decodable. */
  predicate Admissible(decode: Decoder, path: Path, v: Value) {
    Opens(path, v) && |Print(v)| <= Limit(path) && Decodes(decode, path, Print(v))
  }

  predicate HeldOnce(decode: Decoder, members: Members, parent: Path, key: Bytes) {
    var found := ValuesAt(members, key);
    |found| == 1 && Admissible(decode, parent + [key], found[0])
  }

  /** Every target occurs exactly once at its own key path, in an admissible form. */
  predicate TargetsOnce(decode: Decoder, root: Value) {
    && root.Object?
    && HeldOnce(decode, root.members, [], DECAPS)
    && HeldOnce(decode, root.members, [], CONNECTION)
    && var projects := ValuesAt(root.members, PROJECT);
    && |projects| == 1 && projects[0].Object?
    && HeldOnce(decode, projects[0].members, [PROJECT], RAILS)
    && HeldOnce(decode, projects[0].members, [PROJECT], STACKUP)
  }

  /** The serialised bytes of the values at the four key paths. */
  function Selected(decode: Decoder, root: Value): map<Path, Bytes>
    requires TargetsOnce(decode, root)
  {
    var project := ValuesAt(root.members, PROJECT)[0].members;
    map[
      [DECAPS] := Print(ValuesAt(root.members, DECAPS)[0]),
      [CONNECTION] := Print(ValuesAt(root.members, CONNECTION)[0]),
      [PROJECT, RAILS] := Print(ValuesAt(project, RAILS)[0]),
      [PROJECT, STACKUP] := Print(ValuesAt(project, STACKUP)[0])
    ]
  }

  // ---- single tokens ----

  /** Between two tokens, inside some container and outside any capture. */
  predicate Quiet(s: State) {
    && s.capture.None? && s.pending.None? && s.rootStarted && !s.rootClosed
    && !s.quoted && !s.escaped && s.token == [] && s.frames != []
  }

  lemma {:induction false} RunSpace(decode: Decoder, s: State, w: Bytes)
    requires Quiet(s)
    requires forall i :: 0 <= i < |w| ==> IsSpace(w[i]) || ScalarByte(w[i])
    ensures Run(decode, Live(s), w) == Live(s)
  {
    if w != [] {
      assert Step(decode, s, w[0]) == Live(s);
      RunSpace(decode, s, w[1..]);
    }
  }

  lemma {:induction false} RunPendingSpace(decode: Decoder, s: State, w: Bytes)
    requires s.capture.None? && s.pending.Some? && AllSpace(w)
    ensures Run(decode, Live(s), w) == Live(s)
  {
    if w != [] {
      RunPendingSpace(decode, s, w[1..]);
    }
  }

  lemma {:induction false} RunStringBody(decode: Decoder, s: State, body: Bytes)
    requires Quiet(s.(quoted := false, token := [])) && s.quoted && StringBody(body)
    ensures Run(decode, Live(s), body) == Live(s.(token := s.token + KeyToken(body)))
    decreases |body|
  {
    if body == [] {
      assert s.token + KeyToken(body) == s.token;
    } else if body[0] == BACKSLASH {
      var t := s.(escaped := true);
      assert Step(decode, s, body[0]) == Live(t);
      assert Step(decode, t, body[1]) == Live(s);
      RunConcat(decode, Live(s), body[..2], body[2..]);
      assert body == body[..2] + body[2..];
      RunTwo(decode, s, t, body[..2]);
      RunStringBody(decode, s, body[2..]);
    } else {
      var t := s.(token := s.token + [body[0]]);
      assert Step(decode, s, body[0]) == Live(t);
      RunStringBody(decode, t, body[1..]);
      assert t.token + KeyToken(body[1..]) == s.token + KeyToken(body);
    }
  }

  lemma RunTwo(decode: Decoder, s: State, t: State, pair: Bytes)
    requires |pair| == 2 && Step(decode, s, pair[0]) == Live(t)
    ensures Run(decode, Live(s), pair) == Step(decode, t, pair[1])
  {
    assert pair == [pair[0]] + [pair[1]];
    RunConcat(decode, Live(s), [pair[0]], [pair[1]]);
    RunOne(decode, s, pair[0]);
    RunOne(decode, t, pair[1]);
  }

  lemma ClosingQuote(decode: Decoder, s: State, full: State)
    requires Quiet(s) && full == s.(quoted := true, token := full.token) && ValidUtf8(full.token)
    ensures Step(decode, full, QUOTE) ==
            Live(if !Top(s).isArray && Top(s).expectKey then WithTop(s, Top(s).(key := Some(full.token))) else s)
  {
  }

  /** A string: it sets the key exactly where the top frame expects one. */
  lemma RunString(decode: Decoder, s: State, body: Bytes)
    requires Quiet(s) && WellFormedString(body)
    ensures Run(decode, Live(s), Quoted(body)) ==
            Live(if !Top(s).isArray && Top(s).expectKey then WithTop(s, Top(s).(key := Some(KeyToken(body)))) else s)
  {
    var inside := s.(quoted := true, token := []);
    assert Step(decode, s, QUOTE) == Live(inside);
    var full := inside.(token := KeyToken(body));
    RunStringBody(decode, inside, body);
    assert inside.token + KeyToken(body) == KeyToken(body);
    ClosingQuote(decode, s, full);
    RunCons(decode, s, QUOTE, body + [QUOTE]);
    RunConcat(decode, Live(inside), body, [QUOTE]);
    RunOne(decode, full, QUOTE);
  }

  // ---- values under untracked keys are skipped ----

  /** No tracked path lies strictly below this one. */
  predicate Deep(path: Path) {
    |path| >= 2 || (|path| == 1 && path[0] != PROJECT)
  }

  /** The top frame is where a value is due. */
  predicate AtValue(s: State) {
    Quiet(s) && (Top(s).isArray || (Top(s).key.Some? && !Top(s).expectKey))
  }

  function AfterValue(s: State, v: Value): State
    requires s.frames != []
  {
    if v.Array? || v.Object? then UseKey(s) else s
  }

  lemma {:induction false} SkipValue(decode: Decoder, s: State, v: Value)
    requires AtValue(s) && Deep(ChildPath(Top(s))) && WellFormed(v)
    ensures Run(decode, Live(s), Print(v)) == Live(AfterValue(s, v))
    decreases v
  {
    match v
    case Scalar(text) => RunSpace(decode, s, text);
    case Text(body) => RunString(decode, s, body);
    case Array(pad, items) =>
      var path := ChildPath(Top(s));
      var t := UseKey(s);
      var inner := t.(frames := t.frames + [Frame(true, path, None, false)]);
      assert Step(decode, s, OPEN_BRACKET) == Live(inner);
      assert Top(inner) == Frame(true, path, None, false);
      RunSpace(decode, inner, pad);
      SkipItems(decode, inner, items);
      assert inner.frames[..|inner.frames| - 1] == t.frames;
      assert Step(decode, inner, CLOSE_BRACKET) == Live(t);
      RunBracketed(decode, s, OPEN_BRACKET, inner, pad, inner, PrintItems(items), inner, CLOSE_BRACKET);
    case Object(pad, members) =>
      var path := ChildPath(Top(s));
      var t := UseKey(s);
      var inner := t.(frames := t.frames + [Frame(false, path, None, true)]);
      assert Step(decode, s, OPEN_BRACE) == Live(inner);
      assert Top(inner) == Frame(false, path, None, true);
      RunSpace(decode, inner, pad);
      var last := SkipMembers(decode, inner, members);
      assert last.frames[..|last.frames| - 1] == t.frames;
      assert Step(decode, last, CLOSE_BRACE) == Live(t);
      RunBracketed(decode, s, OPEN_BRACE, inner, pad, inner, PrintMembers(members), last, CLOSE_BRACE);
  }

  /** Gluing the runs over an opening bracket, its padding, its contents and its closing bracket. */
  lemma RunBracketed(decode: Decoder, s: State, opening: byte, s1: State, pad: Bytes, s2: State, body: Bytes, s3: State, closing: byte)
    requires Step(decode, s, opening) == Live(s1)
    requires Run(decode, Live(s1), pad) == Live(s2)
    requires Run(decode, Live(s2), body) == Live(s3)
    ensures Run(decode, Live(s), [opening] + (pad + (body + [closing]))) == Step(decode, s3, closing)
  {
    RunConcat(decode, Live(s), [opening], pad + (body + [closing]));
    RunConcat(decode, Live(s1), pad, body + [closing]);
    RunConcat(decode, Live(s2), body, [closing]);
    RunOne(decode, s, opening);
    RunOne(decode, s3, closing);
  }

  /** Gluing the runs over a value, the space around it and what follows. */
  lemma RunEntry(decode: Decoder, s: State, before: Bytes, text: Bytes, after: Bytes, rest: Bytes, s1: State)
    requires Run(decode, Live(s), before) == Live(s)
    requires Run(decode, Live(s), text) == Live(s1)
    requires Run(decode, Live(s1), after) == Live(s1)
    ensures Run(decode, Live(s), before + (text + (after + rest))) == Run(decode, Live(s1), rest)
  {
    RunConcat(decode, Live(s), before, text + (after + rest));
    RunConcat(decode, Live(s), text, after + rest);
    RunConcat(decode, Live(s1), after, rest);
  }

  lemma {:induction false} SkipItems(decode: Decoder, s: State, items: Items)
    requires Quiet(s) && Top(s).isArray && Deep(Top(s).path) && WellFormedItems(items)
    ensures Run(decode, Live(s), PrintItems(items)) == Live(s)
    decreases items
  {
    match items
    case NoItems =>
    case Item(before, value, after, rest) =>
      RunSpace(decode, s, before);
      SkipValue(decode, s, value);
      RunSpace(decode, s, after);
      if rest.NoItems? {
        RunEntry(decode, s, before, Print(value), after, [], s);
      } else {
        RunEntry(decode, s, before, Print(value), after, [COMMA] + PrintItems(rest), s);
        SkipItems(decode, s, rest);
        RunConcat(decode, Live(s), [COMMA], PrintItems(rest));
        RunOne(decode, s, COMMA);
      }
  }

  /** An object frame waiting for a key. */
  predicate AtKey(s: State) {
    Quiet(s) && Top(s) == Frame(false, Top(s).path, None, true)
  }

  function MemberHead(members: Members): Bytes
    requires members.Member?
  {
    members.before + (Quoted(members.key) + members.mid)
  }

  /** A key, the space around it and its colon, up to the value. */
  lemma RunKey(decode: Decoder, s: State, before: Bytes, key: Bytes, mid: Bytes, rest: Bytes)
    requires AtKey(s) && AllSpace(before) && WellFormedString(key) && AllSpace(mid)
    ensures var keyed := WithTop(s, Top(s).(key := Some(KeyToken(key))));
            Run(decode, Live(s), (before + (Quoted(key) + mid)) + ([COLON] + rest)) ==
            Run(decode, ColonStep(keyed), rest)
  {
    var keyed := WithTop(s, Top(s).(key := Some(KeyToken(key))));
    RunSpace(decode, s, before);
    RunString(decode, s, key);
    RunSpace(decode, keyed, mid);
    RunConcat(decode, Live(s), before + (Quoted(key) + mid), [COLON] + rest);
    RunConcat(decode, Live(s), before, Quoted(key) + mid);
    RunConcat(decode, Live(s), Quoted(key), mid);
    RunConcat(decode, Live(keyed), [COLON], rest);
    RunOne(decode, keyed, COLON);
    assert Step(decode, keyed, COLON) == ColonStep(keyed);
  }

  /** The object frame after a member: its key is used up if the value was a container. */
  function AfterMember(s: State, name: Bytes, value: Value): State
    requires s.frames != []
  {
    WithTop(s, Frame(false, Top(s).path, if value.Array? || value.Object? then None else Some(name), false))
  }

  /** A member under an untracked key path: nothing but its own frame changes. */
  lemma SkipMember(decode: Decoder, s: State, members: Members, more: Bytes)
    requires members.Member? && AtKey(s) && WellFormedMembers(members)
    requires var path := Top(s).path + [KeyToken(members.key)]; !IsTracked(path) && Deep(path)
    ensures Run(decode, Live(s), MemberHead(members) + ([COLON] + (members.gap + (Print(members.value) + (members.after + more))))) ==
            Run(decode, Live(AfterMember(s, KeyToken(members.key), members.value)), more)
    decreases members, 0
  {
    var name, value := KeyToken(members.key), members.value;
    RunKey(decode, s, members.before, members.key, members.mid, members.gap + (Print(value) + (members.after + more)));
    var ready := WithTop(s, Frame(false, Top(s).path, Some(name), false));
    assert ColonStep(WithTop(s, Top(s).(key := Some(name)))) == Live(ready) by {
      assert WithTop(WithTop(s, Frame(false, Top(s).path, Some(name), true)), Frame(false, Top(s).path, Some(name), false)) == ready;
    }
    RunSpace(decode, ready, members.gap);
    SkipValue(decode, ready, value);
    assert AfterValue(ready, value) == AfterMember(s, name, value);
    RunSpace(decode, AfterMember(s, name, value), members.after);
    RunEntry(decode, ready, members.gap, Print(value), members.after, more, AfterMember(s, name, value));
  }

  /** A comma readies the frame for the next key. */
  lemma NextMember(decode: Decoder, s: State, name: Bytes, value: Value, rest: Bytes)
    requires AtKey(s)
    ensures Run(decode, Live(AfterMember(s, name, value)), [COMMA] + rest) == Run(decode, Live(s), rest)
  {
    var done := AfterMember(s, name, value);
    assert CommaStep(done) == s by {
      assert WithTop(done, Top(s)).frames == s.frames;
    }
    RunConcat(decode, Live(done), [COMMA], rest);
    RunOne(decode, done, COMMA);
  }

  lemma {:induction false} SkipMembers(decode: Decoder, s: State, members: Members) returns (last: State)
    requires AtKey(s) && Deep(Top(s).path) && WellFormedMembers(members)
    ensures Run(decode, Live(s), PrintMembers(members)) == Live(last)
    ensures exists frame: Frame {:trigger WithTop(s, frame)} :: !frame.isArray && last == WithTop(s, frame)
    decreases members, 1
  {
    match members
    case NoMembers =>
      last := s;
      assert WithTop(s, Top(s)) == s;
    case Member(before, key, mid, gap, value, after, rest) =>
      assert (Top(s).path + [KeyToken(key)])[0] == Top(s).path[0];
      if rest.NoMembers? {
        SkipMember(decode, s, members, []);
        last := AfterMember(s, KeyToken(key), value);
      } else {
        SkipMember(decode, s, members, [COMMA] + PrintMembers(rest));
        NextMember(decode, s, KeyToken(key), value, PrintMembers(rest));
        last := SkipMembers(decode, s, rest);
      }
  }

  // ---- a target value is captured byte for byte ----

  /** Inside a capture, between two tokens, with the limit not yet passed. */
  predicate Capturing(s: State) {
    && s.capture.Some? && s.capture.value.stack != [] && !s.quoted && !s.escaped
    && |s.capture.value.text| <= Limit(s.capture.value.path)
  }

  /** The capture after some more bytes that leave its bracket stack as it was, or the limit error. */
  function Captured(s: State, more: Bytes): Status
    requires s.capture.Some?
  {
    var c := s.capture.value;
    if |c.text| + |more| > Limit(c.path) then Failed else Live(s.(capture := Some(c.(text := c.text + more))))
  }

  lemma CapturedTwice(s: State, a: Bytes, b: Bytes)
    requires Capturing(s)
    ensures Captured(s, a).Live? ==> Capturing(Captured(s, a).state)
    ensures Captured(s, a + b) == if Captured(s, a).Live? then Captured(Captured(s, a).state, b) else Failed
  {
    assert (s.capture.value.text + a) + b == s.capture.value.text + (a + b);
  }

  /** Two runs of captured bytes in a row. */
  lemma CaptureBoth(decode: Decoder, s: State, a: Bytes, b: Bytes)
    requires Capturing(s)
    requires Run(decode, Live(s), a) == Captured(s, a)
    requires Captured(s, a).Live? ==> Run(decode, Captured(s, a), b) == Captured(Captured(s, a).state, b)
    ensures Run(decode, Live(s), a + b) == Captured(s, a + b)
  {
    RunConcat(decode, Live(s), a, b);
    CapturedTwice(s, a, b);
  }

  predicate Plain(b: byte) {
    b !in {QUOTE, OPEN_BRACKET, OPEN_BRACE, CLOSE_BRACKET, CLOSE_BRACE}
  }

  lemma {:induction false} CapturePlain(decode: Decoder, s: State, w: Bytes)
    requires Capturing(s) && forall i :: 0 <= i < |w| ==> Plain(w[i])
    ensures Run(decode, Live(s), w) == Captured(s, w)
    decreases |w|
  {
    var c := s.capture.value;
    if w == [] {
      assert c.text + w == c.text;
    } else {
      RunOne(decode, s, w[0]);
      assert Step(decode, s, w[0]) == Captured(s, [w[0]]);
      if Captured(s, [w[0]]).Live? {
        CapturePlain(decode, Captured(s, [w[0]]).state, w[1..]);
      }
      CaptureBoth(decode, s, [w[0]], w[1..]);
      assert w == [w[0]] + w[1..];
    }
  }

  /** Like Captured, for bytes read while the quote flag is up. */
  lemma {:induction false} CaptureStringBody(decode: Decoder, s: State, body: Bytes)
    requires Capturing(s.(quoted := false)) && s.quoted && StringBody(body)
    ensures Run(decode, Live(s), body) == Captured(s, body)
    decreases |body|
  {
    var c := s.capture.value;
    if body == [] {
      assert c.text + body == c.text;
    } else {
      var n := if body[0] == BACKSLASH then 2 else 1;
      assert body == body[..n] + body[n..];
      RunConcat(decode, Live(s), body[..n], body[n..]);
      if n == 1 {
        assert body[..1] == [body[0]];
        RunOne(decode, s, body[0]);
      } else if |c.text| + 1 <= Limit(c.path) {
        var t := s.(escaped := true, capture := Some(c.(text := c.text + [body[0]])));
        RunTwo(decode, s, t, body[..2]);
        assert (c.text + [body[0]]) + [body[1]] == c.text + body[..2];
      }
      assert Run(decode, Live(s), body[..n]) == Captured(s, body[..n]);
      assert (c.text + body[..n]) + body[n..] == c.text + body;
      if Captured(s, body[..n]).Live? {
        CaptureStringBody(decode, Captured(s, body[..n]).state, body[n..]);
      }
    }
  }

  /** A quote that turns the capture's quote flag over. */
  lemma CaptureQuote(decode: Decoder, s: State)
    requires s.capture.Some? && s.capture.value.stack != [] && !s.escaped
    ensures Step(decode, s, QUOTE) == Captured(s.(quoted := !s.quoted), [QUOTE])
  {
  }

  lemma CaptureString(decode: Decoder, s: State, body: Bytes)
    requires Capturing(s) && StringBody(body)
    ensures Run(decode, Live(s), Quoted(body)) == Captured(s, Quoted(body))
  {
    CaptureQuote(decode, s);
    RunCons(decode, s, QUOTE, body + [QUOTE]);
    var first := Captured(s.(quoted := true), [QUOTE]);
    if first.Live? {
      CaptureStringBody(decode, first.state, body);
      RunConcat(decode, first, body, [QUOTE]);
      var second := Captured(first.state, body);
      if second.Live? {
        CaptureQuote(decode, second.state);
        RunOne(decode, second.state, QUOTE);
        Join(s.capture.value.text, [QUOTE], body, [QUOTE]);
      }
    }
  }

  lemma Join(a: Bytes, b: Bytes, c: Bytes, d: Bytes)
    ensures ((a + b) + c) + d == a + (b + (c + d))
  {
  }

  /** The capture once a nested opening bracket has been appended and pushed. */
  function Pushed(s: State, opening: byte): State
    requires s.capture.Some?
  {
    var c := s.capture.value;
    s.(capture := Some(c.(text := c.text + [opening], stack := c.stack + [opening])))
  }

  lemma FailedStaysFailed(decode: Decoder, input: Bytes)
    ensures Run(decode, Failed, input) == Failed
  {
  }

  /** A nested container: pushed by its opening bracket, popped by its closing one. */
  lemma CaptureNested(decode: Decoder, s: State, opening: byte, body: Bytes, closing: byte)
    requires Capturing(s) && Closes(opening, closing)
    requires Capturing(Pushed(s, opening)) ==> Run(decode, Live(Pushed(s, opening)), body) == Captured(Pushed(s, opening), body)
    ensures Run(decode, Live(s), [opening] + (body + [closing])) == Captured(s, [opening] + (body + [closing]))
  {
    hide Run;
    FailedStaysFailed(decode, body + [closing]);
    FailedStaysFailed(decode, [closing]);
    RunConcat(decode, Live(s), [opening], body + [closing]);
    RunOne(decode, s, opening);
    if Capturing(Pushed(s, opening)) {
      var t := Pushed(s, opening);
      assert Step(decode, s, opening) == Live(t);
      RunConcat(decode, Live(t), body, [closing]);
      if Captured(t, body).Live? {
        CapturePop(decode, s, Captured(t, body).state, opening, closing);
      }
      assert (t.capture.value.text + body) + [closing] == s.capture.value.text + ([opening] + (body + [closing]));
    } else {
      assert Step(decode, s, opening) == Failed;
    }
  }

  lemma CapturePop(decode: Decoder, s: State, u: State, opening: byte, closing: byte)
    requires Capturing(s) && Closes(opening, closing) && u.capture.Some?
    requires u == s.(capture := Some(s.capture.value.(text := u.capture.value.text, stack := s.capture.value.stack + [opening])))
    ensures Run(decode, Live(u), [closing]) ==
            if |u.capture.value.text| + 1 > Limit(s.capture.value.path) then Failed
            else Live(s.(capture := Some(s.capture.value.(text := u.capture.value.text + [closing]))))
  {
    RunOne(decode, u, closing);
    assert u.capture.value.stack[..|u.capture.value.stack| - 1] == s.capture.value.stack;
  }

  lemma {:induction false} CaptureValue(decode: Decoder, s: State, v: Value)
    requires Capturing(s) && WellFormed(v)
    ensures Run(decode, Live(s), Print(v)) == Captured(s, Print(v))
    decreases v, 1
  {
    match v
    case Scalar(text) => CapturePlain(decode, s, text);
    case Text(body) => CaptureString(decode, s, body);
    case Array(pad, items) =>
      if Capturing(Pushed(s, OPEN_BRACKET)) {
        CaptureContents(decode, Pushed(s, OPEN_BRACKET), v);
      }
      CaptureNested(decode, s, OPEN_BRACKET, Contents(v), CLOSE_BRACKET);
      assert pad + (PrintItems(items) + [CLOSE_BRACKET]) == Contents(v) + [CLOSE_BRACKET];
    case Object(pad, members) =>
      if Capturing(Pushed(s, OPEN_BRACE)) {
        CaptureContents(decode, Pushed(s, OPEN_BRACE), v);
      }
      CaptureNested(decode, s, OPEN_BRACE, Contents(v), CLOSE_BRACE);
      assert pad + (PrintMembers(members) + [CLOSE_BRACE]) == Contents(v) + [CLOSE_BRACE];
  }

  /** The text of a container between its brackets. */
  function Contents(v: Value): Bytes
    requires v.Array? || v.Object?
  {
    if v.Array? then v.pad + PrintItems(v.items) else v.pad + PrintMembers(v.members)
  }

  lemma {:induction false} CaptureContents(decode: Decoder, s: State, v: Value)
    requires Capturing(s) && (v.Array? || v.Object?) && WellFormed(v)
    ensures Run(decode, Live(s), Contents(v)) == Captured(s, Contents(v))
    decreases v, 0
  {
    CapturePlain(decode, s, v.pad);
    CapturedTwice(s, v.pad, []);
    if Captured(s, v.pad).Live? {
      if v.Array? {
        CaptureItems(decode, Captured(s, v.pad).state, v.items);
      } else {
        CaptureMembers(decode, Captured(s, v.pad).state, v.members);
      }
    }
    CaptureBoth(decode, s, v.pad, if v.Array? then PrintItems(v.items) else PrintMembers(v.members));
  }

  /** Space, a value, space, and whatever follows. */
  lemma CaptureEntry(decode: Decoder, s: State, before: Bytes, text: Bytes, after: Bytes, rest: Bytes)
    requires Capturing(s) && AllSpace(before) && AllSpace(after)
    requires forall t :: Capturing(t) ==> Run(decode, Live(t), text) == Captured(t, text)
    requires forall t :: Capturing(t) ==> Run(decode, Live(t), rest) == Captured(t, rest)
    ensures Run(decode, Live(s), before + (text + (after + rest))) == Captured(s, before + (text + (after + rest)))
  {
    CapturePlain(decode, s, before);
    CapturedTwice(s, before, text);
    if Captured(s, before).Live? {
      var t := Captured(s, before).state;
      CapturedTwice(t, text, after);
      if Captured(t, text).Live? {
        var u := Captured(t, text).state;
        CapturePlain(decode, u, after);
        CapturedTwice(u, after, rest);
        CaptureBoth(decode, u, after, rest);
      }
      CaptureBoth(decode, t, text, after + rest);
    }
    CaptureBoth(decode, s, before, text + (after + rest));
  }

  lemma {:induction false} CaptureItems(decode: Decoder, s: State, items: Items)
    requires Capturing(s) && WellFormedItems(items)
    ensures Run(decode, Live(s), PrintItems(items)) == Captured(s, PrintItems(items))
    decreases items, 0
  {
    match items
    case NoItems => CapturePlain(decode, s, []);
    case Item(before, value, after, rest) =>
      var more := if rest.NoItems? then [] else [COMMA] + PrintItems(rest);
      forall t | Capturing(t) ensures Run(decode, Live(t), Print(value)) == Captured(t, Print(value)) {
        CaptureValue(decode, t, value);
      }
      forall t | Capturing(t) ensures Run(decode, Live(t), more) == Captured(t, more) {
        if rest.NoItems? {
          CapturePlain(decode, t, []);
        } else {
          CapturePlain(decode, t, [COMMA]);
          CapturedTwice(t, [COMMA], []);
          if Captured(t, [COMMA]).Live? {
            CaptureItems(decode, Captured(t, [COMMA]).state, rest);
          }
          CaptureBoth(decode, t, [COMMA], PrintItems(rest));
        }
      }
      CaptureEntry(decode, s, before, Print(value), after, more);
  }

  lemma {:induction false} CaptureMembers(decode: Decoder, s: State, members: Members)
    requires Capturing(s) && WellFormedMembers(members)
    ensures Run(decode, Live(s), PrintMembers(members)) == Captured(s, PrintMembers(members))
    decreases members, 0
  {
    match members
    case NoMembers => CapturePlain(decode, s, []);
    case Member(before, key, mid, gap, value, after, rest) =>
      var more := if rest.NoMembers? then [] else [COMMA] + PrintMembers(rest);
      forall t | Capturing(t) ensures Run(decode, Live(t), Print(value)) == Captured(t, Print(value)) {
        CaptureValue(decode, t, value);
      }
      forall t | Capturing(t) ensures Run(decode, Live(t), more) == Captured(t, more) {
        if rest.NoMembers? {
          CapturePlain(decode, t, []);
        } else {
          CapturePlain(decode, t, [COMMA]);
          CapturedTwice(t, [COMMA], []);
          if Captured(t, [COMMA]).Live? {
            CaptureMembers(decode, Captured(t, [COMMA]).state, rest);
          }
          CaptureBoth(decode, t, [COMMA], PrintMembers(rest));
        }
      }
      var tail := gap + (Print(value) + (after + more));
      forall t | Capturing(t) ensures Run(decode, Live(t), [COLON] + tail) == Captured(t, [COLON] + tail) {
        CapturePlain(decode, t, [COLON]);
        CapturedTwice(t, [COLON], tail);
        if Captured(t, [COLON]).Live? {
          CaptureEntry(decode, Captured(t, [COLON]).state, gap, Print(value), after, more);
        }
        CaptureBoth(decode, t, [COLON], tail);
      }
      forall t | Capturing(t) ensures Run(decode, Live(t), Quoted(key)) == Captured(t, Quoted(key)) {
        CaptureString(decode, t, key);
      }
      CaptureEntry(decode, s, before, Quoted(key), mid, [COLON] + tail);
      assert before + (Quoted(key) + (mid + ([COLON] + tail))) == (before + (Quoted(key) + mid)) + ([COLON] + tail);
  }

  // ---- the walk over the root object and the project object ----

  datatype Found = Found(fragments: map<Path, Bytes>, seen: set<Path>)

  /** What scanning the members of the object at a path adds, member by member, or None on an error. */
  function Walk(decode: Decoder, path: Path, members: Members, f: Found): Option<Found>
    decreases members, 0
  {
    match members
    case NoMembers => Some(f)
    case Member(_, key, _, _, value, _, rest) =>
      var at := path + [KeyToken(key)];
      if !IsTracked(at) then Walk(decode, path, rest, f)
      else
        match WalkTracked(decode, at, value, f)
        case None => None
        case Some(g) => Walk(decode, path, rest, g)
  }

  function WalkTracked(decode: Decoder, at: Path, value: Value, f: Found): Option<Found>
    decreases value, 1
  {
    if at in f.seen || !Opens(at, value) then None
    else if IsTarget(at) then
      if Admissible(decode, at, value) then Some(Found(f.fragments[at := Print(value)], f.seen + {at})) else None
    else if value.Object? then Walk(decode, at, value.members, f.(seen := f.seen + {at}))
    else None
  }

  function With(s: State, f: Found): State {
    s.(fragments := f.fragments, seen := f.seen)
  }

  function Holding(s: State): Found {
    Found(s.fragments, s.seen)
  }

  /** The wrong opening byte after a tracked key is refused at once. */
  lemma RefuseValue(decode: Decoder, s: State, v: Value, rest: Bytes)
    requires s.capture.None? && s.pending.Some? && IsTracked(s.pending.value) && WellFormed(v) && !Opens(s.pending.value, v)
    ensures Run(decode, Live(s), Print(v) + rest) == Failed
  {
    var b := Print(v)[0];
    assert !IsSpace(b) && b != Opening(s.pending.value);
    assert Print(v) + rest == [b] + (Print(v)[1..] + rest);
    RunConcat(decode, Live(s), [b], Print(v)[1..] + rest);
    RunOne(decode, s, b);
  }

  /** A captured value ends in its fragment or in an error. */
  lemma TargetValue(decode: Decoder, s: State, v: Value)
    requires s.capture.None? && s.pending.Some? && !s.quoted && !s.escaped && WellFormed(v)
    requires IsTarget(s.pending.value) && Opens(s.pending.value, v)
    ensures Run(decode, Live(s), Print(v)) ==
            if Admissible(decode, s.pending.value, v)
            then Live(UseKey(s.(pending := None)).(fragments := s.fragments[s.pending.value := Print(v)]))
            else Failed
  {
    var path := s.pending.value;
    var opening, closing := Opening(path), if v.Array? then CLOSE_BRACKET else CLOSE_BRACE;
    var t := UseKey(s.(pending := None)).(capture := Some(Capture(path, [opening], [opening])));
    assert Step(decode, s, opening) == Live(t);
    ContainerText(v);
    RunCons(decode, s, opening, Contents(v) + [closing]);
    CaptureContents(decode, t, v);
    RunConcat(decode, Live(t), Contents(v), [closing]);
    if Captured(t, Contents(v)).Live? {
      var u := Captured(t, Contents(v)).state;
      RunOne(decode, u, closing);
      LastBracket(decode, u, closing);
    }
  }

  lemma ContainerText(v: Value)
    requires v.Array? || v.Object?
    ensures var opening, closing := if v.Array? then OPEN_BRACKET else OPEN_BRACE, if v.Array? then CLOSE_BRACKET else CLOSE_BRACE;
            && Print(v) == [opening] + (Contents(v) + [closing])
            && Print(v) == ([opening] + Contents(v)) + [closing]
            && |Print(v)| == |Contents(v)| + 2
  {
  }

  /** The bracket that empties the capture's stack finishes the fragment. */
  lemma LastBracket(decode: Decoder, u: State, closing: byte)
    requires u.capture.Some? && |u.capture.value.stack| == 1 && Closes(u.capture.value.stack[0], closing) && !u.quoted
    ensures var c := u.capture.value;
            var text := c.text + [closing];
            Step(decode, u, closing) ==
            if |text| > Limit(c.path) || !Decodes(decode, c.path, text) then Failed
            else Live(u.(capture := None, fragments := u.fragments[c.path := text]))
  {
  }

  /** The value under a tracked key that is not nested in the project object's own walk. */
  lemma {:induction false} WalkValue(decode: Decoder, s: State, p: State, value: Value, rest: Bytes)
    requires Quiet(s) && !Top(s).isArray && WellFormed(value)
    requires p.pending.Some? && IsTracked(p.pending.value) && p.pending.value !in s.seen
    requires p == s.(pending := p.pending, seen := s.seen + {p.pending.value})
    ensures var w := WalkTracked(decode, p.pending.value, value, Holding(s));
            Run(decode, Live(p), Print(value) + rest) ==
            if w.None? then Failed else Run(decode, Live(With(UseKey(s), w.value)), rest)
    decreases value, 2
  {
    var at := p.pending.value;
    RunConcat(decode, Live(p), Print(value), rest);
    if !Opens(at, value) {
      RefuseValue(decode, p, value, rest);
    } else if IsTarget(at) {
      TargetValue(decode, p, value);
    } else {
      var t := UseKey(p.(pending := None));
      var inner := t.(frames := t.frames + [Frame(false, at, None, true)]);
      assert Step(decode, p, OPEN_BRACE) == Live(inner);
      assert Top(inner) == Frame(false, at, None, true);
      RunSpace(decode, inner, value.pad);
      WalkMembers(decode, inner, value.members, [CLOSE_BRACE]);
      var w := Walk(decode, at, value.members, Holding(inner));
      RunConcat(decode, Live(p), [OPEN_BRACE], value.pad + (PrintMembers(value.members) + [CLOSE_BRACE]));
      RunOne(decode, p, OPEN_BRACE);
      RunConcat(decode, Live(inner), value.pad, PrintMembers(value.members) + [CLOSE_BRACE]);
      if w.Some? {
        var last := WalkEnd(decode, inner, value.members);
        RunOne(decode, last, CLOSE_BRACE);
        assert last.frames[..|last.frames| - 1] == t.frames;
        assert Step(decode, last, CLOSE_BRACE) == Live(With(UseKey(s), w.value));
      }
    }
  }

  /** The object frame once its last member has been read. */
  function LastFrame(s: State, members: Members): Frame
    requires s.frames != []
  {
    match members
    case NoMembers => Top(s)
    case Member(_, key, _, _, value, _, rest) =>
      if rest.NoMembers? then Top(AfterMember(s, KeyToken(key), value)) else LastFrame(s, rest)
  }

  function WalkEnd(decode: Decoder, s: State, members: Members): State
    requires s.frames != [] && Walk(decode, Top(s).path, members, Holding(s)).Some?
  {
    With(WithTop(s, LastFrame(s, members)), Walk(decode, Top(s).path, members, Holding(s)).value)
  }

  lemma {:induction false} LastFrameIsObject(s: State, members: Members)
    requires s.frames != [] && !Top(s).isArray
    ensures !LastFrame(s, members).isArray
  {
    if members.Member? && members.rest.Member? {
      LastFrameIsObject(s, members.rest);
    }
  }

  /** What follows a member: nothing more, or a comma and the other members, and then the tail. */
  function More(members: Members, tail: Bytes): Bytes
    requires members.Member?
  {
    (if members.rest.NoMembers? then [] else [COMMA] + PrintMembers(members.rest)) + tail
  }

  lemma MembersText(members: Members, tail: Bytes)
    requires members.Member?
    ensures PrintMembers(members) + tail ==
            MemberHead(members) + ([COLON] + (members.gap + (Print(members.value) + (members.after + More(members, tail)))))
  {
    Regroup(MemberHead(members), members.gap, Print(members.value), members.after,
            if members.rest.NoMembers? then [] else [COMMA] + PrintMembers(members.rest), tail);
  }

  lemma Regroup(head: Bytes, gap: Bytes, value: Bytes, after: Bytes, more: Bytes, tail: Bytes)
    ensures (head + ([COLON] + (gap + (value + (after + more))))) + tail == head + ([COLON] + (gap + (value + (after + (more + tail)))))
  {
  }

  lemma UntrackedIsDeep(path: Path, key: Bytes)
    requires (path == [] || path == [PROJECT]) && !IsTracked(path + [key])
    ensures Deep(path + [key])
  {
    assert [key] == [] + [key];
  }

  /** The members of the root object or of the project object. */
  lemma {:induction false} WalkMembers(decode: Decoder, s: State, members: Members, tail: Bytes)
    requires AtKey(s) && (Top(s).path == [] || Top(s).path == [PROJECT]) && WellFormedMembers(members)
    ensures var w := Walk(decode, Top(s).path, members, Holding(s));
            Run(decode, Live(s), PrintMembers(members) + tail) ==
            if w.None? then Failed else Run(decode, Live(WalkEnd(decode, s, members)), tail)
    ensures !LastFrame(s, members).isArray
    decreases members, 1
  {
    LastFrameIsObject(s, members);
    if members.NoMembers? {
      assert PrintMembers(members) + tail == tail;
      assert WithTop(s, Top(s)) == s;
    } else {
      hide DECAPS, CONNECTION, PROJECT, RAILS, STACKUP, Ascii, MemberHead, Print, PrintMembers, WalkTracked, AfterMember, KeyToken, Run, More;
      MembersText(members, tail);
      var at := Top(s).path + [KeyToken(members.key)];
      if !IsTracked(at) {
        UntrackedIsDeep(Top(s).path, KeyToken(members.key));
        SkipMember(decode, s, members, More(members, tail));
        WalkRest(decode, s, members, s, More(members, tail), tail);
      } else {
        WalkTrackedMember(decode, s, members, More(members, tail));
        var w := WalkTracked(decode, at, members.value, Holding(s));
        if w.Some? {
          WalkRest(decode, s, members, With(s, w.value), More(members, tail), tail);
        }
      }
    }
  }

  lemma {:induction false} WalkTrackedMember(decode: Decoder, s: State, members: Members, more: Bytes)
    requires members.Member? && AtKey(s) && WellFormedMembers(members)
    requires IsTracked(Top(s).path + [KeyToken(members.key)])
    ensures var w := WalkTracked(decode, Top(s).path + [KeyToken(members.key)], members.value, Holding(s));
            Run(decode, Live(s), MemberHead(members) + ([COLON] + (members.gap + (Print(members.value) + (members.after + more))))) ==
            if w.None? then Failed else Run(decode, Live(With(AfterMember(s, KeyToken(members.key), members.value), w.value)), more)
    decreases members, 0
  {
    var name, value := KeyToken(members.key), members.value;
    var at := Top(s).path + [name];
    var rest := members.gap + (Print(value) + (members.after + more));
    RunKey(decode, s, members.before, members.key, members.mid, rest);
    var ready := WithTop(s, Frame(false, Top(s).path, Some(name), false));
    assert WithTop(WithTop(s, Frame(false, Top(s).path, Some(name), true)), Frame(false, Top(s).path, Some(name), false)) == ready;
    if at !in s.seen {
      var p := ready.(pending := Some(at), seen := s.seen + {at});
      assert ColonStep(WithTop(s, Top(s).(key := Some(name)))) == Live(p);
      RunConcat(decode, Live(p), members.gap, Print(value) + (members.after + more));
      RunPendingSpace(decode, p, members.gap);
      WalkValue(decode, ready, p, value, members.after + more);
      var w := WalkTracked(decode, at, value, Holding(s));
      if w.Some? {
        var done := With(AfterMember(s, name, value), w.value);
        assert With(UseKey(ready), w.value) == done;
        RunConcat(decode, Live(done), members.after, more);
        RunSpace(decode, done, members.after);
      }
    }
  }

  /** From one member to the next, or to the end of the object. */
  lemma {:induction false} WalkRest(decode: Decoder, s: State, members: Members, s1: State, more: Bytes, tail: Bytes)
    requires members.Member? && AtKey(s) && (Top(s).path == [] || Top(s).path == [PROJECT]) && WellFormedMembers(members)
    requires s1 == With(s, Holding(s1))
    requires more == More(members, tail)
    ensures var w := Walk(decode, Top(s).path, members.rest, Holding(s1));
            Run(decode, Live(AfterMember(s1, KeyToken(members.key), members.value)), more) ==
            if w.None? then Failed else Run(decode, Live(With(WithTop(s, LastFrame(s, members)), w.value)), tail)
    decreases members, 0
  {
    var name, value, rest := KeyToken(members.key), members.value, members.rest;
    if rest.NoMembers? {
      assert more == tail;
    } else {
      assert more == [COMMA] + (PrintMembers(rest) + tail);
      NextMember(decode, s1, name, value, PrintMembers(rest) + tail);
      WalkMembers(decode, s1, rest, tail);
      SameLastFrame(s, s1, rest);
    }
  }

  lemma {:induction false} SameLastFrame(s: State, t: State, members: Members)
    requires s.frames == t.frames && s.frames != []
    ensures LastFrame(s, members) == LastFrame(t, members)
  {
    if members.Member? && members.rest.Member? {
      SameLastFrame(s, t, members.rest);
    }
  }

  // ---- the walk against the key paths ----

  /** The paths where tracked keys are met, at this level and inside the project object. */
  function Reached(path: Path, members: Members): set<Path>
    decreases members
  {
    match members
    case NoMembers => {}
    case Member(_, key, _, _, value, _, rest) =>
      var at := path + [KeyToken(key)];
      (if !IsTracked(at) then {} else if at == [PROJECT] && value.Object? then {at} + Reached(at, value.members) else {at})
      + Reached(path, rest)
  }

  /** The texts cut out, by path. */
  function Cut(path: Path, members: Members): map<Path, Bytes>
    decreases members
  {
    match members
    case NoMembers => map[]
    case Member(_, key, _, _, value, _, rest) =>
      var at := path + [KeyToken(key)];
      (if IsTarget(at) then map[at := Print(value)]
       else if at == [PROJECT] && value.Object? then Cut(at, value.members)
       else map[])
      + Cut(path, rest)
  }

  /** The part of Cut and Reached that one tracked member contributes. */
  function CutValue(at: Path, value: Value): map<Path, Bytes> {
    if IsTarget(at) then map[at := Print(value)]
    else if at == [PROJECT] && value.Object? then Cut(at, value.members)
    else map[]
  }

  lemma {:induction false} WalkAdds(decode: Decoder, path: Path, members: Members, f: Found)
    requires Walk(decode, path, members, f).Some?
    ensures Walk(decode, path, members, f).value == Found(f.fragments + Cut(path, members), f.seen + Reached(path, members))
    decreases members, 0
  {
    hide WalkTracked, KeyToken;
    match members
    case NoMembers =>
      assert f.fragments + map[] == f.fragments;
    case Member(_, key, _, _, value, _, rest) =>
      var at := path + [KeyToken(key)];
      if !IsTracked(at) {
        WalkAdds(decode, path, rest, f);
        assert Cut(path, members) == Cut(path, rest);
      } else {
        var g := WalkTracked(decode, at, value, f).value;
        WalkTrackedAdds(decode, at, value, f);
        WalkAdds(decode, path, rest, g);
        assert Cut(path, members) == CutValue(at, value) + Cut(path, rest);
        UnionOfMaps(f.fragments, CutValue(at, value), Cut(path, rest));
      }
  }

  lemma UnionOfMaps(a: map<Path, Bytes>, b: map<Path, Bytes>, c: map<Path, Bytes>)
    ensures (a + b) + c == a + (b + c)
  {
  }

  lemma {:induction false} WalkTrackedAdds(decode: Decoder, at: Path, value: Value, f: Found)
    requires IsTracked(at) && WalkTracked(decode, at, value, f).Some?
    ensures var g := WalkTracked(decode, at, value, f).value;
            && g.fragments == f.fragments + CutValue(at, value)
            && g.seen == f.seen + (if at == [PROJECT] && value.Object? then {at} + Reached(at, value.members) else {at})
    decreases value, 1
  {
    if at == [PROJECT] {
      WalkAdds(decode, at, value.members, f.(seen := f.seen + {at}));
    }
  }

  predicate ValueFits(decode: Decoder, at: Path, value: Value) {
    if at == [PROJECT] then value.Object? && ProjectFits(decode, value.members) else Admissible(decode, at, value)
  }

  /** A key of one level occurs at most once more, with an admissible value. */
  predicate Fits(decode: Decoder, path: Path, key: Bytes, members: Members, seen: set<Path>) {
    var found := ValuesAt(members, key);
    && |found| <= (if path + [key] in seen then 0 else 1)
    && (|found| == 1 ==> ValueFits(decode, path + [key], found[0]))
  }

  predicate ProjectFits(decode: Decoder, members: Members) {
    && (forall key :: key in {RAILS, STACKUP} ==>
          var found := ValuesAt(members, key);
          |found| <= 1 && (|found| == 1 ==> Admissible(decode, [PROJECT, key], found[0])))
  }

  lemma FitsStep(decode: Decoder, path: Path, key: Bytes, members: Members, seen: set<Path>)
    requires members.Member?
    ensures Fits(decode, path, key, members, seen) <==>
            if KeyToken(members.key) == key
            then path + [key] !in seen && ValueFits(decode, path + [key], members.value)
                 && Fits(decode, path, key, members.rest, seen + {path + [key]})
            else Fits(decode, path, key, members.rest, seen)
  {
    if KeyToken(members.key) == key {
      assert ValuesAt(members, key) == [members.value] + ValuesAt(members.rest, key);
    } else {
      assert ValuesAt(members, key) == ValuesAt(members.rest, key);
    }
  }

  predicate Coherent(seen: set<Path>) {
    [PROJECT] !in seen ==> [PROJECT, RAILS] !in seen && [PROJECT, STACKUP] !in seen
  }

  lemma {:induction false} ProjectWalk(decode: Decoder, members: Members, f: Found)
    ensures Walk(decode, [PROJECT], members, f).Some? <==>
            Fits(decode, [PROJECT], RAILS, members, f.seen) && Fits(decode, [PROJECT], STACKUP, members, f.seen)
    decreases members
  {
    match members
    case NoMembers =>
    case Member(_, key, _, _, value, _, rest) =>
      var at := [PROJECT] + [KeyToken(key)];
      var rails, stackup := [PROJECT] + [RAILS], [PROJECT] + [STACKUP];
      assert at[1] == KeyToken(key) && rails[1] == RAILS && stackup[1] == STACKUP;
      assert rails == [PROJECT, RAILS] && stackup == [PROJECT, STACKUP];
      assert IsTracked(at) <==> at == rails || at == stackup;
      FitsStep(decode, [PROJECT], RAILS, members, f.seen);
      FitsStep(decode, [PROJECT], STACKUP, members, f.seen);
      if !IsTracked(at) {
        ProjectWalk(decode, rest, f);
      } else {
        var g := WalkTracked(decode, at, value, f);
        if g.Some? {
          ProjectWalk(decode, rest, g.value);
        }
      }
  }

  lemma {:induction false} RootWalk(decode: Decoder, members: Members, f: Found)
    requires Coherent(f.seen)
    ensures Walk(decode, [], members, f).Some? <==>
            Fits(decode, [], DECAPS, members, f.seen) && Fits(decode, [], CONNECTION, members, f.seen)
            && Fits(decode, [], PROJECT, members, f.seen)
    decreases members
  {
    match members
    case NoMembers =>
    case Member(_, key, _, _, value, _, rest) =>
      hide Fits, ValueFits;
      var at := [] + [KeyToken(key)];
      RootPaths(KeyToken(key));
      FitsStep(decode, [], DECAPS, members, f.seen);
      FitsStep(decode, [], CONNECTION, members, f.seen);
      FitsStep(decode, [], PROJECT, members, f.seen);
      if !IsTracked(at) {
        RootWalk(decode, rest, f);
      } else {
        var g := WalkTracked(decode, at, value, f);
        RootValue(decode, at, value, f);
        if g.Some? {
          RootWalk(decode, rest, g.value);
          SameFits(decode, DECAPS, rest, f.seen, at, g.value.seen);
          SameFits(decode, CONNECTION, rest, f.seen, at, g.value.seen);
          SameFits(decode, PROJECT, rest, f.seen, at, g.value.seen);
        }
      }
  }

  /** The three root keys are the only tracked paths of length one. */
  lemma RootPaths(token: Bytes)
    ensures IsTracked([] + [token]) <==> token == DECAPS || token == CONNECTION || token == PROJECT
    ensures DECAPS != CONNECTION && DECAPS != PROJECT && CONNECTION != PROJECT
  {
    var at: Path := [] + [token];
    assert |at| == 1 && at[0] == token;
    assert |[DECAPS]| == 1 && [DECAPS][0] == DECAPS && [CONNECTION][0] == CONNECTION && [PROJECT][0] == PROJECT;
    assert |DECAPS| == 6 && |CONNECTION| == 19 && |PROJECT| == 18;
  }

  /** What is seen below the root does not matter to a root key, and a key seen once more is the walked one. */
  lemma SameFits(decode: Decoder, key: Bytes, members: Members, seen: set<Path>, at: Path, more: set<Path>)
    requires |at| == 1
    requires forall path: Path :: |path| == 1 ==> (path in more <==> path in seen || path == at)
    ensures Fits(decode, [], key, members, more) <==>
            if at == [] + [key] then Fits(decode, [], key, members, seen + {[] + [key]}) else Fits(decode, [], key, members, seen)
  {
    var path: Path := [] + [key];
    assert |path| == 1;
  }

  lemma RootValue(decode: Decoder, at: Path, value: Value, f: Found)
    requires Coherent(f.seen) && |at| == 1 && IsTracked(at)
    ensures var g := WalkTracked(decode, at, value, f);
            && (g.Some? <==> at !in f.seen && ValueFits(decode, at, value))
            && (g.Some? ==> Coherent(g.value.seen))
            && (g.Some? ==> forall path: Path :: |path| == 1 ==> (path in g.value.seen <==> path in f.seen || path == at))
  {
    if at == [PROJECT] && value.Object? && at !in f.seen {
      ProjectWalk(decode, value.members, f.(seen := f.seen + {at}));
      if WalkTracked(decode, at, value, f).Some? {
        WalkAdds(decode, at, value.members, f.(seen := f.seen + {at}));
        ReachedBelow(at, value.members);
      }
      assert [PROJECT] + [RAILS] == [PROJECT, RAILS] && [PROJECT] + [STACKUP] == [PROJECT, STACKUP];
    }
  }

  lemma {:induction false} ReachedBelow(path: Path, members: Members)
    requires |path| >= 1
    ensures forall at :: at in Reached(path, members) ==> |at| >= 2
  {
    if members.Member? {
      ReachedBelow(path, members.rest);
    }
  }

  /** Where a target key of this level is held, and what was cut there. */
  lemma {:induction false} CutHere(path: Path, key: Bytes, members: Members)
    requires path == [] || path == [PROJECT]
    requires IsTarget(path + [key])
    ensures path + [key] in Cut(path, members) <==> ValuesAt(members, key) != []
    ensures |ValuesAt(members, key)| == 1 ==> Cut(path, members)[path + [key]] == Print(ValuesAt(members, key)[0])
    decreases members
  {
    match members
    case NoMembers =>
    case Member(_, raw, _, _, value, _, rest) =>
      CutHere(path, key, rest);
      var at := path + [KeyToken(raw)];
      assert at == path + [key] <==> KeyToken(raw) == key by {
        assert at[|path|] == KeyToken(raw) && (path + [key])[|path|] == key;
      }
      if at == [PROJECT] && value.Object? {
        CutBelow(value.members);
      }
  }

  lemma {:induction false} CutBelow(members: Members)
    ensures forall at :: at in Cut([PROJECT], members) ==> |at| == 2 && at[0] == PROJECT
    decreases members
  {
    if members.Member? {
      CutBelow(members.rest);
    }
  }

  /** The project object's targets, seen from the root. */
  lemma {:induction false} CutProject(members: Members, path: Path)
    requires |path| == 2
    requires forall v :: v in ValuesAt(members, PROJECT) ==> v.Object?
    ensures ValuesAt(members, PROJECT) == [] ==> path !in Cut([], members)
    ensures |ValuesAt(members, PROJECT)| == 1 ==>
              var inner := Cut([PROJECT], ValuesAt(members, PROJECT)[0].members);
              && (path in Cut([], members) <==> path in inner)
              && (path in inner ==> Cut([], members)[path] == inner[path])
    decreases members
  {
    match members
    case NoMembers =>
    case Member(_, raw, _, _, value, _, rest) =>
      var at := [] + [KeyToken(raw)];
      assert at == [KeyToken(raw)];
      assert Cut([], members) == CutValue(at, value) + Cut([], rest);
      if KeyToken(raw) == PROJECT {
        assert ValuesAt(members, PROJECT) == [value] + ValuesAt(rest, PROJECT);
        CutProject(rest, path);
      } else {
        assert ValuesAt(members, PROJECT) == ValuesAt(rest, PROJECT);
        CutProject(rest, path);
      }
  }

  // ---- whole documents ----

  lemma {:induction false} RunLead(decode: Decoder, w: Bytes)
    requires AllSpace(w)
    ensures Run(decode, Live(INITIAL), w) == Live(INITIAL)
  {
    if w != [] {
      RunLead(decode, w[1..]);
    }
  }

  lemma {:induction false} RunTrail(decode: Decoder, s: State, w: Bytes)
    requires AllSpace(w) && s.capture.None? && s.pending.None? && s.rootClosed
    ensures Run(decode, Live(s), w) == Live(s)
  {
    if w != [] {
      RunTrail(decode, s, w[1..]);
    }
  }

  /** The state after a whole document with an object at its root. */
  lemma RunObjectDocument(decode: Decoder, doc: Document)
    requires WellFormedDocument(doc) && doc.root.Object?
    ensures var w := Walk(decode, [], doc.root.members, Found(map[], {}));
            Run(decode, Live(INITIAL), PrintDocument(doc)) ==
            if w.None? then Failed else Live(With(INITIAL.(rootStarted := true, rootClosed := true), w.value))
  {
    hide Run, Walk, PrintMembers;
    var Document(lead, root, trail) := doc;
    var s := INITIAL.(rootStarted := true, frames := [Frame(false, [], None, true)]);
    var body := PrintMembers(root.members);
    var tail := [CLOSE_BRACE] + trail;
    assert PrintDocument(doc) == lead + ([OPEN_BRACE] + (root.pad + (body + tail)));
    RunLead(decode, lead);
    RunConcat(decode, Live(INITIAL), lead, [OPEN_BRACE] + (root.pad + (body + tail)));
    RunConcat(decode, Live(INITIAL), [OPEN_BRACE], root.pad + (body + tail));
    RunOne(decode, INITIAL, OPEN_BRACE);
    assert Step(decode, INITIAL, OPEN_BRACE) == Live(s);
    RunConcat(decode, Live(s), root.pad, body + tail);
    RunSpace(decode, s, root.pad);
    WalkMembers(decode, s, root.members, tail);
    var w := Walk(decode, [], root.members, Found(map[], {}));
    if w.Some? {
      var last := WalkEnd(decode, s, root.members);
      var closed := With(INITIAL.(rootStarted := true, rootClosed := true), w.value);
      RunConcat(decode, Live(last), [CLOSE_BRACE], trail);
      RunOne(decode, last, CLOSE_BRACE);
      assert Step(decode, last, CLOSE_BRACE) == Live(closed);
      RunTrail(decode, closed, trail);
    }
  }

  lemma RunOtherDocument(decode: Decoder, doc: Document)
    requires WellFormedDocument(doc) && !doc.root.Object?
    ensures Run(decode, Live(INITIAL), PrintDocument(doc)) == Failed
  {
    var text := Print(doc.root);
    assert text + doc.trail == [text[0]] + (text[1..] + doc.trail);
    assert !IsSpace(text[0]) && text[0] != OPEN_BRACE;
    RunLead(decode, doc.lead);
    RunConcat(decode, Live(INITIAL), doc.lead, text + doc.trail);
    RunConcat(decode, Live(INITIAL), [text[0]], text[1..] + doc.trail);
    RunOne(decode, INITIAL, text[0]);
  }

  /** Whether all four texts were cut, and which they are when no key repeats. */
  lemma CutTargets(members: Members)
    requires |ValuesAt(members, PROJECT)| == 1 && ValuesAt(members, PROJECT)[0].Object?
    ensures var inner, cut := ValuesAt(members, PROJECT)[0].members, Cut([], members);
            && (cut.Keys == {[DECAPS], [CONNECTION], [PROJECT, RAILS], [PROJECT, STACKUP]} <==>
                  ValuesAt(members, DECAPS) != [] && ValuesAt(members, CONNECTION) != []
                  && ValuesAt(inner, RAILS) != [] && ValuesAt(inner, STACKUP) != [])
            && (|ValuesAt(members, DECAPS)| == 1 ==> [DECAPS] in cut && cut[[DECAPS]] == Print(ValuesAt(members, DECAPS)[0]))
            && (|ValuesAt(members, CONNECTION)| == 1 ==>
                  [CONNECTION] in cut && cut[[CONNECTION]] == Print(ValuesAt(members, CONNECTION)[0]))
            && (|ValuesAt(inner, RAILS)| == 1 ==>
                  [PROJECT, RAILS] in cut && cut[[PROJECT, RAILS]] == Print(ValuesAt(inner, RAILS)[0]))
            && (|ValuesAt(inner, STACKUP)| == 1 ==>
                  [PROJECT, STACKUP] in cut && cut[[PROJECT, STACKUP]] == Print(ValuesAt(inner, STACKUP)[0]))
  {
    hide Cut, ValuesAt, Print;
    var inner := ValuesAt(members, PROJECT)[0].members;
    RootKeys();
    CutHere([], DECAPS, members);
    CutHere([], CONNECTION, members);
    CutProject(members, [PROJECT, RAILS]);
    CutProject(members, [PROJECT, STACKUP]);
    CutHere([PROJECT], RAILS, inner);
    CutHere([PROJECT], STACKUP, inner);
    CutKeys(members);
  }

  lemma FitsAreHeld(decode: Decoder, members: Members)
    ensures Fits(decode, [], DECAPS, members, {}) && ValuesAt(members, DECAPS) != [] <==> HeldOnce(decode, members, [], DECAPS)
    ensures Fits(decode, [], CONNECTION, members, {}) && ValuesAt(members, CONNECTION) != [] <==>
            HeldOnce(decode, members, [], CONNECTION)
    ensures ProjectFits(decode, members) && ValuesAt(members, RAILS) != [] && ValuesAt(members, STACKUP) != [] <==>
            HeldOnce(decode, members, [PROJECT], RAILS) && HeldOnce(decode, members, [PROJECT], STACKUP)
  {
    RootKeys();
  }

  /** The walk of a root object ends with all targets exactly when each is held once. */
  lemma WalkFindsTargets(decode: Decoder, root: Value)
    requires root.Object?
    ensures var w := Walk(decode, [], root.members, Found(map[], {}));
            && (TargetsOnce(decode, root) <==>
                  w.Some? && w.value.fragments.Keys == {[DECAPS], [CONNECTION], [PROJECT, RAILS], [PROJECT, STACKUP]}
                  && [PROJECT] in w.value.seen)
            && (TargetsOnce(decode, root) ==> w.value.fragments == Selected(decode, root))
  {
    var members, f := root.members, Found(map[], {});
    var projects := ValuesAt(members, PROJECT);
    var w := Walk(decode, [], members, f);
    RootWalk(decode, members, f);
    FitsAreHeld(decode, members);
    ReachedProject(members);
    RootKeys();
    if w.Some? {
      WalkAdds(decode, [], members, f);
      assert f.fragments + Cut([], members) == Cut([], members);
    }
    if |projects| == 1 && projects[0].Object? {
      FitsAreHeld(decode, projects[0].members);
      CutTargets(members);
      if TargetsOnce(decode, root) {
        assert w.Some?;
        SelectedIsCut(decode, root);
      }
    }
  }

  lemma SelectedIsCut(decode: Decoder, root: Value)
    requires TargetsOnce(decode, root)
    ensures Selected(decode, root) == Cut([], root.members)
  {
    CutTargets(root.members);
  }

  lemma RootKeys()
    ensures [] + [DECAPS] == [DECAPS] && [] + [CONNECTION] == [CONNECTION] && [] + [PROJECT] == [PROJECT]
    ensures [PROJECT] + [RAILS] == [PROJECT, RAILS] && [PROJECT] + [STACKUP] == [PROJECT, STACKUP]
    ensures [DECAPS][0] == DECAPS && [CONNECTION][0] == CONNECTION && [PROJECT][0] == PROJECT
    ensures [PROJECT, RAILS][1] == RAILS && [PROJECT, STACKUP][1] == STACKUP
  {
  }

  lemma {:induction false} ReachedProject(members: Members)
    ensures [PROJECT] in Reached([], members) <==> ValuesAt(members, PROJECT) != []
    decreases members
  {
    if members.Member? {
      var at := [] + [KeyToken(members.key)];
      assert at == [PROJECT] <==> KeyToken(members.key) == PROJECT by { assert at[0] == KeyToken(members.key); }
      ReachedProject(members.rest);
      if at == [PROJECT] && members.value.Object? {
        ReachedBelow(at, members.value.members);
      }
    }
  }

  lemma {:induction false} CutKeys(members: Members)
    ensures forall at :: at in Cut([], members) ==> IsTarget(at)
    decreases members
  {
    if members.Member? {
      CutKeys(members.rest);
      if members.value.Object? {
        CutInnerKeys([PROJECT], members.value.members);
      }
    }
  }

  lemma {:induction false} CutInnerKeys(path: Path, members: Members)
    ensures forall at :: at in Cut(path, members) ==> IsTarget(at)
    decreases members
  {
    if members.Member? {
      CutInnerKeys(path, members.rest);
      if members.value.Object? {
        CutInnerKeys(path + [KeyToken(members.key)], members.value.members);
      }
    }
  }

  /**
   Soundness and completeness of the scanner on every well-formed document: it ends complete
   exactly when each target is held once at its key path in an admissible form, and then its
   fragments are the serialised bytes of those values.
   */
  lemma ScanMeetsTree(decode: Decoder, doc: Document)
    requires WellFormedDocument(doc)
    ensures var end := Run(decode, Live(INITIAL), PrintDocument(doc));
            && (end.Live? && Complete(end.state) <==> TargetsOnce(decode, doc.root))
            && (TargetsOnce(decode, doc.root) ==> end.state.fragments == Selected(decode, doc.root))
  {
    if doc.root.Object? {
      RunObjectDocument(decode, doc);
      WalkFindsTargets(decode, doc.root);
    } else {
      RunOtherDocument(decode, doc);
    }
  }
}
