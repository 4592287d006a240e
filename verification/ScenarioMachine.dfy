/** The frame-stack scanner as a state machine. */
module ScenarioMachine {
  // The frame-stack scanner of the terminal-Via audit as a state machine over bytes: its state,
  // one step, and its runs.

  import opened ByteStrings

  type Path = seq<Bytes>

  const DECAPS: Bytes := Ascii("decaps")
  const CONNECTION: Bytes := Ascii("connection_analysis")
  const PROJECT: Bytes := Ascii("normalized_project")
  const RAILS: Bytes := Ascii("rails")
  const STACKUP: Bytes := Ascii("stackup_layers")

  /** The four captured key paths. */
  predicate IsTarget(path: Path) {
    path == [DECAPS] || path == [CONNECTION] || path == [PROJECT, RAILS] || path == [PROJECT, STACKUP]
  }

  /** The captured paths and the project object they are nested in. */
  predicate IsTracked(path: Path) {
    IsTarget(path) || path == [PROJECT]
  }

  /** The bracket a tracked value has to open with: a list or an object. */
  function Opening(path: Path): byte {
    if path == [CONNECTION] || path == [PROJECT] then OPEN_BRACE else OPEN_BRACKET
  }

  const MIB: nat := 1024 * 1024

  function Limit(path: Path): nat {
    if path == [DECAPS] then 256 * MIB
    else if path == [CONNECTION] then 512 * MIB
    else 16 * MIB
  }

  /** What strict JSON decoding makes of a fragment. */
  datatype Decoded = Malformed | DecodedList(allObjects: bool) | DecodedObject | DecodedScalar

  type Decoder = Bytes -> Decoded

  /** A captured fragment decodes, and to the kind its path asks for. */
  predicate Decodes(decode: Decoder, path: Path, fragment: Bytes) {
    if Opening(path) == OPEN_BRACKET then decode(fragment).DecodedList? else decode(fragment).DecodedObject?
  }

  datatype Frame = Frame(isArray: bool, path: Path, key: Option<Bytes>, expectKey: bool)

  datatype Capture = Capture(path: Path, text: Bytes, stack: seq<byte>)

  datatype State = State(
    frames: seq<Frame>,
    quoted: bool,
    escaped: bool,
    token: Bytes,
    capture: Option<Capture>,
    fragments: map<Path, Bytes>,
    pending: Option<Path>,
    seen: set<Path>,
    rootStarted: bool,
    rootClosed: bool)

  const INITIAL := State([], false, false, [], None, map[], None, {}, false, false)

  datatype Status = Failed | Live(state: State)

  function Top(s: State): Frame
    requires s.frames != []
  {
    s.frames[|s.frames| - 1]
  }

  function WithTop(s: State, frame: Frame): State
    requires s.frames != []
  {
    s.(frames := s.frames[..|s.frames| - 1] + [frame])
  }

  /** Opening a container as the value of the top frame's key uses that key up. */
  function UseKey(s: State): State {
    if s.frames != [] && !Top(s).isArray then WithTop(s, Top(s).(key := None)) else s
  }

  /** Quote and escape flags inside a string. */
  function QuoteStep(s: State, b: byte): State {
    if s.escaped then s.(escaped := false)
    else if b == BACKSLASH then s.(escaped := true)
    else if b == QUOTE then s.(quoted := false)
    else s
  }

  predicate Closes(opening: byte, b: byte) {
    (opening == OPEN_BRACKET && b == CLOSE_BRACKET) || (opening == OPEN_BRACE && b == CLOSE_BRACE)
  }

  function FinishFragment(decode: Decoder, s: State): Status
    requires s.capture.Some?
  {
    var c := s.capture.value;
    if Decodes(decode, c.path, c.text)
    then Live(s.(fragments := s.fragments[c.path := c.text], capture := None))
    else Failed
  }

  function CaptureStep(decode: Decoder, s: State, b: byte): Status
    requires s.capture.Some?
  {
    var c := s.capture.value.(text := s.capture.value.text + [b]);
    var t := s.(capture := Some(c));
    if |c.text| > Limit(c.path) then Failed
    else if s.quoted then Live(QuoteStep(t, b))
    else if b == QUOTE then Live(t.(quoted := true))
    else if b == OPEN_BRACKET || b == OPEN_BRACE then Live(t.(capture := Some(c.(stack := c.stack + [b]))))
    else if b == CLOSE_BRACKET || b == CLOSE_BRACE then
      if c.stack == [] || !Closes(c.stack[|c.stack| - 1], b) then Failed
      else
        var u := t.(capture := Some(c.(stack := c.stack[..|c.stack| - 1])));
        if |c.stack| == 1 then FinishFragment(decode, u) else Live(u)
    else Live(t)
  }

  function PendingStep(s: State, b: byte): Status
    requires s.pending.Some?
  {
    var path := s.pending.value;
    if IsSpace(b) then Live(s)
    else if b != Opening(path) then Failed
    else
      var t := UseKey(s.(pending := None));
      if IsTarget(path) then Live(t.(capture := Some(Capture(path, [b], [b]))))
      else Live(t.(frames := t.frames + [Frame(false, path, None, true)]))
  }

  function RootStep(s: State, b: byte): Status
    requires !s.rootStarted
  {
    if IsSpace(b) then Live(s)
    else if b != OPEN_BRACE then Failed
    else Live(s.(rootStarted := true, frames := s.frames + [Frame(false, [], None, true)]))
  }

  /** A byte inside a key or a string outside any capture; the closing quote sets an expected key. */
  function StringStep(s: State, b: byte): Status {
    if s.escaped || b == BACKSLASH then Live(QuoteStep(s, b))
    else if b != QUOTE then Live(s.(token := s.token + [b]))
    else if s.frames != [] && !Top(s).isArray && Top(s).expectKey then
      if ValidUtf8(s.token)
      then Live(WithTop(s, Top(s).(key := Some(s.token))).(quoted := false, token := []))
      else Failed
    else Live(s.(quoted := false, token := []))
  }

  function ColonStep(s: State): Status
    requires s.frames != []
  {
    var frame := Top(s);
    if frame.isArray || frame.key.None? || !frame.expectKey then Failed
    else
      var path := frame.path + [frame.key.value];
      var t := WithTop(s, frame.(expectKey := false));
      if !IsTracked(path) then Live(t)
      else if path in s.seen || s.pending.Some? then Failed
      else Live(t.(seen := s.seen + {path}, pending := Some(path)))
  }

  function ChildPath(frame: Frame): Path {
    if !frame.isArray && frame.key.Some? then frame.path + [frame.key.value] else frame.path
  }

  function OpenStep(s: State, b: byte): Status
    requires s.frames != []
  {
    var path := ChildPath(Top(s));
    var t := UseKey(s);
    Live(t.(frames := t.frames + [Frame(b == OPEN_BRACKET, path, None, b == OPEN_BRACE)]))
  }

  function CloseStep(s: State, b: byte): Status
    requires s.frames != []
  {
    if b != (if Top(s).isArray then CLOSE_BRACKET else CLOSE_BRACE) then Failed
    else
      var frames := s.frames[..|s.frames| - 1];
      Live(s.(frames := frames, rootClosed := s.rootClosed || frames == []))
  }

  function CommaStep(s: State): State
    requires s.frames != []
  {
    if Top(s).isArray then s else WithTop(s, Top(s).(expectKey := true, key := None))
  }

  function Step(decode: Decoder, s: State, b: byte): Status {
    if s.capture.Some? then CaptureStep(decode, s, b)
    else if s.pending.Some? then PendingStep(s, b)
    else if s.rootClosed then (if IsSpace(b) then Live(s) else Failed)
    else if !s.rootStarted then RootStep(s, b)
    else if s.quoted then StringStep(s, b)
    else if b == QUOTE then Live(s.(quoted := true, token := []))
    else if s.frames == [] then Failed
    else if b == COLON then ColonStep(s)
    else if b == OPEN_BRACKET || b == OPEN_BRACE then OpenStep(s, b)
    else if b == CLOSE_BRACKET || b == CLOSE_BRACE then CloseStep(s, b)
    else if b == COMMA then Live(CommaStep(s))
    else Live(s)
  }

  function Run(decode: Decoder, s: Status, input: Bytes): Status
    decreases |input|
  {
    if s.Failed? || input == [] then s else Run(decode, Step(decode, s.state, input[0]), input[1..])
  }

  /** The scanner stopped at a complete document that held every target. */
  predicate Complete(s: State) {
    && !s.quoted && s.capture.None? && s.pending.None? && s.frames == [] && s.rootStarted && s.rootClosed
    && s.fragments.Keys == {[DECAPS], [CONNECTION], [PROJECT, RAILS], [PROJECT, STACKUP]}
    && [PROJECT] in s.seen
  }

  lemma {:induction false} RunConcat(decode: Decoder, s: Status, a: Bytes, b: Bytes)
    ensures Run(decode, s, a + b) == Run(decode, Run(decode, s, a), b)
    decreases |a|
  {
    if s.Live? && a != [] {
      assert (a + b)[1..] == a[1..] + b;
      RunConcat(decode, Step(decode, s.state, a[0]), a[1..], b);
    } else if s.Live? {
      assert a + b == b;
    }
  }

  lemma RunOne(decode: Decoder, s: State, b: byte)
    ensures Run(decode, Live(s), [b]) == Step(decode, s, b)
  {
    assert Run(decode, Step(decode, s, b), [b][1..]) == Step(decode, s, b);
  }

  lemma RunCons(decode: Decoder, s: State, b: byte, rest: Bytes)
    ensures Run(decode, Live(s), [b] + rest) == Run(decode, Step(decode, s, b), rest)
  {
    assert ([b] + rest)[1..] == rest;
  }
}
