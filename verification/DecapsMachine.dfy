/** The depth-one scanner as a state machine. */
module DecapsMachine {
  // The depth-one scanner of the mounted-path audit as a state machine over bytes. It keeps only the
  // open brackets and the last string, and captures the value of a top-level "decaps" key.

  import opened ByteStrings
  import opened ScenarioMachine

  datatype Scan = Scan(
    stack: seq<byte>,
    quoted: bool,
    escaped: bool,
    token: Bytes,
    lastString: Option<Bytes>,
    captureStack: Option<seq<byte>>,
    text: Bytes,
    decoded: Option<Bytes>,
    awaiting: bool)

  const START := Scan([], false, false, [], None, None, [], None, false)

  datatype Progress = Broken | Going(scan: Scan)

  const DECAPS_LIMIT: nat := 256 * MIB

  function CaptureByte(decode: Decoder, s: Scan, b: byte): Progress
    requires s.captureStack.Some?
  {
    var t := s.(text := s.text + [b]);
    var stack := s.captureStack.value;
    if s.quoted then
      Going(if s.escaped then t.(escaped := false)
            else if b == BACKSLASH then t.(escaped := true)
            else if b == QUOTE then t.(quoted := false)
            else t)
    else if b == QUOTE then Bounded(t.(quoted := true))
    else if b == OPEN_BRACKET || b == OPEN_BRACE then Bounded(t.(captureStack := Some(stack + [b])))
    else if b == CLOSE_BRACKET || b == CLOSE_BRACE then
      if stack == [] || !Closes(stack[|stack| - 1], b) then Broken
      else if |stack| > 1 then Bounded(t.(captureStack := Some(stack[..|stack| - 1])))
      else if decode(t.text) == DecodedList(true) then Bounded(t.(captureStack := None, decoded := Some(t.text)))
      else Broken
    else Bounded(t)
  }

  /** The size test, which bytes inside a string do not reach. */
  function Bounded(s: Scan): Progress {
    if |s.text| > DECAPS_LIMIT then Broken else Going(s)
  }

  function StringByte(s: Scan, b: byte): Progress {
    if s.escaped then Going(s.(escaped := false))
    else if b == BACKSLASH then Going(s.(escaped := true))
    else if b != QUOTE then Going(s.(token := s.token + [b]))
    else if ValidUtf8(s.token) then Going(s.(quoted := false, lastString := Some(s.token), token := []))
    else Broken
  }

  function Next(decode: Decoder, s: Scan, b: byte): Progress {
    if s.captureStack.Some? then CaptureByte(decode, s, b)
    else if s.awaiting then
      if IsSpace(b) then Going(s)
      else if b != OPEN_BRACKET then Broken
      else Going(s.(captureStack := Some([OPEN_BRACKET]), text := [OPEN_BRACKET], awaiting := false))
    else if s.quoted then StringByte(s, b)
    else if b == QUOTE then Going(s.(quoted := true, token := []))
    else if b == COLON && |s.stack| == 1 && s.lastString == Some(DECAPS) then
      if s.decoded.Some? then Broken else Going(s.(awaiting := true, lastString := None))
    else if b == OPEN_BRACKET || b == OPEN_BRACE then Going(s.(stack := s.stack + [b], lastString := None))
    else if b == CLOSE_BRACKET || b == CLOSE_BRACE then
      if s.stack == [] then Broken else Going(s.(stack := s.stack[..|s.stack| - 1], lastString := None))
    else if !IsSpace(b) then Going(s.(lastString := None))
    else Going(s)
  }

  function Advance(decode: Decoder, p: Progress, input: Bytes): Progress
    decreases |input|
  {
    if p.Broken? || input == [] then p else Advance(decode, Next(decode, p.scan, input[0]), input[1..])
  }

  predicate Finished(s: Scan) {
    s.captureStack.None? && !s.awaiting && s.decoded.Some?
  }

  lemma {:induction false} AdvanceConcat(decode: Decoder, p: Progress, a: Bytes, b: Bytes)
    ensures Advance(decode, p, a + b) == Advance(decode, Advance(decode, p, a), b)
    decreases |a|
  {
    if p.Going? && a != [] {
      assert (a + b)[1..] == a[1..] + b;
      AdvanceConcat(decode, Next(decode, p.scan, a[0]), a[1..], b);
    } else if p.Going? {
      assert a + b == b;
    }
  }

  lemma AdvanceOne(decode: Decoder, s: Scan, b: byte)
    ensures Advance(decode, Going(s), [b]) == Next(decode, s, b)
  {
    assert Advance(decode, Next(decode, s, b), [b][1..]) == Next(decode, s, b);
  }

  lemma AdvanceCons(decode: Decoder, s: Scan, b: byte, rest: Bytes)
    ensures Advance(decode, Going(s), [b] + rest) == Advance(decode, Next(decode, s, b), rest)
  {
    assert ([b] + rest)[1..] == rest;
  }
}
