/** What the frame-stack scanner ensures on any input. */
module ScannerSafety {
  import opened ByteStrings
  import opened ScenarioMachine

  // ---- brackets outside strings ----

  /** The brackets open so far, and whether a string is; or a closing bracket that closes nothing. */
  datatype Brackets = Mismatch | Brackets(open: seq<byte>, quoted: bool, escaped: bool)

  const OUTSIDE := Brackets([], false, false)

  function ReadByte(p: Brackets, b: byte): Brackets {
    if p.Mismatch? then p
    else if p.quoted then
      (if p.escaped then p.(escaped := false) else if b == 92 then p.(escaped := true) else p.(quoted := b != 34))
    else if b == 34 then p.(quoted := true)
    else if b == 91 || b == 123 then p.(open := p.open + [b])
    else if b == 93 || b == 125 then
      var n := |p.open|;
      if n > 0 && p.open[n - 1] == (if b == 93 then 91 else 123) then p.(open := p.open[..n - 1]) else Mismatch
    else p
  }

  function Read(p: Brackets, input: Bytes): Brackets
    decreases |input|
  {
    if input == [] then p else ReadByte(Read(p, input[..|input| - 1]), input[|input| - 1])
  }

  /** Outside strings the brackets match, and no string is left open. */
  predicate Nested(input: Bytes) {
    Read(OUTSIDE, input) == OUTSIDE
  }

  lemma ReadNext(p: Brackets, input: Bytes, b: byte)
    ensures Read(p, input + [b]) == ReadByte(Read(p, input), b)
  {
    assert (input + [b])[..|input|] == input;
  }

  // ---- the invariant ----

  /** A path the scanner may file, with the size and the type of what is filed there. */
  predicate Fileable(decode: Decoder, at: Path, fragment: Bytes) {
    || (at == [Ascii("decaps")] && |fragment| <= 0x1000_0000 && decode(fragment).DecodedList?)
    || (at == [Ascii("connection_analysis")] && |fragment| <= 0x2000_0000 && decode(fragment).DecodedObject?)
    || (at == [Ascii("normalized_project"), Ascii("rails")] && |fragment| <= 0x100_0000 && decode(fragment).DecodedList?)
    || (at == [Ascii("normalized_project"), Ascii("stackup_layers")] && |fragment| <= 0x100_0000 && decode(fragment).DecodedList?)
  }

  predicate StandsAt(part: Bytes, whole: Bytes, i: nat) {
    i + |part| <= |whole| && whole[i..i + |part|] == part
  }

  predicate IsSlice(part: Bytes, whole: Bytes) {
    exists i :: 0 <= i <= |whole| && StandsAt(part, whole, i)
  }

  /** A filed fragment: of a target's type and size, a slice of what was read, its brackets matched. */
  predicate Filed(decode: Decoder, done: Bytes, at: Path, fragment: Bytes) {
    Fileable(decode, at, fragment) && Nested(fragment) && IsSlice(fragment, done)
  }

  function Opened(frames: seq<Frame>): (r: seq<byte>)
    ensures |r| == |frames|
    ensures forall i :: 0 <= i < |r| ==> r[i] == if frames[i].isArray then 91 else 123
  {
    seq(|frames|, i requires 0 <= i < |frames| => if frames[i].isArray then 91 else 123)
  }

  function Open(s: State): seq<byte> {
    Opened(s.frames) + (if s.capture.Some? then s.capture.value.stack else [])
  }

  /** The capture is the end of what was read, within its limit, and its stack is the brackets open in it. */
  predicate Captures(s: State, c: Capture, done: Bytes) {
    && IsTarget(c.path) && |c.text| <= Limit(c.path) && c.path !in s.fragments
    && |c.text| <= |done| && done[|done| - |c.text|..] == c.text
    && c.stack != [] && Read(OUTSIDE, c.text) == Brackets(c.stack, s.quoted, s.escaped)
  }

  predicate Flags(s: State) {
    && (s.escaped ==> s.quoted)
    && (s.capture.Some? ==> s.rootStarted && !s.rootClosed)
    && (s.pending.Some? ==> !s.quoted && s.capture.None? && s.rootStarted && !s.rootClosed && IsTracked(s.pending.value) && s.pending.value !in s.fragments)
    && (s.rootClosed ==> s.frames == [] && s.rootStarted && !s.quoted && s.capture.None?)
    && (!s.rootStarted ==> s.frames == [] && !s.quoted && s.capture.None?)
    && s.fragments.Keys <= s.seen
  }

  ghost predicate Safe(decode: Decoder, s: State, done: Bytes) {
    && Flags(s) && Read(OUTSIDE, done) == Brackets(Open(s), s.quoted, s.escaped)
    && (s.capture.Some? ==> Captures(s, s.capture.value, done) && s.capture.value.path in s.seen)
    && (s.pending.Some? ==> s.pending.value in s.seen)
    && forall at :: at in s.fragments ==> Filed(decode, done, at, s.fragments[at])
  }

  // ---- every step keeps it ----

  lemma FilingGrows(decode: Decoder, fragments: map<Path, Bytes>, done: Bytes, b: byte)
    requires forall at :: at in fragments ==> Filed(decode, done, at, fragments[at])
    ensures forall at :: at in fragments ==> Filed(decode, done + [b], at, fragments[at])
  {
    hide Nested, Fileable;
    forall at | at in fragments ensures IsSlice(fragments[at], done + [b]) {
      assert Filed(decode, done, at, fragments[at]);
      var part := fragments[at];
      var i :| 0 <= i <= |done| && StandsAt(part, done, i);
      assert StandsAt(part, done + [b], i);
    }
  }

  lemma SuffixIsSlice(part: Bytes, whole: Bytes)
    requires |part| <= |whole| && whole[|whole| - |part|..] == part
    ensures IsSlice(part, whole)
  {
    assert StandsAt(part, whole, |whole| - |part|);
  }

  lemma CaptureGrows(text: Bytes, done: Bytes, b: byte)
    requires |text| <= |done| && done[|done| - |text|..] == text
    ensures (done + [b])[|done| - |text|..] == text + [b]
  {
  }

  lemma TargetsAreFileable(decode: Decoder, at: Path, fragment: Bytes)
    requires IsTarget(at) && |fragment| <= Limit(at) && Decodes(decode, at, fragment)
    ensures Fileable(decode, at, fragment)
  {
  }

  lemma CaptureKeeps(decode: Decoder, s: State, done: Bytes, b: byte)
    requires Safe(decode, s, done) && s.capture.Some? && CaptureStep(decode, s, b).Live?
    ensures Safe(decode, CaptureStep(decode, s, b).state, done + [b])
  {
    hide IsTarget, IsTracked, Limit, Decodes, Filed, Read;
    var c, t := s.capture.value, CaptureStep(decode, s, b).state;
    ReadNext(OUTSIDE, done, b);
    ReadNext(OUTSIDE, c.text, b);
    CaptureGrows(c.text, done, b);
    FilingGrows(decode, s.fragments, done, b);
    TopOfStack(Opened(s.frames), c.stack, b);
    if t.capture.None? {
      assert Read(OUTSIDE, c.text + [b]) == OUTSIDE;
      CaptureIsFiled(decode, c, done + [b], c.text + [b]);
      assert Opened(s.frames) + [] == Opened(s.frames);
    }
  }

  lemma CaptureIsFiled(decode: Decoder, c: Capture, done: Bytes, text: Bytes)
    requires IsTarget(c.path) && |text| <= Limit(c.path) && Decodes(decode, c.path, text)
    requires Read(OUTSIDE, text) == OUTSIDE && |text| <= |done| && done[|done| - |text|..] == text
    ensures Filed(decode, done, c.path, text)
  {
    hide Read, IsSlice;
    SuffixIsSlice(text, done);
    TargetsAreFileable(decode, c.path, text);
  }

  /** The bracket on top of the joined stack is the capture's. */
  lemma TopOfStack(frames: seq<byte>, stack: seq<byte>, b: byte)
    requires stack != []
    ensures (frames + stack)[|frames| + |stack| - 1] == stack[|stack| - 1]
    ensures (frames + stack)[..|frames| + |stack| - 1] == frames + stack[..|stack| - 1]
    ensures (frames + stack) + [b] == frames + (stack + [b])
  {
  }

  lemma OpenedTop(frames: seq<Frame>, frame: Frame)
    ensures Opened(frames + [frame]) == Opened(frames) + [if frame.isArray then 91 else 123]
    ensures frames != [] ==> Opened(frames[..|frames| - 1]) == Opened(frames)[..|frames| - 1]
    ensures frames != [] && frame.isArray == frames[|frames| - 1].isArray ==>
              Opened(frames[..|frames| - 1] + [frame]) == Opened(frames)
  {
  }

  lemma PendingKeeps(decode: Decoder, s: State, done: Bytes, b: byte)
    requires Safe(decode, s, done) && s.capture.None? && s.pending.Some? && PendingStep(s, b).Live?
    ensures Safe(decode, PendingStep(s, b).state, done + [b])
  {
    hide IsTarget, Filed, Read, UseKey;
    ReadNext(OUTSIDE, done, b);
    FilingGrows(decode, s.fragments, done, b);
    assert Opened(s.frames) + [] == Opened(s.frames);
    if !IsSpace(b) {
      KeyIsUsed(s);
      BracketOpens(decode, s, UseKey(s.(pending := None)), done, b);
    }
  }

  lemma KeyIsUsed(s: State)
    ensures var t := UseKey(s.(pending := None));
            Opened(t.frames) == Opened(s.frames) && t == s.(pending := None, frames := t.frames) && (s.frames == [] <==> t.frames == [])
  {
    if s.frames != [] {
      OpenedTop(s.frames, Top(s).(key := None));
    }
  }

  /** The bracket after a tracked key's colon opens a capture or the project's frame. */
  lemma BracketOpens(decode: Decoder, s: State, used: State, done: Bytes, b: byte)
    requires Flags(s) && s.pending.Some? && s.pending.value in s.seen && (b == 91 || b == 123)
    requires used == s.(pending := None, frames := used.frames) && Opened(used.frames) == Opened(s.frames)
    requires Read(OUTSIDE, done + [b]) == Brackets(Opened(s.frames) + [b], false, false)
    requires forall at :: at in s.fragments ==> Filed(decode, done + [b], at, s.fragments[at])
    ensures IsTarget(s.pending.value) ==> Safe(decode, used.(capture := Some(Capture(s.pending.value, [b], [b]))), done + [b])
    ensures b == 123 ==> Safe(decode, used.(frames := used.frames + [Frame(false, s.pending.value, None, true)]), done + [b])
  {
    hide IsTarget, IsTracked, Filed, Read, Limit;
    OpenedTop(used.frames, Frame(false, s.pending.value, None, true));
    assert (Opened(used.frames) + [b]) + [] == Opened(used.frames) + [b];
    FirstByte(b);
    LimitsAreLarge(s.pending.value);
    assert (done + [b])[|done|..] == [b];
  }

  lemma LimitsAreLarge(path: Path)
    ensures Limit(path) >= 1
  {
  }

  lemma FirstByte(b: byte)
    requires b == 91 || b == 123
    ensures Read(OUTSIDE, [b]) == Brackets([b], false, false)
  {
    ReadNext(OUTSIDE, [], b);
    assert [] + [b] == [b];
  }

  /** A step outside captures that files nothing: the brackets follow the byte, and the flags stay coherent. */
  predicate Follows(s: State, t: State, b: byte) {
    && t.fragments == s.fragments && t.capture.None? && s.seen <= t.seen
    && ReadByte(Brackets(Opened(s.frames), s.quoted, s.escaped), b) == Brackets(Opened(t.frames), t.quoted, t.escaped)
    && Flags(t) && (t.pending.Some? ==> t.pending.value in t.seen)
  }

  predicate Between(s: State) {
    Flags(s) && s.capture.None? && s.pending.None?
  }

  lemma StringFollows(s: State, b: byte)
    requires Between(s) && s.rootStarted && !s.rootClosed && s.quoted && StringStep(s, b).Live?
    ensures Follows(s, StringStep(s, b).state, b)
  {
    hide IsTracked;
    if s.frames != [] {
      OpenedTop(s.frames, Top(s).(key := Some(s.token)));
    }
  }

  lemma ColonFollows(s: State)
    requires Between(s) && s.rootStarted && !s.rootClosed && !s.quoted && s.frames != [] && ColonStep(s).Live?
    ensures Follows(s, ColonStep(s).state, COLON)
  {
    hide IsTracked;
    OpenedTop(s.frames, Top(s).(expectKey := false));
  }

  lemma OpenFollows(s: State, b: byte)
    requires Between(s) && s.rootStarted && !s.rootClosed && !s.quoted && s.frames != [] && (b == OPEN_BRACKET || b == OPEN_BRACE)
    ensures Follows(s, OpenStep(s, b).state, b)
  {
    hide IsTracked, ChildPath;
    OpenedTop(s.frames, Top(s).(key := None));
    OpenedTop(UseKey(s).frames, Frame(b == OPEN_BRACKET, ChildPath(Top(s)), None, b == OPEN_BRACE));
  }

  lemma CloseFollows(s: State, b: byte)
    requires Between(s) && s.rootStarted && !s.rootClosed && !s.quoted && s.frames != [] && (b == CLOSE_BRACKET || b == CLOSE_BRACE)
    requires CloseStep(s, b).Live?
    ensures Follows(s, CloseStep(s, b).state, b)
  {
    hide IsTracked;
    OpenedTop(s.frames, Top(s));
  }

  lemma CommaFollows(s: State)
    requires Between(s) && s.rootStarted && !s.rootClosed && !s.quoted && s.frames != []
    ensures Follows(s, CommaStep(s), COMMA)
  {
    hide IsTracked;
    OpenedTop(s.frames, Top(s).(expectKey := true, key := None));
  }

  lemma RootFollows(s: State, b: byte)
    requires Between(s) && !s.rootStarted && RootStep(s, b).Live?
    ensures Follows(s, RootStep(s, b).state, b)
  {
    hide IsTracked;
    OpenedTop(s.frames, Frame(false, [], None, true));
  }

  lemma StepFollows(decode: Decoder, s: State, b: byte)
    requires Between(s) && Step(decode, s, b).Live?
    ensures Follows(s, Step(decode, s, b).state, b)
  {
    hide Follows, StringStep, ColonStep, OpenStep, CloseStep, CommaStep, RootStep, IsTracked;
    if s.rootClosed {
      assert Follows(s, s, b) by { Unmoved(s, b); }
    } else if !s.rootStarted {
      RootFollows(s, b);
    } else if s.quoted {
      StringFollows(s, b);
    } else if b == QUOTE {
      assert Follows(s, s.(quoted := true, token := []), b) by { Quotes(s); }
    } else if b == COLON {
      ColonFollows(s);
    } else if b == OPEN_BRACKET || b == OPEN_BRACE {
      OpenFollows(s, b);
    } else if b == CLOSE_BRACKET || b == CLOSE_BRACE {
      CloseFollows(s, b);
    } else if b == COMMA {
      CommaFollows(s);
    } else {
      assert Follows(s, s, b) by { Unmoved(s, b); }
    }
  }

  lemma Unmoved(s: State, b: byte)
    requires Between(s) && !s.quoted && b !in {34, 91, 93, 123, 125}
    ensures Follows(s, s, b)
  {
  }

  lemma Quotes(s: State)
    requires Between(s) && s.rootStarted && !s.rootClosed && !s.quoted
    ensures Follows(s, s.(quoted := true, token := []), 34)
  {
  }

  lemma FrameKeeps(decode: Decoder, s: State, done: Bytes, b: byte)
    requires Safe(decode, s, done) && s.capture.None? && s.pending.None? && Step(decode, s, b).Live?
    ensures Safe(decode, Step(decode, s, b).state, done + [b])
  {
    hide Step, Filed, Flags, IsTracked, Read;
    ReadNext(OUTSIDE, done, b);
    FilingGrows(decode, s.fragments, done, b);
    var t := Step(decode, s, b).state;
    assert Opened(s.frames) + [] == Opened(s.frames) && Opened(t.frames) + [] == Opened(t.frames);
    StepFollows(decode, s, b);
  }

  lemma StepKeeps(decode: Decoder, s: State, done: Bytes, b: byte)
    requires Safe(decode, s, done) && Step(decode, s, b).Live?
    ensures Safe(decode, Step(decode, s, b).state, done + [b])
  {
    hide Safe, CaptureStep, PendingStep;
    if s.capture.Some? {
      CaptureKeeps(decode, s, done, b);
    } else if s.pending.Some? {
      PendingKeeps(decode, s, done, b);
    } else {
      FrameKeeps(decode, s, done, b);
    }
  }

  // ---- runs ----

  /** Every state the scanner reaches, on whatever input, is safe. */
  lemma {:induction false} RunsAreSafe(decode: Decoder, input: Bytes)
    requires Run(decode, Live(INITIAL), input).Live?
    ensures Safe(decode, Run(decode, Live(INITIAL), input).state, input)
    decreases |input|
  {
    hide Safe;
    if input == [] {
      assert Safe(decode, INITIAL, []) by { NothingRead(decode); }
    } else {
      var n := |input| - 1;
      assert input[..n] + [input[n]] == input;
      RunConcat(decode, Live(INITIAL), input[..n], [input[n]]);
      var before := Run(decode, Live(INITIAL), input[..n]);
      RunOne(decode, before.state, input[n]);
      RunsAreSafe(decode, input[..n]);
      StepKeeps(decode, before.state, input[..n], input[n]);
    }
  }

  lemma NothingRead(decode: Decoder)
    ensures Safe(decode, INITIAL, [])
  {
  }

  /**
   Whatever was read, well formed or not: if the scanner ends complete, the brackets of the input match,
   and it has filed exactly the four targets, each a slice of the input with matching brackets, within its
   size and of its type.
   */
  lemma CompletedRuns(decode: Decoder, input: Bytes)
    requires var end := Run(decode, Live(INITIAL), input); end.Live? && Complete(end.state)
    ensures Nested(input)
    ensures var fragments := Run(decode, Live(INITIAL), input).state.fragments;
            && fragments.Keys == {[Ascii("decaps")], [Ascii("connection_analysis")],
                                  [Ascii("normalized_project"), Ascii("rails")], [Ascii("normalized_project"), Ascii("stackup_layers")]}
            && forall at :: at in fragments ==> Filed(decode, input, at, fragments[at])
  {
    RunsAreSafe(decode, input);
  }

  // ---- space around the document ----

  predicate Blank(pad: Bytes) {
    forall i :: 0 <= i < |pad| ==> pad[i] in {32, 9, 10, 13}
  }

  /** Space completes nothing: a state that is complete after a space was complete before it, and is the same. */
  lemma SpaceCompletesNothing(decode: Decoder, s: State, b: byte)
    requires b in {32, 9, 10, 13}
    ensures Step(decode, s, b).Live? && Complete(Step(decode, s, b).state) ==> Complete(s) && Step(decode, s, b).state == s
    ensures Complete(s) ==> Step(decode, s, b) == Live(s)
  {
    hide IsTracked, IsTarget;
  }

  lemma {:induction false} TrailingSpace(decode: Decoder, s: Status, pad: Bytes)
    requires Blank(pad)
    ensures var end := Run(decode, s, pad);
            && (end.Live? && Complete(end.state) <==> s.Live? && Complete(s.state))
            && (end.Live? && Complete(end.state) ==> end == s)
    decreases |pad|
  {
    hide Complete, Step;
    if s.Live? && pad != [] {
      SpaceCompletesNothing(decode, s.state, pad[0]);
      TrailingSpace(decode, Step(decode, s.state, pad[0]), pad[1..]);
    }
  }

  lemma {:induction false} LeadingSpace(decode: Decoder, pad: Bytes)
    requires Blank(pad)
    ensures Run(decode, Live(INITIAL), pad) == Live(INITIAL)
  {
    if pad != [] {
      assert Step(decode, INITIAL, pad[0]) == Live(INITIAL);
      LeadingSpace(decode, pad[1..]);
    }
  }

  /** Space before and after any input at all, the line feed that ends a saved file included, changes neither completion nor fragments. */
  lemma SpaceAround(decode: Decoder, lead: Bytes, input: Bytes, trail: Bytes)
    requires forall i :: 0 <= i < |lead| ==> lead[i] in {32, 9, 10, 13}
    requires forall i :: 0 <= i < |trail| ==> trail[i] in {32, 9, 10, 13}
    ensures var bare, padded := Run(decode, Live(INITIAL), input), Run(decode, Live(INITIAL), lead + (input + trail));
            && (padded.Live? && Complete(padded.state) <==> bare.Live? && Complete(bare.state))
            && (padded.Live? && Complete(padded.state) ==> padded.state.fragments == bare.state.fragments)
  {
    hide Complete, Run;
    LeadingSpace(decode, lead);
    RunConcat(decode, Live(INITIAL), lead, input + trail);
    RunConcat(decode, Live(INITIAL), input, trail);
    TrailingSpace(decode, Run(decode, Live(INITIAL), input), trail);
  }
}
