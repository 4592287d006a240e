/** What the depth-one scanner ensures on any input. */
module DecapsSafety {
  import opened ByteStrings
  import opened ScenarioMachine
  import opened ScannerSafety
  import opened DecapsMachine

  /** The decaps text: a list of objects within the limit, a slice of what was read, its brackets matched. */
  predicate Listed(decode: Decoder, done: Bytes, text: Bytes) {
    decode(text) == DecodedList(true) && |text| <= 0x1000_0000 && Nested(text) && IsSlice(text, done)
  }

  predicate Captures(s: Scan, done: Bytes) {
    && |s.text| <= |done| && done[|done| - |s.text|..] == s.text
    && s.captureStack.Some? && s.captureStack.value != []
    && Read(OUTSIDE, s.text) == Brackets(s.captureStack.value, s.quoted, s.escaped)
  }

  ghost predicate Safe(decode: Decoder, s: Scan, done: Bytes) {
    && (s.escaped ==> s.quoted) && (s.awaiting ==> !s.quoted && s.captureStack.None?)
    && (s.captureStack.Some? ==> Captures(s, done))
    && (s.decoded.Some? ==> Listed(decode, done, s.decoded.value))
  }

  lemma ListedGrows(decode: Decoder, done: Bytes, b: byte, text: Bytes)
    requires Listed(decode, done, text)
    ensures Listed(decode, done + [b], text)
  {
    hide Nested;
    var i :| 0 <= i <= |done| && StandsAt(text, done, i);
    assert StandsAt(text, done + [b], i);
  }

  lemma CaptureKeeps(decode: Decoder, s: Scan, done: Bytes, b: byte)
    requires Safe(decode, s, done) && s.captureStack.Some? && CaptureByte(decode, s, b).Going?
    ensures Safe(decode, CaptureByte(decode, s, b).scan, done + [b])
  {
    hide Listed, Read;
    var t := CaptureByte(decode, s, b).scan;
    var text, after := s.text + [b], done + [b];
    if s.decoded.Some? {
      ListedGrows(decode, done, b, s.decoded.value);
    }
    ReadNext(OUTSIDE, s.text, b);
    CaptureGrows(s.text, done, b);
    assert t.text == text && |after| - |text| == |done| - |s.text| && after[|after| - |text|..] == text;
    if t.captureStack.None? {
      assert Read(OUTSIDE, text) == OUTSIDE;
      TextIsListed(decode, after, text);
    } else {
      assert Read(OUTSIDE, text) == Brackets(t.captureStack.value, t.quoted, t.escaped);
    }
  }

  lemma StepKeeps(decode: Decoder, s: Scan, done: Bytes, b: byte)
    requires Safe(decode, s, done) && Next(decode, s, b).Going?
    ensures Safe(decode, Next(decode, s, b).scan, done + [b])
  {
    hide Listed, Read;
    if s.captureStack.Some? {
      CaptureKeeps(decode, s, done, b);
    } else {
      if s.decoded.Some? {
        ListedGrows(decode, done, b, s.decoded.value);
      }
      if s.awaiting && !IsSpace(b) {
        FirstByte(b);
        assert (done + [b])[|done|..] == [b];
      }
    }
  }

  lemma TextIsListed(decode: Decoder, done: Bytes, text: Bytes)
    requires decode(text) == DecodedList(true) && |text| <= DECAPS_LIMIT && Read(OUTSIDE, text) == OUTSIDE
    requires |text| <= |done| && done[|done| - |text|..] == text
    ensures Listed(decode, done, text)
  {
    SuffixIsSlice(text, done);
  }

  lemma {:induction false} RunsAreSafe(decode: Decoder, input: Bytes)
    requires Advance(decode, Going(START), input).Going?
    ensures Safe(decode, Advance(decode, Going(START), input).scan, input)
    decreases |input|
  {
    hide Safe;
    if input == [] {
      assert Safe(decode, START, []) by { NothingRead(decode); }
    } else {
      var n := |input| - 1;
      assert input[..n] + [input[n]] == input;
      AdvanceConcat(decode, Going(START), input[..n], [input[n]]);
      var before := Advance(decode, Going(START), input[..n]);
      AdvanceOne(decode, before.scan, input[n]);
      RunsAreSafe(decode, input[..n]);
      StepKeeps(decode, before.scan, input[..n], input[n]);
    }
  }

  lemma NothingRead(decode: Decoder)
    ensures Safe(decode, START, [])
  {
  }

  /** Whatever was read: the text returned is a list of objects, within its size, a slice of the input with matching brackets. */
  lemma FinishedRuns(decode: Decoder, input: Bytes)
    requires var end := Advance(decode, Going(START), input); end.Going? && Finished(end.scan)
    ensures Listed(decode, input, Advance(decode, Going(START), input).scan.decoded.value)
  {
    RunsAreSafe(decode, input);
  }

  // ---- space around the document ----

  lemma SpaceFinishesNothing(decode: Decoder, s: Scan, b: byte)
    requires b in {32, 9, 10, 13}
    ensures var t := Next(decode, s, b);
            && (t.Going? && Finished(t.scan) <==> Finished(s))
            && (t.Going? && Finished(t.scan) ==> t.scan.decoded == s.decoded)
  {
  }

  lemma {:induction false} TrailingSpace(decode: Decoder, p: Progress, pad: Bytes)
    requires Blank(pad)
    ensures var end := Advance(decode, p, pad);
            && (end.Going? && Finished(end.scan) <==> p.Going? && Finished(p.scan))
            && (end.Going? && Finished(end.scan) ==> end.scan.decoded == p.scan.decoded)
    decreases |pad|
  {
    hide Finished, Next;
    if p.Going? && pad != [] {
      SpaceFinishesNothing(decode, p.scan, pad[0]);
      TrailingSpace(decode, Next(decode, p.scan, pad[0]), pad[1..]);
    }
  }

  lemma {:induction false} LeadingSpace(decode: Decoder, pad: Bytes)
    requires Blank(pad)
    ensures Advance(decode, Going(START), pad) == Going(START)
  {
    if pad != [] {
      assert Next(decode, START, pad[0]) == Going(START);
      LeadingSpace(decode, pad[1..]);
    }
  }

  /** Space before and after any input changes neither whether the scanner finishes nor what it returns. */
  lemma SpaceAround(decode: Decoder, lead: Bytes, input: Bytes, trail: Bytes)
    requires forall i :: 0 <= i < |lead| ==> lead[i] in {32, 9, 10, 13}
    requires forall i :: 0 <= i < |trail| ==> trail[i] in {32, 9, 10, 13}
    ensures var bare, padded := Advance(decode, Going(START), input), Advance(decode, Going(START), lead + (input + trail));
            && (padded.Going? && Finished(padded.scan) <==> bare.Going? && Finished(bare.scan))
            && (padded.Going? && Finished(padded.scan) ==> padded.scan.decoded == bare.scan.decoded)
  {
    hide Finished, Advance;
    LeadingSpace(decode, lead);
    AdvanceConcat(decode, Going(START), lead, input + trail);
    AdvanceConcat(decode, Going(START), input, trail);
    TrailingSpace(decode, Advance(decode, Going(START), input), trail);
  }
}
