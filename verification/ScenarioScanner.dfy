/** The frame-stack scanner, updating its state in place. */
module ScenarioScanner {
  import opened ByteStrings
  import opened JsonText
  import opened ScenarioMachine
  import opened ScenarioProof
  import ScannerSafety

  type Digest = Bytes -> Bytes

  datatype Outcome = IntegrityError | Fragments(byPath: map<Path, Bytes>)

  class Scanner {
    const decode: Decoder
    var frames: seq<Frame>
    var quoted: bool
    var escaped: bool
    var token: Bytes
    var capture: Option<Bytes>
    var captureStack: seq<byte>
    var capturePath: Path
    var fragments: map<Path, Bytes>
    var pending: Option<Path>
    var seen: set<Path>
    var rootStarted: bool
    var rootClosed: bool

    /** The abstract machine state held by the fields. */
    ghost function Snapshot(): State
      reads this
    {
      State(frames, quoted, escaped, token,
            if capture.Some? then Some(Capture(capturePath, capture.value, captureStack)) else None,
            fragments, pending, seen, rootStarted, rootClosed)
    }

    constructor (decode: Decoder)
      ensures Snapshot() == INITIAL && this.decode == decode
    {
      this.decode := decode;
      frames, quoted, escaped, token := [], false, false, [];
      capture, captureStack, capturePath := None, [], [];
      fragments, pending, seen, rootStarted, rootClosed := map[], None, {}, false, false;
    }

    method FinishFragment() returns (ok: bool)
      requires capture.Some?
      modifies this
      ensures (if ok then Live(Snapshot()) else Failed) == ScenarioMachine.FinishFragment(decode, old(Snapshot()))
    {
      ok := Decodes(decode, capturePath, capture.value);
      if ok {
        fragments := fragments[capturePath := capture.value];
        capture := None;
        captureStack := [];
      }
    }

    method BeginFragment(path: Path, b: byte)
      requires capture.None?
      modifies this`capture, this`captureStack, this`capturePath
      ensures Snapshot() == old(Snapshot()).(capture := Some(Capture(path, [b], [b])))
    {
      capturePath := path;
      capture := Some([b]);
      captureStack := [b];
    }

    /** One byte inside a captured fragment. */
    method FeedCapture(b: byte) returns (ok: bool)
      requires capture.Some?
      modifies this
      ensures (if ok then Live(Snapshot()) else Failed) == CaptureStep(decode, old(Snapshot()), b)
    {
      capture := Some(capture.value + [b]);
      if |capture.value| > Limit(capturePath) {
        return false;
      }
      if quoted {
        if escaped {
          escaped := false;
        } else if b == BACKSLASH {
          escaped := true;
        } else if b == QUOTE {
          quoted := false;
        }
      } else if b == QUOTE {
        quoted := true;
      } else if b == OPEN_BRACKET || b == OPEN_BRACE {
        captureStack := captureStack + [b];
      } else if b == CLOSE_BRACKET || b == CLOSE_BRACE {
        if captureStack == [] {
          return false;
        }
        var opening := captureStack[|captureStack| - 1];
        captureStack := captureStack[..|captureStack| - 1];
        if !Closes(opening, b) {
          return false;
        }
        if captureStack == [] {
          ok := FinishFragment();
          return;
        }
      }
      return true;
    }

    method UseKeyOfTop()
      modifies this`frames
      ensures Snapshot() == UseKey(old(Snapshot()))
    {
      if frames != [] && !frames[|frames| - 1].isArray {
        frames := frames[|frames| - 1 := frames[|frames| - 1].(key := None)];
        assert frames == old(frames)[..|frames| - 1] + [frames[|frames| - 1]];
      }
    }

    /** The byte after a tracked key's colon: space, or the value's opening bracket. */
    method FeedPending(b: byte) returns (ok: bool)
      requires capture.None? && pending.Some?
      modifies this
      ensures (if ok then Live(Snapshot()) else Failed) == PendingStep(old(Snapshot()), b)
    {
      if IsSpace(b) {
        return true;
      }
      var path := pending.value;
      pending := None;
      if b != Opening(path) {
        return false;
      }
      UseKeyOfTop();
      if IsTarget(path) {
        BeginFragment(path, b);
      } else {
        frames := frames + [Frame(false, path, None, true)];
      }
      return true;
    }

    method FeedString(b: byte) returns (ok: bool)
      requires capture.None? && quoted
      modifies this
      ensures (if ok then Live(Snapshot()) else Failed) == StringStep(old(Snapshot()), b)
    {
      if escaped {
        escaped := false;
      } else if b == BACKSLASH {
        escaped := true;
      } else if b == QUOTE {
        quoted := false;
        if frames != [] && !frames[|frames| - 1].isArray && frames[|frames| - 1].expectKey {
          if !ValidUtf8(token) {
            return false;
          }
          frames := frames[|frames| - 1 := frames[|frames| - 1].(key := Some(token))];
          assert frames == old(frames)[..|frames| - 1] + [frames[|frames| - 1]];
        }
        token := [];
      } else {
        token := token + [b];
      }
      return true;
    }

    /** One structural byte outside strings and captures. */
    method FeedStructure(b: byte) returns (ok: bool)
      requires capture.None? && pending.None? && frames != [] && b != QUOTE
      requires rootStarted && !rootClosed && !quoted
      modifies this
      ensures (if ok then Live(Snapshot()) else Failed) == Step(decode, old(Snapshot()), b)
    {
      var last := |frames| - 1;
      var frame := frames[last];
      if b == COLON {
        if frame.isArray || frame.key.None? || !frame.expectKey {
          return false;
        }
        var path := frame.path + [frame.key.value];
        if IsTracked(path) {
          if path in seen || pending.Some? {
            return false;
          }
          seen := seen + {path};
          pending := Some(path);
        }
        frames := frames[last := frame.(expectKey := false)];
        assert frames == old(frames)[..last] + [frames[last]];
      } else if b == OPEN_BRACKET || b == OPEN_BRACE {
        var path := if !frame.isArray && frame.key.Some? then frame.path + [frame.key.value] else frame.path;
        UseKeyOfTop();
        frames := frames + [Frame(b == OPEN_BRACKET, path, None, b == OPEN_BRACE)];
      } else if b == CLOSE_BRACKET || b == CLOSE_BRACE {
        if b != (if frame.isArray then CLOSE_BRACKET else CLOSE_BRACE) {
          return false;
        }
        frames := frames[..last];
        if frames == [] {
          rootClosed := true;
        }
      } else if b == COMMA {
        if !frame.isArray {
          frames := frames[last := frame.(expectKey := true, key := None)];
          assert frames == old(frames)[..last] + [frames[last]];
        }
      }
      return true;
    }

    /** One byte: what the loop body does. */
    method Feed(b: byte) returns (ok: bool)
      modifies this
      ensures (if ok then Live(Snapshot()) else Failed) == Step(decode, old(Snapshot()), b)
    {
      if capture.Some? {
        ok := FeedCapture(b);
      } else if pending.Some? {
        ok := FeedPending(b);
      } else if rootClosed {
        ok := IsSpace(b);
      } else if !rootStarted {
        if IsSpace(b) {
          return true;
        }
        if b != OPEN_BRACE {
          return false;
        }
        rootStarted := true;
        frames := frames + [Frame(false, [], None, true)];
        ok := true;
      } else if quoted {
        ok := FeedString(b);
      } else if b == QUOTE {
        quoted := true;
        token := [];
        ok := true;
      } else if frames == [] {
        ok := false;
      } else {
        ok := FeedStructure(b);
      }
    }

    /** The inner loop: one block, byte by byte, up to the first error. */
    method FeedBlock(block: Bytes) returns (ok: bool)
      modifies this
      ensures (if ok then Live(Snapshot()) else Failed) == Run(decode, Live(old(Snapshot())), block)
    {
      var i := 0;
      while i < |block|
        invariant 0 <= i <= |block|
        invariant Live(Snapshot()) == Run(decode, Live(old(Snapshot())), block[..i])
      {
        ghost var before := Snapshot();
        RunConcat(decode, Live(old(Snapshot())), block[..i], [block[i]]);
        RunOne(decode, before, block[i]);
        assert block[..i] + [block[i]] == block[..i + 1];
        ok := Feed(block[i]);
        if !ok {
          assert block == block[..i + 1] + block[i + 1..] by { SplitAt(block, i + 1); }
          RunConcat(decode, Live(old(Snapshot())), block[..i + 1], block[i + 1..]);
          return false;
        }
        i := i + 1;
      }
      assert block[..i] == block;
      return true;
    }
  }

  lemma SplitAt(s: Bytes, i: nat)
    requires i <= |s|
    ensures s == s[..i] + s[i..]
  {
  }

  /** What the caller gets for a stream that was received as these bytes. */
  function Verdict(decode: Decoder, digest: Digest, received: Bytes, size: nat, sha: Bytes): Outcome {
    var end := Run(decode, Live(INITIAL), received);
    if end.Live? && Complete(end.state) && |received| == size && digest(received) == sha
    then Fragments(end.state.fragments)
    else IntegrityError
  }

  /** The verdict on the text of a well-formed document, read off its tree. */
  lemma VerdictMeetsTree(decode: Decoder, digest: Digest, doc: Document, size: nat, sha: Bytes)
    requires WellFormedDocument(doc)
    ensures var outcome := Verdict(decode, digest, PrintDocument(doc), size, sha);
            && (outcome.Fragments? <==> TargetsOnce(decode, doc.root) && |PrintDocument(doc)| == size && digest(PrintDocument(doc)) == sha)
            && (outcome.Fragments? ==> outcome.byPath == Selected(decode, doc.root))
  {
    ScanMeetsTree(decode, doc);
  }

  /** What fragments guarantee, whether or not the stream held a well-formed document. */
  lemma VerdictIsSafe(decode: Decoder, digest: Digest, received: Bytes, size: nat, sha: Bytes)
    requires Verdict(decode, digest, received, size, sha).Fragments?
    ensures |received| == size && digest(received) == sha && ScannerSafety.Nested(received)
    ensures var fragments := Verdict(decode, digest, received, size, sha).byPath;
            && fragments.Keys == {[Ascii("decaps")], [Ascii("connection_analysis")],
                                  [Ascii("normalized_project"), Ascii("rails")], [Ascii("normalized_project"), Ascii("stackup_layers")]}
            && forall at :: at in fragments ==> ScannerSafety.Filed(decode, received, at, fragments[at])
  {
    hide Complete, Ascii, ScannerSafety.Filed, ScannerSafety.Nested;
    ScannerSafety.CompletedRuns(decode, received);
  }

  /**
   One pass over the stream. Whatever the block boundaries, the outcome depends only on the bytes
   received, and on a well-formed document it is the four targets' own bytes exactly when each
   target is held once, in its type, and the stream has the expected size and digest.
   */
  method ReadScenarioOnce(blocks: seq<Bytes>, size: nat, sha: Bytes, decode: Decoder, digest: Digest)
    returns (outcome: Outcome)
    ensures outcome == Verdict(decode, digest, Received(blocks), size, sha)
    ensures forall doc :: WellFormedDocument(doc) && PrintDocument(doc) == Received(blocks) ==>
              && (outcome.Fragments? <==> TargetsOnce(decode, doc.root) && |PrintDocument(doc)| == size && digest(PrintDocument(doc)) == sha)
              && (outcome.Fragments? ==> outcome.byPath == Selected(decode, doc.root))
    ensures outcome.Fragments? ==>
              && |Received(blocks)| == size && digest(Received(blocks)) == sha && ScannerSafety.Nested(Received(blocks))
              && outcome.byPath.Keys == {[Ascii("decaps")], [Ascii("connection_analysis")],
                                         [Ascii("normalized_project"), Ascii("rails")], [Ascii("normalized_project"), Ascii("stackup_layers")]}
              && forall at :: at in outcome.byPath ==> ScannerSafety.Filed(decode, Received(blocks), at, outcome.byPath[at])
  {
    hide Verdict, Ascii, ScannerSafety.Filed, ScannerSafety.Nested, TargetsOnce, Selected;
    if Verdict(decode, digest, Received(blocks), size, sha).Fragments? {
      VerdictIsSafe(decode, digest, Received(blocks), size, sha);
    }
    forall doc | WellFormedDocument(doc) && PrintDocument(doc) == Received(blocks)
      ensures Verdict(decode, digest, PrintDocument(doc), size, sha).Fragments? <==>
              TargetsOnce(decode, doc.root) && |PrintDocument(doc)| == size && digest(PrintDocument(doc)) == sha
      ensures Verdict(decode, digest, PrintDocument(doc), size, sha).Fragments? ==>
              Verdict(decode, digest, PrintDocument(doc), size, sha).byPath == Selected(decode, doc.root)
    {
      VerdictMeetsTree(decode, digest, doc, size, sha);
    }
    outcome := Scan(blocks, size, sha, decode, digest);
  }

  method Scan(blocks: seq<Bytes>, size: nat, sha: Bytes, decode: Decoder, digest: Digest)
    returns (outcome: Outcome)
    ensures outcome == Verdict(decode, digest, Received(blocks), size, sha)
  {
    var scanner := new Scanner(decode);
    var total := 0;
    var hashed: Bytes := [];
    var k := 0;
    while k < |blocks| && blocks[k] != []
      invariant 0 <= k <= |blocks| && scanner.decode == decode && fresh(scanner)
      invariant Received(blocks) == hashed + Received(blocks[k..])
      invariant Live(scanner.Snapshot()) == Run(decode, Live(INITIAL), hashed)
      invariant total == |hashed|
    {
      var block := blocks[k];
      total := total + |block|;
      RunConcat(decode, Live(INITIAL), hashed, block);
      assert Received(blocks) == (hashed + block) + Received(blocks[k + 1..]) by {
        assert blocks[k..][1..] == blocks[k + 1..];
      }
      var ok := scanner.FeedBlock(block);
      if !ok {
        RunConcat(decode, Live(INITIAL), hashed + block, Received(blocks[k + 1..]));
        return IntegrityError;
      }
      hashed := hashed + block;
      k := k + 1;
    }
    assert hashed == Received(blocks);
    if scanner.quoted || scanner.capture.Some? || scanner.pending.Some? || scanner.frames != []
       || !scanner.rootStarted || !scanner.rootClosed || total != size || digest(hashed) != sha {
      return IntegrityError;
    }
    if scanner.fragments.Keys != {[DECAPS], [CONNECTION], [PROJECT, RAILS], [PROJECT, STACKUP]} || [PROJECT] !in scanner.seen {
      return IntegrityError;
    }
    return Fragments(scanner.fragments);
  }
}
