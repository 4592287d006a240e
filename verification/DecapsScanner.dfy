/** The depth-one scanner, updating its state in place. */
module DecapsScanner {
  import opened ByteStrings
  import opened JsonText
  import opened ScenarioMachine
  import opened DecapsMachine
  import DecapsSafety
  import opened DecapsProof
  import opened ScenarioScanner

  class Reader {
    const decode: Decoder
    var stack: seq<byte>
    var quoted: bool
    var escaped: bool
    var token: Bytes
    var lastString: Option<Bytes>
    var captureStack: Option<seq<byte>>
    var text: Bytes
    var decoded: Option<Bytes>
    var awaiting: bool

    ghost function Snapshot(): Scan
      reads this
    {
      Scan(stack, quoted, escaped, token, lastString, captureStack, text, decoded, awaiting)
    }

    constructor (decode: Decoder)
      ensures Snapshot() == START && this.decode == decode
    {
      this.decode := decode;
      stack, quoted, escaped, token, lastString := [], false, false, [], None;
      captureStack, text, decoded, awaiting := None, [], None, false;
    }

    method FeedCapture(b: byte) returns (ok: bool)
      requires captureStack.Some?
      modifies this
      ensures (if ok then Going(Snapshot()) else Broken) == CaptureByte(decode, old(Snapshot()), b)
    {
      text := text + [b];
      if quoted {
        if escaped {
          escaped := false;
        } else if b == BACKSLASH {
          escaped := true;
        } else if b == QUOTE {
          quoted := false;
        }
        return true;
      }
      if b == QUOTE {
        quoted := true;
      } else if b == OPEN_BRACKET || b == OPEN_BRACE {
        captureStack := Some(captureStack.value + [b]);
      } else if b == CLOSE_BRACKET || b == CLOSE_BRACE {
        if captureStack.value == [] {
          return false;
        }
        var opening := captureStack.value[|captureStack.value| - 1];
        captureStack := Some(captureStack.value[..|captureStack.value| - 1]);
        if !Closes(opening, b) {
          return false;
        }
        if captureStack.value == [] {
          if decode(text) != DecodedList(true) {
            return false;
          }
          decoded := Some(text);
          captureStack := None;
        }
      }
      return |text| <= DECAPS_LIMIT;
    }

    method FeedString(b: byte) returns (ok: bool)
      requires captureStack.None? && !awaiting && quoted
      modifies this
      ensures (if ok then Going(Snapshot()) else Broken) == StringByte(old(Snapshot()), b)
    {
      if escaped {
        escaped := false;
      } else if b == BACKSLASH {
        escaped := true;
      } else if b == QUOTE {
        quoted := false;
        if !ValidUtf8(token) {
          return false;
        }
        lastString := Some(token);
        token := [];
      } else {
        token := token + [b];
      }
      return true;
    }

    method Feed(b: byte) returns (ok: bool)
      modifies this
      ensures (if ok then Going(Snapshot()) else Broken) == Next(decode, old(Snapshot()), b)
    {
      if captureStack.Some? {
        ok := FeedCapture(b);
        return;
      }
      if awaiting {
        if IsSpace(b) {
          return true;
        }
        if b != OPEN_BRACKET {
          return false;
        }
        captureStack := Some([OPEN_BRACKET]);
        text := [OPEN_BRACKET];
        awaiting := false;
        return true;
      }
      if quoted {
        ok := FeedString(b);
        return;
      }
      if b == QUOTE {
        quoted := true;
        token := [];
      } else if b == COLON && |stack| == 1 && lastString == Some(DECAPS) {
        if decoded.Some? {
          return false;
        }
        awaiting := true;
        lastString := None;
      } else if b == OPEN_BRACKET || b == OPEN_BRACE {
        stack := stack + [b];
        lastString := None;
      } else if b == CLOSE_BRACKET || b == CLOSE_BRACE {
        if stack == [] {
          return false;
        }
        stack := stack[..|stack| - 1];
        lastString := None;
      } else if !IsSpace(b) {
        lastString := None;
      }
      return true;
    }

    method FeedBlock(block: Bytes) returns (ok: bool)
      modifies this
      ensures (if ok then Going(Snapshot()) else Broken) == Advance(decode, Going(old(Snapshot())), block)
    {
      var i := 0;
      while i < |block|
        invariant 0 <= i <= |block|
        invariant Going(Snapshot()) == Advance(decode, Going(old(Snapshot())), block[..i])
      {
        AdvanceConcat(decode, Going(old(Snapshot())), block[..i], [block[i]]);
        AdvanceOne(decode, Snapshot(), block[i]);
        assert block[..i] + [block[i]] == block[..i + 1];
        ok := Feed(block[i]);
        if !ok {
          assert block == block[..i + 1] + block[i + 1..] by { SplitAt(block, i + 1); }
          AdvanceConcat(decode, Going(old(Snapshot())), block[..i + 1], block[i + 1..]);
          return false;
        }
        i := i + 1;
      }
      assert block[..i] == block;
      return true;
    }
  }

  /** What the caller gets for a stream that was received as these bytes: the decaps fragment, or None on an error. */
  function DecapsVerdict(decode: Decoder, digest: Digest, received: Bytes, size: nat, sha: Bytes): Option<Bytes> {
    var end := Advance(decode, Going(START), received);
    if end.Going? && Finished(end.scan) && |received| == size && digest(received) == sha then end.scan.decoded else None
  }

  method ReadScenario(blocks: seq<Bytes>, size: nat, sha: Bytes, decode: Decoder, digest: Digest) returns (decaps: Option<Bytes>)
    ensures decaps == DecapsVerdict(decode, digest, Received(blocks), size, sha)
    ensures decaps.Some? ==>
              && |Received(blocks)| == size && digest(Received(blocks)) == sha
              && DecapsSafety.Listed(decode, Received(blocks), decaps.value)
  {
    hide DecapsSafety.Listed;
    ghost var end := Advance(decode, Going(START), Received(blocks));
    if end.Going? && Finished(end.scan) {
      DecapsSafety.FinishedRuns(decode, Received(blocks));
    }
    var reader := new Reader(decode);
    var total := 0;
    var hashed: Bytes := [];
    var k := 0;
    while k < |blocks| && blocks[k] != []
      invariant 0 <= k <= |blocks| && reader.decode == decode && fresh(reader)
      invariant Received(blocks) == hashed + Received(blocks[k..])
      invariant Going(reader.Snapshot()) == Advance(decode, Going(START), hashed)
      invariant total == |hashed|
    {
      var block := blocks[k];
      total := total + |block|;
      AdvanceConcat(decode, Going(START), hashed, block);
      assert Received(blocks) == (hashed + block) + Received(blocks[k + 1..]) by {
        assert blocks[k..][1..] == blocks[k + 1..];
      }
      var ok := reader.FeedBlock(block);
      if !ok {
        AdvanceConcat(decode, Going(START), hashed + block, Received(blocks[k + 1..]));
        return None;
      }
      hashed := hashed + block;
      k := k + 1;
    }
    assert hashed == Received(blocks);
    if reader.captureStack.Some? || reader.awaiting || reader.decoded.None? {
      return None;
    }
    if total != size || digest(hashed) != sha {
      return None;
    }
    return reader.decoded;
  }

  /**
   The depth-one scanner's answer on the text of a well-formed document, read off its tree.
   */
  lemma DecapsVerdictMeetsTree(decode: Decoder, digest: Digest, doc: Document, size: nat, sha: Bytes)
    requires WellFormedDocument(doc)
    ensures DecapsVerdict(decode, digest, PrintDocument(doc), size, sha) ==
            if DecapsHeld(decode, doc.root) && |PrintDocument(doc)| == size && digest(PrintDocument(doc)) == sha
            then Some(Print(ValuesAt(doc.root.members, DECAPS)[0])) else None
  {
    DecapsProof.ScanMeetsTree(decode, doc);
  }

  /**
   Two scanners, one stream: whenever the frame-stack scanner returns fragments for a well-formed
   document, the depth-one scanner returns the same decaps bytes, unless some decap is no object.
   */
  lemma VerdictsAgree(decode: Decoder, digest: Digest, doc: Document, size: nat, sha: Bytes)
    requires WellFormedDocument(doc)
    requires Verdict(decode, digest, PrintDocument(doc), size, sha).Fragments?
    ensures var fragments := Verdict(decode, digest, PrintDocument(doc), size, sha).byPath;
            && [DECAPS] in fragments
            && DecapsVerdict(decode, digest, PrintDocument(doc), size, sha) ==
               if decode(fragments[[DECAPS]]) == DecodedList(true) then Some(fragments[[DECAPS]]) else None
  {
    ScannersAgree(decode, doc);
  }
}
