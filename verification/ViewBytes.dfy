/** Compact views as bytes: encoder, comparison and strict reader. */
module ViewBytes {
  import opened ByteStrings
  import opened CanonicalJson
  import opened NumberSpelling

  function Concat(chunks: seq<Bytes>): Bytes {
    if chunks == [] then [] else chunks[0] + Concat(chunks[1..])
  }

  lemma {:induction false} ConcatSplit(chunks: seq<Bytes>, k: nat)
    requires k < |chunks|
    ensures Concat(chunks[..k + 1]) == Concat(chunks[..k]) + chunks[k]
    ensures |Concat(chunks[..k + 1])| <= |Concat(chunks)|
    ensures Concat(chunks) == Concat(chunks[..k + 1]) + Concat(chunks[k + 1..])
    decreases k
  {
    if k == 0 {
      assert chunks[..1] == [chunks[0]] && Concat([chunks[0]][1..]) == [];
    } else {
      ConcatSplit(chunks[1..], k - 1);
      assert chunks[..k + 1][1..] == chunks[1..][..k] && chunks[..k][1..] == chunks[1..][..k - 1];
      assert chunks[1..][k..] == chunks[k + 1..];
    }
  }

  const MAX_VIEW_BYTES: nat := 512 * 1024 * 1024

  /** The encoder's chunks gathered into one buffer, or None as soon as the bound would be passed. */
  method BoundedViewBytes(chunks: seq<Bytes>) returns (bytes: Option<Bytes>)
    ensures bytes == if |Concat(chunks)| <= 0x2000_0000 then Some(Concat(chunks)) else None
  {
    var stream: Bytes := [];
    var size := 0;
    var k := 0;
    while k < |chunks|
      invariant 0 <= k <= |chunks| && stream == Concat(chunks[..k]) && size == |stream| <= MAX_VIEW_BYTES
    {
      ConcatSplit(chunks, k);
      var observed := size + |chunks[k]|;
      if observed > MAX_VIEW_BYTES {
        return None;
      }
      stream := stream + chunks[k];
      size := observed;
      k := k + 1;
    }
    assert chunks[..k] == chunks;
    return Some(stream);
  }

  lemma MatchingPart(raw: Bytes, offset: nat, chunk: Bytes, rest: Bytes)
    requires offset <= |raw|
    ensures (raw[..offset] + chunk) + rest == raw ==> offset + |chunk| <= |raw| && raw[offset..offset + |chunk|] == chunk
  {
    var whole := (raw[..offset] + chunk) + rest;
    assert whole[offset..offset + |chunk|] == chunk;
  }

  /** The encoder's chunks compared with the raw bytes in place. */
  method MatchesRaw(chunks: seq<Bytes>, raw: Bytes) returns (same: bool)
    ensures same <==> Concat(chunks) == raw
  {
    var offset := 0;
    var k := 0;
    while k < |chunks|
      invariant 0 <= k <= |chunks| && 0 <= offset <= |raw|
      invariant Concat(chunks[..k]) == raw[..offset]
    {
      ConcatSplit(chunks, k);
      MatchingPart(raw, offset, chunks[k], Concat(chunks[k + 1..]));
      var end := offset + |chunks[k]|;
      if end > |raw| || raw[offset..end] != chunks[k] {
        return false;
      }
      assert raw[..end] == raw[..offset] + raw[offset..end];
      offset := end;
      k := k + 1;
    }
    assert chunks[..k] == chunks;
    return offset == |raw|;
  }

  // ---- the strict reader ----

  /** A JSON reader that keeps fields in text order and refuses repeated keys. */
  type Reader = Bytes -> Option<Json>

  /** What is used of the JSON reader: it returns values with numbers as the encoder spells them, and reads the text of each of them back. */
  ghost predicate Reads(loads: Reader, tokens: Tokens) {
    && (forall t :: WellFormed(t) && Spelled(t, tokens) ==> loads(Print(t)) == Some(t))
    && (forall raw :: loads(raw).Some? ==> WellFormed(loads(raw).value) && Spelled(loads(raw).value, tokens))
  }

  /** The object a view holds, if its bytes are exactly that object's canonical encoding. */
  function StrictView(loads: Reader, raw: Bytes): Option<Json> {
    var payload := loads(raw);
    if payload.Some? && payload.value.Object? && Encode(payload.value) == raw then payload else None
  }

  method ReadStrictView(loads: Reader, chunked: Json -> seq<Bytes>, raw: Bytes) returns (view: Option<Json>)
    requires forall v :: Concat(chunked(v)) == Encode(v)
    ensures view == StrictView(loads, raw)
  {
    var payload := loads(raw);
    if payload.None? || !payload.value.Object? {
      return None;
    }
    var same := MatchesRaw(chunked(payload.value), raw);
    if !same {
      return None;
    }
    return payload;
  }

  /**
   The strict reader inverts the encoder and accepts nothing else: reading back the canonical
   bytes of an object gives that object in key order, and any bytes that are accepted are the
   canonical bytes of the object returned.
   */
  lemma StrictViewInvertsEncode(loads: Reader, tokens: Tokens, v: Json)
    requires Reads(loads, tokens) && WellFormed(v) && Spelled(v, tokens) && v.Object?
    ensures StrictView(loads, Encode(v)) == Some(Normal(v)) && Same(Normal(v), v)
  {
    NormalIsWellFormed(v);
    NormalIsSpelled(v, tokens);
    NormalIsFixed(v);
  }

  lemma StrictViewAcceptsOnlyCanonical(loads: Reader, tokens: Tokens, raw: Bytes)
    requires Reads(loads, tokens)
    ensures StrictView(loads, raw).Some? <==> exists v :: WellFormed(v) && Spelled(v, tokens) && v.Object? && raw == Encode(v)
    ensures StrictView(loads, raw).Some? ==> raw == Encode(StrictView(loads, raw).value)
    ensures forall v :: WellFormed(v) && Spelled(v, tokens) && v.Object? && raw == Encode(v) && StrictView(loads, raw).Some? ==>
              Same(StrictView(loads, raw).value, v)
  {
    if StrictView(loads, raw).Some? {
      assert WellFormed(loads(raw).value);
    }
    forall v | WellFormed(v) && Spelled(v, tokens) && v.Object? && raw == Encode(v)
      ensures StrictView(loads, raw) == Some(Normal(v)) && Same(Normal(v), v)
    {
      StrictViewInvertsEncode(loads, tokens, v);
    }
  }

  /** The reader that finds the value whose text is given. */
  ghost function TextReader(tokens: Tokens, raw: Bytes): Option<Json> {
    if t :| WellFormed(t) && Spelled(t, tokens) && Print(t) == raw then Some(t) else None
  }

  /** What is assumed of a reader can be met, whatever tokens the encoder prints; that is all this is for. */
  lemma TextReaderReads(tokens: Tokens)
    ensures Reads(raw => TextReader(tokens, raw), tokens)
  {
    forall t | WellFormed(t) && Spelled(t, tokens) ensures TextReader(tokens, Print(t)) == Some(t) {
      var u := TextReader(tokens, Print(t)).value;
      assert Print(u) + [] == Print(t) + [];
      PrintIsReadable(u, t, [], []);
    }
  }
}
