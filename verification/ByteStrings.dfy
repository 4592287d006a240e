/** Byte strings, as the scripts read them from a stream. */
module ByteStrings {
  type byte = b: int | 0 <= b < 256
  type Bytes = seq<byte>

  const QUOTE: byte := 34
  const COMMA: byte := 44
  const COLON: byte := 58
  const OPEN_BRACKET: byte := 91
  const BACKSLASH: byte := 92
  const CLOSE_BRACKET: byte := 93
  const OPEN_BRACE: byte := 123
  const CLOSE_BRACE: byte := 125

  function Ascii(s: string): (r: Bytes)
    requires forall i :: 0 <= i < |s| ==> s[i] < 128 as char
    ensures |r| == |s| && forall i :: 0 <= i < |r| ==> r[i] == s[i] as int
  {
    seq(|s|, i requires 0 <= i < |s| => s[i] as int)
  }

  datatype Option<+T> = None | Some(value: T)

  /** JSON whitespace (section 2 of RFC 8259): space, tab, line feed, carriage return. */
  predicate IsSpace(b: byte) {
    b == 32 || b == 9 || b == 13 || b == 10
  }

  predicate AllSpace(s: Bytes) {
    forall i :: 0 <= i < |s| ==> IsSpace(s[i])
  }

  predicate Continuation(b: byte) {
    0x80 <= b <= 0xBF
  }

  /** Strict UTF-8: no overlong form, no surrogate, nothing above U+10FFFF. */
  predicate ValidUtf8(s: Bytes) {
    || s == []
    || (s[0] < 0x80 && ValidUtf8(s[1..]))
    || (|s| >= 2 && 0xC2 <= s[0] <= 0xDF && Continuation(s[1]) && ValidUtf8(s[2..]))
    || (|s| >= 3 && 0xE0 <= s[0] <= 0xEF && Continuation(s[1]) && Continuation(s[2])
        && (s[0] == 0xE0 ==> s[1] >= 0xA0) && (s[0] == 0xED ==> s[1] < 0xA0) && ValidUtf8(s[3..]))
    || (|s| >= 4 && 0xF0 <= s[0] <= 0xF4 && Continuation(s[1]) && Continuation(s[2]) && Continuation(s[3])
        && (s[0] == 0xF0 ==> s[1] >= 0x90) && (s[0] == 0xF4 ==> s[1] < 0x90) && ValidUtf8(s[4..]))
  }

  lemma {:induction false} AsciiIsUtf8(s: Bytes)
    requires forall i :: 0 <= i < |s| ==> s[i] < 0x80
    ensures ValidUtf8(s)
  {
    if s != [] {
      AsciiIsUtf8(s[1..]);
    }
  }

  /** What a reader receives: the blocks up to the first empty one, which signals end of stream. */
  function Received(blocks: seq<Bytes>): Bytes {
    if blocks == [] || blocks[0] == [] then [] else blocks[0] + Received(blocks[1..])
  }
}
