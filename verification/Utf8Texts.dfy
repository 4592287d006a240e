/** Valid UTF-8 is what code points encode to. */
module Utf8Texts {
  import opened ByteStrings
  import opened JsonKeys

  /** A code point that is no surrogate. */
  predicate CodePoint(code: nat) {
    code < 0xD800 || 0xE000 <= code < 0x110000
  }

  predicate CodePoints(codes: seq<nat>) {
    forall i :: 0 <= i < |codes| ==> CodePoint(codes[i])
  }

  function EncodeAll(codes: seq<nat>): Bytes
    requires CodePoints(codes)
  {
    if codes == [] then [] else Utf8(codes[0]) + EncodeAll(codes[1..])
  }

  lemma Two(x: nat, y: nat)
    requires 2 <= x < 32 && y < 64
    ensures Utf8(x * 64 + y) == [0xC0 + x, 0x80 + y]
  {
  }

  lemma Three(x: nat, y: nat, z: nat)
    requires x < 16 && y < 64 && z < 64 && x * 64 + y >= 32
    ensures Utf8((x * 64 + y) * 64 + z) == [0xE0 + x, 0x80 + y, 0x80 + z]
  {
    var code := (x * 64 + y) * 64 + z;
    assert code == x * 0x1000 + (y * 64 + z) && y * 64 + z < 0x1000;
    assert code / 0x1000 == x && code / 0x40 == x * 64 + y;
  }

  lemma Four(w: nat, x: nat, y: nat, z: nat)
    requires w < 8 && x < 64 && y < 64 && z < 64 && 16 <= w * 64 + x < 0x110
    ensures Utf8(((w * 64 + x) * 64 + y) * 64 + z) == [0xF0 + w, 0x80 + x, 0x80 + y, 0x80 + z]
  {
    var code := ((w * 64 + x) * 64 + y) * 64 + z;
    assert code == w * 0x40000 + (x * 0x1000 + y * 64 + z) && x * 0x1000 + y * 64 + z < 0x40000;
    assert code == (w * 64 + x) * 0x1000 + (y * 64 + z) && y * 64 + z < 0x1000;
    assert code / 0x40000 == w && code / 0x1000 == w * 64 + x && code / 0x40 == (w * 64 + x) * 64 + y;
  }

  /** The code point at the head of a valid text, and how many bytes it takes. */
  lemma Head(s: Bytes) returns (code: nat, n: nat)
    requires s != [] && ValidUtf8(s)
    ensures 1 <= n <= |s| && CodePoint(code) && s[..n] == Utf8(code) && ValidUtf8(s[n..])
  {
    hide Utf8;
    var a := s[0] as int;
    if a < 0x80 {
      code, n := a, 1;
      One(a);
    } else {
      var b := s[1] as int - 0x80;
      if a < 0xE0 {
        code, n := (a - 0xC0) * 64 + b, 2;
        Two(a - 0xC0, b);
      } else {
        var c := s[2] as int - 0x80;
        if a < 0xF0 {
          code, n := ((a - 0xE0) * 64 + b) * 64 + c, 3;
          Three(a - 0xE0, b, c);
        } else {
          var d := s[3] as int - 0x80;
          code, n := (((a - 0xF0) * 64 + b) * 64 + c) * 64 + d, 4;
          Four(a - 0xF0, b, c, d);
        }
      }
    }
  }

  lemma One(code: nat)
    requires code < 0x80
    ensures Utf8(code) == [code]
  {
  }

  lemma {:induction false} Decoding(s: Bytes) returns (codes: seq<nat>)
    requires ValidUtf8(s)
    ensures CodePoints(codes) && EncodeAll(codes) == s
    decreases |s|
  {
    hide ValidUtf8, Utf8, CodePoint;
    if s == [] {
      codes := [];
    } else {
      var code, n := Head(s);
      var rest := Decoding(s[n..]);
      codes := [code] + rest;
      assert codes[1..] == rest && s == s[..n] + s[n..];
    }
  }

  lemma OneMoreCode(code: nat, rest: Bytes)
    requires CodePoint(code) && ValidUtf8(rest)
    ensures ValidUtf8(Utf8(code) + rest)
  {
    var s := Utf8(code) + rest;
    assert s[|Utf8(code)|..] == rest;
  }

  lemma {:induction false} EncodedIsValid(codes: seq<nat>)
    requires CodePoints(codes)
    ensures ValidUtf8(EncodeAll(codes))
  {
    if codes != [] {
      EncodedIsValid(codes[1..]);
      OneMoreCode(codes[0], EncodeAll(codes[1..]));
    }
  }

  /** A byte string is valid exactly if it encodes some code points. */
  lemma ValidIsEncoded(s: Bytes)
    ensures ValidUtf8(s) <==> exists codes :: CodePoints(codes) && EncodeAll(codes) == s
  {
    if ValidUtf8(s) {
      var codes := Decoding(s);
    }
    forall codes | CodePoints(codes) && EncodeAll(codes) == s ensures ValidUtf8(s) {
      EncodedIsValid(codes);
    }
  }

  // ---- escapes by number ----

  function Hex(d: nat): byte
    requires d < 16
  {
    if d < 10 then 48 + d else 87 + d
  }

  /** A backslash, the letter u, and a code unit in four hexadecimal digits. */
  function UnitEscape(unit: nat): Bytes
    requires unit < 0x10000
  {
    [92, 117, Hex(unit / 0x1000), Hex(unit / 0x100 % 16), Hex(unit / 0x10 % 16), Hex(unit % 16)]
  }

  /** A code point as one escape, or as the escapes of its two surrogates (section 7 of RFC 8259). */
  function CodeEscape(code: nat): Bytes
    requires CodePoint(code)
  {
    if code < 0x10000 then UnitEscape(code)
    else UnitEscape(0xD800 + (code - 0x10000) / 0x400) + UnitEscape(0xDC00 + (code - 0x10000) % 0x400)
  }

  lemma HexIs(d: nat)
    requires d < 16
    ensures HexDigit(Hex(d)) == Some(d)
  {
  }

  lemma Digits(unit: nat)
    requires unit < 0x10000
    ensures ((unit / 0x1000 * 16 + unit / 0x100 % 16) * 16 + unit / 0x10 % 16) * 16 + unit % 16 == unit
  {
    assert unit / 0x100 == unit / 0x1000 * 16 + unit / 0x100 % 16;
    assert unit / 0x10 == unit / 0x100 * 16 + unit / 0x10 % 16;
  }

  lemma UnitIsRead(unit: nat, rest: Bytes)
    requires unit < 0x10000
    ensures CodeUnit(UnitEscape(unit) + rest) == Some(unit) && (UnitEscape(unit) + rest)[6..] == rest
  {
    var e := UnitEscape(unit);
    var s := e + rest;
    assert s[0] == e[0] && s[1] == e[1] && s[2] == e[2] && s[3] == e[3] && s[4] == e[4] && s[5] == e[5];
    HexIs(unit / 0x1000);
    HexIs(unit / 0x100 % 16);
    HexIs(unit / 0x10 % 16);
    HexIs(unit % 16);
    Digits(unit);
  }

  /** Every code point can be escaped by number, and is read back as its UTF-8 form, whatever follows. */
  lemma CodeIsRead(code: nat, rest: Bytes)
    requires CodePoint(code)
    ensures Unescaped(CodeEscape(code) + rest) == Before(Utf8(code), Unescaped(rest))
  {
    hide Utf8, Hex, UnitEscape, CodeUnit;
    if code < 0x10000 {
      UnitIsRead(code, rest);
      EscapeStarts(code, rest);
    } else {
      var high, low := 0xD800 + (code - 0x10000) / 0x400, 0xDC00 + (code - 0x10000) % 0x400;
      var second := UnitEscape(low) + rest;
      var s := UnitEscape(high) + second;
      assert CodeEscape(code) + rest == s;
      UnitIsRead(high, second);
      UnitIsRead(low, rest);
      EscapeStarts(high, second);
      EscapeStarts(low, rest);
      assert s[12..] == s[6..][6..];
      assert 0x10000 + (high - 0xD800) * 0x400 + (low - 0xDC00) == code;
    }
  }

  /** The solidus may be escaped too. */
  lemma SolidusIsRead(rest: Bytes)
    ensures Unescaped([92, 47] + rest) == Before([47], Unescaped(rest))
  {
    assert ([92, 47] + rest)[2..] == rest;
  }

  lemma EscapeStarts(unit: nat, rest: Bytes)
    requires unit < 0x10000
    ensures var s := UnitEscape(unit) + rest; |s| == 6 + |rest| && s[0] == BACKSLASH && s[1] == LETTER_U
  {
    assert UnitEscape(unit)[0] == 92 && UnitEscape(unit)[1] == 117;
  }
}
