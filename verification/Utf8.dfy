// UTF-8: section 3 of RFC 3629. A string is a sequence of Unicode scalar values.
module Utf8 {
  type Byte = b: int | 0 <= b < 256

  function EncodeChar(c: char): (bytes: seq<Byte>)
    ensures 1 <= |bytes| <= 4
  {
    var u := c as int;
    if u < 0x80 then [u]
    else if u < 0x800 then [0xC0 + u / 0x40, 0x80 + u % 0x40]
    else if u < 0x10000 then [0xE0 + u / 0x40 / 0x40, 0x80 + u / 0x40 % 0x40, 0x80 + u % 0x40]
    else [0xF0 + u / 0x40 / 0x40 / 0x40, 0x80 + u / 0x40 / 0x40 % 0x40, 0x80 + u / 0x40 % 0x40, 0x80 + u % 0x40]
  }

  function Encode(s: string): seq<Byte> {
    if s == [] then [] else EncodeChar(s[0]) + Encode(s[1..])
  }

  predicate Trails(b: int) {
    0x80 <= b < 0xC0
  }

  /** The code point with these leading bits, then six bits from each trailing byte. */
  function Bits(lead: int, trail: seq<Byte>): int {
    if trail == [] then lead
    else Bits(lead, trail[..|trail| - 1]) * 0x40 + (trail[|trail| - 1] as int - 0x80)
  }

  predicate Scalar(u: int) {
    0 <= u < 0xD800 || 0xE000 <= u < 0x110000
  }

  datatype Decoded = Char(c: char) | Invalid

  /** The code point the bytes start with: no overlong forms, no surrogates, nothing above U+10FFFF. */
  function DecodeChar(b: seq<Byte>): Decoded {
    if |b| >= 1 && b[0] < 0x80 then Char(b[0] as char)
    else if |b| >= 2 && 0xC2 <= b[0] < 0xE0 && Trails(b[1]) then
      var u := Bits(b[0] as int - 0xC0, b[1..2]);
      if Scalar(u) && u >= 0x80 then Char(u as char) else Invalid
    else if |b| >= 3 && 0xE0 <= b[0] < 0xF0 && Trails(b[1]) && Trails(b[2]) then
      var u := Bits(b[0] as int - 0xE0, b[1..3]);
      if Scalar(u) && u >= 0x800 then Char(u as char) else Invalid
    else if |b| >= 4 && 0xF0 <= b[0] < 0xF5 && Trails(b[1]) && Trails(b[2]) && Trails(b[3]) then
      var u := Bits(b[0] as int - 0xF0, b[1..4]);
      if Scalar(u) && u >= 0x10000 then Char(u as char) else Invalid
    else Invalid
  }

  lemma Six(q: int, r: int)
    requires 0 <= r < 0x40
    ensures (q * 0x40 + r) / 0x40 == q && (q * 0x40 + r) % 0x40 == r
  {
  }

  lemma BitsOf1(lead: int, t: Byte)
    ensures Bits(lead, [t]) == lead * 0x40 + (t as int - 0x80)
  {
    assert [t][..0] == [];
  }

  lemma BitsOf2(lead: int, t: Byte, u: Byte)
    ensures Bits(lead, [t, u]) == Bits(lead, [t]) * 0x40 + (u as int - 0x80)
  {
    assert [t, u][..1] == [t];
  }

  lemma BitsOf3(lead: int, t: Byte, u: Byte, v: Byte)
    ensures Bits(lead, [t, u, v]) == Bits(lead, [t, u]) * 0x40 + (v as int - 0x80)
  {
    assert [t, u, v][..2] == [t, u];
  }

  lemma Sound2(b: seq<Byte>)
    requires |b| >= 2 && 0xC2 <= b[0] < 0xE0 && Trails(b[1]) && DecodeChar(b).Char?
    ensures EncodeChar(DecodeChar(b).c) == b[..2]
  {
    assert b[1..2] == [b[1]];
    BitsOf1(b[0] as int - 0xC0, b[1]);
    Six(b[0] as int - 0xC0, b[1] as int - 0x80);
  }

  lemma Sound3(b: seq<Byte>)
    requires |b| >= 3 && 0xE0 <= b[0] < 0xF0 && Trails(b[1]) && Trails(b[2]) && DecodeChar(b).Char?
    ensures EncodeChar(DecodeChar(b).c) == b[..3]
  {
    var lead := b[0] as int - 0xE0;
    assert b[1..3] == [b[1], b[2]];
    BitsOf1(lead, b[1]);
    BitsOf2(lead, b[1], b[2]);
    Six(lead, b[1] as int - 0x80);
    Six(Bits(lead, [b[1]]), b[2] as int - 0x80);
  }

  lemma Sound4(b: seq<Byte>)
    requires |b| >= 4 && 0xF0 <= b[0] < 0xF5 && Trails(b[1]) && Trails(b[2]) && Trails(b[3]) && DecodeChar(b).Char?
    ensures EncodeChar(DecodeChar(b).c) == b[..4]
  {
    var lead := b[0] as int - 0xF0;
    assert b[1..4] == [b[1], b[2], b[3]];
    BitsOf1(lead, b[1]);
    BitsOf2(lead, b[1], b[2]);
    BitsOf3(lead, b[1], b[2], b[3]);
    Six(lead, b[1] as int - 0x80);
    Six(Bits(lead, [b[1]]), b[2] as int - 0x80);
    Six(Bits(lead, [b[1], b[2]]), b[3] as int - 0x80);
  }

  /** Whatever is decoded is there, encoded, at the front of the bytes. */
  lemma DecodeCharSound(b: seq<Byte>)
    requires DecodeChar(b).Char?
    ensures EncodeChar(DecodeChar(b).c) <= b
  {
    if b[0] >= 0x80 {
      if b[0] < 0xE0 { Sound2(b); } else if b[0] < 0xF0 { Sound3(b); } else { Sound4(b); }
    }
  }

  /** Every encoded character at the front of the bytes is decoded. */
  lemma DecodeCharComplete(c: char, rest: seq<Byte>)
    ensures DecodeChar(EncodeChar(c) + rest) == Char(c)
  {
    var u, e := c as int, EncodeChar(c);
    var b := e + rest;
    if 0x80 <= u < 0x800 {
      assert b[1..2] == [b[1]];
      BitsOf1(b[0] as int - 0xC0, b[1]);
    } else if 0x800 <= u < 0x10000 {
      assert b[1..3] == [b[1], b[2]];
      BitsOf1(b[0] as int - 0xE0, b[1]);
      BitsOf2(b[0] as int - 0xE0, b[1], b[2]);
    } else if 0x10000 <= u {
      assert b[1..4] == [b[1], b[2], b[3]];
      BitsOf1(b[0] as int - 0xF0, b[1]);
      BitsOf2(b[0] as int - 0xF0, b[1], b[2]);
      BitsOf3(b[0] as int - 0xF0, b[1], b[2], b[3]);
    }
  }

  /** Decoding with errors ignored: a byte that starts no character is dropped. */
  function DecodeIgnore(b: seq<Byte>): string
    decreases |b|
  {
    if b == [] then []
    else match DecodeChar(b)
      case Char(c) => DecodeCharSound(b); [c] + DecodeIgnore(b[|EncodeChar(c)|..])
      case Invalid => DecodeIgnore(b[1..])
  }

  lemma {:induction false} EncodeConcat(s: string, t: string)
    ensures Encode(s + t) == Encode(s) + Encode(t)
  {
    if s == [] {
      assert s + t == t;
    } else {
      assert (s + t)[1..] == s[1..] + t;
      EncodeConcat(s[1..], t);
    }
  }

  lemma DecodeNext(c: char, rest: seq<Byte>)
    ensures DecodeIgnore(EncodeChar(c) + rest) == [c] + DecodeIgnore(rest)
  {
    DecodeCharComplete(c, rest);
    assert (EncodeChar(c) + rest)[|EncodeChar(c)|..] == rest;
  }

  lemma {:induction false} DecodesBack(s: string)
    ensures DecodeIgnore(Encode(s)) == s
  {
    if s != [] {
      DecodesBack(s[1..]);
      DecodeNext(s[0], Encode(s[1..]));
    }
  }

  /** Different strings have different encodings. */
  lemma EncodeInjective(s: string, t: string)
    requires Encode(s) == Encode(t)
    ensures s == t
  {
    DecodesBack(s);
    DecodesBack(t);
  }
}
