// JavaScript strings as text: UTF-16 with surrogate pairs, and the bytes `Buffer.from` makes of them. A lone
// surrogate becomes the replacement character, so the bytes determine the string only if it has none.
module Utf16 {
  import opened JsText
  import opened Utf8

  predicate High(u: CodeUnit) { 0xD800 <= u < 0xDC00 }
  predicate Low(u: CodeUnit) { 0xDC00 <= u < 0xE000 }

  predicate PairFirst(t: Text) {
    |t| > 1 && High(t[0]) && Low(t[1])
  }

  function OfPair(high: CodeUnit, low: CodeUnit): char
    requires High(high) && Low(low)
  {
    (0x10000 + (high - 0xD800) * 0x400 + (low - 0xDC00)) as char
  }

  /** The characters a string stands for. */
  function Characters(t: Text): string {
    if t == [] then []
    else if PairFirst(t) then [OfPair(t[0], t[1])] + Characters(t[2..])
    else if High(t[0]) || Low(t[0]) then ['\U{FFFD}'] + Characters(t[1..])
    else [t[0] as char] + Characters(t[1..])
  }

  /** `Buffer.from(text)`. */
  function BufferFrom(t: Text): seq<Byte> {
    Encode(Characters(t))
  }

  /** No surrogate without its partner. */
  predicate WellFormed(t: Text) {
    t == [] || if PairFirst(t) then WellFormed(t[2..]) else !High(t[0]) && !Low(t[0]) && WellFormed(t[1..])
  }

  function UnitsOf(c: char): Text {
    var u := c as int;
    if u < 0x10000 then [u] else [0xD800 + (u - 0x10000) / 0x400, 0xDC00 + (u - 0x10000) % 0x400]
  }

  function Units(s: string): Text {
    if s == [] then [] else UnitsOf(s[0]) + Units(s[1..])
  }

  lemma {:induction false} UnitsBack(t: Text)
    requires WellFormed(t)
    ensures Units(Characters(t)) == t
  {
    if t != [] {
      if PairFirst(t) {
        UnitsBack(t[2..]);
        assert t == [t[0], t[1]] + t[2..];
        assert UnitsOf(OfPair(t[0], t[1])) == [t[0], t[1]];
      } else {
        UnitsBack(t[1..]);
        assert t == [t[0]] + t[1..];
      }
    }
  }

  /** Well-formed strings with the same bytes are the same. */
  lemma BufferInjective(a: Text, b: Text)
    requires WellFormed(a) && WellFormed(b) && BufferFrom(a) == BufferFrom(b)
    ensures a == b
  {
    EncodeInjective(Characters(a), Characters(b));
    UnitsBack(a);
    UnitsBack(b);
  }

  lemma {:induction false} WellFormedConcat(a: Text, b: Text)
    requires WellFormed(a) && WellFormed(b)
    ensures WellFormed(a + b)
  {
    if a == [] {
      assert a + b == b;
    } else if PairFirst(a) {
      assert (a + b)[2..] == a[2..] + b;
      WellFormedConcat(a[2..], b);
    } else {
      assert (a + b)[0] == a[0] && (a + b)[1..] == a[1..] + b;
      WellFormedConcat(a[1..], b);
    }
  }

  lemma {:induction false} PlainIsWellFormed(t: Text)
    requires forall i | 0 <= i < |t| :: !High(t[i]) && !Low(t[i])
    ensures WellFormed(t)
  {
    if t != [] { PlainIsWellFormed(t[1..]); }
  }
}
