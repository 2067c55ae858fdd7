// JSON strings as `JSON.stringify` writes them and `JSON.parse` reads them: section 7 of RFC 8259, with
// lone surrogates written as escapes.
module JsonStrings {
  import opened JsText
  import opened Utf16

  const QUOTE: CodeUnit := 0x22
  const BACKSLASH: CodeUnit := 0x5C

  datatype Parse<T> = Got(value: T, rest: Text) | Fail


  function HexDigit(n: int): CodeUnit
    requires 0 <= n < 16
  {
    if n < 10 then 0x30 + n else 0x57 + n
  }

  /** Either case is read; -1 is no digit. */
  function HexValue(u: CodeUnit): (n: int)
    ensures -1 <= n < 16
  {
    if 0x30 <= u <= 0x39 then u - 0x30
    else if 0x61 <= u <= 0x66 then u - 0x57
    else if 0x41 <= u <= 0x46 then u - 0x37
    else -1
  }

  /** The digits 0-9, a-f and A-F, and no other unit. */
  lemma HexTable(u: CodeUnit)
    ensures HexValue(u) == if 48 <= u < 58 then u - 48 else if 97 <= u < 103 then u - 87
                           else if 65 <= u < 71 then u - 55 else -1
  {
  }

  function UnicodeEscape(u: CodeUnit): Text {
    [BACKSLASH, 0x75, HexDigit(u / 16 / 16 / 16), HexDigit(u / 16 / 16 % 16), HexDigit(u / 16 % 16), HexDigit(u % 16)]
  }

  /** The letter after the backslash, for the units that have one. */
  function ShortEscape(u: CodeUnit): CodeUnit {
    if u == QUOTE || u == BACKSLASH then u
    else if u == 8 then 0x62
    else if u == 9 then 0x74
    else if u == 10 then 0x6E
    else if u == 12 then 0x66
    else if u == 13 then 0x72
    else 0
  }

  function EscapeUnit(u: CodeUnit): Text {
    if ShortEscape(u) != 0 then [BACKSLASH, ShortEscape(u)]
    else if u < 0x20 || High(u) || Low(u) then UnicodeEscape(u)
    else [u]
  }

  function Escape(s: Text): Text {
    if s == [] then []
    else if PairFirst(s) then s[..2] + Escape(s[2..])
    else EscapeUnit(s[0]) + Escape(s[1..])
  }

  function Quote(s: Text): Text {
    [QUOTE] + Escape(s) + [QUOTE]
  }

  function LongEscape(u: CodeUnit): int {
    if u == QUOTE || u == BACKSLASH || u == 0x2F then u
    else if u == 0x62 then 8
    else if u == 0x74 then 9
    else if u == 0x6E then 10
    else if u == 0x66 then 12
    else if u == 0x72 then 13
    else -1
  }

  /** A backslash is read before a quote, a backslash, a slash, and the letters b, t, n, f and r. */
  lemma LetterTable(u: CodeUnit)
    ensures LongEscape(u) == match u
                             case 34 => 34
                             case 92 => 92
                             case 47 => 47
                             case 98 => 8
                             case 116 => 9
                             case 110 => 10
                             case 102 => 12
                             case 114 => 13
                             case _ => -1
  {
  }

  /** One unit of a string, at the front of the text. */
  function ParseUnit(t: Text): (p: Parse<CodeUnit>)
    ensures p.Got? ==> |p.rest| < |t|
  {
    if t == [] || t[0] < 0x20 || t[0] == QUOTE then Fail
    else if t[0] != BACKSLASH then Got(t[0], t[1..])
    else if |t| >= 2 && LongEscape(t[1]) >= 0 then Got(LongEscape(t[1]), t[2..])
    else if |t| >= 6 && t[1] == 0x75
         && HexValue(t[2]) >= 0 && HexValue(t[3]) >= 0 && HexValue(t[4]) >= 0 && HexValue(t[5]) >= 0 then
      Got(((HexValue(t[2]) * 16 + HexValue(t[3])) * 16 + HexValue(t[4])) * 16 + HexValue(t[5]), t[6..])
    else Fail
  }

  /** The rest of a string, up to and over its closing quote. */
  function ParseChars(t: Text): (p: Parse<Text>)
    ensures p.Got? ==> |p.rest| < |t|
    decreases |t|
  {
    if t != [] && t[0] == QUOTE then Got([], t[1..])
    else
      match ParseUnit(t)
      case Fail => Fail
      case Got(u, more) =>
        match ParseChars(more)
        case Fail => Fail
        case Got(s, rest) => Got([u] + s, rest)
  }

  lemma ReadsShort(u: CodeUnit, rest: Text)
    requires ShortEscape(u) != 0
    ensures ParseUnit([BACKSLASH, ShortEscape(u)] + rest) == Got(u, rest)
  {
    assert ([BACKSLASH, ShortEscape(u)] + rest)[2..] == rest;
  }

  lemma HexDigits(n: int)
    requires 0 <= n < 16
    ensures HexValue(HexDigit(n)) == n
  {
  }

  lemma ReadsUnicode(u: CodeUnit, rest: Text)
    ensures ParseUnit(UnicodeEscape(u) + rest) == Got(u, rest)
  {
    var t := UnicodeEscape(u) + rest;
    HexDigits(u / 16 / 16 / 16);
    HexDigits(u / 16 / 16 % 16);
    HexDigits(u / 16 % 16);
    HexDigits(u % 16);
    assert t[6..] == rest;
    assert LongEscape(0x75) == -1;
  }

  lemma ReadsPlain(u: CodeUnit, rest: Text)
    requires u >= 0x20 && u != QUOTE && u != BACKSLASH
    ensures ParseUnit([u] + rest) == Got(u, rest)
  {
    assert ([u] + rest)[1..] == rest;
  }

  lemma ReadsUnit(u: CodeUnit, rest: Text)
    ensures ParseUnit(EscapeUnit(u) + rest) == Got(u, rest) && EscapeUnit(u)[0] != QUOTE
  {
    if ShortEscape(u) != 0 {
      ReadsShort(u, rest);
    } else if u < 0x20 || High(u) || Low(u) {
      ReadsUnicode(u, rest);
    } else {
      ReadsPlain(u, rest);
    }
  }

  lemma ReadsOneMore(u: CodeUnit, e: Text, s: Text, more: Text, rest: Text)
    requires e != [] && e[0] != QUOTE && ParseUnit(e + more) == Got(u, more) && ParseChars(more) == Got(s, rest)
    ensures ParseChars(e + more) == Got([u] + s, rest)
  {
  }

  /** A string after its opening quote, and what follows it. */
  function Closed(s: Text, rest: Text): Text {
    Escape(s) + ([QUOTE] + rest)
  }

  lemma ReadsPlainMore(u: CodeUnit, s: Text, more: Text, rest: Text)
    requires u >= 0x20 && u != QUOTE && u != BACKSLASH && ParseChars(more) == Got(s, rest)
    ensures ParseChars([u] + more) == Got([u] + s, rest)
  {
    ReadsPlain(u, more);
    ReadsOneMore(u, [u], s, more, rest);
  }

  lemma PairShape(s: Text, rest: Text)
    requires PairFirst(s)
    ensures Closed(s, rest) == [s[0]] + ([s[1]] + Closed(s[2..], rest)) && s == [s[0]] + ([s[1]] + s[2..])
  {
  }

  lemma ClosedPair(s: Text, rest: Text)
    requires PairFirst(s) && ParseChars(Closed(s[2..], rest)) == Got(s[2..], rest)
    ensures ParseChars(Closed(s, rest)) == Got(s, rest)
  {
    PairShape(s, rest);
    ReadsPlainMore(s[1], s[2..], Closed(s[2..], rest), rest);
    ReadsPlainMore(s[0], [s[1]] + s[2..], [s[1]] + Closed(s[2..], rest), rest);
  }

  lemma ClosedUnit(s: Text, rest: Text)
    requires s != [] && !PairFirst(s) && ParseChars(Closed(s[1..], rest)) == Got(s[1..], rest)
    ensures ParseChars(Closed(s, rest)) == Got(s, rest)
  {
    hide EscapeUnit, ParseUnit, ParseChars;
    var more := Closed(s[1..], rest);
    ReadsUnit(s[0], more);
    ReadsOneMore(s[0], EscapeUnit(s[0]), s[1..], more, rest);
    assert Closed(s, rest) == EscapeUnit(s[0]) + more;
    assert s == [s[0]] + s[1..];
  }

  /** Every string is read back from its quoted form. */
  lemma {:induction false} ReadsBack(s: Text, rest: Text)
    ensures ParseChars(Closed(s, rest)) == Got(s, rest)
  {
    if s == [] {
      assert Closed(s, rest) == [QUOTE] + rest;
    } else if PairFirst(s) {
      ReadsBack(s[2..], rest);
      ClosedPair(s, rest);
    } else {
      ReadsBack(s[1..], rest);
      ClosedUnit(s, rest);
    }
  }

  // ---------------------------------------------------------------- quoted strings have no lone surrogate

  lemma {:induction false} EscapeWellFormed(s: Text)
    ensures WellFormed(Escape(s))
  {
    if s == [] {
    } else if PairFirst(s) {
      EscapeWellFormed(s[2..]);
      WellFormedConcat(s[..2], Escape(s[2..]));
    } else {
      EscapeWellFormed(s[1..]);
      PlainIsWellFormed(EscapeUnit(s[0]));
      WellFormedConcat(EscapeUnit(s[0]), Escape(s[1..]));
    }
  }

  lemma QuoteWellFormed(s: Text)
    ensures WellFormed(Quote(s))
  {
    EscapeWellFormed(s);
    PlainIsWellFormed([QUOTE]);
    WellFormedConcat([QUOTE], Escape(s));
    WellFormedConcat([QUOTE] + Escape(s), [QUOTE]);
  }
}
