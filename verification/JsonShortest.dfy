// How strings are spelled: the quoted form is the one shortest well-formed text that reads as the string, with
// lower-case hexadecimal digits where it needs any. That is what `JSON.stringify` writes.
module JsonShortest {
  import opened JsText
  import opened Utf16
  import opened JsonStrings

  /** A printable unit that stands for itself in a JSON string: neither quote nor backslash nor surrogate. */
  predicate StandsForItself(u: CodeUnit) {
    0x20 <= u && u != 0x22 && u != 0x5C && !(0xD800 <= u < 0xE000)
  }

  /** Such text is quoted as it is: slashes, for one, are never escaped. */
  lemma {:induction false} PlainTextUnchanged(s: Text)
    requires forall i | 0 <= i < |s| :: StandsForItself(s[i])
    ensures Escape(s) == s && Quote(s) == [0x22] + s + [0x22]
  {
    if s != [] {
      PlainTextUnchanged(s[1..]);
      assert s == [s[0]] + s[1..];
    }
  }

  lemma WellFormedRest(t: Text, n: nat)
    requires WellFormed(t) && n <= |t| && forall i | 0 <= i < n :: !High(t[i]) && !Low(t[i])
    ensures WellFormed(t[n..])
  {
    if n > 0 {
      assert t[1..][n - 1..] == t[n..];
      WellFormedRest(t[1..], n - 1);
    }
  }

  lemma EscapeCons(u: CodeUnit, s: Text)
    ensures |Escape([u] + s)| <= |EscapeUnit(u)| + |Escape(s)|
    ensures |Escape([u] + s)| == |EscapeUnit(u)| + |Escape(s)| ==> Escape([u] + s) == EscapeUnit(u) + Escape(s)
  {
    var t := [u] + s;
    assert t[1..] == s;
    if PairFirst(t) {
      assert t[2..] == s[1..] && t[..2] == [u, s[0]];
    }
  }

  /** The three kinds of piece: a unit itself, a letter escape, a number. */
  lemma PieceKinds(t: Text, u: CodeUnit, more: Text)
    requires ParseUnit(t) == Got(u, more)
    ensures var n := |t| - |more|;
            && more == t[n..]
            && if n == 1 then u == t[0] >= 0x20 && u != QUOTE && u != BACKSLASH
               else t[0] == BACKSLASH && if n == 2 then LongEscape(t[1]) == u else n == 6 && t[1] == 0x75
  {
  }

  lemma LetterPlain(t: Text, u: CodeUnit)
    requires |t| >= 2 && t[0] == BACKSLASH && LongEscape(t[1]) == u
    ensures |EscapeUnit(u)| <= 2 && !High(t[0]) && !Low(t[0]) && !High(t[1]) && !Low(t[1])
  {
  }

  lemma NumberPlain(t: Text, u: CodeUnit, more: Text)
    requires ParseUnit(t) == Got(u, more) && |t| == |more| + 6
    ensures forall i | 0 <= i < 6 :: !High(t[i]) && !Low(t[i])
  {
  }

  lemma UnitSize(u: CodeUnit)
    ensures |EscapeUnit(u)| <= 6
    ensures u >= 0x20 && u != QUOTE && u != BACKSLASH && !High(u) && !Low(u) ==> EscapeUnit(u) == [u]
  {
  }

  lemma SurrogateFirst(t: Text)
    requires WellFormed(t) && t != [] && !PairFirst(t)
    ensures !High(t[0]) && !Low(t[0])
  {
  }

  /** The unit that a text's first piece stands for is written in no more units than that piece. */
  lemma UnitIsShortest(t: Text, u: CodeUnit, more: Text)
    requires WellFormed(t) && !PairFirst(t) && ParseUnit(t) == Got(u, more)
    ensures WellFormed(more) && |EscapeUnit(u)| + |more| <= |t|
  {
    hide ParseUnit, EscapeUnit, WellFormed, LongEscape;
    PieceKinds(t, u, more);
    SurrogateFirst(t);
    UnitSize(u);
    var n := |t| - |more|;
    if n == 2 { LetterPlain(t, u); }
    if n == 6 { NumberPlain(t, u, more); }
    WellFormedRest(t, n);
  }

  lemma PairRead(t: Text, s: Text, rest: Text)
    requires PairFirst(t) && ParseChars(t) == Got(s, rest)
    ensures |s| >= 2 && s[..2] == t[..2] && ParseChars(t[2..]) == Got(s[2..], rest)
    ensures Escape(s) == t[..2] + Escape(s[2..])
  {
    assert ParseUnit(t) == Got(t[0], t[1..]) && ParseUnit(t[1..]) == Got(t[1], t[1..][1..]);
    assert t[1..][1..] == t[2..];
    var r := ParseChars(t[2..]).value;
    assert ParseChars(t[1..]) == Got([t[1]] + r, rest);
    assert s == [t[0]] + ([t[1]] + r);
    assert s[2..] == r;
  }

  /** No well-formed text that reads as a string is shorter than its quoted form. */
  lemma {:induction false} ReadIsShortest(t: Text, s: Text, rest: Text)
    requires WellFormed(t) && ParseChars(t) == Got(s, rest)
    ensures WellFormed(rest) && |Escape(s)| + 1 + |rest| <= |t|
    decreases |t|
  {
    hide EscapeUnit, ParseUnit;
    if t != [] && t[0] == QUOTE {
      WellFormedRest(t, 1);
    } else if PairFirst(t) {
      PairRead(t, s, rest);
      ReadIsShortest(t[2..], s[2..], rest);
    } else {
      var unit := ParseUnit(t);
      UnitIsShortest(t, unit.value, unit.rest);
      ReadIsShortest(unit.rest, s[1..], rest);
      EscapeCons(unit.value, s[1..]);
      assert s == [unit.value] + s[1..];
    }
  }

  lemma EscapeIsShortest(t: Text, s: Text)
    requires WellFormed(t) && ParseChars(t + [QUOTE]) == Got(s, [])
    ensures |Escape(s)| <= |t|
  {
    PlainIsWellFormed([QUOTE]);
    WellFormedConcat(t, [QUOTE]);
    ReadIsShortest(t + [QUOTE], s, []);
  }

  // ---------------------------------------------------------------- and it is the only one

  predicate LowerDigit(u: CodeUnit) {
    0x30 <= u <= 0x39 || 0x61 <= u <= 0x66
  }

  /** Whatever is escaped by number is so in lower-case digits. */
  predicate LowerHex(t: Text)
    decreases |t|
  {
    if t == [] then true
    else if t[0] != BACKSLASH || |t| < 2 then LowerHex(t[1..])
    else if t[1] != 0x75 || |t| < 6 then LowerHex(t[2..])
    else LowerDigit(t[2]) && LowerDigit(t[3]) && LowerDigit(t[4]) && LowerDigit(t[5]) && LowerHex(t[6..])
  }

  lemma DigitOf(d: CodeUnit)
    requires LowerDigit(d)
    ensures 0 <= HexValue(d) && HexDigit(HexValue(d)) == d
  {
  }

  lemma Digits(a: int, b: int, c: int, d: int)
    requires 0 <= a < 16 && 0 <= b < 16 && 0 <= c < 16 && 0 <= d < 16
    ensures var u := ((a * 16 + b) * 16 + c) * 16 + d;
            u / 16 / 16 / 16 == a && u / 16 / 16 % 16 == b && u / 16 % 16 == c && u % 16 == d
  {
    var x, y := a * 16 + b, (a * 16 + b) * 16 + c;
    assert (y * 16 + d) / 16 == y && (y * 16 + d) % 16 == d;
    assert (x * 16 + c) / 16 == x && (x * 16 + c) % 16 == c;
    assert (a * 16 + b) / 16 == a && (a * 16 + b) % 16 == b;
  }

  lemma NumberedAgain(t: Text, u: CodeUnit)
    requires |t| >= 6 && t[0] == BACKSLASH && t[1] == 0x75 && ParseUnit(t) == Got(u, t[6..])
    requires LowerDigit(t[2]) && LowerDigit(t[3]) && LowerDigit(t[4]) && LowerDigit(t[5])
    ensures UnicodeEscape(u) == t[..6]
  {
    assert LongEscape(0x75) == -1;
    DigitOf(t[2]);
    DigitOf(t[3]);
    DigitOf(t[4]);
    DigitOf(t[5]);
    Digits(HexValue(t[2]), HexValue(t[3]), HexValue(t[4]), HexValue(t[5]));
  }

  lemma UnitIsOnly(t: Text, u: CodeUnit, more: Text)
    requires WellFormed(t) && !PairFirst(t) && ParseUnit(t) == Got(u, more) && LowerHex(t)
    ensures LowerHex(more)
    ensures |EscapeUnit(u)| + |more| == |t| ==> t == EscapeUnit(u) + more
  {
    hide LowerHex, UnicodeEscape;
    LowerHexRest(t, u, more);
    if |t| == |more| + 6 {
      LowerHexDigits(t);
      NumberedAgain(t, u);
    }
  }

  lemma LowerHexDigits(t: Text)
    requires LowerHex(t) && |t| >= 6 && t[0] == BACKSLASH && t[1] == 0x75
    ensures LowerDigit(t[2]) && LowerDigit(t[3]) && LowerDigit(t[4]) && LowerDigit(t[5])
  {
  }

  lemma LowerHexRest(t: Text, u: CodeUnit, more: Text)
    requires ParseUnit(t) == Got(u, more) && LowerHex(t)
    ensures LowerHex(more)
  {
    assert LongEscape(0x75) == -1;
  }

  lemma {:induction false} ShortestIsEscape(t: Text, s: Text, rest: Text)
    requires WellFormed(t) && ParseChars(t) == Got(s, rest) && LowerHex(t)
    requires |t| == |Escape(s)| + 1 + |rest|
    ensures t == Escape(s) + ([QUOTE] + rest)
    decreases |t|
  {
    hide EscapeUnit, ParseUnit, WellFormed, Escape, LowerHex;
    if t != [] && t[0] == QUOTE {
      NothingEscaped();
      assert t == [] + ([QUOTE] + rest);
    } else if PairFirst(t) {
      PairRead(t, s, rest);
      WellFormedPair(t);
      ShortestIsEscape(t[2..], s[2..], rest);
      assert t == t[..2] + t[2..];
      Nested(t[..2], Escape(s[2..]), [QUOTE] + rest);
    } else {
      var unit := ParseUnit(t);
      UnitIsShortest(t, unit.value, unit.rest);
      UnitIsOnly(t, unit.value, unit.rest);
      ReadIsShortest(unit.rest, s[1..], rest);
      EscapeCons(unit.value, s[1..]);
      assert s == [unit.value] + s[1..];
      ShortestIsEscape(unit.rest, s[1..], rest);
      Nested(EscapeUnit(unit.value), Escape(s[1..]), [QUOTE] + rest);
    }
  }

  lemma Nested(a: Text, b: Text, c: Text)
    ensures (a + b) + c == a + (b + c)
  {
  }

  lemma NothingEscaped()
    ensures Escape([]) == []
  {
  }

  lemma WellFormedPair(t: Text)
    requires WellFormed(t) && PairFirst(t) && LowerHex(t)
    ensures WellFormed(t[2..]) && LowerHex(t[2..])
  {
    assert t[1..][1..] == t[2..];
  }

  lemma {:induction false} EscapeLowerHex(s: Text, rest: Text)
    requires LowerHex(rest)
    ensures LowerHex(Escape(s) + rest)
  {
    hide LowerHex, EscapeUnit;
    if s == [] {
      assert [] + rest == rest;
    } else if PairFirst(s) {
      var more := Escape(s[2..]) + rest;
      EscapeLowerHex(s[2..], rest);
      LowerHexPlain(s[1], more);
      LowerHexPlain(s[0], [s[1]] + more);
      Nested(s[..2], Escape(s[2..]), rest);
      assert s[..2] + more == [s[0]] + ([s[1]] + more);
    } else {
      EscapeLowerHex(s[1..], rest);
      LowerHexUnit(s[0], Escape(s[1..]) + rest);
      Nested(EscapeUnit(s[0]), Escape(s[1..]), rest);
    }
  }

  lemma LowerHexPlain(u: CodeUnit, rest: Text)
    requires u != BACKSLASH && LowerHex(rest)
    ensures LowerHex([u] + rest)
  {
    assert ([u] + rest)[1..] == rest;
  }

  lemma LowerHexUnit(u: CodeUnit, rest: Text)
    requires LowerHex(rest)
    ensures LowerHex(EscapeUnit(u) + rest)
  {
    var e := EscapeUnit(u);
    assert (e + rest)[|e|..] == rest;
  }

  /** The quoted form is the one text with all that: well-formed, read as the string, shortest, in lower case. */
  lemma EscapeIsTheShortest(t: Text, s: Text)
    requires WellFormed(t) && ParseChars(t + [QUOTE]) == Got(s, [])
    ensures t == Escape(s) <==> LowerHex(t + [QUOTE]) && |t| <= |Escape(s)|
  {
    EscapeIsShortest(t, s);
    assert LowerHex([QUOTE]) by { assert [QUOTE][1..] == []; }
    EscapeLowerHex(s, [QUOTE]);
    if LowerHex(t + [QUOTE]) && |t| <= |Escape(s)| {
      PlainIsWellFormed([QUOTE]);
      WellFormedConcat(t, [QUOTE]);
      ShortestIsEscape(t + [QUOTE], s, []);
      assert [QUOTE] + [] == [QUOTE];
      assert (t + [QUOTE])[..|t|] == t && (Escape(s) + [QUOTE])[..|t|] == Escape(s);
    }
  }
}
