// The texts of JSON numbers: section 6 of RFC 8259.
module JsonNumbers {
  import opened Prelude
  import opened JsText

  const MINUS: CodeUnit := 0x2D
  const PLUS: CodeUnit := 0x2B
  const POINT: CodeUnit := 0x2E
  const ZERO: CodeUnit := 0x30

  predicate Digit(u: CodeUnit) {
    0x30 <= u <= 0x39
  }

  predicate ExponentMark(u: CodeUnit) {
    u == 0x65 || u == 0x45
  }

  /** Whatever may occur in a number. */
  predicate NumberUnit(u: CodeUnit) {
    Digit(u) || u == MINUS || u == PLUS || u == POINT || ExponentMark(u)
  }

  /** How many digits the text starts with. */
  function Digits(t: Text): (n: nat)
    ensures n <= |t|
  {
    if t != [] && Digit(t[0]) then Digits(t[1..]) + 1 else 0
  }

  /** A zero, or digits that do not start with one. */
  function IntLength(t: Text): (n: nat)
    ensures n <= |t|
  {
    if t != [] && t[0] == ZERO then 1 else Digits(t)
  }

  /** A point and at least one digit, or nothing. */
  function FractionLength(t: Text): (n: nat)
    ensures n <= |t|
  {
    if t != [] && t[0] == POINT && Digits(t[1..]) > 0 then 1 + Digits(t[1..]) else 0
  }

  function SignLength(t: Text): (n: nat)
    ensures n <= |t|
  {
    if t != [] && (t[0] == MINUS || t[0] == PLUS) then 1 else 0
  }

  /** A mark, perhaps a sign, and at least one digit, or nothing. */
  function ExponentLength(t: Text): (n: nat)
    ensures n <= |t|
  {
    if t == [] || !ExponentMark(t[0]) then 0
    else
      var sign := SignLength(t[1..]);
      var digits := Digits(t[1..][sign..]);
      if digits > 0 then 1 + sign + digits else 0
  }

  function TailLength(t: Text): (n: nat)
    ensures n <= |t|
  {
    FractionLength(t) + ExponentLength(t[FractionLength(t)..])
  }

  function UnsignedLength(t: Text): (n: nat)
    ensures n <= |t|
  {
    if IntLength(t) == 0 then 0 else IntLength(t) + TailLength(t[IntLength(t)..])
  }

  /** The length of the longest number the text starts with; 0 if it starts with none. */
  function NumberLength(t: Text): (n: nat)
    ensures n <= |t|
  {
    if t != [] && t[0] == MINUS
    then if UnsignedLength(t[1..]) == 0 then 0 else 1 + UnsignedLength(t[1..])
    else UnsignedLength(t)
  }

  predicate NumberToken(t: Text) {
    t != [] && NumberLength(t) == |t|
  }

  /** What follows a value cannot be taken for more of a number. */
  predicate Ends(rest: Text) {
    rest == [] || !NumberUnit(rest[0])
  }

  // ---------------------------------------------------------------- where a number stops

  lemma Later(t: Text, rest: Text, k: nat)
    requires k <= |t|
    ensures (t + rest)[k..] == t[k..] + rest
  {
  }

  lemma {:induction false} DigitsStop(t: Text, rest: Text)
    requires Ends(rest)
    ensures Digits(t + rest) == Digits(t)
  {
    if t == [] {
      assert t + rest == rest;
    } else {
      Later(t, rest, 1);
      DigitsStop(t[1..], rest);
    }
  }

  lemma TailStop(t: Text, rest: Text)
    requires Ends(rest)
    ensures TailLength(t + rest) == TailLength(t)
  {
    FractionStop(t, rest);
    Later(t, rest, FractionLength(t));
    ExponentStop(t[FractionLength(t)..], rest);
  }

  lemma FractionStop(t: Text, rest: Text)
    requires Ends(rest)
    ensures FractionLength(t + rest) == FractionLength(t)
  {
    if t == [] {
      assert t + rest == rest;
    } else {
      Later(t, rest, 1);
      DigitsStop(t[1..], rest);
    }
  }

  lemma ExponentStop(t: Text, rest: Text)
    requires Ends(rest)
    ensures ExponentLength(t + rest) == ExponentLength(t)
  {
    if t == [] {
      assert t + rest == rest;
    } else {
      Later(t, rest, 1);
      if t[1..] == [] { assert t[1..] + rest == rest; }
      var sign := SignLength(t[1..]);
      assert SignLength(t[1..] + rest) == sign;
      Later(t[1..], rest, sign);
      DigitsStop(t[1..][sign..], rest);
    }
  }

  lemma UnsignedStop(t: Text, rest: Text)
    requires Ends(rest)
    ensures UnsignedLength(t + rest) == UnsignedLength(t)
  {
    DigitsStop(t, rest);
    if t == [] { assert t + rest == rest; }
    assert IntLength(t + rest) == IntLength(t);
    Later(t, rest, IntLength(t));
    TailStop(t[IntLength(t)..], rest);
  }

  lemma NumberStops(token: Text, rest: Text)
    requires NumberToken(token) && Ends(rest)
    ensures NumberLength(token + rest) == |token|
  {
    Later(token, rest, 1);
    UnsignedStop(token, rest);
    UnsignedStop(token[1..], rest);
  }

  // ---------------------------------------------------------------- what is cut off is a number

  lemma Earlier(t: Text, n: nat, k: nat)
    requires k <= n <= |t|
    ensures t[..n][k..] == t[k..][..n - k]
  {
  }

  lemma {:induction false} DigitsCut(t: Text, n: nat)
    requires Digits(t) <= n <= |t|
    ensures Digits(t[..n]) == Digits(t)
  {
    if t != [] && Digit(t[0]) {
      Earlier(t, n, 1);
      DigitsCut(t[1..], n - 1);
    }
  }

  lemma FractionCut(t: Text, n: nat)
    requires FractionLength(t) <= n <= |t|
    ensures FractionLength(t) > 0 || n == 0 ==> FractionLength(t[..n]) == FractionLength(t)
  {
    if FractionLength(t) > 0 {
      Earlier(t, n, 1);
      DigitsCut(t[1..], n - 1);
    }
  }

  lemma ExponentCut(t: Text)
    ensures ExponentLength(t[..ExponentLength(t)]) == ExponentLength(t)
  {
    var n := ExponentLength(t);
    if n > 0 {
      var sign := SignLength(t[1..]);
      Earlier(t, n, 1);
      Earlier(t[1..], n - 1, sign);
      DigitsCut(t[1..][sign..], n - 1 - sign);
    }
  }

  lemma TailCut(t: Text)
    ensures TailLength(t[..TailLength(t)]) == TailLength(t)
  {
    var n, f := TailLength(t), FractionLength(t);
    Earlier(t, n, f);
    ExponentCut(t[f..]);
    FractionCut(t, n);
    if f == 0 && n > 0 { assert t[..n][0] == t[0]; }
  }

  lemma UnsignedCut(t: Text)
    ensures UnsignedLength(t[..UnsignedLength(t)]) == UnsignedLength(t)
  {
    var n, i := UnsignedLength(t), IntLength(t);
    if n > 0 {
      assert t[..n][0] == t[0];
      if t[0] != ZERO { DigitsCut(t, n); }
      Earlier(t, n, i);
      TailCut(t[i..]);
    }
  }

  lemma CutIsToken(t: Text)
    requires NumberLength(t) > 0
    ensures NumberToken(t[..NumberLength(t)])
  {
    var n := NumberLength(t);
    assert t[..n][0] == t[0];
    Earlier(t, n, 1);
    if t[0] == MINUS { UnsignedCut(t[1..]); } else { UnsignedCut(t); }
  }

  // ---------------------------------------------------------------- a number holds nothing else

  predicate AllUnits(t: Text) {
    forall i | 0 <= i < |t| :: NumberUnit(t[i])
  }

  lemma {:induction false} DigitsAreUnits(t: Text)
    ensures AllUnits(t[..Digits(t)])
  {
    if t != [] && Digit(t[0]) {
      DigitsAreUnits(t[1..]);
      assert t[..Digits(t)] == [t[0]] + t[1..][..Digits(t[1..])];
    }
  }

  lemma TailIsUnits(t: Text)
    ensures AllUnits(t[..TailLength(t)])
  {
    var f, n := FractionLength(t), TailLength(t);
    if f > 0 {
      DigitsAreUnits(t[1..]);
      assert t[..f] == [t[0]] + t[1..][..f - 1];
    }
    ExponentIsUnits(t[f..]);
    assert t[..n] == t[..f] + t[f..][..n - f];
  }

  lemma ExponentIsUnits(t: Text)
    ensures AllUnits(t[..ExponentLength(t)])
  {
    var n := ExponentLength(t);
    if n > 0 {
      var sign := SignLength(t[1..]);
      DigitsAreUnits(t[1..][sign..]);
      assert t[..n] == [t[0]] + t[1..][..sign] + t[1..][sign..][..n - 1 - sign];
    }
  }

  lemma IntIsUnits(t: Text)
    ensures AllUnits(t[..IntLength(t)])
  {
    DigitsAreUnits(t);
  }

  lemma UnitsJoin(a: Text, b: Text)
    requires AllUnits(a) && AllUnits(b)
    ensures AllUnits(a + b)
  {
  }

  lemma UnsignedIsUnits(t: Text)
    ensures AllUnits(t[..UnsignedLength(t)])
  {
    hide AllUnits, TailLength;
    var i, n := IntLength(t), UnsignedLength(t);
    IntIsUnits(t);
    if n > 0 {
      TailIsUnits(t[i..]);
      UnitsJoin(t[..i], t[i..][..n - i]);
      assert t[..n] == t[..i] + t[i..][..n - i];
    } else {
      assert t[..n] == t[..i];
    }
  }

  lemma TokenIsUnits(token: Text)
    requires NumberToken(token)
    ensures AllUnits(token)
  {
    if token[0] == MINUS {
      UnsignedIsUnits(token[1..]);
      assert token == [token[0]] + token[1..][..|token| - 1];
    } else {
      UnsignedIsUnits(token);
      assert token == token[..|token|];
    }
  }

  // ---------------------------------------------------------------- the number a text stands for

  /**
   * What JavaScript makes of a number text: the shortest text of the double it denotes, or nothing if that
   * is infinite. Rounding itself is not modelled: all that is used of it is that shortest texts are numbers
   * and stand for themselves.
   */
  type Numbers = Text -> Option<Text>

  ghost predicate Shortens(num: Numbers) {
    forall t | NumberToken(t) && num(t).Some? :: NumberToken(num(t).value) && num(num(t).value) == num(t)
  }
}
