// The number tokens are exactly the productions of section 6 of RFC 8259.
module NumberGrammar {
  import opened Prelude
  import opened JsText
  import opened JsonNumbers

  /** Digits, as code points. */
  predicate Figures(t: Text) {
    forall i | 0 <= i < |t| :: 48 <= t[i] < 58
  }

  /** `int`: zero, or digits that do not start with it. */
  predicate Whole(t: Text) {
    t == [48] || (t != [] && Figures(t) && t[0] != 48)
  }

  /** `[ frac ]`: nothing, or a point and digits. */
  predicate Fraction(t: Text) {
    t == [] || (|t| >= 2 && t[0] == 46 && Figures(t[1..]))
  }

  /** `[ exp ]`: nothing, or `e` or `E`, perhaps a sign, and digits. */
  predicate Exponent(t: Text) {
    t == []
    || (|t| >= 2 && t[0] in {101, 69}
        && (Figures(t[1..]) || (|t| >= 3 && t[1] in {43, 45} && Figures(t[2..]))))
  }

  /** `[ minus ] int [ frac ] [ exp ]`. */
  function Spelled(minus: bool, w: Text, f: Text, e: Text): Text {
    (if minus then [45] else []) + (w + (f + e))
  }

  ghost predicate Grammatical(t: Text) {
    exists minus, w, f, e :: Whole(w) && Fraction(f) && Exponent(e) && t == Spelled(minus, w, f, e)
  }

  lemma {:induction false} DigitsAreFigures(t: Text)
    ensures Figures(t[..Digits(t)]) && (Digits(t) < |t| ==> !(48 <= t[Digits(t)] < 58))
  {
    if t != [] && Digit(t[0]) {
      DigitsAreFigures(t[1..]);
      assert t[..Digits(t)] == [t[0]] + t[1..][..Digits(t[1..])];
    }
  }

  lemma {:induction false} FiguresAreDigits(w: Text, rest: Text)
    requires Figures(w) && (rest == [] || !(48 <= rest[0] < 58))
    ensures Digits(w + rest) == |w|
  {
    if w == [] {
      assert w + rest == rest;
    } else {
      assert (w + rest)[1..] == w[1..] + rest;
      FiguresAreDigits(w[1..], rest);
    }
  }

  lemma ExponentIs(e: Text)
    requires ExponentLength(e) == |e|
    ensures Exponent(e)
  {
    if e != [] {
      var sign := SignLength(e[1..]);
      DigitsAreFigures(e[1..][sign..]);
      var x := e[1..][sign..];
      assert x[..|x|] == x;
      assert if sign == 0 then x == e[1..] else x == e[2..];
    }
  }

  lemma ExponentTaken(e: Text)
    requires Exponent(e)
    ensures ExponentLength(e) == |e|
  {
    if e != [] {
      if Figures(e[1..]) {
        assert e[1..][0] == e[1] && e[1..][0..] == e[1..] && e[1..] + [] == e[1..];
        FiguresAreDigits(e[1..], []);
      } else {
        assert e[1..][0] == e[1] && e[1..][1..] == e[2..] && e[2..] + [] == e[2..];
        FiguresAreDigits(e[2..], []);
      }
    }
  }

  lemma FractionIs(r: Text)
    ensures Fraction(r[..FractionLength(r)])
  {
    if FractionLength(r) > 0 {
      DigitsAreFigures(r[1..]);
      assert r[..FractionLength(r)][1..] == r[1..][..Digits(r[1..])];
    }
  }

  lemma FractionTaken(f: Text, e: Text)
    requires Fraction(f) && Exponent(e)
    ensures FractionLength(f + e) == |f| && (f + e)[|f|..] == e
    ensures f + e == [] || !(48 <= (f + e)[0] < 58)
  {
    if f == [] {
      assert f + e == e;
    } else {
      assert (f + e)[1..] == f[1..] + e;
      FiguresAreDigits(f[1..], e);
    }
  }

  lemma WholeIs(u: Text)
    requires IntLength(u) > 0
    ensures Whole(u[..IntLength(u)])
  {
    DigitsAreFigures(u);
  }

  lemma WholeTaken(w: Text, rest: Text)
    requires Whole(w) && (rest == [] || !(48 <= rest[0] < 58))
    ensures IntLength(w + rest) == |w| && (w + rest)[|w|..] == rest && (w + rest)[0] != 45
  {
    if w != [48] { FiguresAreDigits(w, rest); }
  }

  lemma UnsignedIs(u: Text)
    requires UnsignedLength(u) == |u| && u != []
    ensures exists w, f, e :: Whole(w) && Fraction(f) && Exponent(e) && u == w + (f + e)
  {
    hide IntLength, FractionLength, ExponentLength, Whole, Fraction, Exponent;
    var i := IntLength(u);
    var r := u[i..];
    var k := FractionLength(r);
    WholeIs(u);
    FractionIs(r);
    ExponentIs(r[k..]);
    assert u == u[..i] + (r[..k] + r[k..]);
  }

  lemma UnsignedTaken(w: Text, f: Text, e: Text)
    requires Whole(w) && Fraction(f) && Exponent(e)
    ensures UnsignedLength(w + (f + e)) == |w + (f + e)| > 0 && (w + (f + e))[0] != 45
  {
    FractionTaken(f, e);
    ExponentTaken(e);
    WholeTaken(w, f + e);
  }

  /** A text is a number token exactly when the grammar derives it. */
  lemma TokensAreGrammatical(t: Text)
    ensures NumberToken(t) <==> Grammatical(t)
  {
    hide UnsignedLength, Whole, Fraction, Exponent;
    if NumberToken(t) {
      var minus := t[0] == MINUS;
      var u := if minus then t[1..] else t;
      UnsignedIs(u);
      var w, f, e :| Whole(w) && Fraction(f) && Exponent(e) && u == w + (f + e);
      assert t == Spelled(minus, w, f, e);
    }
    if minus, w, f, e :| Whole(w) && Fraction(f) && Exponent(e) && t == Spelled(minus, w, f, e) {
      UnsignedTaken(w, f, e);
      var u := w + (f + e);
      assert if minus then t[1..] == u && t[0] == 45 else t == u;
    }
  }
}
