// What LineWrap demands of the lines leaves no choice: a text has one way of being cut into legal lines.
module LineChoice {
  import opened LineWrap

  lemma WidthGrows(a: string, b: string)
    ensures Width(a + b) >= Width(a)
  {
    WidthConcat(a, b);
  }

  /** A line that holds a whole other line and the piece after it is wider than both together. */
  lemma HoldsMore(text: string, off: nat, a: string, next: string, b: string)
    requires |a| + |next| <= |b| && off + |b| <= |text|
    requires b == text[off..off + |b|] && a == text[off..off + |a|] && next == text[off + |a|..off + |a| + |next|]
    ensures Width(b) >= Width(a) + Width(next)
  {
    assert b == (a + next) + b[|a| + |next|..];
    WidthGrows(a + next, b[|a| + |next|..]);
    WidthConcat(a, next);
  }

  /** A run of Latin characters around a position of a segment lies inside the segment. */
  lemma StretchInSegment(text: string, p: nat, e: nat, q: nat, x: nat, y: nat)
    requires p < q < e <= |text| && !InsideWord(text, p) && !InsideWord(text, e)
    requires AllLatin(text[p..e]) && Stretch(text, x, y) && x < q < y
    ensures p <= x && y <= e
  {
    AllOfStretch(text, x, y);
  }

  lemma AllOfStretch(text: string, x: nat, y: nat)
    requires Stretch(text, x, y)
    ensures forall i | x <= i < y :: IsLatin(text[i])
  {
    forall i | x <= i < y ensures IsLatin(text[i]) {
      assert text[x..y][i - x] == text[i];
    }
  }

  lemma NotShorter(text: string, off: nat, a: string, b: string, width: int)
    requires off + |a| <= |text| && a == text[off..off + |a|]
    requires off + |b| <= |text| && b == text[off..off + |b|]
    requires LegalLine(text, a, off + |a|, width) && LegalLine(text, b, off + |b|, width)
    ensures |a| >= |b|
  {
    hide Segments, Width, GoodCut;
    if |a| < |b| {
      var p := off + |a|;
      if InsideWord(text, p) {
        HoldsMore(text, off, a, [text[p]], b);
      } else {
        FirstSegment(text, p);
        var next := NextPiece(text, p);
        if |a| + |next| <= |b| {
          HoldsMore(text, off, a, next, b);
        } else {
          CutInSegment(text, p, off + |b|, width);
        }
      }
    }
  }

  /** A segment that fits on a line is never cut. */
  lemma CutInSegment(text: string, p: nat, q: nat, width: int)
    requires p < |text| && !InsideWord(text, p) && Width(NextPiece(text, p)) <= width
    requires p < q < p + |NextPiece(text, p)|
    ensures !GoodCut(text, q, width)
  {
    FirstSegment(text, p);
    var s := Segments(text[p..])[0];
    var e := p + |s.text|;
    LatinWidth(s.text);
    assert text[p..e][q - p] == text[q] && text[p..e][q - 1 - p] == text[q - 1];
    if x, y :| 0 <= x < q < y <= |text| && Stretch(text, x, y) && y - x > width {
      StretchInSegment(text, p, e, q, x, y);
    }
  }

  lemma {:induction false} PartOf(chunks: seq<string>, k: nat)
    requires k < |chunks|
    ensures |Concat(chunks[..k])| + |chunks[k]| <= |Concat(chunks)|
    ensures Concat(chunks)[|Concat(chunks[..k])|..|Concat(chunks[..k])| + |chunks[k]|] == chunks[k]
    ensures |Concat(chunks[..k + 1])| == |Concat(chunks[..k])| + |chunks[k]|
    decreases |chunks|
  {
    assert chunks[..k + 1] == chunks[..k] + [chunks[k]];
    ConcatPush(chunks[..k], chunks[k]);
    if k == |chunks| - 1 {
      assert chunks[..k + 1] == chunks;
    } else {
      var init := chunks[..|chunks| - 1];
      assert init[..k] == chunks[..k];
      PartOf(init, k);
    }
  }

  lemma {:induction false} SameUpTo(text: string, a: seq<string>, b: seq<string>, width: int, n: nat)
    requires LegalLines(text, a, width) && LegalLines(text, b, width) && Concat(a) == text == Concat(b)
    requires n <= |a| && n <= |b|
    ensures a[..n] == b[..n]
  {
    hide LegalLines, Concat, LegalLine;
    if n > 0 {
      var k := n - 1;
      SameUpTo(text, a, b, width, k);
      PartOf(a, k);
      PartOf(b, k);
      EveryLineIsLegal(text, a, width, k);
      EveryLineIsLegal(text, b, width, k);
      NotShorter(text, |Concat(a[..k])|, a[k], b[k], width);
      NotShorter(text, |Concat(a[..k])|, b[k], a[k], width);
      assert a[k] == b[k];
      assert a[..n] == a[..k] + [a[k]] && b[..n] == b[..k] + [b[k]];
    }
  }

  lemma NoMoreLines(text: string, a: seq<string>, b: seq<string>, width: int)
    requires LegalLines(text, b, width) && Concat(a) == text == Concat(b) && |a| <= |b| && a == b[..|a|]
    ensures |a| == |b|
  {
    if |a| < |b| {
      PartOf(b, |a|);
      EveryLineIsLegal(text, b, width, |a|);
    }
  }

  /** Two ways of cutting a text into legal lines are the same. */
  lemma LinesAreUnique(text: string, a: seq<string>, b: seq<string>, width: int)
    requires LegalLines(text, a, width) && LegalLines(text, b, width) && Concat(a) == text == Concat(b)
    ensures a == b
  {
    hide LegalLines, Concat;
    if |a| <= |b| {
      SameUpTo(text, a, b, width, |a|);
      assert a[..|a|] == a;
      NoMoreLines(text, a, b, width);
    } else {
      SameUpTo(text, a, b, width, |b|);
      assert b[..|b|] == b;
      NoMoreLines(text, b, a, width);
    }
    assert |a| == |b| ==> b[..|b|] == b;
  }
}
