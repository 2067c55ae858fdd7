// Wrapping one long line of mixed Chinese and Latin text at a visual width: Latin words stay whole where
// they fit, everything else breaks between characters.
module LineWrap {
  /** Characters that take two columns. */
  predicate IsWide(c: char) {
    '\U{4E00}' <= c <= '\U{9FFF}' || '\U{3000}' <= c <= '\U{303F}' || '\U{FF00}' <= c <= '\U{FFEF}'
  }

  function Columns(c: char): nat {
    if IsWide(c) then 2 else 1
  }

  /** Ideographs, CJK punctuation and full-width forms take two columns, everything else one. */
  lemma ColumnTable(c: char)
    ensures var u := c as int;
            Columns(c) == if 0x4E00 <= u < 0xA000 || 0x3000 <= u < 0x3040 || 0xFF00 <= u < 0xFFF0 then 2 else 1
  {
  }

  function Width(s: string): nat {
    if s == [] then 0 else Width(s[..|s| - 1]) + Columns(s[|s| - 1])
  }

  method VisualWidth(text: string) returns (w: nat)
    ensures w == Width(text)
  {
    w := 0;
    for i := 0 to |text|
      invariant w == Width(text[..i])
    {
      assert text[..i + 1][..i] == text[..i];
      w := w + Columns(text[i]);
    }
    assert text[..|text|] == text;
  }

  /** An ASCII letter or digit. */
  predicate IsLatin(c: char) {
    'a' <= c <= 'z' || 'A' <= c <= 'Z' || '0' <= c <= '9'
  }

  lemma LatinTable(c: char)
    ensures IsLatin(c) <==> var u := c as int; 48 <= u < 58 || 65 <= u < 91 || 97 <= u < 123
  {
  }

  predicate AllLatin(s: string) {
    forall i | 0 <= i < |s| :: IsLatin(s[i])
  }

  lemma {:induction false} WidthConcat(a: string, b: string)
    ensures Width(a + b) == Width(a) + Width(b)
  {
    if b == [] {
      assert a + b == a;
    } else {
      assert (a + b)[..|a + b| - 1] == a + b[..|b| - 1];
      WidthConcat(a, b[..|b| - 1]);
    }
  }

  lemma {:induction false} LatinWidth(s: string)
    requires AllLatin(s)
    ensures Width(s) == |s|
  {
    if s != [] { LatinWidth(s[..|s| - 1]); }
  }

  // ---------------------------------------------------------------- segments

  datatype Segment = Segment(text: string, latin: bool)

  /** How far the Latin run at the start of the text goes. */
  function WordEnd(t: string): (n: nat)
    ensures n <= |t| && AllLatin(t[..n]) && (n < |t| ==> !IsLatin(t[n]))
  {
    if t != [] && IsLatin(t[0]) then
      var n := WordEnd(t[1..]);
      assert t[..n + 1] == [t[0]] + t[1..][..n];
      n + 1
    else 0
  }

  /** Whole Latin words, and every other character on its own. */
  function Segments(t: string): seq<Segment>
    decreases |t|
  {
    if t == [] then []
    else if IsLatin(t[0]) then [Segment(t[..WordEnd(t)], true)] + Segments(t[WordEnd(t)..])
    else [Segment(t[..1], false)] + Segments(t[1..])
  }

  lemma WordEndIs(t: string, n: nat)
    requires n <= |t| && AllLatin(t[..n]) && (n < |t| ==> !IsLatin(t[n]))
    ensures WordEnd(t) == n
  {
    var m := WordEnd(t);
    assert forall i | 0 <= i < n :: t[..n][i] == t[i];
    assert forall i | 0 <= i < m :: t[..m][i] == t[i];
  }

  lemma WordNext(text: string, i: nat, j: nat)
    requires i < j <= |text| && AllLatin(text[i..j]) && (j < |text| ==> !IsLatin(text[j]))
    ensures Segments(text[i..]) == [Segment(text[i..j], true)] + Segments(text[j..])
  {
    var t := text[i..];
    assert t[..j - i] == text[i..j] && t[j - i..] == text[j..];
    assert IsLatin(text[i..j][0]);
    WordEndIs(t, j - i);
  }

  lemma CharNext(text: string, i: nat)
    requires i < |text| && !IsLatin(text[i])
    ensures Segments(text[i..]) == [Segment([text[i]], false)] + Segments(text[i + 1..])
  {
    assert text[i..][..1] == [text[i]] && text[i..][1..] == text[i + 1..];
  }

  lemma Shift<T>(a: seq<T>, x: T, b: seq<T>)
    ensures a + ([x] + b) == (a + [x]) + b
  {
  }

  lemma NoneLatin(text: string, i: nat)
    requires i <= |text|
    ensures AllLatin(text[i..i])
  {
  }

  lemma LatinMore(text: string, i: nat, j: nat)
    requires i <= j < |text| && AllLatin(text[i..j]) && IsLatin(text[j])
    ensures AllLatin(text[i..j + 1])
  {
    assert text[i..j + 1] == text[i..j] + [text[j]];
  }

  method Tokenise(text: string) returns (segments: seq<Segment>)
    ensures segments == Segments(text)
  {
    hide Segments, AllLatin;
    segments := [];
    var i: nat := 0;
    assert text[0..] == text && [] + Segments(text) == Segments(text);
    while i < |text|
      invariant i <= |text| && segments + Segments(text[i..]) == Segments(text)
    {
      var ch := text[i];
      if IsLatin(ch) {
        var j := i;
        NoneLatin(text, i);
        while j < |text| && IsLatin(text[j])
          invariant i <= j <= |text| && AllLatin(text[i..j])
        {
          LatinMore(text, i, j);
          j := j + 1;
        }
        WordNext(text, i, j);
        Shift(segments, Segment(text[i..j], true), Segments(text[j..]));
        segments := segments + [Segment(text[i..j], true)];
        i := j;
      } else {
        CharNext(text, i);
        Shift(segments, Segment([ch], false), Segments(text[i + 1..]));
        segments := segments + [Segment([ch], false)];
        i := i + 1;
      }
    }
    NoMoreSegments();
    assert text[i..] == [] && segments + [] == segments;
  }

  lemma NoMoreSegments()
    ensures Segments([]) == []
  {
  }

  // ---------------------------------------------------------------- what a wrapping must be

  function Concat(chunks: seq<string>): string {
    if chunks == [] then [] else Concat(chunks[..|chunks| - 1]) + chunks[|chunks| - 1]
  }

  predicate InsideWord(text: string, p: nat) {
    0 < p < |text| && IsLatin(text[p - 1]) && IsLatin(text[p])
  }

  predicate Stretch(text: string, a: nat, b: nat) {
    a <= b <= |text| && AllLatin(text[a..b])
  }

  /** A cut inside a Latin word is only made if the word does not fit on a line. */
  predicate GoodCut(text: string, p: nat, width: int) {
    InsideWord(text, p) ==> exists a, b | 0 <= a < p < b <= |text| :: Stretch(text, a, b) && b - a > width
  }

  /** What comes after a position: a character inside a word, a whole segment elsewhere. */
  function NextPiece(text: string, p: nat): string
    requires p < |text|
  {
    if InsideWord(text, p) then [text[p]] else Segments(text[p..])[0].text
  }

  /** A line ends only where it has no room for what comes next. */
  predicate FullAt(text: string, p: nat, line: string, width: int) {
    p < |text| ==> Width(line) + Width(NextPiece(text, p)) > width
  }

  /** Nothing too wide for a line starts inside this part of the text. */
  predicate NoOverlongInside(text: string, from: int, to: int, width: int) {
    forall p: nat | from < p < to && p < |text| && !InsideWord(text, p) :: Width(NextPiece(text, p)) <= width
  }

  /** A line of the text that ends at `end`. */
  predicate LegalLine(text: string, line: string, end: int, width: int) {
    && line != [] && 0 <= end && Width(line) <= width && GoodCut(text, end, width)
    && FullAt(text, end, line, width) && NoOverlongInside(text, end - |line|, end, width)
  }

  /**
   * No piece is empty or too wide, none is cut off inside a word that fits on a line, none ends with room
   * for what comes next, and a word too wide for a line starts one.
   */
  predicate LegalLines(text: string, chunks: seq<string>, width: int) {
    chunks == []
    || (LegalLines(text, chunks[..|chunks| - 1], width)
        && LegalLine(text, chunks[|chunks| - 1], |Concat(chunks)|, width))
  }

  /** What that says of each piece. */
  lemma {:induction false} EveryLineIsLegal(text: string, chunks: seq<string>, width: int, k: nat)
    requires LegalLines(text, chunks, width) && k < |chunks|
    ensures chunks[k] != [] && LegalLine(text, chunks[k], |Concat(chunks[..k + 1])|, width)
  {
    if k == |chunks| - 1 {
      assert chunks[..k + 1] == chunks;
    } else {
      EveryLineIsLegal(text, chunks[..|chunks| - 1], width, k);
      assert chunks[..|chunks| - 1][..k + 1] == chunks[..k + 1];
    }
  }

  function Widths(segments: seq<Segment>): (ws: seq<nat>)
    ensures |ws| == |segments| && forall k | 0 <= k < |ws| :: ws[k] == Width(segments[k].text)
  {
    seq(|segments|, k requires 0 <= k < |segments| => Width(segments[k].text))
  }

  predicate AllFit(ws: seq<nat>, width: int) {
    forall k | 0 <= k < |ws| :: ws[k] <= width
  }

  /** How many lines a greedy filling takes, when the current line already has some columns. */
  function GreedyLines(columns: nat, ws: seq<nat>, width: int): nat
    decreases |ws|
  {
    if ws == [] then 1
    else if columns + ws[0] <= width then GreedyLines(columns + ws[0], ws[1..], width)
    else 1 + GreedyLines(ws[0], ws[1..], width)
  }

  // ---------------------------------------------------------------- the fewest lines

  function Total(ws: seq<nat>): nat {
    if ws == [] then 0 else ws[0] + Total(ws[1..])
  }

  function Flatten(lines: seq<seq<nat>>): seq<nat> {
    if lines == [] then [] else lines[0] + Flatten(lines[1..])
  }

  lemma {:induction false} FullerIsNoBetter(a: nat, b: nat, ws: seq<nat>, width: int)
    requires a <= b
    ensures GreedyLines(a, ws, width) <= GreedyLines(b, ws, width) <= GreedyLines(a, ws, width) + 1
    decreases |ws|
  {
    if ws != [] {
      if b + ws[0] <= width {
        FullerIsNoBetter(a + ws[0], b + ws[0], ws[1..], width);
      } else if a + ws[0] <= width {
        FullerIsNoBetter(ws[0], a + ws[0], ws[1..], width);
      }
    }
  }

  lemma {:induction false} OneLineFits(columns: nat, line: seq<nat>, rest: seq<nat>, width: int)
    requires columns + Total(line) <= width
    ensures GreedyLines(columns, line + rest, width) == GreedyLines(columns + Total(line), rest, width)
    decreases |line|
  {
    if line == [] {
      assert line + rest == rest;
    } else {
      assert (line + rest)[0] == line[0] && (line + rest)[1..] == line[1..] + rest;
      OneLineFits(columns + line[0], line[1..], rest, width);
    }
  }

  /** No cut between segments into lines that fit has fewer lines than the greedy filling. */
  lemma {:induction false} FewestLines(lines: seq<seq<nat>>, width: int)
    requires lines != [] && forall k | 0 <= k < |lines| :: Total(lines[k]) <= width
    ensures GreedyLines(0, Flatten(lines), width) <= |lines|
  {
    OneLineFits(0, lines[0], Flatten(lines[1..]), width);
    if |lines| == 1 {
      assert Flatten(lines[1..]) == [];
    } else {
      FewestLines(lines[1..], width);
      FullerIsNoBetter(0, Total(lines[0]), Flatten(lines[1..]), width);
    }
  }

  /** A way to cut between segments into lines that all fit. */
  predicate CutsInto(lines: seq<seq<nat>>, ws: seq<nat>, width: int) {
    lines != [] && Flatten(lines) == ws && forall k | 0 <= k < |lines| :: Total(lines[k]) <= width
  }

  lemma GreedyIsFewest(ws: seq<nat>, width: int)
    ensures forall lines | CutsInto(lines, ws, width) :: GreedyLines(0, ws, width) <= |lines|
  {
    forall lines | CutsInto(lines, ws, width) ensures GreedyLines(0, ws, width) <= |lines| {
      FewestLines(lines, width);
    }
  }

  // ---------------------------------------------------------------- cuts

  /** Not inside a Latin word. */
  predicate Boundary(text: string, p: nat) {
    p <= |text| && !InsideWord(text, p)
  }

  lemma ConcatPush(chunks: seq<string>, c: string)
    ensures Concat(chunks + [c]) == Concat(chunks) + c
  {
    assert (chunks + [c])[..|chunks|] == chunks;
  }

  /** A segment starts and ends outside Latin words, and says whether it is one. */
  lemma FirstSegment(text: string, off: nat)
    requires off < |text|
    ensures var s := Segments(text[off..])[0]; var end := off + |s.text|;
            && s.text != [] && end <= |text| && text[off..end] == s.text && Boundary(text, end)
            && Segments(text[off..])[1..] == Segments(text[end..])
            && (if s.latin then AllLatin(s.text) else |s.text| == 1)
  {
    var t := text[off..];
    if IsLatin(t[0]) {
      var n := WordEnd(t);
      assert t[..n] == text[off..off + n] && t[n..] == text[off + n..];
      assert n < |t| ==> !IsLatin(text[off + n]);
    } else {
      assert t[..1] == text[off..off + 1] && t[1..] == text[off + 1..];
      assert !IsLatin(text[off]);
    }
  }

  lemma ShortWidth(s: string)
    requires |s| == 1
    ensures Width(s) == Columns(s[0])
  {
    assert s[..0] == [];
  }

  // ---------------------------------------------------------------- the wrapper

  /** The pieces made so far and the open line: they spell what has been read, and are legal lines. */
  ghost predicate Filled(text: string, done: string, chunks: seq<string>, current: string, width: int) {
    && Concat(chunks) + current == done
    && (width >= 2 ==> LegalLines(text, chunks, width) && Width(current) <= width
                       && NoOverlongInside(text, |done| - |current|, |done|, width))
  }

  lemma Flushed(text: string, done: string, chunks: seq<string>, current: string, width: int)
    requires Filled(text, done, chunks, current, width)
    requires width >= 2 ==> current != [] && GoodCut(text, |done|, width) && FullAt(text, |done|, current, width)
    ensures Filled(text, done, chunks + [current], [], width)
  {
    ConcatPush(chunks, current);
    assert (chunks + [current])[..|chunks|] == chunks;
  }

  lemma Regroup(a: string, b: string, c: string)
    ensures a + (b + c) == (a + b) + c
  {
  }

  /** The next `n` characters are one segment that fits, or the first of a line, or inside a word. */
  predicate FitsOn(text: string, off: nat, n: nat, first: bool, width: int) {
    && (first || off >= |text| || InsideWord(text, off) || Width(NextPiece(text, off)) <= width)
    && forall p: nat | off < p < off + n && p < |text| :: InsideWord(text, p)
  }

  lemma InsideGrows(text: string, from: int, mid: int, to: int, width: int)
    requires 0 <= from <= mid <= to && NoOverlongInside(text, from, mid, width)
    requires FitsOn(text, mid, to - mid, from == mid, width)
    ensures NoOverlongInside(text, from, to, width)
  {
    hide NextPiece, InsideWord;
  }

  lemma Extended(text: string, done: string, chunks: seq<string>, current: string, more: string, width: int)
    requires Filled(text, done, chunks, current, width)
    requires width >= 2 ==> Width(current) + Width(more) <= width && FitsOn(text, |done|, |more|, current == [], width)
    ensures Filled(text, done + more, chunks, current + more, width)
    ensures Width(current + more) == Width(current) + Width(more)
  {
    hide LegalLines, NoOverlongInside, FitsOn, Width, Concat;
    WidthConcat(current, more);
    Regroup(Concat(chunks), current, more);
    if width >= 2 { InsideGrows(text, |done| - |current|, |done|, |done| + |more|, width); }
  }

  lemma ExtendedEmpty(text: string, done: string, chunks: seq<string>, more: string, width: int)
    requires Filled(text, done, chunks, "", width)
    requires width >= 2 ==> Width(more) <= width && FitsOn(text, |done|, |more|, true, width)
    ensures Filled(text, done + more, chunks, more, width)
  {
    Extended(text, done, chunks, "", more, width);
    assert [] + more == more;
  }

  /** A whole Latin word at this place of the text that is wider than the line. */
  predicate OverlongAt(text: string, off: nat, word: string, width: int) {
    && off + |word| <= |text| && text[off..off + |word|] == word && AllLatin(word) && |word| > width
    && Boundary(text, off) && Boundary(text, off + |word|)
  }

  /** Inside such a word a cut may fall anywhere, and the next piece is the next character. */
  lemma OverlongStep(text: string, off: nat, word: string, i: nat, width: int)
    requires OverlongAt(text, off, word, width) && i < |word|
    ensures GoodCut(text, off + i, width) && FitsOn(text, off + i, 1, i == 0, width)
    ensures Width([word[i]]) == 1 && (i > 0 ==> NextPiece(text, off + i) == [word[i]])
  {
    ShortWidth([word[i]]);
    assert text[off..off + |word|][i] == text[off + i];
    if i > 0 {
      assert text[off..off + |word|][i - 1] == text[off + i - 1];
      assert Stretch(text, off, off + |word|);
    }
  }

  lemma OverlongEnd(text: string, off: nat, word: string, width: int)
    requires OverlongAt(text, off, word, width)
    ensures GoodCut(text, off + |word|, width)
  {
  }

  /** Breaks a word wider than a line into pieces of the line's width, the last one left open. */
  method BreakOverlong(text: string, ghost done: string, before: seq<string>, word: string, width: int)
    returns (chunks: seq<string>, current: string, currentWidth: nat)
    requires Filled(text, done, before, "", width)
    requires width >= 2 ==> OverlongAt(text, |done|, word, width)
    ensures Filled(text, done + word, chunks, current, width) && currentWidth == Width(current)
    ensures word != "" ==> current != ""
  {
    hide Filled, OverlongAt, GoodCut, FullAt, FitsOn, NextPiece;
    chunks, current, currentWidth := before, "", 0;
    assert done + word[..0] == done;
    for i := 0 to |word|
      invariant Filled(text, done + word[..i], chunks, current, width) && currentWidth == Width(current)
      invariant i > 0 <==> current != ""
    {
      var ch := word[i];
      ShortWidth([ch]);
      if width >= 2 { OverlongStep(text, |done|, word, i, width); }
      assert done + word[..i] + [ch] == done + word[..i + 1] && |done + word[..i]| == |done| + i;
      if currentWidth + Columns(ch) <= width {
        Extended(text, done + word[..i], chunks, current, [ch], width);
        current, currentWidth := current + [ch], currentWidth + Columns(ch);
      } else {
        if width >= 2 { EndsFull(text, |done| + i, current, [ch], width); }
        Flushed(text, done + word[..i], chunks, current, width);
        if width >= 2 { FirstOfLine(text, |done| + i, 1, width, i == 0); }
        ExtendedEmpty(text, done + word[..i], chunks + [current], [ch], width);
        chunks, current, currentWidth := chunks + [current], [ch], Columns(ch);
      }
    }
    assert word[..|word|] == word;
  }

  lemma EndsFull(text: string, p: nat, line: string, next: string, width: int)
    requires p < |text| ==> NextPiece(text, p) == next
    requires Width(line) + Width(next) > width
    ensures FullAt(text, p, line, width)
  {
  }

  lemma FirstOfLine(text: string, off: nat, n: nat, width: int, first: bool)
    requires FitsOn(text, off, n, first, width)
    ensures FitsOn(text, off, n, true, width)
  {
  }

  /** A segment at this place of the text, outside Latin words at both ends. */
  predicate SegmentAt(text: string, off: nat, s: Segment) {
    && s.text != [] && off + |s.text| <= |text| && text[off..off + |s.text|] == s.text
    && Boundary(text, off) && Boundary(text, off + |s.text|) && NextPiece(text, off) == s.text
    && if s.latin then AllLatin(s.text) else |s.text| == 1
  }

  lemma OverlongSegment(text: string, off: nat, s: Segment, width: int)
    requires SegmentAt(text, off, s) && Width(s.text) > width >= 2
    ensures OverlongAt(text, off, s.text, width)
  {
    LatinOrNarrow(s);
  }

  lemma SegmentFits(text: string, off: nat, s: Segment, width: int)
    requires SegmentAt(text, off, s) && Width(s.text) <= width
    ensures FitsOn(text, off, |s.text|, false, width) && FitsOn(text, off, |s.text|, true, width)
    ensures GoodCut(text, off, width)
  {
    forall p: nat | off < p < off + |s.text| ensures InsideWord(text, p) {
      assert text[off..off + |s.text|][p - off] == text[p] && text[off..off + |s.text|][p - off - 1] == text[p - 1];
    }
  }

  lemma SegmentStarts(text: string, off: nat, s: Segment, line: string, width: int)
    requires SegmentAt(text, off, s) && Width(line) + Width(s.text) > width
    ensures FullAt(text, off, line, width) && GoodCut(text, off, width)
  {
  }

  lemma LatinOrNarrow(s: Segment)
    requires if s.latin then AllLatin(s.text) else |s.text| == 1
    ensures if s.latin then Width(s.text) == |s.text| else Width(s.text) <= 2
  {
    if s.latin { LatinWidth(s.text); } else { ShortWidth(s.text); }
  }

  /** One segment of the filling loop: on the open line, on a new one, or broken over several. */
  method PlaceSegment(text: string, ghost done: string, before: seq<string>, line: string, lineWidth: nat,
                      segment: Segment, width: int)
    returns (chunks: seq<string>, current: string, currentWidth: nat)
    requires Filled(text, done, before, line, width) && lineWidth == Width(line) && SegmentAt(text, |done|, segment)
    ensures Filled(text, done + segment.text, chunks, current, width) && currentWidth == Width(current) && current != ""
    ensures Width(segment.text) <= width ==>
              if line == "" || lineWidth + Width(segment.text) <= width
              then chunks == before && currentWidth == lineWidth + Width(segment.text)
              else |chunks| == |before| + 1 && currentWidth == Width(segment.text)
  {
    hide Filled, SegmentAt, GoodCut, FullAt, FitsOn, NextPiece, OverlongAt;
    chunks, current, currentWidth := before, line, lineWidth;
    var word := segment.text;
    var segWidth := VisualWidth(word);
    SegmentWord(text, |done|, segment);
    if lineWidth + segWidth > width { SegmentStarts(text, |done|, segment, line, width); }
    if segment.latin && currentWidth + segWidth > width && current != "" {
      Flushed(text, done, chunks, current, width);
      chunks, current, currentWidth := chunks + [current], "", 0;
    }
    if segWidth > width {
      if current != "" {
        Flushed(text, done, chunks, current, width);
        chunks, current, currentWidth := chunks + [current], "", 0;
      }
      if width >= 2 { OverlongSegment(text, |done|, segment, width); }
      chunks, current, currentWidth := BreakOverlong(text, done, chunks, word, width);
    } else {
      SegmentFits(text, |done|, segment, width);
      if currentWidth + segWidth <= width {
        if current == "" {
          ExtendedEmpty(text, done, chunks, word, width);
          assert current + word == word;
        } else {
          Extended(text, done, chunks, current, word, width);
        }
        current, currentWidth := current + word, currentWidth + segWidth;
      } else {
        if current != "" {
          Flushed(text, done, chunks, current, width);
          chunks := chunks + [current];
        }
        ExtendedEmpty(text, done, chunks, word, width);
        current, currentWidth := word, segWidth;
      }
    }
  }

  lemma SegmentWord(text: string, off: nat, s: Segment)
    requires SegmentAt(text, off, s)
    ensures s.text != ""
  {
  }

  /** The unread segments are those of the unread text. */
  predicate Unread(text: string, done: string, segments: seq<Segment>, i: nat) {
    && |done| <= |text| && text[..|done|] == done && Boundary(text, |done|)
    && i <= |segments| && segments[i..] == Segments(text[|done|..])
  }

  lemma HeadAt<T>(s: seq<T>, i: nat)
    requires i < |s|
    ensures s[i..] != [] && s[i..][0] == s[i] && s[i..][1..] == s[i + 1..]
  {
  }

  lemma ReadMore(text: string, done: string, word: string)
    requires |done| + |word| <= |text| && text[..|done|] == done && text[|done|..|done| + |word|] == word
    ensures text[..|done + word|] == done + word
  {
  }

  lemma NextSegment(text: string, done: string, segments: seq<Segment>, i: nat)
    requires Unread(text, done, segments, i) && i < |segments|
    ensures SegmentAt(text, |done|, segments[i]) && Unread(text, done + segments[i].text, segments, i + 1)
  {
    HeadAt(segments, i);
    FirstSegment(text, |done|);
    var end := |done| + |segments[i].text|;
    assert Segments(text[end..]) == segments[i + 1..] && Boundary(text, end);
    ReadMore(text, done, segments[i].text);
    assert |done + segments[i].text| == end;
  }

  lemma AllRead(text: string, done: string, segments: seq<Segment>)
    requires Unread(text, done, segments, |segments|)
    ensures done == text
  {
    assert Segments(text[|done|..]) == [];
  }

  /** Lines made and lines to come are always the greedy total. */
  predicate OnTrack(made: nat, columns: nat, ws: seq<nat>, i: nat, width: int) {
    i <= |ws| && made + GreedyLines(columns, ws[i..], width) == GreedyLines(0, ws, width)
  }

  lemma StaysOnTrack(made: nat, columns: nat, ws: seq<nat>, i: nat, width: int, empty: bool, made': nat, columns': nat)
    requires i < |ws| && OnTrack(made, columns, ws, i, width) && ws[i] <= width && (empty ==> columns == 0)
    requires if empty || columns + ws[i] <= width then made' == made && columns' == columns + ws[i]
             else made' == made + 1 && columns' == ws[i]
    ensures OnTrack(made', columns', ws, i + 1, width)
  {
    HeadAt(ws, i);
  }

  /** The filling loop: all lines but the open one. */
  method FillLines(text: string, segments: seq<Segment>, width: int) returns (chunks: seq<string>, current: string)
    requires segments == Segments(text)
    ensures Filled(text, text, chunks, current, width)
    ensures (current == "" <==> segments == []) && (segments == [] ==> chunks == [])
    ensures AllFit(Widths(segments), width) ==> |chunks| + 1 == GreedyLines(0, Widths(segments), width)
  {
    chunks := [];
    var currentWidth := 0;
    current := "";
    ghost var done, ws := "", Widths(segments);
    FirstUnread(text, segments, width);
    for i := 0 to |segments|
      invariant Unread(text, done, segments, i)
      invariant Filled(text, done, chunks, current, width) && currentWidth == Width(current)
      invariant if i == 0 then chunks == [] && current == "" else current != ""
      invariant AllFit(ws, width) ==> OnTrack(|chunks|, currentWidth, ws, i, width)
    {
      NextSegment(text, done, segments, i);
      ghost var made, columns, empty := |chunks|, currentWidth, current == "";
      chunks, current, currentWidth := PlaceSegment(text, done, chunks, current, currentWidth, segments[i], width);
      if AllFit(ws, width) { StaysOnTrack(made, columns, ws, i, width, empty, |chunks|, currentWidth); }
      done := done + segments[i].text;
    }
    AllRead(text, done, segments);
    Complete(|chunks|, currentWidth, ws, width);
  }

  lemma Complete(made: nat, columns: nat, ws: seq<nat>, width: int)
    ensures OnTrack(made, columns, ws, |ws|, width) ==> made + 1 == GreedyLines(0, ws, width)
  {
  }

  lemma FirstUnread(text: string, segments: seq<Segment>, width: int)
    requires segments == Segments(text)
    ensures Unread(text, "", segments, 0) && Filled(text, "", [], "", width)
    ensures OnTrack(0, 0, Widths(segments), 0, width)
  {
    assert text[0..] == text && segments[0..] == segments && Widths(segments)[0..] == Widths(segments);
  }

  /**
   * At any width the pieces spell the text. At width 2 or more none is empty or too wide, none is cut off
   * inside a Latin word that fits on a line; and if every word fits, no way of cutting between segments
   * takes fewer lines.
   */
  method WrapLongLine(text: string, width: int) returns (chunks: seq<string>)
    ensures Concat(chunks) == text && (text == "" ==> chunks == [""])
    ensures width >= 2 && text != "" ==> LegalLines(text, chunks, width)
    ensures AllFit(Widths(Segments(text)), width) ==>
              forall lines | CutsInto(lines, Widths(Segments(text)), width) :: |chunks| <= |lines|
  {
    GreedyIsFewest(Widths(Segments(text)), width);
    var segments := Tokenise(text);
    var current;
    chunks, current := FillLines(text, segments, width);
    if current != "" {
      Flushed(text, text, chunks, current, width);
      chunks := chunks + [current];
    }
    if chunks == [] { chunks := [text]; }
  }
}
