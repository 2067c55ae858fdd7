// Laying a text out on a card of limited height, and exporting cards with a continuation card for whatever
// did not fit. "Ink" is what is not white space.
module Cards {
  import opened LineWrap
  import opened LineChoice

  /** What Python's `strip` removes. */
  predicate IsSpace(c: char) {
    || '\t' <= c <= '\r' || '\U{001C}' <= c <= ' ' || c == '\U{0085}' || c == '\U{00A0}' || c == '\U{1680}'
    || '\U{2000}' <= c <= '\U{200A}' || c == '\U{2028}' || c == '\U{2029}' || c == '\U{202F}' || c == '\U{205F}'
    || c == '\U{3000}'
  }

  /** The code points of white space. */
  lemma SpaceTable(c: char)
    ensures IsSpace(c) <==>
              var u := c as int;
              || u in {9, 10, 11, 12, 13, 28, 29, 30, 31, 32, 0x85, 0xA0, 0x1680}
              || 0x2000 <= u < 0x200B || u in {0x2028, 0x2029, 0x202F, 0x205F, 0x3000}
  {
  }

  /** The text without its white space. */
  function Ink(s: string): string {
    if s == [] then [] else Ink(s[..|s| - 1]) + if IsSpace(s[|s| - 1]) then [] else [s[|s| - 1]]
  }

  lemma {:induction false} InkConcat(a: string, b: string)
    ensures Ink(a + b) == Ink(a) + Ink(b)
  {
    if b == [] {
      assert a + b == a;
    } else {
      assert (a + b)[..|a + b| - 1] == a + b[..|b| - 1];
      InkConcat(a, b[..|b| - 1]);
      Regroup(Ink(a), Ink(b[..|b| - 1]), if IsSpace(b[|b| - 1]) then [] else [b[|b| - 1]]);
    }
  }

  lemma InkOne(c: char)
    ensures Ink([c]) == if IsSpace(c) then [] else [c]
  {
    assert [c][..0] == [];
  }

  // ---------------------------------------------------------------- Python string operations

  function StripStart(s: string): string {
    if s != [] && IsSpace(s[0]) then StripStart(s[1..]) else s
  }

  function StripEnd(s: string): string {
    if s != [] && IsSpace(s[|s| - 1]) then StripEnd(s[..|s| - 1]) else s
  }

  function Strip(s: string): string {
    StripEnd(StripStart(s))
  }

  /** `replace("\r", "")`. */
  function NoReturns(s: string): string {
    if s == [] then [] else NoReturns(s[..|s| - 1]) + if s[|s| - 1] == '\r' then [] else [s[|s| - 1]]
  }

  /** `split("\n")`. */
  function SplitLines(s: string): (lines: seq<string>)
    ensures lines != []
  {
    if s == [] then [""]
    else
      var init := SplitLines(s[..|s| - 1]);
      if s[|s| - 1] == '\n' then init + [""] else init[..|init| - 1] + [init[|init| - 1] + [s[|s| - 1]]]
  }

  /** `"\n".join`. */
  function JoinLines(lines: seq<string>): string {
    if lines == [] then []
    else if |lines| == 1 then lines[0]
    else JoinLines(lines[..|lines| - 1]) + "\n" + lines[|lines| - 1]
  }

  lemma {:induction false} StripStartInk(s: string)
    ensures Ink(StripStart(s)) == Ink(s) && (StripStart(s) != [] ==> !IsSpace(StripStart(s)[0]))
  {
    if s != [] && IsSpace(s[0]) {
      assert s == [s[0]] + s[1..];
      InkConcat([s[0]], s[1..]);
      InkOne(s[0]);
      StripStartInk(s[1..]);
    }
  }

  lemma {:induction false} StripEndInk(s: string)
    ensures Ink(StripEnd(s)) == Ink(s)
    ensures s != [] && !IsSpace(s[0]) ==> StripEnd(s) != [] && StripEnd(s)[0] == s[0]
  {
    if s != [] && IsSpace(s[|s| - 1]) { StripEndInk(s[..|s| - 1]); }
  }

  /** Stripping keeps the ink, and what is left starts with ink. */
  lemma StripInk(s: string)
    ensures Ink(Strip(s)) == Ink(s) && (Strip(s) != [] ==> !IsSpace(Strip(s)[0]))
  {
    StripStartInk(s);
    StripEndInk(StripStart(s));
  }

  lemma {:induction false} NoReturnsInk(s: string)
    ensures Ink(NoReturns(s)) == Ink(s)
  {
    if s != [] {
      var last := s[|s| - 1];
      NoReturnsInk(s[..|s| - 1]);
      InkConcat(NoReturns(s[..|s| - 1]), if last == '\r' then [] else [last]);
      if last != '\r' { InkOne(last); }
    }
  }

  lemma {:induction false} SplitInk(s: string)
    ensures Ink(Concat(SplitLines(s))) == Ink(s)
  {
    if s == [] {
      assert SplitLines(s)[..0] == [];
      assert Concat(SplitLines(s)) == [] + "";
    } else {
      var init, last := SplitLines(s[..|s| - 1]), s[|s| - 1];
      SplitInk(s[..|s| - 1]);
      if last == '\n' {
        ConcatPush(init, "");
        assert Concat(init) + "" == Concat(init);
      } else {
        var tail := init[|init| - 1];
        ConcatPush(init[..|init| - 1], tail + [last]);
        Regroup(Concat(init[..|init| - 1]), tail, [last]);
        InkConcat(Concat(init), [last]);
        InkOne(last);
      }
    }
  }

  lemma {:induction false} JoinInk(lines: seq<string>)
    ensures Ink(JoinLines(lines)) == Ink(Concat(lines))
  {
    if |lines| == 1 {
      assert lines == [] + [lines[0]];
      ConcatPush([], lines[0]);
      assert [] + lines[0] == lines[0];
    } else if lines != [] {
      var init, last := lines[..|lines| - 1], lines[|lines| - 1];
      JoinInk(init);
      InkConcat(JoinLines(init) + "\n", last);
      InkConcat(JoinLines(init), "\n");
      InkOne('\n');
      InkConcat(Concat(init), last);
      assert Ink(JoinLines(init)) + [] == Ink(JoinLines(init));
    }
  }

  // ---------------------------------------------------------------- what these operations do

  predicate AllSpace(s: string) {
    forall i | 0 <= i < |s| :: IsSpace(s[i])
  }

  lemma {:induction false} StripStartIs(s: string) returns (n: nat)
    ensures n <= |s| && AllSpace(s[..n]) && StripStart(s) == s[n..]
    ensures n < |s| ==> !IsSpace(s[n])
  {
    hide IsSpace;
    if s != [] && IsSpace(s[0]) {
      var k := StripStartIs(s[1..]);
      n := k + 1;
      assert s[..n] == [s[0]] + s[1..][..k];
    } else {
      n := 0;
    }
  }

  lemma {:induction false} StripEndIs(s: string) returns (n: nat)
    ensures n <= |s| && AllSpace(s[n..]) && StripEnd(s) == s[..n]
    ensures n > 0 ==> !IsSpace(s[n - 1])
  {
    hide IsSpace;
    if s != [] && IsSpace(s[|s| - 1]) {
      var init := s[..|s| - 1];
      n := StripEndIs(init);
      assert s[n..] == init[n..] + [s[|s| - 1]];
    } else {
      n := |s|;
    }
  }

  /** Stripping takes white space off both ends, and leaves none there. */
  lemma StripIs(s: string) returns (i: nat, j: nat)
    ensures i <= j <= |s| && Strip(s) == s[i..j] && AllSpace(s[..i]) && AllSpace(s[j..])
    ensures i < j ==> !IsSpace(s[i]) && !IsSpace(s[j - 1])
  {
    hide StripStart, StripEnd, AllSpace, IsSpace;
    i := StripStartIs(s);
    var n := StripEndIs(s[i..]);
    j := i + n;
    assert s[i..][n..] == s[j..] && s[i..][..n] == s[i..j];
  }

  /** No returns are left, and nothing else goes. */
  lemma {:induction false} NoReturnsIs(a: string, b: string)
    ensures NoReturns(a + b) == NoReturns(a) + NoReturns(b)
    ensures '\r' !in a ==> NoReturns(a) == a
    ensures '\r' !in NoReturns(a)
  {
    if b != [] {
      assert (a + b)[..|a + b| - 1] == a + b[..|b| - 1];
      NoReturnsIs(a, b[..|b| - 1]);
      Regroup(NoReturns(a), NoReturns(b[..|b| - 1]), if b[|b| - 1] == '\r' then [] else [b[|b| - 1]]);
    } else if a != [] {
      assert a + b == a;
      NoReturnsIs(a[..|a| - 1], []);
      assert a == a[..|a| - 1] + [a[|a| - 1]];
    }
  }

  lemma JoinMore(lines: seq<string>, c: char)
    requires lines != []
    ensures JoinLines(lines[..|lines| - 1] + [lines[|lines| - 1] + [c]]) == JoinLines(lines) + [c]
    ensures JoinLines(lines + [""]) == JoinLines(lines) + ['\n']
  {
    var more := lines[..|lines| - 1] + [lines[|lines| - 1] + [c]];
    assert more[..|more| - 1] == lines[..|lines| - 1];
    assert (lines + [""])[..|lines|] == lines;
    assert JoinLines(lines) + "\n" + "" == JoinLines(lines) + ['\n'];
    if |lines| > 1 { Regroup(JoinLines(lines[..|lines| - 1]) + "\n", lines[|lines| - 1], [c]); }
  }

  /** Joining the lines with line feeds gives the text back. */
  lemma {:induction false} SplitJoin(s: string)
    ensures JoinLines(SplitLines(s)) == s
  {
    if s != [] {
      hide JoinLines;
      SplitJoin(s[..|s| - 1]);
      JoinMore(SplitLines(s[..|s| - 1]), s[|s| - 1]);
      assert s == s[..|s| - 1] + [s[|s| - 1]];
    }
  }

  /** No line holds a line feed. */
  lemma {:induction false} SplitAtFeeds(s: string)
    ensures forall k | 0 <= k < |SplitLines(s)| :: '\n' !in SplitLines(s)[k]
  {
    if s != [] { SplitAtFeeds(s[..|s| - 1]); }
  }

  // ---------------------------------------------------------------- how a text is laid out

  /** A line too wide, cut up. */
  predicate CutUp(line: string, pieces: seq<string>, width: int) {
    Concat(pieces) == line && (width >= 2 ==> LegalLines(line, pieces, width))
  }

  /** The display lines of one raw line: one blank line for a blank, none after another blank or at the start. */
  predicate BlockOf(raw: string, before: seq<string>, block: seq<string>, width: int) {
    if Strip(raw) == "" then block == if before == [] || before[|before| - 1] == "" then [] else [""]
    else if Width(Strip(raw)) <= width then block == [Strip(raw)]
    else CutUp(Strip(raw), block, width)
  }

  ghost predicate LaidOut(raws: seq<string>, lines: seq<string>, width: int) {
    if raws == [] then lines == []
    else exists n: nat :: n <= |lines| && LaidOut(raws[..|raws| - 1], lines[..n], width)
                          && BlockOf(raws[|raws| - 1], lines[..n], lines[n..], width)
  }

  /** `lines` are the display lines of the text, before the height is limited. */
  ghost predicate DisplayOf(text: string, lines: seq<string>, width: int) {
    LaidOut(SplitLines(NoReturns(text)), lines, width)
  }

  lemma LaidNext(raws: seq<string>, i: nat, before: seq<string>, block: seq<string>, width: int)
    requires i < |raws| && LaidOut(raws[..i], before, width) && BlockOf(raws[i], before, block, width)
    ensures LaidOut(raws[..i + 1], before + block, width)
  {
    assert raws[..i + 1][..i] == raws[..i];
    assert (before + block)[..|before|] == before && (before + block)[|before|..] == block;
  }

  /** Where the display lines of the last raw line begin. */
  lemma LastBlock(raws: seq<string>, lines: seq<string>, width: int) returns (n: nat)
    requires raws != [] && LaidOut(raws, lines, width)
    ensures n <= |lines| && LaidOut(raws[..|raws| - 1], lines[..n], width)
    ensures BlockOf(raws[|raws| - 1], lines[..n], lines[n..], width)
  {
    hide BlockOf;
    n :| n <= |lines| && LaidOut(raws[..|raws| - 1], lines[..n], width)
         && BlockOf(raws[|raws| - 1], lines[..n], lines[n..], width);
  }

  lemma BlockUnique(raw: string, before: seq<string>, x: seq<string>, y: seq<string>, width: int)
    requires width >= 2 && BlockOf(raw, before, x, width) && BlockOf(raw, before, y, width)
    ensures x == y
  {
    hide Strip, LegalLines, Concat, Width;
    if Strip(raw) != "" && Width(Strip(raw)) > width { LinesAreUnique(Strip(raw), x, y, width); }
  }

  lemma {:induction false} LaidOutUnique(raws: seq<string>, a: seq<string>, b: seq<string>, width: int)
    requires width >= 2 && LaidOut(raws, a, width) && LaidOut(raws, b, width)
    ensures a == b
  {
    hide BlockOf;
    if raws != [] {
      var m := LastBlock(raws, a, width);
      var n := LastBlock(raws, b, width);
      LaidOutUnique(raws[..|raws| - 1], a[..m], b[..n], width);
      BlockUnique(raws[|raws| - 1], a[..m], a[m..], b[n..], width);
      assert a == a[..m] + a[m..] && b == b[..n] + b[n..];
    }
  }

  /** A text has one layout. */
  lemma DisplayIsUnique(text: string, a: seq<string>, b: seq<string>, width: int)
    requires width >= 2 && DisplayOf(text, a, width) && DisplayOf(text, b, width)
    ensures a == b
  {
    LaidOutUnique(SplitLines(NoReturns(text)), a, b, width);
  }

  function StripAll(raws: seq<string>): seq<string> {
    if raws == [] then [] else StripAll(raws[..|raws| - 1]) + [Strip(raws[|raws| - 1])]
  }

  /** Every line has ink and fits. */
  predicate AllShort(raws: seq<string>, width: int) {
    raws == []
    || (AllShort(raws[..|raws| - 1], width)
        && Strip(raws[|raws| - 1]) != "" && Width(Strip(raws[|raws| - 1])) <= width)
  }

  /** Lines that have ink and fit are displayed as they are, stripped, one for one. */
  lemma {:induction false} FittingLinesShown(raws: seq<string>, lines: seq<string>, width: int)
    requires LaidOut(raws, lines, width) && AllShort(raws, width)
    ensures lines == StripAll(raws)
  {
    hide Strip, Width, CutUp;
    if raws != [] {
      hide LaidOut;
      var n := LastBlock(raws, lines, width);
      FittingLinesShown(raws[..|raws| - 1], lines[..n], width);
      assert lines == lines[..n] + lines[n..];
    }
  }

  // ---------------------------------------------------------------- laying out one text

  lemma {:induction false} ConcatAppend(a: seq<string>, b: seq<string>)
    ensures Concat(a + b) == Concat(a) + Concat(b)
  {
    if b == [] {
      assert a + b == a;
    } else {
      assert a + b == (a + b[..|b| - 1]) + [b[|b| - 1]];
      ConcatPush(a + b[..|b| - 1], b[|b| - 1]);
      ConcatAppend(a, b[..|b| - 1]);
      Regroup(Concat(a), Concat(b[..|b| - 1]), b[|b| - 1]);
    }
  }

  predicate NoneTooWide(lines: seq<string>, width: int) {
    forall k | 0 <= k < |lines| :: Width(lines[k]) <= width
  }

  predicate StartsWithInk(lines: seq<string>) {
    lines != [] ==> lines[0] != [] && !IsSpace(lines[0][0])
  }

  /** Lines that fit, the first of them starting with ink. */
  predicate Displayable(lines: seq<string>, width: int) {
    width >= 2 ==> NoneTooWide(lines, width) && StartsWithInk(lines)
  }

  lemma FirstPiece(chunks: seq<string>, text: string, width: int)
    requires text != [] && Concat(chunks) == text && LegalLines(text, chunks, width)
    ensures chunks != [] && chunks[0] != [] && chunks[0][0] == text[0] && NoneTooWide(chunks, width)
  {
    assert chunks != [];
    EveryLineIsLegal(text, chunks, width, 0);
    ConcatAppend([chunks[0]], chunks[1..]);
    assert chunks == [chunks[0]] + chunks[1..];
    ConcatPush([], chunks[0]);
    assert [] + [chunks[0]] == [chunks[0]];
    assert [] + chunks[0] == chunks[0];
    forall k | 0 <= k < |chunks| ensures Width(chunks[k]) <= width { EveryLineIsLegal(text, chunks, width, k); }
  }

  lemma MoreLines(lines: seq<string>, more: seq<string>, ink: string, add: string, width: int)
    requires Displayable(lines, width) && Ink(Concat(lines)) == ink && Ink(Concat(more)) == add
    requires width >= 2 ==> NoneTooWide(more, width) && (lines == [] ==> StartsWithInk(more))
    ensures Displayable(lines + more, width) && Ink(Concat(lines + more)) == ink + add
  {
    ConcatAppend(lines, more);
    InkConcat(Concat(lines), Concat(more));
  }

  lemma ConcatOne(line: string)
    ensures Concat([line]) == line
  {
    ConcatPush([], line);
    assert [] + [line] == [line] && [] + line == line;
  }

  /** The display lines of one stripped, non-empty line. */
  method WrapOne(stripped: string, width: int) returns (lines: seq<string>)
    requires stripped != "" && !IsSpace(stripped[0])
    ensures Concat(lines) == stripped && Displayable(lines, width)
    ensures if Width(stripped) <= width then lines == [stripped] else CutUp(stripped, lines, width)
  {
    var w := VisualWidth(stripped);
    if w <= width {
      lines := [stripped];
      ConcatOne(stripped);
    } else {
      lines := WrapLongLine(stripped, width);
      if width >= 2 { FirstPiece(lines, stripped, width); }
    }
  }

  lemma NextRaw(rawLines: seq<string>, i: nat)
    requires i < |rawLines|
    ensures Ink(Concat(rawLines[..i + 1])) == Ink(Concat(rawLines[..i])) + Ink(Strip(rawLines[i]))
  {
    assert rawLines[..i + 1] == rawLines[..i] + [rawLines[i]];
    ConcatPush(rawLines[..i], rawLines[i]);
    InkConcat(Concat(rawLines[..i]), rawLines[i]);
    StripInk(rawLines[i]);
  }

  lemma BlankLine(lines: seq<string>, width: int)
    requires Displayable(lines, width) && lines != []
    ensures Displayable(lines + [""], width) && Ink(Concat(lines + [""])) == Ink(Concat(lines))
  {
    ConcatOne("");
    MoreLines(lines, [""], Ink(Concat(lines)), "", width);
  }

  lemma SameInk(text: string)
    ensures Ink(Concat(SplitLines(NoReturns(text)))) == Ink(text)
  {
    NoReturnsInk(text);
    SplitInk(NoReturns(text));
  }

  /** The state of the loop over raw lines: the ink read so far is on the display lines. */
  predicate Shown(result: seq<string>, ink: string, width: int) {
    Ink(Concat(result)) == ink && Displayable(result, width)
  }

  lemma BlankBlock(raw: string, before: seq<string>, width: int)
    requires Strip(raw) == ""
    ensures BlockOf(raw, before, if before == [] || before[|before| - 1] == "" then [] else [""], width)
  {
  }

  lemma InkBlock(raw: string, before: seq<string>, block: seq<string>, width: int)
    requires Strip(raw) != ""
    requires if Width(Strip(raw)) <= width then block == [Strip(raw)] else CutUp(Strip(raw), block, width)
    ensures BlockOf(raw, before, block, width)
  {
  }

  lemma Begun(raws: seq<string>, width: int)
    ensures Shown([], Ink(Concat(raws[..0])), width) && LaidOut(raws[..0], [], width)
    ensures Ink(Concat(raws[..0])) == ""
  {
  }

  /** All display lines, before the height is limited: no ink is lost, added or moved. */
  method DisplayLines(text: string, width: int) returns (result: seq<string>)
    ensures Ink(Concat(result)) == Ink(text) && Displayable(result, width)
    ensures DisplayOf(text, result, width)
  {
    hide Ink, LaidOut, BlockOf, Displayable, SplitLines, NoReturns, Strip;
    var rawLines := SplitLines(NoReturns(text));
    SameInk(text);
    result := [];
    ghost var ink := "";
    Begun(rawLines, width);
    for i := 0 to |rawLines|
      invariant ink == Ink(Concat(rawLines[..i])) && Shown(result, ink, width)
      invariant LaidOut(rawLines[..i], result, width)
    {
      NextRaw(rawLines, i);
      var stripped := Strip(rawLines[i]);
      StripInk(rawLines[i]);
      ghost var before := result;
      if stripped == "" {
        if result != [] && result[|result| - 1] != "" {
          BlankLine(result, width);
          result := result + [""];
        }
        BlankBlock(rawLines[i], before, width);
      } else {
        var lines := WrapOne(stripped, width);
        MoreLines(result, lines, ink, Ink(stripped), width);
        InkBlock(rawLines[i], before, lines, width);
        result := result + lines;
      }
      assert result == before + result[|before|..];
      LaidNext(rawLines, i, before, result[|before|..], width);
      ink := ink + Ink(stripped);
    }
    assert rawLines[..|rawLines|] == rawLines;
  }

  /** The same lines, or with the last character of the last line replaced by an ellipsis. */
  predicate Elided(shown: seq<string>, full: seq<string>) {
    || shown == full
    || (full != [] && full[|full| - 1] != []
        && shown == full[..|full| - 1] + [full[|full| - 1][..|full[|full| - 1]| - 1] + "…"])
  }

  lemma ElidedFits(full: seq<string>, shown: seq<string>, width: int)
    requires full != [] && full[|full| - 1] != [] && NoneTooWide(full, width)
    requires shown == full[..|full| - 1] + [full[|full| - 1][..|full[|full| - 1]| - 1] + "…"]
    ensures NoneTooWide(shown, width)
  {
    var last := full[|full| - 1];
    WidthConcat(last[..|last| - 1], "…");
    ShortWidth("…");
  }

  lemma FirstInk(lines: seq<string>)
    requires lines != [] && StartsWithInk(lines)
    ensures Ink(Concat(lines)) != []
  {
    assert lines == [lines[0]] + lines[1..];
    ConcatAppend([lines[0]], lines[1..]);
    ConcatOne(lines[0]);
    InkConcat(lines[0], Concat(lines[1..]));
    assert lines[0] == [lines[0][0]] + lines[0][1..];
    InkConcat([lines[0][0]], lines[0][1..]);
    InkOne(lines[0][0]);
  }

  lemma InkSplit(lines: seq<string>, n: nat)
    requires n <= |lines|
    ensures Ink(Concat(lines)) == Ink(Concat(lines[..n])) + Ink(JoinLines(lines[n..]))
  {
    assert lines == lines[..n] + lines[n..];
    ConcatAppend(lines[..n], lines[n..]);
    InkConcat(Concat(lines[..n]), Concat(lines[n..]));
    JoinInk(lines[n..]);
  }

  /** What of the ink is on the card and what is left over make up the text; a page loses at most one character. */
  ghost predicate KeepsInk(text: string, shown: seq<string>, overflow: string) {
    exists full :: Elided(shown, full) && Ink(Concat(full)) + Ink(overflow) == Ink(text)
  }

  /**
   * A page of at most `maxLines` of these lines: all of them if they fit, else the first `maxLines`, the last
   * of which ends in an ellipsis unless it is blank, and the others joined are left over.
   */
  ghost predicate Paged(full: seq<string>, maxLines: nat, result: seq<string>, overflow: string) {
    if |full| <= maxLines then result == full && overflow == ""
    else
      && |result| == maxLines && overflow == JoinLines(full[maxLines..])
      && forall k | 0 <= k < maxLines ::
           result[k] == if k < maxLines - 1 || full[k] == "" then full[k] else full[k][..|full[k]| - 1] + "…"
  }

  /** The page that the text's display lines make. */
  ghost predicate PageOf(text: string, width: int, maxLines: nat, result: seq<string>, overflow: string) {
    exists full :: DisplayOf(text, full, width) && Paged(full, maxLines, result, overflow)
  }

  /** A body of short lines is shown whole while they fit the page, and then one page of them. */
  lemma ShortLinesPaged(text: string, width: int, maxLines: nat, result: seq<string>, overflow: string)
    requires AllShort(SplitLines(NoReturns(text)), width) && PageOf(text, width, maxLines, result, overflow)
    ensures Paged(StripAll(SplitLines(NoReturns(text))), maxLines, result, overflow)
  {
    hide Paged, AllShort, StripAll, LaidOut;
    var full :| DisplayOf(text, full, width) && Paged(full, maxLines, result, overflow);
    FittingLinesShown(SplitLines(NoReturns(text)), full, width);
  }

  /** A text has one page. */
  lemma PageIsUnique(text: string, width: int, maxLines: nat, r1: seq<string>, o1: string, r2: seq<string>, o2: string)
    requires width >= 2 && PageOf(text, width, maxLines, r1, o1) && PageOf(text, width, maxLines, r2, o2)
    ensures r1 == r2 && o1 == o2
  {
    hide LaidOut, JoinLines;
    var f1 :| DisplayOf(text, f1, width) && Paged(f1, maxLines, r1, o1);
    var f2 :| DisplayOf(text, f2, width) && Paged(f2, maxLines, r2, o2);
    DisplayIsUnique(text, f1, f2, width);
  }

  method WrapText(text: string, width: int, maxLines: nat) returns (result: seq<string>, overflow: string)
    requires maxLines >= 1
    ensures PageOf(text, width, maxLines, result, overflow)
    ensures |result| <= maxLines && (width >= 2 ==> NoneTooWide(result, width))
    ensures KeepsInk(text, result, overflow)
    ensures width >= 2 && overflow != "" ==> |Ink(overflow)| < |Ink(text)|
  {
    hide DisplayOf, JoinLines;
    result := DisplayLines(text, width);
    overflow := "";
    ghost var lines := result;
    if |result| > maxLines {
      InkSplit(result, maxLines);
      ghost var full := result[..maxLines];
      if width >= 2 { FirstInk(full); }
      overflow := JoinLines(result[maxLines..]);
      result := result[..maxLines];
      var last := result[|result| - 1];
      if last != "" {
        result := result[..|result| - 1] + [last[..|last| - 1] + "…"];
        if width >= 2 { ElidedFits(full, result, width); }
      }
      assert Elided(result, full);
    } else {
      assert Elided(result, result) && Ink(Concat(result)) + Ink("") == Ink(text);
    }
    assert Paged(lines, maxLines, result, overflow);
  }

  // ---------------------------------------------------------------- continuation cards

  const SVG_WIDTH := 56
  const PNG_WIDTH := 50
  const BODY_LINES: nat := 15

  datatype Card = Card(continuation: bool, kicker: string, title: string, body: string, footer: string)

  /** A page of a card's body: its ink, but for one character, and the ink of the overflow make up the body's. */
  ghost predicate PageLeaves(body: string, overflow: string) {
    exists shown :: |shown| <= 15 && NoneTooWide(shown, 56) && KeepsInk(body, shown, overflow)
  }

  /** At this width the body has more display lines than a page, and these are the ones after the page, joined. */
  ghost predicate Overflows(body: string, width: int, overflow: string) {
    exists full :: DisplayOf(body, full, width) && |full| > 15 && overflow == JoinLines(full[15..])
  }

  /** At this width the body's display lines fit a page, but perhaps for one blank line after it. */
  ghost predicate FitsPage(body: string, width: int) {
    exists full :: DisplayOf(body, full, width) && (|full| <= 15 || full[15..] == [""])
  }

  /** What is left of a card drawn as SVG and, if `png`, as PNG: the SVG's overflow, or else the PNG's. */
  ghost predicate LeftOver(body: string, png: bool, overflow: string) {
    if overflow == "" then FitsPage(body, 56) && (png ==> FitsPage(body, 50))
    else Overflows(body, 56, overflow) || (png && FitsPage(body, 56) && Overflows(body, 50, overflow))
  }

  /** A continuation of a card: its footer, its kicker marked, no title, and what a page left over of its body. */
  ghost predicate Continues(card: Card, parent: Card, png: bool) {
    && card.continuation && card.title == "" && card.footer == parent.footer
    && card.kicker == (if parent.kicker != "" then parent.kicker + "（续）" else "续")
    && card.body != "" && LeftOver(parent.body, png, card.body)
    && |Ink(card.body)| < |Ink(parent.body)| && PageLeaves(parent.body, card.body)
  }

  ghost predicate HasParent(cards: seq<Card>, j: nat, png: nat -> bool) {
    j < |cards| && exists p: nat | p < j :: Continues(cards[j], cards[p], png(p))
  }

  ghost predicate AllContinue(cards: seq<Card>, from: nat, png: nat -> bool) {
    forall j: nat | from <= j < |cards| :: HasParent(cards, j, png)
  }

  /** The card's body fits the page it is drawn on, or a later card continues it. */
  ghost predicate Settled(cards: seq<Card>, k: nat, png: nat -> bool) {
    k < |cards|
    && ((LeftOver(cards[k].body, png(k), "") && PageLeaves(cards[k].body, ""))
        || exists j | k < j < |cards| :: Continues(cards[j], cards[k], png(k)))
  }

  ghost predicate AllSettled(cards: seq<Card>, n: nat, png: nat -> bool) {
    forall k: nat | k < n :: Settled(cards, k, png)
  }

  /** One for each card not yet drawn, and one for each of its ink characters. */
  function Pending(cards: seq<Card>): nat {
    if cards == [] then 0 else 1 + |Ink(cards[0].body)| + Pending(cards[1..])
  }

  lemma {:induction false} PendingAppend(cards: seq<Card>, card: Card)
    ensures Pending(cards + [card]) == Pending(cards) + 1 + |Ink(card.body)|
  {
    if cards == [] {
      assert cards + [card] == [card];
    } else {
      assert (cards + [card])[1..] == cards[1..] + [card];
      PendingAppend(cards[1..], card);
    }
  }

  lemma ParentStays(cards: seq<Card>, card: Card, j: nat, png: nat -> bool)
    requires HasParent(cards, j, png)
    ensures HasParent(cards + [card], j, png)
  {
    hide Continues;
    var p: nat :| p < j && Continues(cards[j], cards[p], png(p));
    assert (cards + [card])[j] == cards[j] && (cards + [card])[p] == cards[p];
  }

  lemma OneMore(cards: seq<Card>, i: nat, card: Card, from: nat, png: nat -> bool)
    requires i < |cards| && AllContinue(cards, from, png) && Continues(card, cards[i], png(i))
    ensures AllContinue(cards + [card], from, png)
  {
    hide Continues;
    var more := cards + [card];
    assert HasParent(more, |cards|, png) by { assert Continues(more[|cards|], more[i], png(i)); }
    forall j: nat | from <= j < |more| ensures HasParent(more, j, png) {
      if j < |cards| { ParentStays(cards, card, j, png); }
    }
  }

  lemma SettledStays(cards: seq<Card>, card: Card, n: nat, png: nat -> bool)
    requires AllSettled(cards, n, png)
    ensures AllSettled(cards + [card], n, png)
  {
    hide Continues, LeftOver, PageLeaves;
    forall k: nat | k < n ensures Settled(cards + [card], k, png) {
      assert Settled(cards, k, png);
      if !(LeftOver(cards[k].body, png(k), "") && PageLeaves(cards[k].body, "")) {
        var j :| k < j < |cards| && Continues(cards[j], cards[k], png(k));
        assert Continues((cards + [card])[j], (cards + [card])[k], png(k));
      }
    }
  }

  lemma PendingFalls(cards: seq<Card>, i: nat, card: Card)
    requires i < |cards| && |Ink(card.body)| < |Ink(cards[i].body)|
    ensures Pending((cards + [card])[i + 1..]) <= Pending(cards[i..]) - 1
  {
    assert (cards + [card])[i + 1..] == cards[i + 1..] + [card];
    PendingAppend(cards[i + 1..], card);
    assert cards[i..][0] == cards[i] && cards[i..][1..] == cards[i + 1..];
  }

  lemma {:induction false} NothingJoined(lines: seq<string>)
    requires JoinLines(lines) == ""
    ensures lines == [] || lines == [""]
  {
  }

  lemma PageLeft(body: string, width: int, shown: seq<string>, overflow: string)
    requires PageOf(body, width, BODY_LINES, shown, overflow)
    ensures overflow == "" ==> FitsPage(body, width)
    ensures overflow != "" ==> Overflows(body, width, overflow)
  {
    hide DisplayOf, JoinLines;
    var full :| DisplayOf(body, full, width) && Paged(full, BODY_LINES, shown, overflow);
    if |full| > BODY_LINES && overflow == "" { NothingJoined(full[BODY_LINES..]); }
  }

  /** What of the body does not fit a drawn card: the SVG's overflow, or else the PNG's if one was drawn. */
  method Overflow(card: Card, png: bool) returns (overflow: string)
    ensures PageLeaves(card.body, overflow) && LeftOver(card.body, png, overflow)
    ensures overflow != "" ==> |Ink(overflow)| < |Ink(card.body)|
  {
    hide PageOf, FitsPage, Overflows;
    var svgLines, svgOverflow := WrapText(card.body, SVG_WIDTH, BODY_LINES);
    overflow := svgOverflow;
    PageLeft(card.body, SVG_WIDTH, svgLines, svgOverflow);
    if svgOverflow == "" && png {
      var pngLines, pngOverflow := WrapText(card.body, PNG_WIDTH, BODY_LINES);
      overflow := pngOverflow;
      PageLeft(card.body, PNG_WIDTH, pngLines, pngOverflow);
      assert NoneTooWide(pngLines, SVG_WIDTH);
    }
  }

  /**
   * The loop over a list it appends to ends: every appended card continues an earlier one whose body has more
   * display lines than a page, with exactly the lines after the page and strictly less ink; every card is
   * continued or fits its page; and there are at most as many cards as cards at the start and ink characters
   * on them. `png(i)` says whether the i-th card could be drawn as a PNG.
   */
  method ExportManual(assets: seq<Card>, png: nat -> bool) returns (cards: seq<Card>)
    ensures assets <= cards && AllContinue(cards, |assets|, png) && AllSettled(cards, |cards|, png)
    ensures |cards| <= Pending(assets)
  {
    hide Continues, LeftOver, PageLeaves, AllContinue, AllSettled, Pending, Ink;
    cards := assets;
    var i: nat := 0;
    assert cards[0..] == cards;
    NoneYet(assets, png);
    while i < |cards|
      invariant i <= |cards| && assets <= cards
      invariant AllContinue(cards, |assets|, png) && AllSettled(cards, i, png)
      invariant i + Pending(cards[i..]) <= Pending(assets)
      decreases Pending(cards[i..])
    {
      var card := cards[i];
      var overflow := Overflow(card, png(i));
      if overflow != "" {
        var kicker := if card.kicker != "" then card.kicker + "（续）" else "续";
        var continuation := Card(true, kicker, "", overflow, card.footer);
        MadeFrom(continuation, card, png(i), overflow);
        OneMore(cards, i, continuation, |assets|, png);
        SettledByNext(cards, continuation, i, png);
        PendingFalls(cards, i, continuation);
        cards := cards + [continuation];
      } else {
        SettledWhole(cards, i, png);
        PendingDrops(cards, i);
      }
      i := i + 1;
    }
  }

  lemma NoneYet(assets: seq<Card>, png: nat -> bool)
    ensures AllContinue(assets, |assets|, png) && AllSettled(assets, 0, png)
  {
  }

  lemma SettledByNext(cards: seq<Card>, card: Card, i: nat, png: nat -> bool)
    requires i < |cards| && AllSettled(cards, i, png) && Continues(card, cards[i], png(i))
    ensures AllSettled(cards + [card], i + 1, png)
  {
    hide Continues, LeftOver, PageLeaves;
    SettledStays(cards, card, i, png);
    assert Continues((cards + [card])[|cards|], (cards + [card])[i], png(i));
  }

  lemma SettledWhole(cards: seq<Card>, i: nat, png: nat -> bool)
    requires i < |cards| && AllSettled(cards, i, png)
    requires LeftOver(cards[i].body, png(i), "") && PageLeaves(cards[i].body, "")
    ensures AllSettled(cards, i + 1, png)
  {
    hide Continues, LeftOver, PageLeaves;
  }

  lemma MadeFrom(card: Card, parent: Card, png: bool, overflow: string)
    requires overflow != "" && LeftOver(parent.body, png, overflow) && PageLeaves(parent.body, overflow)
    requires |Ink(overflow)| < |Ink(parent.body)|
    requires var kicker := if parent.kicker != "" then parent.kicker + "（续）" else "续";
             card == Card(true, kicker, "", overflow, parent.footer)
    ensures Continues(card, parent, png)
  {
  }

  lemma PendingDrops(cards: seq<Card>, i: nat)
    requires i < |cards|
    ensures Pending(cards[i + 1..]) <= Pending(cards[i..]) - 1
  {
    assert cards[i..][0] == cards[i] && cards[i..][1..] == cards[i + 1..];
  }
}
