// Server-sent events: the writer of one event, and the incremental reader that decodes a stream of bytes and
// cuts its text at blank lines. A text is a sequence of Unicode scalar values.
module Sse {
  import opened Prelude
  import opened Utf8
  import opened Utf8Stream

  datatype Event = Event(event: Option<string>, data: Option<string>, comment: bool)

  // ---------------------------------------------------------------- JavaScript string operations

  /** What `trim` removes: white space and line terminators. */
  predicate IsSpace(c: char) {
    || '\t' <= c <= '\r' || c == ' ' || c == '\U{00A0}' || c == '\U{1680}' || '\U{2000}' <= c <= '\U{200A}'
    || c == '\U{2028}' || c == '\U{2029}' || c == '\U{202F}' || c == '\U{205F}' || c == '\U{3000}' || c == '\U{FEFF}'
  }

  /** The code points of white space. */
  lemma SpaceTable(c: char)
    ensures IsSpace(c) <==>
              var u := c as int;
              || u in {9, 10, 11, 12, 13, 32, 0xA0, 0x1680} || 0x2000 <= u < 0x200B
              || u in {0x2028, 0x2029, 0x202F, 0x205F, 0x3000, 0xFEFF}
  {
  }

  function TrimStart(s: string): string {
    if s != [] && IsSpace(s[0]) then TrimStart(s[1..]) else s
  }

  function TrimEnd(s: string): string {
    if s != [] && IsSpace(s[|s| - 1]) then TrimEnd(s[..|s| - 1]) else s
  }

  function Trim(s: string): string {
    TrimEnd(TrimStart(s))
  }

  /** The leftmost blank line: `indexOf("\n\n")`. */
  function FirstBlank(t: string): (i: int)
    ensures i == -1 || 0 <= i < |t| - 1
    ensures i >= 0 ==> t[i] == '\n' && t[i + 1] == '\n'
    ensures forall j | 0 <= j < (if i < 0 then |t| - 1 else i) :: !(t[j] == '\n' && t[j + 1] == '\n')
  {
    if |t| < 2 then -1
    else if t[0] == '\n' && t[1] == '\n' then 0
    else
      var i := FirstBlank(t[1..]);
      if i < 0 then -1 else i + 1
  }

  /** `split("\n")`. */
  function Lines(t: string): (lines: seq<string>)
    ensures lines != []
  {
    if t == [] then [""]
    else if t[0] == '\n' then [""] + Lines(t[1..])
    else
      var rest := Lines(t[1..]);
      [[t[0]] + rest[0]] + rest[1..]
  }

  /** `join("\n")`. */
  function Join(lines: seq<string>): string {
    if lines == [] then []
    else if |lines| == 1 then lines[0]
    else lines[0] + "\n" + Join(lines[1..])
  }

  predicate StartsWith(s: string, p: string) {
    p <= s
  }

  function DropSpace(s: string): string {
    if s != [] && s[0] == ' ' then s[1..] else s
  }

  // ---------------------------------------------------------------- one block

  predicate HasComment(lines: seq<string>) {
    exists i | 0 <= i < |lines| :: StartsWith(lines[i], ":")
  }

  /** The name on the last event line. */
  function EventName(lines: seq<string>): Option<string> {
    if lines == [] then None
    else if StartsWith(lines[|lines| - 1], "event:") then Some(Trim(lines[|lines| - 1][6..]))
    else EventName(lines[..|lines| - 1])
  }

  function DataOf(line: string): string
    requires StartsWith(line, "data:")
  {
    DropSpace(line[5..])
  }

  /** The contents of the data lines, in order. */
  function DataLines(lines: seq<string>): seq<string> {
    if lines == [] then []
    else DataLines(lines[..|lines| - 1])
         + if StartsWith(lines[|lines| - 1], "data:") then [DataOf(lines[|lines| - 1])] else []
  }

  lemma Prefixed(p: string, x: string)
    ensures StartsWith(p + x, p) && (p + x)[|p|..] == x
  {
  }

  /** What a line of each kind says, its text empty or not; one space after `data:` is dropped. */
  lemma LineKinds(x: string)
    ensures DataLines(["data:" + x]) == [if x != "" && x[0] == ' ' then x[1..] else x]
    ensures EventName(["event:" + x]) == Some(Trim(x))
    ensures HasComment([":" + x])
  {
    Prefixed("data:", x);
    Prefixed("event:", x);
    Prefixed(":", x);
    assert [":" + x][0] == ":" + x;
    assert ["data:" + x][..0] == [] && [] + [DataOf("data:" + x)] == [DataOf("data:" + x)];
  }

  function Parsed(block: string): Event {
    var lines := Lines(block);
    var data := DataLines(lines);
    Event(EventName(lines), if data == [] then None else Some(Join(data)), HasComment(lines))
  }

  lemma OneKind(line: string)
    ensures StartsWith(line, ":") ==> line[0] == ':'
    ensures StartsWith(line, "event:") ==> line[0] == 'e'
    ensures StartsWith(line, "data:") ==> line[0] == 'd'
  {
    assert ":"[0] == ':' && "event:"[0] == 'e' && "data:"[0] == 'd';
  }

  lemma OneLineMore(lines: seq<string>, i: nat)
    requires i < |lines|
    ensures HasComment(lines[..i + 1]) <==> HasComment(lines[..i]) || StartsWith(lines[i], ":")
    ensures EventName(lines[..i + 1])
            == if StartsWith(lines[i], "event:") then Some(Trim(lines[i][6..])) else EventName(lines[..i])
    ensures DataLines(lines[..i + 1])
            == DataLines(lines[..i]) + if StartsWith(lines[i], "data:") then [DataOf(lines[i])] else []
  {
    assert lines[..i + 1][..i] == lines[..i] && lines[..i + 1][i] == lines[i];
  }

  method ParseSseBlock(block: string) returns (out: Event)
    ensures out == Parsed(block)
  {
    var lines := Lines(block);
    out := Event(None, None, false);
    var dataLines: seq<string> := [];
    for i := 0 to |lines|
      invariant out == Event(EventName(lines[..i]), None, HasComment(lines[..i]))
      invariant dataLines == DataLines(lines[..i])
    {
      var line := lines[i];
      OneKind(line);
      OneLineMore(lines, i);
      if StartsWith(line, ":") {
        out := out.(comment := true);
        continue;
      }
      if StartsWith(line, "event:") {
        out := out.(event := Some(Trim(line[6..])));
      } else if StartsWith(line, "data:") {
        dataLines := dataLines + [DropSpace(line[5..])];
      }
    }
    assert lines[..|lines|] == lines;
    if |dataLines| > 0 { out := out.(data := Some(Join(dataLines))); }
  }

  // ---------------------------------------------------------------- the whole text

  datatype Pieces = Pieces(blocks: seq<string>, rest: string)

  /** The text cut at its leftmost blank line, over and over, and what is left behind the last one. */
  function Split(t: string): Pieces
    decreases |t|
  {
    var i := FirstBlank(t);
    if i < 0 then Pieces([], t)
    else
      var tail := Split(t[i + 2..]);
      Pieces([t[..i]] + tail.blocks, tail.rest)
  }

  function ParsedAll(blocks: seq<string>): seq<Event> {
    seq(|blocks|, i requires 0 <= i < |blocks| => Parsed(blocks[i]))
  }

  /** The events of a whole text; unfinished text at the end counts unless it is blank. */
  function EventsOf(t: string): seq<Event> {
    ParsedAll(Split(t).blocks) + if Trim(Split(t).rest) != [] then [Parsed(Split(t).rest)] else []
  }

  lemma {:induction false} TrimsToNothing(s: string)
    ensures Trim(s) == [] <==> forall i | 0 <= i < |s| :: IsSpace(s[i])
  {
    TrimStartIs(s);
    TrimEndIs(TrimStart(s));
  }

  lemma {:induction false} TrimStartIs(s: string)
    ensures TrimStart(s) == [] <==> forall i | 0 <= i < |s| :: IsSpace(s[i])
    ensures TrimStart(s) != [] ==> !IsSpace(TrimStart(s)[0])
  {
    if s != [] && IsSpace(s[0]) {
      assert s == [s[0]] + s[1..];
      TrimStartIs(s[1..]);
    }
  }

  lemma {:induction false} TrimEndIs(s: string)
    ensures s != [] && !IsSpace(s[0]) ==> TrimEnd(s) != []
  {
    if s != [] && IsSpace(s[|s| - 1]) { TrimEndIs(s[..|s| - 1]); }
  }

  /** A text without a blank line is one event, unless it is white space, and then it is none. */
  lemma LastEvent(t: string)
    requires forall i | 0 <= i < |t| - 1 :: t[i] != '\n' || t[i + 1] != '\n'
    ensures EventsOf(t) == if forall i | 0 <= i < |t| :: IsSpace(t[i]) then [] else [Parsed(t)]
  {
    TrimsToNothing(t);
    assert Split(t) == Pieces([], t);
    assert ParsedAll([]) == [] && [] + [Parsed(t)] == [Parsed(t)];
  }

  /** The bytes of all chunks. */
  function Flat(chunks: seq<seq<Byte>>): seq<Byte> {
    if chunks == [] then [] else Flat(chunks[..|chunks| - 1]) + chunks[|chunks| - 1]
  }

  lemma FirstBlankIs(t: string, i: nat)
    requires i + 1 < |t| && t[i] == '\n' && t[i + 1] == '\n'
    requires forall j | 0 <= j < i :: !(t[j] == '\n' && t[j + 1] == '\n')
    ensures FirstBlank(t) == i
  {
  }

  lemma FirstBlankStays(t: string, u: string)
    requires FirstBlank(t) >= 0
    ensures var i := FirstBlank(t);
            FirstBlank(t + u) == i && (t + u)[..i] == t[..i] && (t + u)[i + 2..] == t[i + 2..] + u
  {
    FirstBlankIs(t + u, FirstBlank(t));
  }

  lemma SplitCut(t: string, i: nat)
    requires FirstBlank(t) == i
    ensures var tail := Split(t[i + 2..]); Split(t) == Pieces([t[..i]] + tail.blocks, tail.rest)
  {
  }

  function Continued(first: Pieces, more: Pieces): Pieces {
    Pieces(first.blocks + more.blocks, more.rest)
  }

  lemma ContinuedLater(block: string, tail: Pieces, more: Pieces)
    ensures Continued(Pieces([block] + tail.blocks, tail.rest), more)
            == Pieces([block] + Continued(tail, more).blocks, Continued(tail, more).rest)
  {
  }

  /** More text never moves an earlier cut: it only continues what was left over. */
  lemma {:induction false} SplitMore(t: string, u: string)
    ensures Split(t + u) == Continued(Split(t), Split(Split(t).rest + u))
    decreases |t|
  {
    var i := FirstBlank(t);
    if i < 0 {
      assert Split(t) == Pieces([], t);
    } else {
      FirstBlankStays(t, u);
      SplitCut(t, i);
      SplitCut(t + u, i);
      SplitMore(t[i + 2..], u);
      ContinuedLater(t[..i], Split(t[i + 2..]), Split(Split(t).rest + u));
    }
  }

  lemma ParsedAllConcat(a: seq<string>, b: seq<string>)
    ensures ParsedAll(a + b) == ParsedAll(a) + ParsedAll(b)
  {
  }

  lemma FlatMore(chunks: seq<seq<Byte>>, n: nat)
    requires n < |chunks|
    ensures Flat(chunks[..n + 1]) == Flat(chunks[..n]) + chunks[n]
  {
    assert chunks[..n + 1][..n] == chunks[..n];
  }

  /** The state between two reads: everything before the leftover has been turned into events. */
  predicate ReadUpTo(text: string, events: seq<Event>, buffer: string) {
    var now, all := Split(buffer), Split(text);
    events + ParsedAll(now.blocks) == ParsedAll(all.blocks) && now.rest == all.rest
  }

  lemma ReadWhole(text: string, events: seq<Event>, buffer: string)
    requires ReadUpTo(text, events, buffer) && FirstBlank(buffer) < 0
    ensures events == ParsedAll(Split(text).blocks) && buffer == Split(text).rest
  {
    assert Split(buffer) == Pieces([], buffer) && ParsedAll([]) == [];
  }

  lemma ReadChunk(text: string, events: seq<Event>, buffer: string, chunk: string)
    requires ReadUpTo(text, events, buffer) && FirstBlank(buffer) < 0
    ensures ReadUpTo(text + chunk, events, buffer + chunk)
  {
    ReadWhole(text, events, buffer);
    var done, more := Split(text), Split(buffer + chunk);
    assert Split(text + chunk) == Continued(done, more) by { SplitMore(text, chunk); }
    ParsedAllConcat(done.blocks, more.blocks);
  }

  lemma ReadBlock(text: string, events: seq<Event>, buffer: string)
    requires ReadUpTo(text, events, buffer) && FirstBlank(buffer) >= 0
    ensures var i := FirstBlank(buffer); ReadUpTo(text, events + [Parsed(buffer[..i])], buffer[i + 2..])
  {
    var i := FirstBlank(buffer);
    SplitCut(buffer, i);
    ParsedAllConcat([buffer[..i]], Split(buffer[i + 2..]).blocks);
    assert ParsedAll([buffer[..i]]) == [Parsed(buffer[..i])];
  }

  /** However the bytes are cut into chunks, inside characters too, the reader yields the events of the whole text. */
  method ReadSse(chunks: seq<seq<Byte>>) returns (events: seq<Event>)
    ensures events == EventsOf(StreamText(Flat(chunks)))
  {
    var decoder := new TextDecoder();
    var buffer: string := "";
    events := [];
    for n := 0 to |chunks|
      invariant decoder.HasRead(Flat(chunks[..n]))
      invariant ReadUpTo(StreamText(Flat(chunks[..n])), events, buffer) && FirstBlank(buffer) < 0
    {
      FlatMore(chunks, n);
      var piece := decoder.Decode(Flat(chunks[..n]), chunks[n]);
      ReadChunk(StreamText(Flat(chunks[..n])), events, buffer, piece);
      buffer := buffer + piece;
      buffer, events := Drain(StreamText(Flat(chunks[..n + 1])), buffer, events);
    }
    assert chunks[..|chunks|] == chunks;
    ReadWhole(StreamText(Flat(chunks)), events, buffer);
    if Trim(buffer) != [] {
      var event := ParseSseBlock(buffer);
      events := events + [event];
    }
  }

  /** The inner loop: every finished block of the buffer becomes an event. */
  method Drain(ghost text: string, buffered: string, before: seq<Event>) returns (buffer: string, events: seq<Event>)
    requires ReadUpTo(text, before, buffered)
    ensures ReadUpTo(text, events, buffer) && FirstBlank(buffer) < 0
  {
    buffer, events := buffered, before;
    var idx := FirstBlank(buffer);
    while idx != -1
      invariant idx == FirstBlank(buffer) && ReadUpTo(text, events, buffer)
      decreases |buffer|
    {
      ReadBlock(text, events, buffer);
      var block := buffer[..idx];
      buffer := buffer[idx + 2..];
      var event := ParseSseBlock(block);
      events := events + [event];
      idx := FirstBlank(buffer);
    }
  }

  // ---------------------------------------------------------------- what a split is

  /** A block that ends where the first blank line after it begins. */
  predicate EndsAtCut(block: string) {
    FirstBlank(block + "\n\n") == |block|
  }

  function Glued(blocks: seq<string>, rest: string): string {
    if blocks == [] then rest else blocks[0] + "\n\n" + Glued(blocks[1..], rest)
  }

  lemma GluedFirst(block: string, blocks: seq<string>, rest: string)
    ensures Glued([block] + blocks, rest) == block + "\n\n" + Glued(blocks, rest)
  {
    assert ([block] + blocks)[1..] == blocks;
  }

  lemma CutThere(t: string, i: int)
    requires FirstBlank(t) == i >= 0
    ensures t == t[..i] + "\n\n" + t[i + 2..] && EndsAtCut(t[..i])
  {
    hide FirstBlank;
    FirstBlankIs(t[..i] + "\n\n", i);
  }

  lemma NoCut(t: string)
    requires FirstBlank(t) < 0
    ensures Split(t) == Pieces([], t) && Glued([], t) == t
  {
  }

  /** Gluing the pieces gives back the text, every block stops at its first blank line, and none is left over. */
  lemma {:induction false} SplitGlues(t: string)
    ensures Glued(Split(t).blocks, Split(t).rest) == t && FirstBlank(Split(t).rest) < 0
    ensures forall n | 0 <= n < |Split(t).blocks| :: EndsAtCut(Split(t).blocks[n])
    decreases |t|
  {
    hide Split, FirstBlank, EndsAtCut, Glued;
    var i := FirstBlank(t);
    if i < 0 {
      NoCut(t);
    } else {
      CutThere(t, i);
      SplitCut(t, i);
      var tail := Split(t[i + 2..]);
      SplitGlues(t[i + 2..]);
      GluedFirst(t[..i], tail.blocks, tail.rest);
    }
  }

  lemma CutOfGlue(block: string, tail: string)
    requires EndsAtCut(block)
    ensures var t := block + "\n\n" + tail;
            FirstBlank(t) == |block| && t[..|block|] == block && t[|block| + 2..] == tail
  {
    FirstBlankStays(block + "\n\n", tail);
  }

  lemma SplitOfGlue(block: string, tail: string)
    requires EndsAtCut(block)
    ensures Split(block + "\n\n" + tail) == Pieces([block] + Split(tail).blocks, Split(tail).rest)
  {
    CutOfGlue(block, tail);
    SplitCut(block + "\n\n" + tail, |block|);
  }

  /** The split is the only such decomposition. */
  lemma {:induction false} SplitUnique(blocks: seq<string>, rest: string)
    requires FirstBlank(rest) < 0 && forall n | 0 <= n < |blocks| :: EndsAtCut(blocks[n])
    ensures Split(Glued(blocks, rest)) == Pieces(blocks, rest)
  {
    if blocks != [] {
      SplitUnique(blocks[1..], rest);
      SplitOfGlue(blocks[0], Glued(blocks[1..], rest));
      assert blocks == [blocks[0]] + blocks[1..];
    }
  }

  // ---------------------------------------------------------------- the writer

  datatype Message = Message(event: Option<string>, data: string)

  function Named(m: Message): string {
    if m.event.Some? && m.event.value != [] then "event: " + m.event.value + "\n" else ""
  }

  function Body(m: Message): string {
    Named(m) + ("data: " + m.data)
  }

  /** One event on the wire. An empty name counts as no name. */
  function Write(m: Message): string {
    Body(m) + "\n\n"
  }

  function WriteAll(ms: seq<Message>): string {
    if ms == [] then [] else Write(ms[0]) + WriteAll(ms[1..])
  }

  predicate OneLine(s: string) {
    forall i | 0 <= i < |s| :: s[i] != '\n'
  }

  predicate SingleLined(m: Message) {
    OneLine(m.data) && (m.event.Some? ==> OneLine(m.event.value))
  }

  function Received(m: Message): Event {
    Event(if m.event.Some? && m.event.value != [] then Some(Trim(m.event.value)) else None, Some(m.data), false)
  }

  lemma {:induction false} LinesCut(a: string, b: string)
    requires OneLine(a)
    ensures Lines(a + "\n" + b) == [a] + Lines(b)
  {
    var t := a + "\n" + b;
    if a == [] {
      assert t[1..] == b;
    } else {
      assert t[0] == a[0] && t[1..] == a[1..] + "\n" + b;
      LinesCut(a[1..], b);
      assert a == [a[0]] + a[1..];
    }
  }

  lemma {:induction false} LinesWhole(a: string)
    requires OneLine(a)
    ensures Lines(a) == [a]
  {
    if a != [] {
      LinesWhole(a[1..]);
      assert a == [a[0]] + a[1..];
    }
  }

  lemma DataLine(d: string)
    ensures StartsWith("data: " + d, "data:") && DataOf("data: " + d) == d
    ensures !StartsWith("data: " + d, ":") && !StartsWith("data: " + d, "event:")
  {
    var line := "data: " + d;
    OneKind(line);
    assert line[..5] == "data:" && line[5..] == " " + d;
  }

  lemma EventLine(e: string)
    ensures StartsWith("event: " + e, "event:") && Trim(("event: " + e)[6..]) == Trim(e)
    ensures !StartsWith("event: " + e, ":") && !StartsWith("event: " + e, "data:")
  {
    var line := "event: " + e;
    OneKind(line);
    assert line[..6] == "event:" && line[6..] == " " + e;
    assert (" " + e)[1..] == e;
  }

  lemma BodyLines(m: Message)
    requires SingleLined(m)
    ensures Lines(Body(m))
            == if Named(m) == [] then ["data: " + m.data] else ["event: " + m.event.value, "data: " + m.data]
  {
    LinesWhole("data: " + m.data);
    if Named(m) == [] {
      assert Body(m) == "data: " + m.data;
    } else {
      LinesCut("event: " + m.event.value, "data: " + m.data);
    }
  }

  lemma ReadsBody(m: Message)
    requires SingleLined(m)
    ensures Parsed(Body(m)) == Received(m)
  {
    BodyLines(m);
    DataLine(m.data);
    var lines := Lines(Body(m));
    assert lines[..0] == [];
    if Named(m) != [] {
      EventLine(m.event.value);
      OneLineMore(lines, 0);
      OneLineMore(lines, 1);
      assert lines[..2] == lines;
    } else {
      OneLineMore(lines, 0);
      assert lines[..1] == lines;
    }
  }

  lemma BodyEndsAtCut(m: Message)
    requires SingleLined(m)
    ensures EndsAtCut(Body(m))
  {
    var t := Body(m) + "\n\n";
    FirstBlankIs(t, |Body(m)|);
  }

  function Bodies(ms: seq<Message>): (bodies: seq<string>)
    ensures |bodies| == |ms| && forall n | 0 <= n < |ms| :: bodies[n] == Body(ms[n])
  {
    if ms == [] then [] else [Body(ms[0])] + Bodies(ms[1..])
  }

  lemma {:induction false} WrittenIsGlued(ms: seq<Message>)
    ensures WriteAll(ms) == Glued(Bodies(ms), [])
  {
    if ms != [] {
      WrittenIsGlued(ms[1..]);
      GluedFirst(Body(ms[0]), Bodies(ms[1..]), []);
    }
  }

  function AllReceived(ms: seq<Message>): seq<Event> {
    seq(|ms|, i requires 0 <= i < |ms| => Received(ms[i]))
  }

  lemma ReadsBodies(ms: seq<Message>)
    requires forall m | m in ms :: SingleLined(m)
    ensures ParsedAll(Bodies(ms)) == AllReceived(ms)
    ensures forall n | 0 <= n < |ms| :: EndsAtCut(Bodies(ms)[n])
  {
    hide EndsAtCut, Parsed, Received, Body, SingleLined, Bodies;
    forall n | 0 <= n < |ms| ensures Parsed(Bodies(ms)[n]) == Received(ms[n]) && EndsAtCut(Bodies(ms)[n]) {
      ReadsBody(ms[n]);
      BodyEndsAtCut(ms[n]);
    }
  }

  lemma ReadsAll(ms: seq<Message>)
    requires forall m | m in ms :: SingleLined(m)
    ensures EventsOf(WriteAll(ms)) == AllReceived(ms)
  {
    WrittenIsGlued(ms);
    ReadsBodies(ms);
    SplitUnique(Bodies(ms), []);
    assert AllReceived(ms) + [] == AllReceived(ms);
  }

  lemma WriteStarts(ms: seq<Message>)
    ensures WriteAll(ms) != [] ==> WriteAll(ms)[0] == 'e' || WriteAll(ms)[0] == 'd'
  {
    if ms != [] {
      assert WriteAll(ms)[0] == Body(ms[0])[0];
    }
  }

  /** Any cutting of the bytes of a list of single-line writes reads back as that list, the names trimmed. */
  lemma RoundTrip(ms: seq<Message>, chunks: seq<seq<Byte>>)
    requires (forall m | m in ms :: SingleLined(m)) && Flat(chunks) == Encode(WriteAll(ms))
    ensures EventsOf(StreamText(Flat(chunks))) == AllReceived(ms)
  {
    ReadsAll(ms);
    WriteStarts(ms);
    EncodedIsStreamed(WriteAll(ms));
  }

  // ---------------------------------------------------------------- exactly when a write reads back

  function LineWeight(lines: seq<string>): nat {
    if lines == [] then 0 else |lines[0]| + 1 + LineWeight(lines[1..])
  }

  lemma {:induction false} JoinWeight(lines: seq<string>)
    requires lines != []
    ensures |Join(lines)| + 1 == LineWeight(lines)
  {
    if |lines| > 1 { JoinWeight(lines[1..]); }
  }

  lemma {:induction false} LinesWeight(t: string)
    ensures LineWeight(Lines(t)) == |t| + 1
  {
    if t != [] {
      LinesWeight(t[1..]);
    }
  }

  lemma {:induction false} DataLinesConcat(a: seq<string>, b: seq<string>)
    ensures DataLines(a + b) == DataLines(a) + DataLines(b)
  {
    if b == [] {
      assert a + b == a;
    } else {
      assert (a + b)[..|a + b| - 1] == a + b[..|b| - 1];
      DataLinesConcat(a, b[..|b| - 1]);
    }
  }

  lemma DataOfOne(line: string, more: seq<string>)
    ensures DataLines([line]) == if StartsWith(line, "data:") then [DataOf(line)] else []
    ensures DataLines([line] + more) == DataLines([line]) + DataLines(more)
  {
    assert [line][..0] == [];
    DataLinesConcat([line], more);
  }

  lemma WeightFirst(line: string, more: seq<string>)
    ensures LineWeight([line] + more) == |line| + 1 + LineWeight(more)
  {
    assert ([line] + more)[1..] == more;
  }

  lemma LineIsLighter(line: string, more: seq<string>)
    ensures LineWeight(DataLines([line] + more)) <= |line| + LineWeight(DataLines(more))
  {
    DataOfOne(line, more);
    if StartsWith(line, "data:") {
      WeightFirst(DataOf(line), DataLines(more));
    } else {
      assert [] + DataLines(more) == DataLines(more);
    }
  }

  lemma {:induction false} DataIsLighter(lines: seq<string>)
    ensures LineWeight(DataLines(lines)) <= LineWeight(lines)
    ensures (lines != [] ==> LineWeight(DataLines(lines)) < LineWeight(lines))
  {
    if lines != [] {
      DataIsLighter(lines[1..]);
      LineIsLighter(lines[0], lines[1..]);
      assert lines == [lines[0]] + lines[1..];
    }
  }

  function FirstNewline(x: string): (k: nat)
    requires !OneLine(x)
    ensures k < |x| && x[k] == '\n' && OneLine(x[..k])
  {
    if x[0] == '\n' then 0 else
      assert !OneLine(x[1..]) by {
        var j :| 0 <= j < |x| && x[j] == '\n';
        assert x[1..][j - 1] == '\n';
      }
      FirstNewline(x[1..]) + 1
  }

  lemma DataOfSeveral(x0: string, y: string)
    requires OneLine(x0)
    ensures var data := DataLines(Lines("data: " + (x0 + "\n" + y)));
            data != [] && |Join(data)| < |x0| + 1 + |y|
  {
    assert "data: " + (x0 + "\n" + y) == ("data: " + x0) + "\n" + y;
    LinesCut("data: " + x0, y);
    DataLine(x0);
    DataOfOne("data: " + x0, Lines(y));
    DataIsLighter(Lines(y));
    LinesWeight(y);
    WeightFirst(x0, DataLines(Lines(y)));
    JoinWeight([x0] + DataLines(Lines(y)));
  }

  /** The data of a block ending in a data line is never longer than that line's, and shorter if it is several lines. */
  lemma DataFitsLine(named: seq<string>, x: string)
    requires DataLines(named) == []
    ensures var data := DataLines(named + Lines("data: " + x));
            data != [] && |Join(data)| <= |x| && (|Join(data)| == |x| ==> OneLine(x))
  {
    DataLinesConcat(named, Lines("data: " + x));
    assert [] + DataLines(Lines("data: " + x)) == DataLines(Lines("data: " + x));
    if OneLine(x) {
      LinesWhole("data: " + x);
      DataLine(x);
      DataOfOne("data: " + x, []);
    } else {
      var k := FirstNewline(x);
      assert x == x[..k] + "\n" + x[k + 1..];
      DataOfSeveral(x[..k], x[k + 1..]);
    }
  }

  // What trimming and slicing cannot do is introduce a newline.

  lemma {:induction false} TrimOneLine(s: string)
    requires OneLine(s)
    ensures OneLine(Trim(s))
  {
    TrimStartOneLine(s);
    TrimEndOneLine(TrimStart(s));
  }

  lemma {:induction false} TrimStartOneLine(s: string)
    requires OneLine(s)
    ensures OneLine(TrimStart(s))
  {
    if s != [] { TrimStartOneLine(s[1..]); }
  }

  lemma {:induction false} TrimEndOneLine(s: string)
    requires OneLine(s)
    ensures OneLine(TrimEnd(s))
  {
    if s != [] { TrimEndOneLine(s[..|s| - 1]); }
  }

  lemma {:induction false} LinesAreOneLine(t: string)
    ensures forall i | 0 <= i < |Lines(t)| :: OneLine(Lines(t)[i])
  {
    if t != [] { LinesAreOneLine(t[1..]); }
  }

  lemma {:induction false} NameIsOneLine(lines: seq<string>)
    requires forall i | 0 <= i < |lines| :: OneLine(lines[i])
    ensures EventName(lines).Some? ==> OneLine(EventName(lines).value)
  {
    if lines != [] {
      var last := lines[|lines| - 1];
      if StartsWith(last, "event:") { TrimOneLine(last[6..]); } else { NameIsOneLine(lines[..|lines| - 1]); }
    }
  }

  /** A name without newlines, trimmed and not empty, or none; and data without newlines. */
  predicate Faithful(m: Message) {
    SingleLined(m) && (m.event.Some? ==> m.event.value != [] && Trim(m.event.value) == m.event.value)
  }

  lemma FirstEvent(t: string)
    requires FirstBlank(t) >= 0
    ensures EventsOf(t) != [] && EventsOf(t)[0] == Parsed(t[..FirstBlank(t)])
  {
    SplitCut(t, FirstBlank(t));
  }

  lemma NoBlankInName(h: string, rest: string, n: nat, j: nat)
    requires WholeLine(h)
    requires 0 < n < |rest| && OneLine(rest[..n]) && j < |h| + n
    ensures (h + rest)[j] != '\n' || (h + rest)[j + 1] != '\n'
  {
    if j < |h| - 1 {
      assert h[..|h| - 1][j] != '\n';
    } else {
      var k := if j == |h| - 1 then 0 else j - |h|;
      assert rest[..n][k] != '\n' && (h + rest)[|h| + k] == rest[k];
    }
  }

  lemma FirstBlankBetween(t: string, lo: nat, hi: nat)
    requires hi + 1 < |t| && t[hi] == '\n' && t[hi + 1] == '\n' && lo <= hi
    requires forall j | 0 <= j < lo :: t[j] != '\n' || t[j + 1] != '\n'
    ensures lo <= FirstBlank(t) <= hi
  {
  }

  /** Nothing, or one line with its newline. */
  predicate WholeLine(h: string) {
    h == [] || (h[|h| - 1] == '\n' && OneLine(h[..|h| - 1]))
  }

  lemma NameLine(m: Message)
    requires m.event.Some? ==> OneLine(m.event.value)
    ensures WholeLine(Named(m))
  {
    var h := Named(m);
    if h != [] { assert h[..|h| - 1] == "event: " + m.event.value && OneLine("event: "); }
  }

  lemma CutAfter(h: string, rest: string, n: nat, end: nat)
    requires WholeLine(h)
    requires 0 < n <= end < |rest| - 1 && OneLine(rest[..n]) && rest[end] == '\n' && rest[end + 1] == '\n'
    ensures |h| + n <= FirstBlank(h + rest) <= |h| + end
  {
    hide FirstBlank, WholeLine, OneLine;
    var t := h + rest;
    forall j | 0 <= j < |h| + n ensures t[j] != '\n' || t[j + 1] != '\n' {
      NoBlankInName(h, rest, n, j);
    }
    FirstBlankBetween(t, |h| + n, |h| + end);
  }

  lemma DataRest(d: string)
    ensures var rest := "data: " + d + "\n\n";
            && |rest| == |d| + 8 && OneLine(rest[..6]) && rest[|d| + 6] == '\n' && rest[|d| + 7] == '\n'
            && forall n | 6 <= n <= |d| + 6 :: rest[..n] == "data: " + d[..n - 6]
  {
    var rest := "data: " + d + "\n\n";
    assert rest[..6] == "data: " && OneLine("data: ");
  }

  /** The first block of a write whose name has no newline: the name, then a prefix of the data. */
  lemma FirstBlock(m: Message)
    requires m.event.Some? ==> OneLine(m.event.value)
    ensures var i := FirstBlank(Write(m));
            && |Named(m)| + 6 <= i <= |Body(m)|
            && Write(m)[..i] == Named(m) + ("data: " + m.data[..i - |Named(m)| - 6])
  {
    var h, rest := Named(m), "data: " + m.data + "\n\n";
    NameLine(m);
    DataRest(m.data);
    CutAfter(h, rest, 6, |m.data| + 6);
    WriteShape(m);
    PrefixOfSum(h, rest, FirstBlank(Write(m)) - |h|);
  }

  lemma WriteShape(m: Message)
    ensures Write(m) == Named(m) + ("data: " + m.data + "\n\n") && |Body(m)| == |Named(m)| + 6 + |m.data|
  {
  }

  lemma PrefixOfSum(h: string, rest: string, n: nat)
    requires n <= |rest|
    ensures (h + rest)[..|h| + n] == h + rest[..n]
  {
  }

  lemma NamedLines(m: Message, x: string)
    requires m.event.Some? ==> OneLine(m.event.value)
    ensures var named := if Named(m) == [] then [] else ["event: " + m.event.value];
            Lines(Named(m) + ("data: " + x)) == named + Lines("data: " + x) && DataLines(named) == []
  {
    if Named(m) == [] {
      assert Named(m) + ("data: " + x) == "data: " + x;
    } else {
      assert Named(m) + ("data: " + x) == ("event: " + m.event.value) + "\n" + ("data: " + x);
      LinesCut("event: " + m.event.value, "data: " + x);
      EventLine(m.event.value);
      DataOfOne("event: " + m.event.value, []);
    }
  }

  lemma UnfaithfulData(m: Message)
    requires (m.event.Some? ==> OneLine(m.event.value)) && !OneLine(m.data)
    ensures EventsOf(Write(m)) != [Event(m.event, Some(m.data), false)]
  {
    hide FirstBlank, Lines, DataLines, EventName, HasComment, Write, EventsOf;
    var i := FirstBlank(Write(m));
    FirstBlock(m);
    FirstEvent(Write(m));
    var x := m.data[..i - |Named(m)| - 6];
    NamedLines(m, x);
    DataFitsLine(if Named(m) == [] then [] else ["event: " + m.event.value], x);
    if |x| == |m.data| { assert x == m.data; }
  }

  lemma UnfaithfulName(m: Message)
    requires m.event.Some? && !OneLine(m.event.value)
    ensures EventsOf(Write(m)) != [Event(m.event, Some(m.data), false)]
  {
    var t := Write(m);
    assert t[|Body(m)|] == '\n' && t[|Body(m)| + 1] == '\n';
    FirstEvent(t);
    var block := t[..FirstBlank(t)];
    LinesAreOneLine(block);
    NameIsOneLine(Lines(block));
  }

  lemma OneWrite(m: Message)
    requires SingleLined(m)
    ensures EventsOf(Write(m)) == [Received(m)]
  {
    assert WriteAll([m]) == Write(m) + [] == Write(m) by { assert [m][1..] == []; }
    ReadsAll([m]);
  }

  /** One write, its bytes cut anywhere, reads back as what was written exactly when it is faithful. */
  lemma ReadsBackIff(m: Message, chunks: seq<seq<Byte>>)
    requires Flat(chunks) == Encode(Write(m))
    ensures EventsOf(StreamText(Flat(chunks))) == [Event(m.event, Some(m.data), false)] <==> Faithful(m)
  {
    assert WriteAll([m]) == Write(m) + [] == Write(m) by { assert [m][1..] == []; }
    WriteStarts([m]);
    EncodedIsStreamed(Write(m));
    if SingleLined(m) {
      OneWrite(m);
    } else if m.event.Some? && !OneLine(m.event.value) {
      UnfaithfulName(m);
    } else {
      UnfaithfulData(m);
    }
  }
}
