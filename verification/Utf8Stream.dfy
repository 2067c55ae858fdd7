// A streaming text decoder: the UTF-8 decoder of section 8.1.1 of the WHATWG Encoding standard, fed chunk by
// chunk. A character cut by a chunk boundary is carried over; malformed bytes become replacement characters.
module Utf8Stream {
  import opened Prelude
  import opened Utf8

  const REPLACEMENT: char := '\U{FFFD}'
  const BYTE_ORDER_MARK: char := '\U{FEFF}'

  /** The bits read so far, how many trailing bytes are missing, and the range the next one must be in. */
  datatype Carry = Carry(bits: nat, missing: nat, lower: nat, upper: nat)

  const IDLE: Carry := Carry(0, 0, 0x80, 0xBF)

  function Weight(missing: nat): nat {
    if missing == 0 then 1 else if missing == 1 then 0x40 else if missing == 2 then 0x1000 else 0x40000
  }

  function Least(c: Carry): int
    requires 1 <= c.missing <= 3
  {
    c.bits * Weight(c.missing) + (c.lower - 0x80) * Weight(c.missing - 1)
  }

  function Greatest(c: Carry): int
    requires 1 <= c.missing <= 3
  {
    c.bits * Weight(c.missing) + (c.upper - 0x80) * Weight(c.missing - 1) + Weight(c.missing - 1) - 1
  }

  /** However the sequence goes on, it will be a scalar value. */
  predicate Sound(c: Carry) {
    c == IDLE
    || (1 <= c.missing <= 3 && 0x80 <= c.lower <= c.upper <= 0xBF
        && (Greatest(c) < 0xD800 || (0xE000 <= Least(c) && Greatest(c) < 0x110000)))
  }

  datatype Fed = FedTo(carry: Carry, text: string)

  /** A byte where a character starts. */
  function Begin(b: Byte): (f: Fed)
    ensures Sound(f.carry)
  {
    if b < 0x80 then FedTo(IDLE, [b as char])
    else if 0xC2 <= b < 0xE0 then FedTo(Carry(b - 0xC0, 1, 0x80, 0xBF), "")
    else if 0xE0 <= b < 0xF0 then
      FedTo(Carry(b - 0xE0, 2, if b == 0xE0 then 0xA0 else 0x80, if b == 0xED then 0x9F else 0xBF), "")
    else if 0xF0 <= b < 0xF5 then
      FedTo(Carry(b - 0xF0, 3, if b == 0xF0 then 0x90 else 0x80, if b == 0xF4 then 0x8F else 0xBF), "")
    else FedTo(IDLE, [REPLACEMENT])
  }

  /** Which bytes start a character, and what may follow: Table 3-7 of the Unicode Standard. */
  lemma LeadTable(b: Byte)
    ensures b < 128 ==> Begin(b) == FedTo(IDLE, [b as char])
    ensures 128 <= b < 194 || 245 <= b ==> Begin(b) == FedTo(IDLE, ['\U{FFFD}'])
    ensures 194 <= b < 245 ==>
              var f := Begin(b);
              && f.text == "" && f.carry.missing == (if b < 224 then 1 else if b < 240 then 2 else 3)
              && f.carry.lower == (if b == 224 then 160 else if b == 240 then 144 else 128)
              && f.carry.upper == (if b == 237 then 159 else if b == 244 then 143 else 191)
  {
  }

  /** A byte that cannot follow ends the character read so far as one replacement and is looked at afresh. */
  lemma Interrupted(c: Carry, b: Byte)
    requires Sound(c) && c.missing > 0 && !(c.lower <= b <= c.upper)
    ensures Feed(c, b) == FedTo(Feed(IDLE, b).carry, ['\U{FFFD}'] + Feed(IDLE, b).text)
  {
  }

  function Feed(c: Carry, b: Byte): (f: Fed)
    requires Sound(c)
    ensures Sound(f.carry)
  {
    if c.missing == 0 then Begin(b)
    else if !(c.lower <= b <= c.upper) then FedTo(Begin(b).carry, [REPLACEMENT] + Begin(b).text)
    else
      var bits := c.bits * 0x40 + (b - 0x80);
      if c.missing == 1 then FedTo(IDLE, [bits as char]) else FedTo(Carry(bits, c.missing - 1, 0x80, 0xBF), "")
  }

  function FeedAll(c: Carry, bytes: seq<Byte>): (f: Fed)
    requires Sound(c)
    ensures Sound(f.carry)
    decreases |bytes|
  {
    if bytes == [] then FedTo(c, "")
    else
      var first := Feed(c, bytes[0]);
      var rest := FeedAll(first.carry, bytes[1..]);
      FedTo(rest.carry, first.text + rest.text)
  }

  function Then(f: Fed, g: Fed): Fed {
    FedTo(g.carry, f.text + g.text)
  }

  lemma ThenThen(f: Fed, g: Fed, h: Fed)
    ensures Then(Then(f, g), h) == Then(f, Then(g, h))
  {
  }

  lemma FeedFirst(c: Carry, b: Byte, rest: seq<Byte>)
    requires Sound(c)
    ensures FeedAll(c, [b] + rest) == Then(Feed(c, b), FeedAll(Feed(c, b).carry, rest))
  {
    assert ([b] + rest)[1..] == rest;
  }

  /** Where the bytes are cut makes no difference. */
  lemma {:induction false} FeedConcat(c: Carry, a: seq<Byte>, b: seq<Byte>)
    requires Sound(c)
    ensures FeedAll(c, a + b) == Then(FeedAll(c, a), FeedAll(FeedAll(c, a).carry, b))
    decreases |a|
  {
    if a == [] {
      assert a + b == b;
    } else {
      var first := Feed(c, a[0]);
      FeedConcat(first.carry, a[1..], b);
      FeedFirst(c, a[0], a[1..]);
      FeedFirst(c, a[0], a[1..] + b);
      assert a == [a[0]] + a[1..] && a + b == [a[0]] + (a[1..] + b);
      ThenThen(first, FeedAll(first.carry, a[1..]), FeedAll(FeedAll(first.carry, a[1..]).carry, b));
    }
  }

  lemma FeedOne(c: Carry, b: Byte)
    requires Sound(c)
    ensures FeedAll(c, [b]) == Feed(c, b)
  {
    FeedFirst(c, b, []);
    assert [b] + [] == [b] && Feed(c, b).text + "" == Feed(c, b).text;
  }

  /** A byte that keeps the character open, then the rest. */
  lemma FeedQuiet(c: Carry, b: Byte, rest: seq<Byte>)
    requires Sound(c) && Feed(c, b).text == ""
    ensures FeedAll(c, [b] + rest) == FeedAll(Feed(c, b).carry, rest)
  {
    FeedFirst(c, b, rest);
    var g := FeedAll(Feed(c, b).carry, rest);
    assert "" + g.text == g.text;
  }

  /** A trailing byte within range adds its six bits. */
  lemma FeedTrail(c: Carry, b: Byte)
    requires Sound(c) && c.missing > 0 && c.lower <= b <= c.upper
    ensures var bits := c.bits * 0x40 + (b - 0x80);
            Feed(c, b) == if c.missing == 1 then FedTo(IDLE, [bits as char])
                          else FedTo(Carry(bits, c.missing - 1, 0x80, 0xBF), "")
  {
  }

  lemma FeedThree(e: seq<Byte>)
    requires |e| == 3 && 0xE0 <= e[0] < 0xF0 && Trails(e[1]) && Trails(e[2])
    requires Scalar(Bits(e[0] as int - 0xE0, e[1..])) && Bits(e[0] as int - 0xE0, e[1..]) >= 0x800
    ensures FeedAll(IDLE, e) == FedTo(IDLE, [Bits(e[0] as int - 0xE0, e[1..]) as char])
  {
    assert e == [e[0]] + ([e[1]] + [e[2]]) && e[1..] == [e[1], e[2]];
    BitsOf1(e[0] as int - 0xE0, e[1]);
    BitsOf2(e[0] as int - 0xE0, e[1], e[2]);
    var c := Begin(e[0]).carry;
    FeedQuiet(IDLE, e[0], [e[1]] + [e[2]]);
    FeedTrail(c, e[1]);
    FeedQuiet(c, e[1], [e[2]]);
    FeedTrail(Feed(c, e[1]).carry, e[2]);
    FeedOne(Feed(c, e[1]).carry, e[2]);
  }

  lemma FourOpens(e: seq<Byte>)
    requires |e| == 4 && 0xF0 <= e[0] < 0xF5 && Trails(e[1]) && Trails(e[2]) && Trails(e[3])
    requires Scalar(Bits(e[0] as int - 0xF0, e[1..])) && Bits(e[0] as int - 0xF0, e[1..]) >= 0x10000
    ensures var c := Carry((e[0] as int - 0xF0) * 0x40 + (e[1] as int - 0x80), 2, 0x80, 0xBF);
            Sound(c) && Feed(c, e[2]).text == "" && FeedAll(IDLE, e) == FeedAll(c, [e[2]] + [e[3]])
    ensures Bits(e[0] as int - 0xF0, e[1..])
            == (((e[0] as int - 0xF0) * 0x40 + (e[1] as int - 0x80)) * 0x40 + (e[2] as int - 0x80)) * 0x40
               + (e[3] as int - 0x80)
  {
    assert e == [e[0]] + ([e[1]] + ([e[2]] + [e[3]])) && e[1..] == [e[1], e[2], e[3]];
    BitsOf1(e[0] as int - 0xF0, e[1]);
    BitsOf2(e[0] as int - 0xF0, e[1], e[2]);
    BitsOf3(e[0] as int - 0xF0, e[1], e[2], e[3]);
    var c := Begin(e[0]).carry;
    FeedQuiet(IDLE, e[0], [e[1]] + ([e[2]] + [e[3]]));
    FeedTrail(c, e[1]);
    FeedQuiet(c, e[1], [e[2]] + [e[3]]);
  }

  lemma FeedFour(e: seq<Byte>)
    requires |e| == 4 && 0xF0 <= e[0] < 0xF5 && Trails(e[1]) && Trails(e[2]) && Trails(e[3])
    requires Scalar(Bits(e[0] as int - 0xF0, e[1..])) && Bits(e[0] as int - 0xF0, e[1..]) >= 0x10000
    ensures FeedAll(IDLE, e) == FedTo(IDLE, [Bits(e[0] as int - 0xF0, e[1..]) as char])
  {
    FourOpens(e);
    var c := Carry((e[0] as int - 0xF0) * 0x40 + (e[1] as int - 0x80), 2, 0x80, 0xBF);
    FeedTrail(c, e[2]);
    FeedQuiet(c, e[2], [e[3]]);
    FeedTrail(Feed(c, e[2]).carry, e[3]);
    FeedOne(Feed(c, e[2]).carry, e[3]);
  }

  lemma FeedNext(c: Carry, chunk: seq<Byte>, i: nat)
    requires Sound(c) && i < |chunk|
    ensures var f := FeedAll(c, chunk[..i]); FeedAll(c, chunk[..i + 1]) == Then(f, Feed(f.carry, chunk[i]))
  {
    assert chunk[..i + 1] == chunk[..i] + [chunk[i]];
    FeedConcat(c, chunk[..i], [chunk[i]]);
    FeedOne(FeedAll(c, chunk[..i]).carry, chunk[i]);
  }

  /** An encoded character is decoded, and nothing is carried over. */
  lemma FeedChar(c: char)
    ensures FeedAll(IDLE, EncodeChar(c)) == FedTo(IDLE, [c])
  {
    var e, u := EncodeChar(c), c as int;
    DecodeCharComplete(c, []);
    assert e + [] == e;
    if u < 0x80 {
      FeedOne(IDLE, e[0]);
    } else if u < 0x800 {
      assert e == [e[0]] + [e[1]];
      FeedQuiet(IDLE, e[0], [e[1]]);
      FeedOne(Begin(e[0]).carry, e[1]);
    } else if u < 0x10000 {
      assert e[1..3] == e[1..];
      FeedThree(e);
    } else {
      assert e[1..4] == e[1..];
      FeedFour(e);
    }
  }

  /** An encoded text is decoded. */
  lemma {:induction false} FeedEncoded(s: string)
    ensures FeedAll(IDLE, Encode(s)) == FedTo(IDLE, s)
  {
    if s != [] {
      FeedChar(s[0]);
      FeedEncoded(s[1..]);
      FeedConcat(IDLE, EncodeChar(s[0]), Encode(s[1..]));
    }
  }

  // ---------------------------------------------------------------- the decoder object

  /** A byte order mark at the very start is dropped. */
  function Unmarked(text: string): string {
    if text != [] && text[0] == BYTE_ORDER_MARK then text[1..] else text
  }

  /** What a decoder has given out once it has been fed these bytes; an unfinished last character is kept back. */
  function StreamText(bytes: seq<Byte>): string {
    Unmarked(FeedAll(IDLE, bytes).text)
  }

  lemma EncodedIsStreamed(s: string)
    requires s == [] || s[0] != BYTE_ORDER_MARK
    ensures StreamText(Encode(s)) == s
  {
    FeedEncoded(s);
  }

  lemma UnmarkedConcat(a: string, b: string)
    ensures Unmarked(a + b) == Unmarked(a) + if a == [] then Unmarked(b) else b
  {
    if a == [] {
      assert a + b == b;
    } else {
      assert (a + b)[1..] == a[1..] + b;
    }
  }

  lemma StreamedFurther(before: seq<Byte>, chunk: seq<Byte>)
    ensures var f, g := FeedAll(IDLE, before), FeedAll(FeedAll(IDLE, before).carry, chunk);
            && FeedAll(IDLE, before + chunk) == Then(f, g)
            && StreamText(before + chunk) == StreamText(before) + if f.text == [] then Unmarked(g.text) else g.text
  {
    FeedConcat(IDLE, before, chunk);
    UnmarkedConcat(FeedAll(IDLE, before).text, FeedAll(FeedAll(IDLE, before).carry, chunk).text);
  }

  method FeedChunk(start: Carry, chunk: seq<Byte>) returns (carry: Carry, text: string)
    requires Sound(start)
    ensures FedTo(carry, text) == FeedAll(start, chunk)
  {
    carry, text := start, "";
    for i := 0 to |chunk|
      invariant FedTo(carry, text) == FeedAll(start, chunk[..i])
    {
      FeedNext(start, chunk, i);
      var f := Feed(carry, chunk[i]);
      carry, text := f.carry, text + f.text;
    }
    assert chunk[..|chunk|] == chunk;
  }

  class TextDecoder {
    var carry: Carry
    var started: bool

    /** The state after being fed these bytes. */
    predicate HasRead(bytes: seq<Byte>)
      reads this
    {
      carry == FeedAll(IDLE, bytes).carry && (started <==> FeedAll(IDLE, bytes).text != [])
    }

    constructor ()
      ensures HasRead([])
    {
      carry, started := IDLE, false;
    }

    /** `decode(chunk, { stream: true })`: the next piece of the stream's text. */
    method Decode(ghost before: seq<Byte>, chunk: seq<Byte>) returns (text: string)
      requires HasRead(before)
      modifies this
      ensures HasRead(before + chunk)
      ensures StreamText(before + chunk) == StreamText(before) + text
    {
      StreamedFurther(before, chunk);
      carry, text := FeedChunk(carry, chunk);
      if !started && text != "" {
        started := true;
        text := Unmarked(text);
      }
    }
  }
}
