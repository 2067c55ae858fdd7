// Writing a JSON value with any white-space layout, reading a JSON text, and the round trip between them.
module JsonText {
  import opened Prelude
  import opened JsText
  import opened JsonNumbers
  import opened Json
  import opened JsonStrings

  const COMMA: CodeUnit := 0x2C
  const COLON: CodeUnit := 0x3A
  const OPEN_LIST: CodeUnit := 0x5B
  const CLOSE_LIST: CodeUnit := 0x5D
  const OPEN_MAP: CodeUnit := 0x7B
  const CLOSE_MAP: CodeUnit := 0x7D
  const NULL: Text := [0x6E, 0x75, 0x6C, 0x6C]
  const TRUE: Text := [0x74, 0x72, 0x75, 0x65]
  const FALSE: Text := [0x66, 0x61, 0x6C, 0x73, 0x65]

  lemma Tokens()
    ensures [OPEN_LIST] == TextOf("[") && [CLOSE_LIST] == TextOf("]") && [OPEN_MAP] == TextOf("{")
    ensures [CLOSE_MAP] == TextOf("}") && [COLON] == TextOf(":") && [COMMA] == TextOf(",")
    ensures NULL == TextOf("null") && TRUE == TextOf("true") && FALSE == TextOf("false")
  {
  }

  // ---------------------------------------------------------------- writing

  /** The white space before an item at some depth, and after a key's colon. */
  datatype Layout = Layout(line: nat -> Text, colon: Text)

  const COMPACT: Layout := Layout(_ => [], [])

  function Indent(depth: nat): Text {
    [10] + seq(2 * depth, _ => 0x20)
  }

  /** `JSON.stringify(value, null, 2)`. */
  const PRETTY: Layout := Layout(depth => Indent(depth), [0x20])

  predicate Space(u: CodeUnit) {
    u == 0x20 || u == 9 || u == 10 || u == 13
  }

  /** Tab, line feed, carriage return and space. */
  lemma SpaceTable(u: CodeUnit)
    ensures Space(u) <==> u in {0x09, 0x0A, 0x0D, 0x20}
  {
  }

  /** Items stand on lines of their own, two spaces further in at each depth. */
  lemma LayoutsAre(depth: nat)
    ensures PRETTY.colon == TextOf(" ") && PRETTY.line(0) == TextOf("\n")
    ensures PRETTY.line(depth + 1) == PRETTY.line(depth) + TextOf("  ")
    ensures COMPACT.colon == [] && COMPACT.line(depth) == []
  {
    assert seq(2 * (depth + 1), _ => 0x20 as CodeUnit) == seq(2 * depth, _ => 0x20 as CodeUnit) + [0x20, 0x20];
  }

  predicate AllSpace(t: Text) {
    forall i | 0 <= i < |t| :: Space(t[i])
  }

  ghost predicate Blank(l: Layout) {
    AllSpace(l.colon) && forall depth :: AllSpace(l.line(depth))
  }

  /** A legal value without `undefined` and without NaN or infinities: what a JSON text can say. */
  predicate Plain(v: Json) {
    match v
    case Number(token) => NumberToken(token)
    case NotFinite => false
    case Arr(items) => forall i | 0 <= i < |items| :: Plain(items[i])
    case Obj(fields) =>
      DistinctKeys(fields) && forall i | 0 <= i < |fields| :: fields[i].value.Some? && Plain(fields[i].value.value)
    case _ => true
  }

  function Render(v: Json, l: Layout, depth: nat): (t: Text)
    requires Plain(v)
    ensures t != [] && !Space(t[0]) && t[0] != CLOSE_LIST
    decreases v, 1, 0
  {
    match v
    case Null => NULL
    case Bool(b) => if b then TRUE else FALSE
    case Number(token) => token
    case Str(s) => Quote(s)
    case Arr(items) => [OPEN_LIST] + if items == [] then [CLOSE_LIST] else RenderItems(v, 0, l, depth)
    case Obj(fields) => [OPEN_MAP] + if fields == [] then [CLOSE_MAP] else RenderFields(v, 0, l, depth)
  }

  function RenderItems(v: Json, i: nat, l: Layout, depth: nat): Text
    requires Plain(v) && v.Arr? && i < |v.items|
    decreases v, 0, |v.items| - i, 1
  {
    l.line(depth + 1) + (Render(v.items[i], l, depth + 1) + ItemsAfter(v, i, l, depth))
  }

  function RenderFields(v: Json, i: nat, l: Layout, depth: nat): Text
    requires Plain(v) && v.Obj? && i < |v.fields|
    decreases v, 0, |v.fields| - i, 1
  {
    l.line(depth + 1) + (Quote(v.fields[i].key) + ([COLON] + (l.colon
    + (Render(v.fields[i].value.value, l, depth + 1) + FieldsAfter(v, i, l, depth)))))
  }

  function ItemsAfter(v: Json, i: nat, l: Layout, depth: nat): Text
    requires Plain(v) && v.Arr? && i < |v.items|
    decreases v, 0, |v.items| - i, 0
  {
    if i + 1 < |v.items| then [COMMA] + RenderItems(v, i + 1, l, depth) else l.line(depth) + [CLOSE_LIST]
  }

  function FieldsAfter(v: Json, i: nat, l: Layout, depth: nat): Text
    requires Plain(v) && v.Obj? && i < |v.fields|
    decreases v, 0, |v.fields| - i, 0
  {
    if i + 1 < |v.fields| then [COMMA] + RenderFields(v, i + 1, l, depth) else l.line(depth) + [CLOSE_MAP]
  }

  // ---------------------------------------------------------------- reading

  function SkipSpace(t: Text): (r: Text)
    ensures |r| <= |t| && (r != [] ==> !Space(r[0]))
  {
    if t != [] && Space(t[0]) then SkipSpace(t[1..]) else t
  }

  /** Of several fields with one key the last is kept. */
  function LastWins(fields: seq<Field>): (kept: seq<Field>)
    ensures DistinctKeys(kept)
    ensures forall f | f in kept :: f in fields
  {
    if fields == [] then []
    else
      var rest := LastWins(fields[1..]);
      if exists f :: f in fields[1..] && f.key == fields[0].key then rest else [fields[0]] + rest
  }

  /** The longest number at the front of the text, if there is one, as the double it stands for. */
  function ParseNumber(num: Numbers, t: Text): (p: Parse<Json>)
    ensures p.Got? ==> |p.rest| < |t|
  {
    var n := NumberLength(t);
    if n == 0 then Fail
    else
      match num(t[..n])
      case None => Got(NotFinite, t[n..])
      case Some(shortest) => Got(Number(shortest), t[n..])
  }

  function ParseValue(num: Numbers, t: Text): (p: Parse<Json>)
    ensures p.Got? ==> |p.rest| < |t|
    decreases |t|, 1
  {
    var u := SkipSpace(t);
    if u == [] then Fail
    else if u[0] == QUOTE then
      match ParseChars(u[1..])
      case Fail => Fail
      case Got(s, rest) => Got(Str(s), rest)
    else if u[0] == OPEN_LIST then
      var w := SkipSpace(u[1..]);
      if w != [] && w[0] == CLOSE_LIST then Got(Arr([]), w[1..])
      else
        match ParseItems(num, u[1..])
        case Fail => Fail
        case Got(items, rest) => Got(Arr(items), rest)
    else if u[0] == OPEN_MAP then
      var w := SkipSpace(u[1..]);
      if w != [] && w[0] == CLOSE_MAP then Got(Obj([]), w[1..])
      else
        match ParseFields(num, u[1..])
        case Fail => Fail
        case Got(fields, rest) => Got(Obj(LastWins(fields)), rest)
    else if Digit(u[0]) || u[0] == MINUS then ParseNumber(num, u)
    else if NULL <= u then Got(Null, u[4..])
    else if TRUE <= u then Got(Bool(true), u[4..])
    else if FALSE <= u then Got(Bool(false), u[5..])
    else Fail
  }

  function ParseItems(num: Numbers, t: Text): (p: Parse<seq<Json>>)
    ensures p.Got? ==> |p.rest| < |t|
    decreases |t|, 2
  {
    match ParseValue(num, t)
    case Fail => Fail
    case Got(v, r) =>
      var w := SkipSpace(r);
      if w != [] && w[0] == CLOSE_LIST then Got([v], w[1..])
      else if w != [] && w[0] == COMMA then
        match ParseItems(num, w[1..])
        case Fail => Fail
        case Got(vs, rest) => Got([v] + vs, rest)
      else Fail
  }

  function ParseField(num: Numbers, t: Text): (p: Parse<Field>)
    ensures p.Got? ==> |p.rest| < |t|
    decreases |t|, 2
  {
    var k := SkipSpace(t);
    if k == [] || k[0] != QUOTE then Fail
    else
      match ParseChars(k[1..])
      case Fail => Fail
      case Got(key, r) =>
        var c := SkipSpace(r);
        if c == [] || c[0] != COLON then Fail
        else
          match ParseValue(num, c[1..])
          case Fail => Fail
          case Got(v, rest) => Got(Field(key, Some(v)), rest)
  }

  function ParseFields(num: Numbers, t: Text): (p: Parse<seq<Field>>)
    ensures p.Got? ==> |p.rest| < |t|
    decreases |t|, 3
  {
    match ParseField(num, t)
    case Fail => Fail
    case Got(f, r) =>
      var w := SkipSpace(r);
      if w != [] && w[0] == CLOSE_MAP then Got([f], w[1..])
      else if w != [] && w[0] == COMMA then
        match ParseFields(num, w[1..])
        case Fail => Fail
        case Got(fs, rest) => Got([f] + fs, rest)
      else Fail
  }

  /** `JSON.parse`. */
  function ParseJson(num: Numbers, t: Text): Option<Json> {
    match ParseValue(num, t)
    case Fail => None
    case Got(v, rest) => if SkipSpace(rest) == [] then Some(v) else None
  }

  // ---------------------------------------------------------------- what is read

  /** A legal value without `undefined` whose numbers are shortest texts: what `JSON.parse` can return. */
  predicate Readable(num: Numbers, v: Json) {
    match v
    case Number(token) => NumberToken(token) && num(token) == Some(token)
    case Arr(items) => forall i | 0 <= i < |items| :: Readable(num, items[i])
    case Obj(fields) =>
      DistinctKeys(fields)
      && forall i | 0 <= i < |fields| :: fields[i].value.Some? && Readable(num, fields[i].value.value)
    case _ => true
  }

  predicate ReadableField(num: Numbers, f: Field) {
    f.value.Some? && Readable(num, f.value.value)
  }

  lemma {:induction false} ParsedIsReadable(num: Numbers, t: Text)
    requires Shortens(num)
    ensures ParseValue(num, t).Got? ==> Readable(num, ParseValue(num, t).value)
    decreases |t|, 1
  {
    var u := SkipSpace(t);
    if u != [] {
      if u[0] == OPEN_LIST {
        ItemsAreReadable(num, u[1..]);
      } else if u[0] == OPEN_MAP {
        FieldsAreReadable(num, u[1..]);
        if ParseFields(num, u[1..]).Got? { KeptAreReadable(num, ParseFields(num, u[1..]).value); }
      } else if NumberLength(u) > 0 {
        CutIsToken(u);
      }
    }
  }

  lemma {:induction false} ItemsAreReadable(num: Numbers, t: Text)
    requires Shortens(num)
    ensures var p := ParseItems(num, t); p.Got? ==> forall i | 0 <= i < |p.value| :: Readable(num, p.value[i])
    decreases |t|, 2
  {
    ParsedIsReadable(num, t);
    if ParseValue(num, t).Got? {
      var w := SkipSpace(ParseValue(num, t).rest);
      if w != [] { ItemsAreReadable(num, w[1..]); }
    }
  }

  lemma KeptAreReadable(num: Numbers, fields: seq<Field>)
    requires forall f | f in fields :: ReadableField(num, f)
    ensures Readable(num, Obj(LastWins(fields)))
  {
    var kept := LastWins(fields);
    forall i | 0 <= i < |kept| ensures kept[i].value.Some? && Readable(num, kept[i].value.value) {
      assert kept[i] in kept;
      assert ReadableField(num, kept[i]);
    }
  }

  lemma {:induction false} FieldIsReadable(num: Numbers, t: Text)
    requires Shortens(num)
    ensures ParseField(num, t).Got? ==> ReadableField(num, ParseField(num, t).value)
    decreases |t|, 2
  {
    if ParseField(num, t).Got? {
      ParsedIsReadable(num, SkipSpace(ParseChars(SkipSpace(t)[1..]).rest)[1..]);
    }
  }

  lemma {:induction false} FieldsAreReadable(num: Numbers, t: Text)
    requires Shortens(num)
    ensures var p := ParseFields(num, t); p.Got? ==> forall f | f in p.value :: ReadableField(num, f)
    decreases |t|, 3
  {
    FieldIsReadable(num, t);
    if ParseField(num, t).Got? {
      var w := SkipSpace(ParseField(num, t).rest);
      if w != [] { FieldsAreReadable(num, w[1..]); }
    }
  }

  lemma {:induction false} ReadableIsLegal(num: Numbers, v: Json)
    requires Readable(num, v)
    ensures Legal(v) && Shortest(num, v)
  {
    match v
    case Arr(items) =>
      forall i | 0 <= i < |items| ensures Legal(items[i]) && Shortest(num, items[i]) { ReadableIsLegal(num, items[i]); }
    case Obj(fields) =>
      forall i | 0 <= i < |fields| ensures Legal(fields[i].value.value) && Shortest(num, fields[i].value.value) {
        ReadableIsLegal(num, fields[i].value.value);
      }
    case _ =>
  }

  // ---------------------------------------------------------------- what is written is read back

  lemma {:induction false} SkipsAll(space: Text, t: Text)
    requires AllSpace(space) && (t == [] || !Space(t[0]))
    ensures SkipSpace(space + t) == t
  {
    if space == [] {
      assert space + t == t;
    } else {
      assert (space + t)[1..] == space[1..] + t;
      SkipsAll(space[1..], t);
    }
  }

  lemma ParseSkips(num: Numbers, space: Text, t: Text)
    requires AllSpace(space) && t != [] && !Space(t[0])
    ensures ParseValue(num, space + t) == ParseValue(num, t)
  {
    SkipsAll(space, t);
  }

  lemma TokenStarts(token: Text)
    requires NumberToken(token)
    ensures Digit(token[0]) || token[0] == MINUS
  {
  }

  lemma ParsesNumber(num: Numbers, token: Text, rest: Text)
    requires NumberToken(token) && num(token) == Some(token) && Ends(rest)
    ensures ParseNumber(num, token + rest) == Got(Number(token), rest)
  {
    NumberStops(token, rest);
    assert (token + rest)[..|token|] == token && (token + rest)[|token|..] == rest;
  }

  lemma StartsNumber(num: Numbers, t: Text)
    requires t != [] && (Digit(t[0]) || t[0] == MINUS)
    ensures ParseValue(num, t) == ParseNumber(num, t)
  {
    assert SkipSpace(t) == t;
  }

  lemma ReadsNumber(num: Numbers, token: Text, rest: Text)
    requires NumberToken(token) && num(token) == Some(token) && Ends(rest)
    ensures ParseValue(num, token + rest) == Got(Number(token), rest)
  {
    TokenStarts(token);
    ParsesNumber(num, token, rest);
    StartsNumber(num, token + rest);
  }

  lemma ReadsString(num: Numbers, s: Text, rest: Text)
    ensures ParseValue(num, Quote(s) + rest) == Got(Str(s), rest)
  {
    ReadsBack(s, rest);
    assert (Quote(s) + rest)[1..] == Closed(s, rest);
  }

  lemma ReadsWord(num: Numbers, w: Text, rest: Text)
    requires w == NULL || w == TRUE || w == FALSE
    ensures ParseValue(num, w + rest) == Got(if w == NULL then Null else Bool(w == TRUE), rest)
  {
    var t := w + rest;
    assert t[|w|..] == rest && w <= t && SkipSpace(t) == t;
    assert t[0] == w[0];
  }

  lemma ReadsEmpty(num: Numbers, rest: Text)
    ensures ParseValue(num, [OPEN_LIST] + [CLOSE_LIST] + rest) == Got(Arr([]), rest)
    ensures ParseValue(num, [OPEN_MAP] + [CLOSE_MAP] + rest) == Got(Obj([]), rest)
  {
    var a, b := [OPEN_LIST] + [CLOSE_LIST] + rest, [OPEN_MAP] + [CLOSE_MAP] + rest;
    assert a[1..] == [CLOSE_LIST] + rest && a[1..][1..] == rest;
    assert b[1..] == [CLOSE_MAP] + rest && b[1..][1..] == rest;
  }

  // ---------------------------------------------------------------- numbers in texts

  lemma WholeNumber(num: Numbers, t: Text)
    requires t != [] && (Digit(t[0]) || t[0] == MINUS)
    ensures NumberLength(t) == 0 ==> ParseJson(num, t) == None
    ensures 0 < NumberLength(t) < |t| && !Space(t[NumberLength(t)]) ==> ParseJson(num, t) == None
    ensures NumberToken(t) ==> ParseJson(num, t) == Some(match num(t) case None => NotFinite case Some(s) => Number(s))
  {
    StartsNumber(num, t);
    if NumberToken(t) { assert t[..|t|] == t; }
  }

  lemma LengthOfTwo(a: CodeUnit, b: CodeUnit)
    requires Digit(a) && (a == ZERO || !Digit(b)) && !ExponentMark(b)
    ensures NumberLength([a, b]) == 1
  {
    var t := [a, b];
    assert t[1..] == [b] && [b][1..] == [] && [b][0..] == [b];
    assert TailLength([b]) == 0;
    assert Digits(t) == 1 + Digits([b]);
    assert IntLength(t) == 1;
  }

  /** Texts that start like a number and are none, like "-", "01" and "1.", are refused. */
  lemma MalformedNumbers(num: Numbers)
    ensures ParseJson(num, [MINUS]) == None
    ensures ParseJson(num, [ZERO, 0x31]) == None
    ensures ParseJson(num, [0x31, POINT]) == None
  {
    assert [MINUS][1..] == [];
    WholeNumber(num, [MINUS]);
    LengthOfTwo(ZERO, 0x31);
    WholeNumber(num, [ZERO, 0x31]);
    LengthOfTwo(0x31, POINT);
    WholeNumber(num, [0x31, POINT]);
  }

  /** A number written at more length, like "1.0" for "1", is read as the same value. */
  lemma RewrittenNumber(num: Numbers, t: Text, shortest: Text)
    requires NumberToken(t) && num(t) == Some(shortest)
    ensures ParseJson(num, t) == Some(Number(shortest))
  {
    TokenStarts(t);
    WholeNumber(num, t);
  }
}
