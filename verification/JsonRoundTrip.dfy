// Whatever layout a JSON value is written in, reading the text gives the value back.
module JsonRoundTrip {
  import opened Prelude
  import opened JsText
  import opened JsonNumbers
  import opened Json
  import opened JsonStrings
  import opened JsonText

  lemma SpaceEnds(space: Text, u: CodeUnit, rest: Text)
    requires AllSpace(space) && !NumberUnit(u)
    ensures Ends(space + ([u] + rest))
  {
    if space != [] { assert Space(space[0]); }
  }

  lemma Nest(a: Text, b: Text, c: Text)
    ensures (a + b) + c == a + (b + c)
  {
  }

  lemma First(u: CodeUnit, rest: Text)
    ensures ([u] + rest)[0] == u && ([u] + rest)[1..] == rest
  {
  }

  // ---------------------------------------------------------------- lists

  lemma LastItem(num: Numbers, front: Text, text: Text, v: Json, back: Text, rest: Text)
    requires AllSpace(front) && AllSpace(back) && text != [] && !Space(text[0])
    requires ParseValue(num, text) == Got(v, back + ([CLOSE_LIST] + rest))
    ensures ParseItems(num, front + text) == Got([v], rest)
  {
    ParseSkips(num, front, text);
    First(CLOSE_LIST, rest);
    SkipsAll(back, [CLOSE_LIST] + rest);
  }

  lemma NextItem(num: Numbers, front: Text, text: Text, v: Json, more: Text, vs: seq<Json>, rest: Text)
    requires AllSpace(front) && text != [] && !Space(text[0])
    requires ParseValue(num, text) == Got(v, [COMMA] + more) && ParseItems(num, more) == Got(vs, rest)
    ensures ParseItems(num, front + text) == Got([v] + vs, rest)
  {
    ParseSkips(num, front, text);
    First(COMMA, more);
  }

  lemma FullList(num: Numbers, front: Text, text: Text, items: seq<Json>, rest: Text)
    requires AllSpace(front) && text != [] && !Space(text[0]) && text[0] != CLOSE_LIST
    requires ParseItems(num, front + text) == Got(items, rest)
    ensures ParseValue(num, [OPEN_LIST] + (front + text)) == Got(Arr(items), rest)
  {
    First(OPEN_LIST, front + text);
    SkipsAll(front, text);
  }

  // ---------------------------------------------------------------- objects

  lemma OneField(num: Numbers, front: Text, key: Text, colon: Text, text: Text, v: Json, tail: Text)
    requires AllSpace(front) && AllSpace(colon) && text != [] && !Space(text[0])
    requires ParseValue(num, text) == Got(v, tail)
    ensures ParseField(num, front + (Quote(key) + ([COLON] + (colon + text)))) == Got(Field(key, Some(v)), tail)
  {
    var value := [COLON] + (colon + text);
    SkipsAll(front, Quote(key) + value);
    QuoteThen(key, value);
    First(COLON, colon + text);
    ParseSkips(num, colon, text);
  }

  lemma QuoteThen(key: Text, rest: Text)
    ensures var t := Quote(key) + rest; t[0] == QUOTE && ParseChars(t[1..]) == Got(key, rest)
  {
    ReadsBack(key, rest);
    assert (Quote(key) + rest)[1..] == Closed(key, rest);
  }

  lemma LastField(num: Numbers, t: Text, f: Field, back: Text, rest: Text)
    requires AllSpace(back) && ParseField(num, t) == Got(f, back + ([CLOSE_MAP] + rest))
    ensures ParseFields(num, t) == Got([f], rest)
  {
    SkipsAll(back, [CLOSE_MAP] + rest);
    First(CLOSE_MAP, rest);
  }

  lemma NextField(num: Numbers, t: Text, f: Field, more: Text, fs: seq<Field>, rest: Text)
    requires ParseField(num, t) == Got(f, [COMMA] + more) && ParseFields(num, more) == Got(fs, rest)
    ensures ParseFields(num, t) == Got([f] + fs, rest)
  {
    First(COMMA, more);
  }

  lemma FullMap(num: Numbers, front: Text, text: Text, fields: seq<Field>, rest: Text)
    requires AllSpace(front) && text != [] && text[0] == QUOTE && ParseFields(num, front + text) == Got(fields, rest)
    ensures ParseValue(num, [OPEN_MAP] + (front + text)) == Got(Obj(LastWins(fields)), rest)
  {
    First(OPEN_MAP, front + text);
    SkipsAll(front, text);
  }

  lemma {:induction false} DistinctAllKept(fields: seq<Field>)
    requires DistinctKeys(fields)
    ensures LastWins(fields) == fields
  {
    if fields != [] {
      DistinctAllKept(fields[1..]);
      assert forall f | f in fields[1..] :: f.key != fields[0].key;
    }
  }

  // ---------------------------------------------------------------- the round trip

  lemma TailAt<T>(s: seq<T>, i: nat)
    requires i < |s|
    ensures s[i..] == [s[i]] + s[i + 1..]
  {
  }

  lemma ItemsShape(v: Json, i: nat, l: Layout, depth: nat, rest: Text)
    requires Plain(v) && v.Arr? && i < |v.items|
    ensures RenderItems(v, i, l, depth) + rest
            == l.line(depth + 1) + (Render(v.items[i], l, depth + 1) + (ItemsAfter(v, i, l, depth) + rest))
  {
    var body, after := Render(v.items[i], l, depth + 1), ItemsAfter(v, i, l, depth);
    Nest(l.line(depth + 1), body + after, rest);
    Nest(body, after, rest);
  }

  lemma ItemsAfterShape(v: Json, i: nat, l: Layout, depth: nat, rest: Text)
    requires Plain(v) && v.Arr? && i < |v.items| && Blank(l)
    ensures ItemsAfter(v, i, l, depth) + rest
            == if i + 1 < |v.items| then [COMMA] + (RenderItems(v, i + 1, l, depth) + rest)
               else l.line(depth) + ([CLOSE_LIST] + rest)
    ensures Ends(ItemsAfter(v, i, l, depth) + rest)
  {
    if i + 1 < |v.items| {
      Nest([COMMA], RenderItems(v, i + 1, l, depth), rest);
    } else {
      Nest(l.line(depth), [CLOSE_LIST], rest);
      SpaceEnds(l.line(depth), CLOSE_LIST, rest);
    }
  }

  lemma {:induction false} ReadsItems(num: Numbers, v: Json, i: nat, l: Layout, depth: nat, rest: Text)
    requires Plain(v) && Shortest(num, v) && v.Arr? && i < |v.items| && Blank(l)
    ensures ParseItems(num, RenderItems(v, i, l, depth) + rest) == Got(v.items[i..], rest)
    decreases v, 0, |v.items| - i
  {
    var item, front, after := v.items[i], l.line(depth + 1), ItemsAfter(v, i, l, depth) + rest;
    ItemsAfterShape(v, i, l, depth, rest);
    ReadsRendered(num, item, l, depth + 1, after);
    ItemsShape(v, i, l, depth, rest);
    if i + 1 < |v.items| {
      var more := RenderItems(v, i + 1, l, depth) + rest;
      ReadsItems(num, v, i + 1, l, depth, rest);
      NextItem(num, front, Render(item, l, depth + 1) + after, item, more, v.items[i + 1..], rest);
      TailAt(v.items, i);
    } else {
      LastItem(num, front, Render(item, l, depth + 1) + after, item, l.line(depth), rest);
      assert v.items[i..] == [item];
    }
  }

  lemma FieldsShape(v: Json, i: nat, l: Layout, depth: nat, rest: Text)
    requires Plain(v) && v.Obj? && i < |v.fields|
    ensures RenderFields(v, i, l, depth) + rest
            == l.line(depth + 1) + (Quote(v.fields[i].key) + ([COLON] + (l.colon
               + (Render(v.fields[i].value.value, l, depth + 1) + (FieldsAfter(v, i, l, depth) + rest)))))
  {
    var key, body := Quote(v.fields[i].key), Render(v.fields[i].value.value, l, depth + 1);
    var after := FieldsAfter(v, i, l, depth);
    Nest(l.line(depth + 1), key + ([COLON] + (l.colon + (body + after))), rest);
    Nest(key, [COLON] + (l.colon + (body + after)), rest);
    Nest([COLON], l.colon + (body + after), rest);
    Nest(l.colon, body + after, rest);
    Nest(body, after, rest);
  }

  lemma FieldsAfterShape(v: Json, i: nat, l: Layout, depth: nat, rest: Text)
    requires Plain(v) && v.Obj? && i < |v.fields| && Blank(l)
    ensures FieldsAfter(v, i, l, depth) + rest
            == if i + 1 < |v.fields| then [COMMA] + (RenderFields(v, i + 1, l, depth) + rest)
               else l.line(depth) + ([CLOSE_MAP] + rest)
    ensures Ends(FieldsAfter(v, i, l, depth) + rest)
  {
    if i + 1 < |v.fields| {
      Nest([COMMA], RenderFields(v, i + 1, l, depth), rest);
    } else {
      Nest(l.line(depth), [CLOSE_MAP], rest);
      SpaceEnds(l.line(depth), CLOSE_MAP, rest);
    }
  }

  lemma ReadsField(num: Numbers, v: Json, i: nat, l: Layout, depth: nat, rest: Text)
    requires Plain(v) && Shortest(num, v) && v.Obj? && i < |v.fields| && Blank(l)
    ensures ParseField(num, RenderFields(v, i, l, depth) + rest) == Got(v.fields[i], FieldsAfter(v, i, l, depth) + rest)
    decreases v, 0, |v.fields| - i, 0
  {
    var f, after := v.fields[i], FieldsAfter(v, i, l, depth) + rest;
    FieldsAfterShape(v, i, l, depth, rest);
    ReadsRendered(num, f.value.value, l, depth + 1, after);
    OneField(num, l.line(depth + 1), f.key, l.colon, Render(f.value.value, l, depth + 1) + after, f.value.value, after);
    FieldsShape(v, i, l, depth, rest);
  }

  lemma {:induction false} ReadsFields(num: Numbers, v: Json, i: nat, l: Layout, depth: nat, rest: Text)
    requires Plain(v) && Shortest(num, v) && v.Obj? && i < |v.fields| && Blank(l)
    ensures ParseFields(num, RenderFields(v, i, l, depth) + rest) == Got(v.fields[i..], rest)
    decreases v, 0, |v.fields| - i, 1
  {
    var t := RenderFields(v, i, l, depth) + rest;
    FieldsAfterShape(v, i, l, depth, rest);
    ReadsField(num, v, i, l, depth, rest);
    if i + 1 < |v.fields| {
      ReadsFields(num, v, i + 1, l, depth, rest);
      NextField(num, t, v.fields[i], RenderFields(v, i + 1, l, depth) + rest, v.fields[i + 1..], rest);
      TailAt(v.fields, i);
    } else {
      LastField(num, t, v.fields[i], l.line(depth), rest);
      assert v.fields[i..] == [v.fields[i]];
    }
  }

  lemma {:induction false} ReadsRendered(num: Numbers, v: Json, l: Layout, depth: nat, rest: Text)
    requires Plain(v) && Shortest(num, v) && Blank(l) && Ends(rest)
    ensures ParseValue(num, Render(v, l, depth) + rest) == Got(v, rest)
    decreases v, 1, 0
  {
    match v
    case Null => ReadsWord(num, NULL, rest);
    case Bool(b) => ReadsWord(num, if b then TRUE else FALSE, rest);
    case Number(token) => ReadsNumber(num, token, rest);
    case Str(s) => ReadsString(num, s, rest);
    case Arr(items) =>
      if items == [] { ReadsEmpty(num, rest); } else { ReadsList(num, v, l, depth, rest); }
    case Obj(fields) =>
      if fields == [] { ReadsEmpty(num, rest); } else { ReadsMap(num, v, l, depth, rest); }
  }

  lemma ReadsList(num: Numbers, v: Json, l: Layout, depth: nat, rest: Text)
    requires Plain(v) && Shortest(num, v) && v.Arr? && v.items != [] && Blank(l)
    ensures ParseValue(num, Render(v, l, depth) + rest) == Got(v, rest)
    decreases v, 1, -1
  {
    ReadsItems(num, v, 0, l, depth, rest);
    assert v.items[0..] == v.items;
    ItemsShape(v, 0, l, depth, rest);
    Nest([OPEN_LIST], RenderItems(v, 0, l, depth), rest);
    FullList(num, l.line(depth + 1), Render(v.items[0], l, depth + 1) + (ItemsAfter(v, 0, l, depth) + rest),
             v.items, rest);
  }

  lemma ReadsMap(num: Numbers, v: Json, l: Layout, depth: nat, rest: Text)
    requires Plain(v) && Shortest(num, v) && v.Obj? && v.fields != [] && Blank(l)
    ensures ParseValue(num, Render(v, l, depth) + rest) == Got(v, rest)
    decreases v, 1, -1
  {
    ReadsFields(num, v, 0, l, depth, rest);
    assert v.fields[0..] == v.fields;
    DistinctAllKept(v.fields);
    FieldsShape(v, 0, l, depth, rest);
    Nest([OPEN_MAP], RenderFields(v, 0, l, depth), rest);
    var after := FieldsAfter(v, 0, l, depth) + rest;
    FullMap(num, l.line(depth + 1),
            Quote(v.fields[0].key) + ([COLON] + (l.colon + (Render(v.fields[0].value.value, l, depth + 1) + after))),
            v.fields, rest);
  }

  /** Written in any layout, with any white space after it, a value is read back as it was. */
  lemma ParseUndoesRender(num: Numbers, v: Json, l: Layout, after: Text)
    requires Plain(v) && Shortest(num, v) && Blank(l) && AllSpace(after)
    ensures ParseJson(num, Render(v, l, 0) + after) == Some(v)
  {
    if after != [] { assert Space(after[0]); }
    ReadsRendered(num, v, l, 0, after);
    SkipsAll(after, []);
    assert after + [] == after;
  }

  lemma LayoutsAreBlank()
    ensures Blank(COMPACT) && Blank(PRETTY)
  {
  }
}
