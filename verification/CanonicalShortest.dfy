// The canonical text is as short as a text of its value can be: no white space, no escape that is not needed.
module CanonicalShortest {
  import opened Prelude
  import opened JsText
  import opened Utf16
  import opened JsonNumbers
  import opened Json
  import opened JsonStrings
  import opened JsonShortest
  import opened JsonText
  import opened CanonicalJson
  import opened CanonicalMeaning

  // ---------------------------------------------------------------- the size of a canonical text

  function ItemsSize(items: seq<Json>): nat {
    if items == [] then 0 else |Canonical(items[0])| + (if |items| == 1 then 0 else 1) + ItemsSize(items[1..])
  }

  function FieldSize(f: Field): nat {
    if f.value.Some? then |Escape(f.key)| + 3 + |Canonical(f.value.value)| else 0
  }

  /** The fields alone; the commas between them come on top. */
  function FieldsSize(fields: seq<Field>): nat {
    if fields == [] then 0 else FieldSize(fields[0]) + FieldsSize(fields[1..])
  }

  lemma {:induction false} JoinSize(texts: seq<Text>, sizes: seq<nat>)
    requires |texts| == |sizes| && forall i | 0 <= i < |texts| :: |texts[i]| == sizes[i]
    ensures |Join(texts)| == Sum(sizes) + if texts == [] then 0 else |texts| - 1
  {
    if |texts| > 1 { JoinSize(texts[1..], sizes[1..]); }
  }

  function Sum(sizes: seq<nat>): nat {
    if sizes == [] then 0 else sizes[0] + Sum(sizes[1..])
  }

  lemma {:induction false} SumOfFields(fields: seq<Field>, sizes: seq<nat>)
    requires |sizes| == |fields| && forall i | 0 <= i < |fields| :: sizes[i] == FieldSize(fields[i])
    ensures Sum(sizes) == FieldsSize(fields)
  {
    if fields != [] { SumOfFields(fields[1..], sizes[1..]); }
  }

  lemma {:induction false} SumOfItems(items: seq<Json>, sizes: seq<nat>)
    requires |sizes| == |items| && forall i | 0 <= i < |items| :: sizes[i] == |Canonical(items[i])|
    ensures Sum(sizes) + (if items == [] then 0 else |items| - 1) == ItemsSize(items)
  {
    if items != [] { SumOfItems(items[1..], sizes[1..]); }
  }

  lemma ListSize(items: seq<Json>)
    ensures |Canonical(Arr(items))| == ItemsSize(items) + 2
  {
    var texts := seq(|items|, i requires 0 <= i < |items| => Canonical(items[i]));
    var sizes := seq(|items|, i requires 0 <= i < |items| => |Canonical(items[i])|);
    JoinSize(texts, sizes);
    SumOfItems(items, sizes);
  }

  lemma {:induction false} InsertedSize(f: Field, sorted: seq<Field>)
    ensures FieldsSize(Inserted(f, sorted)) == FieldSize(f) + FieldsSize(sorted)
  {
    if sorted == [] || Less(f.key, sorted[0].key) {
      assert ([f] + sorted)[1..] == sorted;
    } else {
      InsertedSize(f, sorted[1..]);
      assert ([sorted[0]] + Inserted(f, sorted[1..]))[1..] == Inserted(f, sorted[1..]);
    }
  }

  lemma {:induction false} SortedSize(fields: seq<Field>)
    ensures FieldsSize(SortByKey(fields)) == FieldsSize(fields)
  {
    if fields != [] {
      SortedSize(fields[1..]);
      InsertedSize(fields[0], SortByKey(fields[1..]));
    }
  }

  lemma {:induction false} PresentSize(fields: seq<Field>)
    ensures FieldsSize(Present(fields)) == FieldsSize(fields) && |Present(fields)| <= |fields|
  {
    if fields != [] {
      PresentSize(fields[1..]);
      if fields[0].value.Some? { assert ([fields[0]] + Present(fields[1..]))[1..] == Present(fields[1..]); }
      assert [] + Present(fields[1..]) == Present(fields[1..]);
    }
  }

  lemma {:induction false} KeptSize(fields: seq<Field>)
    ensures FieldsSize(LastWins(fields)) <= FieldsSize(fields) && |LastWins(fields)| <= |fields|
    ensures fields != [] ==> LastWins(fields) != []
  {
    if fields != [] {
      KeptSize(fields[1..]);
      assert ([fields[0]] + LastWins(fields[1..]))[1..] == LastWins(fields[1..]);
    }
  }

  lemma MapSize(fields: seq<Field>)
    ensures |Canonical(Obj(fields))| <= 2 + FieldsSize(fields) + if fields == [] then 0 else |fields| - 1
  {
    var entries := EntriesOf(fields);
    var texts := seq(|entries|, i requires 0 <= i < |entries| =>
                       Quote(entries[i].key) + ([COLON] + Canonical(entries[i].value.value)));
    var sizes := seq(|entries|, i requires 0 <= i < |entries| => FieldSize(entries[i]));
    JoinSize(texts, sizes);
    SumOfFields(entries, sizes);
    SortedSize(Present(fields));
    PresentSize(fields);
    MapOfTexts(Obj(fields), texts);
  }

  // ---------------------------------------------------------------- no text is shorter

  /** What was read took at least the canonical text's units, and what follows is well-formed. */
  predicate Took(size: int, t: Text, rest: Text) {
    WellFormed(rest) && size + |rest| <= |t|
  }

  lemma {:induction false} SpaceSkipped(t: Text)
    requires WellFormed(t)
    ensures WellFormed(SkipSpace(t)) && |SkipSpace(t)| <= |t|
  {
    if t != [] && Space(t[0]) {
      WellFormedRest(t, 1);
      SpaceSkipped(t[1..]);
    }
  }

  lemma StringTook(t: Text, s: Text, rest: Text)
    requires WellFormed(t) && t != [] && t[0] == QUOTE && ParseChars(t[1..]) == Got(s, rest)
    ensures Took(|Escape(s)| + 2, t, rest)
  {
    WellFormedRest(t, 1);
    ReadIsShortest(t[1..], s, rest);
  }

  lemma NumberTook(t: Text, v: Json, rest: Text)
    requires WellFormed(t) && ParseNumber(Verbatim, t) == Got(v, rest)
    ensures Took(|Canonical(v)|, t, rest)
  {
    var n := NumberLength(t);
    NumberUnits(t);
    forall i | 0 <= i < n ensures !High(t[i]) && !Low(t[i]) {
      assert t[..n][i] == t[i];
    }
    WellFormedRest(t, n);
  }

  lemma NumberUnits(t: Text)
    ensures forall i | 0 <= i < NumberLength(t) :: !High(t[..NumberLength(t)][i]) && !Low(t[..NumberLength(t)][i])
  {
    var n := NumberLength(t);
    if n > 0 {
      CutIsToken(t);
      TokenIsUnits(t[..n]);
    }
  }

  lemma WordTook(t: Text, n: nat)
    requires WellFormed(t) && (if n == 5 then FALSE <= t else n == 4 && (NULL <= t || TRUE <= t))
    ensures n <= |t| && WellFormed(t[n..])
  {
    WellFormedRest(t, n);
  }

  /** No well-formed text that reads as a value, its numbers as spelled there, is shorter than the canonical text. */
  lemma {:induction false} ValueTook(t: Text, v: Json, rest: Text)
    requires WellFormed(t) && ParseValue(Verbatim, t) == Got(v, rest)
    ensures Took(|Canonical(v)|, t, rest)
    decreases |t|, 1
  {
    var u := SkipSpace(t);
    SpaceSkipped(t);
    if u[0] == QUOTE {
      StringTook(u, v.s, rest);
    } else if u[0] == OPEN_LIST {
      ListTook(u, v, rest);
    } else if u[0] == OPEN_MAP {
      MapTook(u, v, rest);
    } else if Digit(u[0]) || u[0] == MINUS {
      NumberTook(u, v, rest);
    } else if NULL <= u || TRUE <= u {
      WordTook(u, 4);
    } else {
      WordTook(u, 5);
    }
  }

  lemma {:induction false} ListTook(u: Text, v: Json, rest: Text)
    requires WellFormed(u) && u != [] && u[0] == OPEN_LIST && ParseValue(Verbatim, u) == Got(v, rest)
    ensures Took(|Canonical(v)|, u, rest)
    decreases |u|, 0
  {
    WellFormedRest(u, 1);
    SpaceSkipped(u[1..]);
    var w := SkipSpace(u[1..]);
    assert SkipSpace(u) == u;
    ListSize(v.items);
    if w != [] && w[0] == CLOSE_LIST {
      WellFormedRest(w, 1);
    } else {
      ItemsTook(u[1..], v.items, rest);
    }
  }

  lemma {:induction false} ItemsTook(t: Text, items: seq<Json>, rest: Text)
    requires WellFormed(t) && ParseItems(Verbatim, t) == Got(items, rest)
    ensures Took(ItemsSize(items) + 1, t, rest)
    decreases |t|, 2
  {
    var first := ParseValue(Verbatim, t);
    ValueTook(t, first.value, first.rest);
    SpaceSkipped(first.rest);
    var w := SkipSpace(first.rest);
    WellFormedRest(w, 1);
    if w[0] == COMMA {
      ItemsTook(w[1..], items[1..], rest);
      assert items[0] == first.value;
    }
  }

  lemma {:induction false} MapTook(u: Text, v: Json, rest: Text)
    requires WellFormed(u) && u != [] && u[0] == OPEN_MAP && ParseValue(Verbatim, u) == Got(v, rest)
    ensures Took(|Canonical(v)|, u, rest)
    decreases |u|, 0
  {
    WellFormedRest(u, 1);
    SpaceSkipped(u[1..]);
    var w := SkipSpace(u[1..]);
    assert SkipSpace(u) == u;
    MapSize(v.fields);
    if w != [] && w[0] == CLOSE_MAP {
      WellFormedRest(w, 1);
    } else {
      var all := ParseFields(Verbatim, u[1..]).value;
      FieldsTook(u[1..], all, rest);
      KeptSize(all);
    }
  }

  lemma {:induction false} FieldTook(t: Text, f: Field, rest: Text)
    requires WellFormed(t) && ParseField(Verbatim, t) == Got(f, rest)
    ensures f.value.Some? && Took(FieldSize(f), t, rest)
    decreases |t|, 2
  {
    var k := SkipSpace(t);
    SpaceSkipped(t);
    var key := ParseChars(k[1..]);
    StringTook(k, key.value, key.rest);
    SpaceSkipped(key.rest);
    var c := SkipSpace(key.rest);
    WellFormedRest(c, 1);
    var value := ParseValue(Verbatim, c[1..]);
    ValueTook(c[1..], value.value, value.rest);
  }

  lemma {:induction false} FieldsTook(t: Text, fields: seq<Field>, rest: Text)
    requires WellFormed(t) && ParseFields(Verbatim, t) == Got(fields, rest)
    ensures fields != [] && Took(FieldsSize(fields) + |fields|, t, rest)
    decreases |t|, 3
  {
    var first := ParseField(Verbatim, t);
    FieldTook(t, first.value, first.rest);
    SpaceSkipped(first.rest);
    var w := SkipSpace(first.rest);
    WellFormedRest(w, 1);
    if w[0] == COMMA {
      FieldsTook(w[1..], fields[1..], rest);
      assert fields[0] == first.value;
    } else {
      assert fields[1..] == [];
    }
  }

  /**
   * Of all the well-formed texts that read as a value, its numbers spelled as they are in it, none is
   * shorter than the canonical text.
   */
  lemma CanonicalIsShortest(t: Text, v: Json)
    requires WellFormed(t) && ParseJson(Verbatim, t) == Some(v)
    ensures |Canonical(v)| <= |t|
  {
    var read := ParseValue(Verbatim, t);
    ValueTook(t, read.value, read.rest);
  }

  lemma NumberKind(num: Numbers, t: Text)
    ensures ParseNumber(num, t).Got? ==> !ParseNumber(num, t).value.Str?
  {
  }

  lemma StringRead(num: Numbers, t: Text, s: Text, rest: Text)
    requires ParseValue(num, t) == Got(Str(s), rest)
    ensures var u := SkipSpace(t); u != [] && u[0] == QUOTE && ParseChars(u[1..]) == Got(s, rest)
  {
    hide ParseNumber, ParseItems, ParseFields, LastWins, ParseChars;
    NumberKind(num, SkipSpace(t));
  }

  lemma SpaceOrSame(t: Text)
    ensures SkipSpace(t) == t || |SkipSpace(t)| < |t|
  {
  }

  /**
   * However numbers are read, the canonical text of a string is the one well-formed text of it that is
   * shortest and has lower-case digits in its escapes.
   */
  lemma CanonicalString(num: Numbers, t: Text, s: Text)
    requires WellFormed(t) && ParseJson(num, t) == Some(Str(s))
    ensures |Canonical(Str(s))| <= |t|
    ensures t == Canonical(Str(s)) <==> LowerHex(t) && |t| == |Canonical(Str(s))|
  {
    hide ParseValue, WellFormed, LowerHex, Escape;
    var u, rest := SkipSpace(t), ParseValue(num, t).rest;
    StringRead(num, t, s, rest);
    SpaceSkipped(t);
    SpaceOrSame(t);
    StringTook(u, s, rest);
    QuotedLowerHex(s);
    if LowerHex(t) && |t| == |Canonical(Str(s))| {
      LowerHexTail(t);
      WellFormedRest(t, 1);
      ShortestIsEscape(t[1..], s, []);
      assert t == [QUOTE] + (Escape(s) + ([QUOTE] + []));
      Nested([QUOTE], Escape(s), [QUOTE]);
      assert [QUOTE] + [] == [QUOTE];
    }
  }

  lemma LowerHexTail(t: Text)
    requires t != [] && t[0] == QUOTE && LowerHex(t)
    ensures LowerHex(t[1..])
  {
  }

  lemma QuotedLowerHex(s: Text)
    ensures LowerHex(Canonical(Str(s)))
  {
    assert LowerHex([QUOTE]) by { assert [QUOTE][1..] == []; }
    EscapeLowerHex(s, [QUOTE]);
    LowerHexPlain(QUOTE, Escape(s) + [QUOTE]);
    Nested([QUOTE], Escape(s), [QUOTE]);
  }

  lemma PlainString(s: Text)
    requires forall i | 0 <= i < |s| :: StandsForItself(s[i])
    ensures Canonical(Str(s)) == [0x22] + s + [0x22]
  {
    PlainTextUnchanged(s);
  }
}
