// The canonical text says exactly what a value means: it depends on nothing else, and it can be read back.
module CanonicalMeaning {
  import opened Prelude
  import opened JsText
  import opened Utf16
  import opened JsonNumbers
  import opened Json
  import opened JsonStrings
  import opened JsonText
  import opened JsonRoundTrip
  import opened CanonicalJson

  // ---------------------------------------------------------------- entries against fields

  lemma TheValue(fields: seq<Field>, i: nat)
    requires DistinctKeys(fields) && i < |fields| && fields[i].value.Some?
    ensures fields[i].key in KeysOf(fields) && ValueOf(fields, fields[i].key) == fields[i].value.value
  {
    assert fields[i] in fields;
  }

  lemma EntryAgrees(fields: seq<Field>, i: nat)
    requires DistinctKeys(fields) && i < |EntriesOf(fields)|
    ensures var e := EntriesOf(fields)[i];
            e.key in KeysOf(fields) && ValueOf(fields, e.key) == e.value.value
  {
    var e := EntriesOf(fields)[i];
    var k :| 0 <= k < |fields| && fields[k] == e;
    TheValue(fields, k);
  }

  lemma EntryExists(fields: seq<Field>, key: Text)
    requires key in KeysOf(fields)
    ensures exists i :: 0 <= i < |EntriesOf(fields)| && EntriesOf(fields)[i].key == key
  {
    var f :| f in fields && f.value.Some? && f.key == key;
    assert f in EntriesOf(fields);
  }

  lemma EntriesInOrder(fields: seq<Field>)
    requires DistinctKeys(fields)
    ensures InOrder(EntriesOf(fields)) && DistinctKeys(EntriesOf(fields))
  {
    PresentDistinct(fields);
    SortInOrder(Present(fields));
    InOrderDistinct(EntriesOf(fields));
  }

  lemma EntryIsLegal(v: Json, i: nat)
    requires Legal(v) && v.Obj? && i < |EntriesOf(v.fields)|
    ensures Legal(EntriesOf(v.fields)[i].value.value)
  {
    var k :| 0 <= k < |v.fields| && v.fields[k] == EntriesOf(v.fields)[i];
  }

  // ---------------------------------------------------------------- sorting keeps the meaning

  lemma {:induction false} SortedIsPlain(v: Json)
    requires Legal(v)
    ensures Plain(Sorted(v))
    decreases v
  {
    match v
    case Arr(items) =>
      forall i | 0 <= i < |items| ensures Plain(Sorted(items[i])) { SortedIsPlain(items[i]); }
    case Obj(fields) =>
      var entries := EntriesOf(fields);
      EntriesInOrder(fields);
      forall i | 0 <= i < |entries| ensures Plain(Sorted(entries[i].value.value)) {
        EntryIsLegal(v, i);
        SortedIsPlain(entries[i].value.value);
      }
    case _ =>
  }

  lemma SortedKeys(v: Json)
    requires Legal(v) && v.Obj?
    ensures KeysOf(Sorted(v).fields) == KeysOf(v.fields)
  {
    var entries, sorted := EntriesOf(v.fields), Sorted(v).fields;
    forall k | k in KeysOf(v.fields) ensures k in KeysOf(sorted) {
      EntryExists(v.fields, k);
      var i :| 0 <= i < |entries| && entries[i].key == k;
      assert sorted[i] in sorted;
    }
    forall k | k in KeysOf(sorted) ensures k in KeysOf(v.fields) {
      var i :| 0 <= i < |sorted| && sorted[i].key == k;
      EntryAgrees(v.fields, i);
    }
  }

  lemma SortedEntry(v: Json, i: nat)
    requires Legal(v) && v.Obj? && i < |EntriesOf(v.fields)|
    ensures var e := EntriesOf(v.fields)[i];
            && e.key in KeysOf(Sorted(v).fields) && ValueOf(Sorted(v).fields, e.key) == Sorted(e.value.value)
  {
    EntriesInOrder(v.fields);
    TheValue(Sorted(v).fields, i);
  }

  lemma SortedValue(v: Json, k: Text)
    requires Legal(v) && v.Obj? && k in KeysOf(v.fields)
    ensures k in KeysOf(Sorted(v).fields) && ValueOf(Sorted(v).fields, k) == Sorted(ValueOf(v.fields, k))
  {
    EntryExists(v.fields, k);
    var i :| 0 <= i < |EntriesOf(v.fields)| && EntriesOf(v.fields)[i].key == k;
    EntryAgrees(v.fields, i);
    SortedEntry(v, i);
  }

  lemma ValueIsLegal(v: Json, k: Text)
    requires Legal(v) && v.Obj? && k in KeysOf(v.fields)
    ensures Legal(ValueOf(v.fields, k))
  {
  }

  lemma MeansByItems(v: Json, w: Json)
    requires v.Arr? && w.Arr? && |v.items| == |w.items|
    requires forall i | 0 <= i < |v.items| :: Meaning(v.items[i]) == Meaning(w.items[i])
    ensures Meaning(v) == Meaning(w)
  {
  }

  lemma MeansByValues(v: Json, w: Json)
    requires v.Obj? && w.Obj? && KeysOf(v.fields) == KeysOf(w.fields)
    requires forall k | k in KeysOf(v.fields) :: Meaning(ValueOf(v.fields, k)) == Meaning(ValueOf(w.fields, k))
    ensures Meaning(v) == Meaning(w)
  {
  }

  /** Sorting keys and dropping undefined fields leaves the meaning alone. */
  lemma {:induction false} SortedMeans(v: Json)
    requires Legal(v)
    ensures Meaning(Sorted(v)) == Meaning(v)
    decreases v
  {
    match v
    case Arr(items) =>
      forall i | 0 <= i < |items| ensures Meaning(Sorted(items[i])) == Meaning(items[i]) { SortedMeans(items[i]); }
      MeansByItems(Sorted(v), v);
    case Obj(fields) =>
      SortedKeys(v);
      forall k | k in KeysOf(fields) ensures Meaning(ValueOf(Sorted(v).fields, k)) == Meaning(ValueOf(fields, k)) {
        SortedValue(v, k);
        ValueIsLegal(v, k);
        SortedMeans(ValueOf(fields, k));
      }
      MeansByValues(Sorted(v), v);
    case _ =>
  }

  // ---------------------------------------------------------------- one sorted form per meaning

  predicate HasKey(fields: seq<Field>, key: Text) {
    exists g :: g in fields && g.key == key
  }

  predicate Covers(b: seq<Field>, a: seq<Field>) {
    forall f | f in a :: HasKey(b, f.key)
  }

  lemma EmptyCovers(a: seq<Field>, b: seq<Field>)
    requires Covers(a, b)
    ensures a == [] ==> b == []
  {
    if b != [] {
      assert b[0] in b;
      var g :| g in a && g.key == b[0].key;
    }
  }

  lemma {:induction false} OneOrder(a: seq<Field>, b: seq<Field>)
    requires InOrder(a) && InOrder(b) && Covers(a, b) && Covers(b, a)
    ensures |a| == |b| && forall i | 0 <= i < |a| :: a[i].key == b[i].key
  {
    EmptyCovers(a, b);
    if a != [] {
      SameFirst(a, b);
      TailKeys(a, b);
      TailKeys(b, a);
      OneOrder(a[1..], b[1..]);
      forall i | 0 < i < |a| ensures a[i].key == b[i].key {
        assert a[1..][i - 1].key == b[1..][i - 1].key;
      }
    }
  }

  lemma SameFirst(a: seq<Field>, b: seq<Field>)
    requires InOrder(a) && InOrder(b) && a != [] && Covers(a, b) && Covers(b, a)
    ensures b != [] && a[0].key == b[0].key
  {
    assert a[0] in a;
    var g :| g in b && g.key == a[0].key;
    assert b[0] in b;
    var f :| f in a && f.key == b[0].key;
    FirstIsLeast(a, f);
    FirstIsLeast(b, g);
    LessIsStrict(a[0].key, b[0].key);
  }

  lemma FirstIsLeast(a: seq<Field>, f: Field)
    requires InOrder(a) && f in a
    ensures f == a[0] || Less(a[0].key, f.key)
  {
  }

  lemma TailKeys(a: seq<Field>, b: seq<Field>)
    requires InOrder(a) && InOrder(b) && a != [] && b != [] && a[0].key == b[0].key && Covers(b, a)
    ensures Covers(b[1..], a[1..]) && InOrder(a[1..])
  {
    forall f | f in a[1..] ensures HasKey(b[1..], f.key) {
      var i :| 0 <= i < |a[1..]| && a[1..][i] == f;
      assert a[i + 1] == f && f in a;
      LessIsStrict(a[0].key, f.key);
      var g :| g in b && g.key == f.key;
      assert b == [b[0]] + b[1..];
    }
  }

  lemma SameEntries(v: Json, w: Json)
    requires Legal(v) && Legal(w) && v.Obj? && w.Obj? && KeysOf(v.fields) == KeysOf(w.fields)
    ensures var a, b := EntriesOf(v.fields), EntriesOf(w.fields);
            |a| == |b| && forall i | 0 <= i < |a| :: a[i].key == b[i].key
  {
    EntriesInOrder(v.fields);
    EntriesInOrder(w.fields);
    EntriesCover(v.fields, w.fields);
    EntriesCover(w.fields, v.fields);
    OneOrder(EntriesOf(v.fields), EntriesOf(w.fields));
  }

  lemma EntriesCover(a: seq<Field>, b: seq<Field>)
    requires DistinctKeys(a) && KeysOf(a) == KeysOf(b)
    ensures Covers(EntriesOf(b), EntriesOf(a))
  {
    forall f | f in EntriesOf(a) ensures HasKey(EntriesOf(b), f.key) {
      var i :| 0 <= i < |EntriesOf(a)| && EntriesOf(a)[i] == f;
      EntryAgrees(a, i);
      EntryExists(b, f.key);
      var j :| 0 <= j < |EntriesOf(b)| && EntriesOf(b)[j].key == f.key;
      assert EntriesOf(b)[j] in EntriesOf(b);
    }
  }

  lemma EntryMeans(v: Json, i: nat)
    requires Legal(v) && v.Obj? && i < |EntriesOf(v.fields)|
    ensures var e, m := EntriesOf(v.fields)[i], Meaning(v).m;
            Legal(e.value.value) && e.key in m && m[e.key] == Meaning(e.value.value)
  {
    EntryAgrees(v.fields, i);
    EntryIsLegal(v, i);
  }

  lemma SameKeys(v: Json, w: Json)
    requires v.Obj? && w.Obj? && Meaning(v) == Meaning(w)
    ensures KeysOf(v.fields) == KeysOf(w.fields)
  {
    assert Meaning(v).m.Keys == KeysOf(v.fields) && Meaning(w).m.Keys == KeysOf(w.fields);
  }

  lemma SameItem(v: Json, w: Json, i: nat)
    requires v.Arr? && w.Arr? && Meaning(v) == Meaning(w) && i < |v.items|
    ensures |w.items| == |v.items| && Meaning(v.items[i]) == Meaning(w.items[i])
  {
    var a, b := Meaning(v).items, Meaning(w).items;
    assert a[i] == b[i];
  }

  lemma SameEntry(v: Json, w: Json, i: nat)
    requires Legal(v) && Legal(w) && v.Obj? && w.Obj? && Meaning(v) == Meaning(w) && i < |EntriesOf(v.fields)|
    ensures var a, b := EntriesOf(v.fields), EntriesOf(w.fields);
            && |a| == |b| && a[i].key == b[i].key && Legal(a[i].value.value) && Legal(b[i].value.value)
            && Meaning(a[i].value.value) == Meaning(b[i].value.value)
  {
    SameKeys(v, w);
    SameEntries(v, w);
    EntryMeans(v, i);
    EntryMeans(w, i);
  }

  lemma SortedByItems(v: Json, w: Json)
    requires v.Arr? && w.Arr? && |v.items| == |w.items|
    requires forall i | 0 <= i < |v.items| :: Sorted(v.items[i]) == Sorted(w.items[i])
    ensures Sorted(v) == Sorted(w)
  {
  }

  lemma SortedByEntries(v: Json, w: Json)
    requires v.Obj? && w.Obj? && |EntriesOf(v.fields)| == |EntriesOf(w.fields)|
    requires forall i | 0 <= i < |EntriesOf(v.fields)| ::
               var a, b := EntriesOf(v.fields)[i], EntriesOf(w.fields)[i];
               a.key == b.key && Sorted(a.value.value) == Sorted(b.value.value)
    ensures Sorted(v) == Sorted(w)
  {
  }

  lemma SameShape(v: Json, w: Json)
    requires Meaning(v) == Meaning(w)
    ensures v.Arr? ==> w.Arr? && |v.items| == |w.items|
    ensures v.Obj? ==> w.Obj? && KeysOf(v.fields) == KeysOf(w.fields)
    ensures !v.Arr? && !v.Obj? ==> Sorted(v) == Sorted(w)
  {
    if v.Arr? {
      assert |Meaning(v).items| == |v.items| && |Meaning(w).items| == |w.items|;
    } else if v.Obj? {
      SameKeys(v, w);
    }
  }

  /** Two values with one meaning have one sorted form. */
  lemma {:induction false} OneSortedForm(v: Json, w: Json)
    requires Legal(v) && Legal(w) && Meaning(v) == Meaning(w)
    ensures Sorted(v) == Sorted(w)
    decreases v
  {
    SameShape(v, w);
    if v.Arr? {
      forall i | 0 <= i < |v.items| ensures Sorted(v.items[i]) == Sorted(w.items[i]) {
        SameItem(v, w, i);
        OneSortedForm(v.items[i], w.items[i]);
      }
      SortedByItems(v, w);
    } else if v.Obj? {
      SameEntries(v, w);
      forall i | 0 <= i < |EntriesOf(v.fields)|
        ensures var a, b := EntriesOf(v.fields)[i], EntriesOf(w.fields)[i];
                a.key == b.key && Sorted(a.value.value) == Sorted(b.value.value)
      {
        SameEntry(v, w, i);
        OneSortedForm(EntriesOf(v.fields)[i].value.value, EntriesOf(w.fields)[i].value.value);
      }
      SortedByEntries(v, w);
    }
  }

  // ---------------------------------------------------------------- the sorted form, written compactly

  lemma {:induction false} JoinsItems(v: Json, i: nat, depth: nat, texts: seq<Text>)
    requires Plain(v) && v.Arr? && i < |v.items| && |texts| == |v.items|
    requires forall k | 0 <= k < |texts| :: texts[k] == Render(v.items[k], COMPACT, depth + 1)
    ensures RenderItems(v, i, COMPACT, depth) == Join(texts[i..]) + [CLOSE_LIST]
    decreases |v.items| - i
  {
    if i + 1 < |v.items| {
      JoinsItems(v, i + 1, depth, texts);
      assert texts[i..][1..] == texts[i + 1..];
    } else {
      assert texts[i..] == [texts[i]];
    }
  }

  lemma {:induction false} JoinsFields(v: Json, i: nat, depth: nat, texts: seq<Text>)
    requires Plain(v) && v.Obj? && i < |v.fields| && |texts| == |v.fields|
    requires forall k | 0 <= k < |texts| ::
               texts[k] == Quote(v.fields[k].key) + ([COLON] + Render(v.fields[k].value.value, COMPACT, depth + 1))
    ensures RenderFields(v, i, COMPACT, depth) == Join(texts[i..]) + [CLOSE_MAP]
    decreases |v.fields| - i
  {
    var key, body := Quote(v.fields[i].key), Render(v.fields[i].value.value, COMPACT, depth + 1);
    assert texts[i] == key + ([COLON] + body);
    CompactField(key, body, FieldsAfter(v, i, COMPACT, depth));
    if i + 1 < |v.fields| {
      JoinsFields(v, i + 1, depth, texts);
      assert texts[i..][1..] == texts[i + 1..];
    } else {
      assert texts[i..] == [texts[i]];
    }
  }

  lemma CompactField(key: Text, body: Text, after: Text)
    ensures [] + (key + ([COLON] + ([] + (body + after)))) == (key + ([COLON] + body)) + after
  {
  }

  /** The canonical text is the sorted form without white space. */
  lemma {:induction false} CanonicalIsRender(v: Json, depth: nat)
    requires Legal(v)
    ensures Plain(Sorted(v)) && Render(Sorted(v), COMPACT, depth) == Canonical(v)
    decreases v
  {
    SortedIsPlain(v);
    match v
    case Arr(items) =>
      var texts := seq(|items|, i requires 0 <= i < |items| => Canonical(items[i]));
      forall i | 0 <= i < |items| ensures texts[i] == Render(Sorted(v).items[i], COMPACT, depth + 1) {
        CanonicalIsRender(items[i], depth + 1);
      }
      if items != [] {
        JoinsItems(Sorted(v), 0, depth, texts);
        assert texts[0..] == texts;
      }
    case Obj(fields) =>
      CanonicalMapIsRender(v, depth);
    case _ =>
  }

  lemma MapOfTexts(v: Json, texts: seq<Text>)
    requires v.Obj? && |texts| == |EntriesOf(v.fields)|
    requires forall i | 0 <= i < |texts| ::
               var e := EntriesOf(v.fields)[i]; texts[i] == Quote(e.key) + ([COLON] + Canonical(e.value.value))
    ensures Canonical(v) == [OPEN_MAP] + Join(texts) + [CLOSE_MAP]
  {
    var entries := EntriesOf(v.fields);
    assert texts == seq(|entries|, i requires 0 <= i < |entries| =>
                          Quote(entries[i].key) + ([COLON] + Canonical(entries[i].value.value)));
  }

  lemma RenderOfTexts(v: Json, depth: nat, texts: seq<Text>)
    requires Plain(v) && v.Obj? && |texts| == |v.fields|
    requires forall k | 0 <= k < |texts| ::
               texts[k] == Quote(v.fields[k].key) + ([COLON] + Render(v.fields[k].value.value, COMPACT, depth + 1))
    ensures Render(v, COMPACT, depth) == [OPEN_MAP] + Join(texts) + [CLOSE_MAP]
  {
    if v.fields != [] {
      JoinsFields(v, 0, depth, texts);
      assert texts[0..] == texts;
    }
  }

  lemma CanonicalMapIsRender(v: Json, depth: nat)
    requires Legal(v) && v.Obj? && Plain(Sorted(v))
    ensures Render(Sorted(v), COMPACT, depth) == Canonical(v)
    decreases v, -1
  {
    var entries := EntriesOf(v.fields);
    var texts := seq(|entries|, i requires 0 <= i < |entries| =>
                       Quote(entries[i].key) + ([COLON] + Canonical(entries[i].value.value)));
    forall i | 0 <= i < |entries|
      ensures texts[i] == Quote(entries[i].key)
                          + ([COLON] + Render(Sorted(v).fields[i].value.value, COMPACT, depth + 1))
    {
      EntryIsLegal(v, i);
      CanonicalIsRender(entries[i].value.value, depth + 1);
    }
    MapOfTexts(v, texts);
    RenderOfTexts(Sorted(v), depth, texts);
  }

  // ---------------------------------------------------------------- the main results

  lemma {:induction false} SortedIsShortest(num: Numbers, v: Json)
    requires Legal(v) && Shortest(num, v)
    ensures Shortest(num, Sorted(v))
    decreases v
  {
    match v
    case Arr(items) =>
      forall i | 0 <= i < |items| ensures Shortest(num, Sorted(items[i])) { SortedIsShortest(num, items[i]); }
    case Obj(fields) =>
      var entries := EntriesOf(fields);
      forall i | 0 <= i < |entries| ensures Shortest(num, Sorted(entries[i].value.value)) {
        EntryIsLegal(v, i);
        var k :| 0 <= k < |fields| && fields[k] == entries[i];
        SortedIsShortest(num, entries[i].value.value);
      }
    case _ =>
  }

  /**
   * Parsing the canonical text gives back the value: keys sorted, undefined fields dropped, null for
   * what is not finite.
   */
  lemma CanonicalReadsBack(num: Numbers, v: Json)
    requires Legal(v) && Shortest(num, v)
    ensures ParseJson(num, Canonical(v)) == Some(Sorted(v)) && Meaning(Sorted(v)) == Meaning(v)
  {
    CanonicalIsRender(v, 0);
    LayoutsAreBlank();
    SortedIsShortest(num, v);
    ParseUndoesRender(num, Sorted(v), COMPACT, []);
    assert Canonical(v) + [] == Canonical(v);
    SortedMeans(v);
  }

  /** Numbers taken as they are written. */
  function Verbatim(t: Text): Option<Text> {
    Some(t)
  }

  lemma {:induction false} AsWritten(v: Json)
    ensures Shortest(Verbatim, v)
  {
    match v
    case Arr(items) => forall i | 0 <= i < |items| ensures Shortest(Verbatim, items[i]) { AsWritten(items[i]); }
    case Obj(fields) =>
      forall i | 0 <= i < |fields| && fields[i].value.Some? ensures Shortest(Verbatim, fields[i].value.value) {
        AsWritten(fields[i].value.value);
      }
    case _ =>
  }

  /**
   * Two values have one canonical text exactly when they mean the same: neither the order of keys nor
   * undefined fields matter, and nothing else is lost.
   */
  lemma CanonicalIff(v: Json, w: Json)
    requires Legal(v) && Legal(w)
    ensures Canonical(v) == Canonical(w) <==> Meaning(v) == Meaning(w)
  {
    AsWritten(v);
    AsWritten(w);
    CanonicalReadsBack(Verbatim, v);
    CanonicalReadsBack(Verbatim, w);
    if Meaning(v) == Meaning(w) {
      OneSortedForm(v, w);
      CanonicalIsRender(v, 0);
      CanonicalIsRender(w, 0);
    }
  }

  // ---------------------------------------------------------------- the bytes of a canonical text determine it

  lemma {:induction false} JoinWellFormed(texts: seq<Text>)
    requires forall i | 0 <= i < |texts| :: WellFormed(texts[i])
    ensures WellFormed(Join(texts))
  {
    if |texts| > 1 {
      JoinWellFormed(texts[1..]);
      PlainIsWellFormed([COMMA]);
      WellFormedConcat([COMMA], Join(texts[1..]));
      WellFormedConcat(texts[0], [COMMA] + Join(texts[1..]));
    } else if texts != [] {
      assert texts[0] + [] == texts[0];
    }
  }

  lemma Bracketed(open: CodeUnit, texts: seq<Text>, close: CodeUnit)
    requires !High(open) && !Low(open) && !High(close) && !Low(close)
    requires forall i | 0 <= i < |texts| :: WellFormed(texts[i])
    ensures WellFormed([open] + Join(texts) + [close])
  {
    JoinWellFormed(texts);
    PlainIsWellFormed([open]);
    PlainIsWellFormed([close]);
    WellFormedConcat([open], Join(texts));
    WellFormedConcat([open] + Join(texts), [close]);
  }

  /** No canonical text has a lone surrogate. */
  lemma {:induction false} CanonicalWellFormed(v: Json)
    requires Legal(v)
    ensures WellFormed(Canonical(v))
    decreases v
  {
    match v
    case Str(s) => QuoteWellFormed(s);
    case Number(token) =>
      TokenIsUnits(token);
      PlainIsWellFormed(token);
    case Arr(items) =>
      var texts := seq(|items|, i requires 0 <= i < |items| => Canonical(items[i]));
      forall i | 0 <= i < |items| ensures WellFormed(texts[i]) { CanonicalWellFormed(items[i]); }
      Bracketed(OPEN_LIST, texts, CLOSE_LIST);
    case Obj(fields) =>
      var entries := EntriesOf(fields);
      var texts := seq(|entries|, i requires 0 <= i < |entries| =>
                         Quote(entries[i].key) + ([COLON] + Canonical(entries[i].value.value)));
      forall i | 0 <= i < |entries| ensures WellFormed(texts[i]) {
        EntryIsLegal(v, i);
        CanonicalWellFormed(entries[i].value.value);
        QuoteWellFormed(entries[i].key);
        PlainIsWellFormed([COLON]);
        WellFormedConcat([COLON], Canonical(entries[i].value.value));
        WellFormedConcat(Quote(entries[i].key), [COLON] + Canonical(entries[i].value.value));
      }
      MapOfTexts(v, texts);
      Bracketed(OPEN_MAP, texts, CLOSE_MAP);
    case _ => PlainIsWellFormed(Canonical(v));
  }

  /** Two values have the same signed bytes exactly when they mean the same. */
  lemma BytesIff(v: Json, w: Json)
    requires Legal(v) && Legal(w)
    ensures BufferFrom(Canonical(v)) == BufferFrom(Canonical(w)) <==> Meaning(v) == Meaning(w)
  {
    CanonicalIff(v, w);
    CanonicalWellFormed(v);
    CanonicalWellFormed(w);
    if BufferFrom(Canonical(v)) == BufferFrom(Canonical(w)) { BufferInjective(Canonical(v), Canonical(w)); }
  }
}
