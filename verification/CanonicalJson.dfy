// The canonical text that the manifest's signer and its verifiers each compute: keys sorted by UTF-16 code
// unit (section 3.2.3 of RFC 8785), undefined fields dropped, no white space.
module CanonicalJson {
  import opened Prelude
  import opened JsText
  import opened Json
  import opened JsonStrings
  import opened JsonText

  /** JavaScript's `<` on strings. */
  predicate Less(a: Text, b: Text) {
    b != [] && (a == [] || a[0] < b[0] || (a[0] == b[0] && Less(a[1..], b[1..])))
  }

  /** The fields that are not `undefined`. */
  function Present(fields: seq<Field>): (kept: seq<Field>)
    ensures forall f :: f in kept <==> f in fields && f.value.Some?
  {
    if fields == [] then []
    else (if fields[0].value.Some? then [fields[0]] else []) + Present(fields[1..])
  }

  function Inserted(f: Field, sorted: seq<Field>): (r: seq<Field>)
    ensures |r| == |sorted| + 1 && forall g :: g in r <==> g == f || g in sorted
  {
    if sorted == [] || Less(f.key, sorted[0].key) then [f] + sorted else [sorted[0]] + Inserted(f, sorted[1..])
  }

  function SortByKey(fields: seq<Field>): (r: seq<Field>)
    ensures |r| == |fields| && forall f :: f in r <==> f in fields
  {
    if fields == [] then [] else Inserted(fields[0], SortByKey(fields[1..]))
  }

  /** `join(",")`. */
  function Join(texts: seq<Text>): Text {
    if texts == [] then [] else texts[0] + if |texts| == 1 then [] else [COMMA] + Join(texts[1..])
  }

  lemma EntryIsPart(fields: seq<Field>, f: Field)
    requires f in fields && f.value.Some?
    ensures f.value.value < Obj(fields)
  {
    var i :| 0 <= i < |fields| && fields[i] == f;
    assert fields[i].value.value < Obj(fields);
  }

  function EntriesOf(fields: seq<Field>): (entries: seq<Field>)
    ensures forall i | 0 <= i < |entries| ::
              entries[i] in fields && entries[i].value.Some? && entries[i].value.value < Obj(fields)
  {
    var entries := SortByKey(Present(fields));
    assert forall i | 0 <= i < |entries| ::
        entries[i] in fields && entries[i].value.Some? && entries[i].value.value < Obj(fields) by {
      forall i | 0 <= i < |entries|
        ensures entries[i] in fields && entries[i].value.Some? && entries[i].value.value < Obj(fields)
      {
        assert entries[i] in entries;
        EntryIsPart(fields, entries[i]);
      }
    }
    entries
  }

  function Canonical(v: Json): Text
    decreases v
  {
    match v
    case Null => NULL
    case NotFinite => NULL
    case Bool(b) => if b then TRUE else FALSE
    case Number(token) => token
    case Str(s) => Quote(s)
    case Arr(items) =>
      [OPEN_LIST] + Join(seq(|items|, i requires 0 <= i < |items| => Canonical(items[i]))) + [CLOSE_LIST]
    case Obj(fields) =>
      var entries := EntriesOf(fields);
      [OPEN_MAP]
      + Join(seq(|entries|, i requires 0 <= i < |entries| =>
                   Quote(entries[i].key) + ([COLON] + Canonical(entries[i].value.value))))
      + [CLOSE_MAP]
  }

  /** The same value with keys sorted, undefined fields gone and null for what is not finite, at every level. */
  function Sorted(v: Json): Json
    decreases v
  {
    match v
    case Arr(items) => Arr(seq(|items|, i requires 0 <= i < |items| => Sorted(items[i])))
    case Obj(fields) =>
      var entries := EntriesOf(fields);
      Obj(seq(|entries|, i requires 0 <= i < |entries| => Field(entries[i].key, Some(Sorted(entries[i].value.value)))))
    case NotFinite => Null
    case _ => v
  }

  // ---------------------------------------------------------------- the order of keys

  lemma {:induction false} LessIsStrict(a: Text, b: Text)
    ensures !Less(a, a) && !(Less(a, b) && Less(b, a)) && (a == b || Less(a, b) || Less(b, a))
  {
    if a != [] && b != [] && a[0] == b[0] {
      LessIsStrict(a[1..], b[1..]);
      assert a == [a[0]] + a[1..] && b == [b[0]] + b[1..];
    }
    if a != [] { LessIsStrict(a[1..], a[1..]); }
  }

  lemma {:induction false} LessThrough(a: Text, b: Text, c: Text)
    requires Less(a, b) && Less(b, c)
    ensures Less(a, c)
  {
    if a != [] && a[0] == b[0] == c[0] { LessThrough(a[1..], b[1..], c[1..]); }
  }

  predicate InOrder(fields: seq<Field>) {
    forall i, j | 0 <= i < j < |fields| :: Less(fields[i].key, fields[j].key)
  }

  lemma {:induction false} InsertedInOrder(f: Field, sorted: seq<Field>)
    requires InOrder(sorted) && forall g | g in sorted :: g.key != f.key
    ensures InOrder(Inserted(f, sorted))
  {
    if sorted == [] {
    } else if Less(f.key, sorted[0].key) {
      forall j | 0 < j < |sorted| ensures Less(f.key, sorted[j].key) {
        LessThrough(f.key, sorted[0].key, sorted[j].key);
      }
    } else {
      var rest := Inserted(f, sorted[1..]);
      InsertedInOrder(f, sorted[1..]);
      LessIsStrict(f.key, sorted[0].key);
      forall j | 0 <= j < |rest| ensures Less(sorted[0].key, rest[j].key) {
        assert rest[j] in rest;
        if rest[j] != f {
          var k :| 0 <= k < |sorted[1..]| && sorted[1..][k] == rest[j];
          assert sorted[k + 1] == rest[j];
        }
      }
    }
  }

  lemma {:induction false} PresentDistinct(fields: seq<Field>)
    requires DistinctKeys(fields)
    ensures DistinctKeys(Present(fields))
  {
    if fields != [] {
      PresentDistinct(fields[1..]);
      var rest := Present(fields[1..]);
      forall j | 0 <= j < |rest| ensures rest[j].key != fields[0].key {
        assert rest[j] in fields[1..];
        var k :| 0 <= k < |fields[1..]| && fields[1..][k] == rest[j];
        assert fields[k + 1] == rest[j];
      }
    }
  }

  lemma {:induction false} SortInOrder(fields: seq<Field>)
    requires DistinctKeys(fields)
    ensures InOrder(SortByKey(fields))
  {
    if fields != [] {
      SortInOrder(fields[1..]);
      forall g | g in SortByKey(fields[1..]) ensures g.key != fields[0].key {
        var k :| 0 <= k < |fields[1..]| && fields[1..][k] == g;
        assert fields[k + 1] == g;
      }
      InsertedInOrder(fields[0], SortByKey(fields[1..]));
    }
  }

  lemma InOrderDistinct(fields: seq<Field>)
    requires InOrder(fields)
    ensures DistinctKeys(fields)
  {
    forall i, j | 0 <= i < j < |fields| ensures fields[i].key != fields[j].key {
      LessIsStrict(fields[i].key, fields[j].key);
    }
  }
}
