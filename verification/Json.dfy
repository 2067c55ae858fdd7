// JSON values as JavaScript holds them, their meaning, and the two ways the programs write and read them.
module Json {
  import opened Prelude
  import opened JsText
  import opened JsonNumbers

  /**
   * A finite number is its shortest decimal text; NaN and the infinities are not told apart. A field without
   * a value is one set to `undefined`.
   */
  datatype Json =
    | Null | Bool(b: bool) | Number(token: Text) | NotFinite | Str(s: Text)
    | Arr(items: seq<Json>) | Obj(fields: seq<Field>)
  datatype Field = Field(key: Text, value: Option<Json>)

  /** What a value means as JSON: objects are maps, so key order is gone, and what is not finite is null. */
  datatype Meant =
    MNull | MBool(b: bool) | MNumber(token: Text) | MStr(s: Text) | MArr(items: seq<Meant>) | MObj(m: map<Text, Meant>)

  predicate DistinctKeys(fields: seq<Field>) {
    forall i, j | 0 <= i < j < |fields| :: fields[i].key != fields[j].key
  }

  /** The values a program can hold: no key twice in an object. */
  predicate Legal(v: Json) {
    match v
    case Number(token) => NumberToken(token)
    case Arr(items) => forall i | 0 <= i < |items| :: Legal(items[i])
    case Obj(fields) =>
      DistinctKeys(fields) && forall i | 0 <= i < |fields| :: fields[i].value.Some? ==> Legal(fields[i].value.value)
    case _ => true
  }

  /** Every number in the value is the shortest text of the double it stands for. */
  predicate Shortest(num: Numbers, v: Json) {
    match v
    case Number(token) => num(token) == Some(token)
    case Arr(items) => forall i | 0 <= i < |items| :: Shortest(num, items[i])
    case Obj(fields) => forall i | 0 <= i < |fields| :: fields[i].value.Some? ==> Shortest(num, fields[i].value.value)
    case _ => true
  }

  ghost function Meaning(v: Json): Meant
    decreases v
  {
    match v
    case Null => MNull
    case NotFinite => MNull
    case Bool(b) => MBool(b)
    case Number(token) => MNumber(token)
    case Str(s) => MStr(s)
    case Arr(items) => MArr(seq(|items|, i requires 0 <= i < |items| => Meaning(items[i])))
    case Obj(fields) =>
      MObj(map k | k in KeysOf(fields) :: Meaning(ValueOf(fields, k)))
  }

  function KeysOf(fields: seq<Field>): set<Text> {
    set f | f in fields && f.value.Some? :: f.key
  }

  function ValueOf(fields: seq<Field>, k: Text): (v: Json)
    requires k in KeysOf(fields)
    ensures exists i :: 0 <= i < |fields| && fields[i] == Field(k, Some(v))
    ensures v < Obj(fields)
  {
    if fields[0].key == k && fields[0].value.Some? then fields[0].value.value
    else
      assert k in KeysOf(fields[1..]);
      ValueOf(fields[1..], k)
  }

}
