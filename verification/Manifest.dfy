// Signing an asset manifest and checking its signature after the file has been rewritten by others. A
// signature is symbolic: one text per signed bytes, different for different bytes. What is signed is the
// UTF-8 form of the canonical text.
module Manifest {
  import opened Prelude
  import opened JsText
  import opened Utf8
  import opened Utf16
  import opened JsonNumbers
  import opened Json
  import opened JsonText
  import opened JsonRoundTrip
  import opened CanonicalJson
  import opened CanonicalMeaning

  /** "signature" */
  const SIGNATURE: Text := [0x73, 0x69, 0x67, 0x6E, 0x61, 0x74, 0x75, 0x72, 0x65]

  lemma FieldNames()
    ensures TextOf("signature") == SIGNATURE && TextOf("publicKeyFingerprint") == FINGERPRINT
  {
  }

  type Sign = seq<Byte> -> Text

  ghost predicate Injective(sign: Sign) {
    forall a, b :: sign(a) == sign(b) ==> a == b
  }

  /** `{ ...manifest, signature }`. */
  function WithSignature(fields: seq<Field>, signature: Text): seq<Field> {
    fields + [Field(SIGNATURE, Some(Str(signature)))]
  }

  /** `{ signature, ...manifest }`: the manifest is everything else. */
  function WithoutSignature(fields: seq<Field>): (kept: seq<Field>)
    ensures forall f :: f in kept <==> f in fields && f.key != SIGNATURE
  {
    if fields == [] then []
    else (if fields[0].key == SIGNATURE then [] else [fields[0]]) + WithoutSignature(fields[1..])
  }

  predicate HasSignature(fields: seq<Field>, signature: Text) {
    Field(SIGNATURE, Some(Str(signature))) in fields
  }

  /** `sign(Buffer.from(canonical(manifest)))`. */
  function SignatureOf(sign: Sign, manifest: Json): Text {
    sign(BufferFrom(Canonical(manifest)))
  }

  /** The signed file: the manifest and its signature, indented, with a newline at the end. */
  function SignedFile(fields: seq<Field>, sign: Sign): Text
    requires Plain(Obj(fields)) && forall f | f in fields :: f.key != SIGNATURE
  {
    var signed := Obj(WithSignature(fields, SignatureOf(sign, Obj(fields))));
    SignedIsPlain(fields, SignatureOf(sign, Obj(fields)));
    Render(signed, PRETTY, 0) + [10]
  }

  /** The signature step of both verifiers, on the text of a file. */
  predicate Accepts(num: Numbers, text: Text, sign: Sign) {
    match ParseJson(num, text)
    case Some(Obj(fields)) => HasSignature(fields, SignatureOf(sign, Obj(WithoutSignature(fields))))
    case _ => false
  }

  /** Only an object with a signature text is ever accepted. */
  lemma AcceptedIsSigned(num: Numbers, text: Text, sign: Sign)
    requires Accepts(num, text, sign)
    ensures match ParseJson(num, text)
            case Some(Obj(fields)) => exists signature :: HasSignature(fields, signature)
            case _ => false
  {
  }

  lemma SignedIsPlain(fields: seq<Field>, signature: Text)
    requires Plain(Obj(fields)) && forall f | f in fields :: f.key != SIGNATURE
    ensures Plain(Obj(WithSignature(fields, signature)))
  {
    var signed := WithSignature(fields, signature);
    forall i, j | 0 <= i < j < |signed| ensures signed[i].key != signed[j].key {
      assert i < |fields| && fields[i] in fields;
    }
  }

  lemma {:induction false} UnsignedAgain(fields: seq<Field>, signature: Text)
    requires forall f | f in fields :: f.key != SIGNATURE
    ensures WithoutSignature(WithSignature(fields, signature)) == fields
  {
    var signed := WithSignature(fields, signature);
    if fields == [] {
      assert signed[1..] == [];
    } else {
      assert signed[1..] == WithSignature(fields[1..], signature);
      assert fields[0] in fields;
      UnsignedAgain(fields[1..], signature);
    }
  }

  lemma {:induction false} PlainIsLegal(v: Json)
    requires Plain(v)
    ensures Legal(v)
  {
    match v
    case Arr(items) => forall i | 0 <= i < |items| ensures Legal(items[i]) { PlainIsLegal(items[i]); }
    case Obj(fields) =>
      forall i | 0 <= i < |fields| ensures Legal(fields[i].value.value) { PlainIsLegal(fields[i].value.value); }
    case _ =>
  }

  lemma {:induction false} RestIsDistinct(fields: seq<Field>)
    requires DistinctKeys(fields)
    ensures DistinctKeys(WithoutSignature(fields))
  {
    if fields != [] {
      RestIsDistinct(fields[1..]);
      var rest := WithoutSignature(fields[1..]);
      forall j | 0 <= j < |rest| ensures rest[j].key != fields[0].key {
        assert rest[j] in fields[1..];
      }
    }
  }

  lemma RestIsLegal(num: Numbers, text: Text, fields: seq<Field>)
    requires Shortens(num) && ParseJson(num, text) == Some(Obj(fields))
    ensures DistinctKeys(fields) && Legal(Obj(WithoutSignature(fields)))
  {
    ParsedIsReadable(num, text);
    ReadableIsLegal(num, Obj(fields));
    RestIsDistinct(fields);
    var kept := WithoutSignature(fields);
    forall i | 0 <= i < |kept| && kept[i].value.Some? ensures Legal(kept[i].value.value) {
      assert kept[i] in fields;
    }
  }

  /** What is signed verifies. */
  lemma SignedFileVerifies(num: Numbers, fields: seq<Field>, sign: Sign)
    requires Plain(Obj(fields)) && Shortest(num, Obj(fields)) && forall f | f in fields :: f.key != SIGNATURE
    ensures Accepts(num, SignedFile(fields, sign), sign)
  {
    var signature := SignatureOf(sign, Obj(fields));
    SignedIsPlain(fields, signature);
    LayoutsAreBlank();
    ParseUndoesRender(num, Obj(WithSignature(fields, signature)), PRETTY, [10]);
    UnsignedAgain(fields, signature);
    assert WithSignature(fields, signature)[|fields|] == Field(SIGNATURE, Some(Str(signature)));
  }

  /**
   * A file whose signature field carries the signature of a manifest is accepted exactly when the rest of
   * it still means that manifest, however it has been reformatted, its keys reordered and its numbers and
   * strings respelled.
   */
  lemma AcceptedIffSameMeaning(num: Numbers, manifest: Json, text: Text, sign: Sign, fields: seq<Field>)
    requires Shortens(num) && Legal(manifest) && Injective(sign)
    requires ParseJson(num, text) == Some(Obj(fields)) && HasSignature(fields, SignatureOf(sign, manifest))
    ensures Accepts(num, text, sign) <==> Meaning(Obj(WithoutSignature(fields))) == Meaning(manifest)
  {
    RestIsLegal(num, text, fields);
    BytesIff(Obj(WithoutSignature(fields)), manifest);
    OneSignature(fields, SignatureOf(sign, manifest), SignatureOf(sign, Obj(WithoutSignature(fields))));
  }

  lemma OneSignature(fields: seq<Field>, a: Text, b: Text)
    requires DistinctKeys(fields) && HasSignature(fields, a)
    ensures HasSignature(fields, b) <==> a == b
  {
  }

  // ---------------------------------------------------------------- verifying a served manifest

  /** "publicKeyFingerprint" */
  const FINGERPRINT: Text :=
    [0x70, 0x75, 0x62, 0x6C, 0x69, 0x63, 0x4B, 0x65, 0x79,
     0x46, 0x69, 0x6E, 0x67, 0x65, 0x72, 0x70, 0x72, 0x69, 0x6E, 0x74]

  datatype Verdict = SignatureOk | FetchFailed | FingerprintMismatch | SignatureInvalid | Thrown

  predicate HasText(fields: seq<Field>, key: Text, value: Text) {
    Field(key, Some(Str(value))) in fields
  }

  /** verifyOrigin up to and including its signature step; a file without a signature text makes it throw. */
  function OriginVerdict(num: Numbers, text: Text, sign: Sign, pinned: Text): Verdict {
    match ParseJson(num, text)
    case None => FetchFailed
    case Some(Null) => Thrown
    case Some(Obj(fields)) =>
      var manifest := WithoutSignature(fields);
      if !HasText(manifest, FINGERPRINT, pinned) then FingerprintMismatch
      else if !exists f :: f in fields && f.key == SIGNATURE && f.value.Some? && f.value.value.Str? then Thrown
      else if HasSignature(fields, SignatureOf(sign, Obj(manifest))) then SignatureOk
      else SignatureInvalid
    case Some(_) => FingerprintMismatch
  }

  /** What is reported for each kind of file. */
  lemma VerdictMeans(num: Numbers, text: Text, sign: Sign, pinned: Text)
    ensures var read, verdict := ParseJson(num, text), OriginVerdict(num, text, sign, pinned);
            && (verdict == FetchFailed <==> read == None)
            && (read.Some? && read.value.Obj? ==>
                  var fields := read.value.fields;
                  var ours := Field(FINGERPRINT, Some(Str(pinned))) in fields;
                  && (verdict == FingerprintMismatch <==> !ours)
                  && (verdict == Thrown <==> ours && !exists signature :: HasSignature(fields, signature))
                  && (verdict in {SignatureOk, SignatureInvalid} <==>
                        ours && exists signature :: HasSignature(fields, signature)))
            && (read.Some? && !read.value.Obj? ==>
                  verdict == if read.value.Null? then Thrown else FingerprintMismatch)
  {
    FieldNames();
    match ParseJson(num, text)
    case Some(Obj(fields)) =>
      if f :| f in fields && f.key == SIGNATURE && f.value.Some? && f.value.value.Str? {
        assert f == Field(SIGNATURE, Some(Str(f.value.value.s)));
        assert HasSignature(fields, f.value.value.s);
      }
      assert FINGERPRINT != SIGNATURE;
    case _ =>
  }

  lemma TextMeans(v: Json, key: Text, value: Text)
    requires Legal(v) && v.Obj?
    ensures HasText(v.fields, key, value) <==> key in Meaning(v).m && Meaning(v).m[key] == MStr(value)
  {
    if HasText(v.fields, key, value) {
      var i :| 0 <= i < |v.fields| && v.fields[i] == Field(key, Some(Str(value)));
      TheValue(v.fields, i);
    } else if key in Meaning(v).m {
      var i :| 0 <= i < |v.fields| && v.fields[i] == Field(key, Some(ValueOf(v.fields, key)));
    }
  }

  /**
   * For a manifest made under the pinned key, a served file carrying its signature passes exactly when the
   * rest of the file means that manifest; otherwise it is told apart as a wrong key or a wrong signature.
   */
  lemma OriginAcceptsIffSameMeaning(num: Numbers, manifest: Json, text: Text, sign: Sign, pinned: Text,
                                    fields: seq<Field>)
    requires Shortens(num) && Injective(sign)
    requires Legal(manifest) && manifest.Obj? && HasText(manifest.fields, FINGERPRINT, pinned)
    requires ParseJson(num, text) == Some(Obj(fields)) && HasSignature(fields, SignatureOf(sign, manifest))
    ensures var rest := Obj(WithoutSignature(fields));
            && (OriginVerdict(num, text, sign, pinned) == SignatureOk <==> Meaning(rest) == Meaning(manifest))
            && (Meaning(rest) != Meaning(manifest) ==>
                  OriginVerdict(num, text, sign, pinned)
                  == if HasText(rest.fields, FINGERPRINT, pinned) then SignatureInvalid else FingerprintMismatch)
  {
    var rest := Obj(WithoutSignature(fields));
    AcceptedIffSameMeaning(num, manifest, text, sign, fields);
    RestIsLegal(num, text, fields);
    if Meaning(rest) == Meaning(manifest) { SameText(rest, manifest, FINGERPRINT, pinned); }
  }

  lemma SameText(v: Json, w: Json, key: Text, value: Text)
    requires Legal(v) && Legal(w) && v.Obj? && w.Obj? && Meaning(v) == Meaning(w)
    ensures HasText(v.fields, key, value) <==> HasText(w.fields, key, value)
  {
    TextMeans(v, key, value);
    TextMeans(w, key, value);
  }
}
