/** The two encoders that stop as soon as a byte ceiling would be crossed. */
module BoundedEncoding {
  import opened Common
  import opened CanonicalJson
  import opened JsonParser
  import opened JsonRoundTrip
  import opened Utf8

  datatype Encoding = InvalidLimit | TooLarge | Encoded(bytes: Bytes)

  datatype Size = InvalidStop | Exceeded | Fits(size: nat)

  /** The canonical UTF-8 document of a value. */
  function Document(v: Json): Bytes {
    Encode(Text(v))
  }

  /** The bytes of the first i tokens. */
  ghost function Upto(tokens: seq<string>, i: nat): Bytes
    requires i <= |tokens|
  {
    Encode(Spell(tokens[..i], ""))
  }

  lemma UptoGrows(tokens: seq<string>, i: nat)
    requires i < |tokens|
    ensures Upto(tokens, i + 1) == Upto(tokens, i) + Encode(tokens[i])
    ensures |Upto(tokens, i + 1)| <= |Upto(tokens, |tokens|)|
  {
    var upto := tokens[..i + 1];
    assert upto == tokens[..i] + [tokens[i]];
    SpellAppend(tokens[..i], [tokens[i]], "");
    SpellOne(tokens[i], "");
    assert tokens[i] + "" == tokens[i];
    SpellRest(tokens[..i], tokens[i]);
    EncodeAppend(Spell(tokens[..i], ""), tokens[i]);
    assert tokens[..|tokens|] == tokens == upto + tokens[i + 1..];
    SpellAppend(upto, tokens[i + 1..], "");
    SpellRest(upto, Spell(tokens[i + 1..], ""));
    EncodeAppend(Spell(upto, ""), Spell(tokens[i + 1..], ""));
  }

  lemma UptoAll(v: Json)
    ensures Upto(Tokens(v), |Tokens(v)|) == Document(v) && Upto(Tokens(v), 0) == []
  {
    assert Tokens(v)[..|Tokens(v)|] == Tokens(v) && Tokens(v)[..0] == [];
  }

  /** Encodes token by token, giving up before the ceiling is exceeded. */
  method BoundedCanonicalJsonBytes(v: Json, maxBytes: int) returns (r: Encoding)
    ensures maxBytes <= 0 ==> r == InvalidLimit
    ensures maxBytes > 0 ==> r == if |Document(v)| <= maxBytes then Encoded(Document(v)) else TooLarge
  {
    if maxBytes <= 0 { return InvalidLimit; }
    UptoAll(v);
    hide *;
    var tokens := Tokens(v);
    var encoded: Bytes := [];
    var i := 0;
    while i < |tokens|
      invariant 0 <= i <= |tokens|
      invariant encoded == Upto(tokens, i) && |encoded| <= maxBytes
    {
      UptoGrows(tokens, i);
      var chunk := Encode(tokens[i]);
      if |encoded| + |chunk| > maxBytes { return TooLarge; }
      encoded := encoded + chunk;
      i := i + 1;
    }
    r := Encoded(encoded);
  }

  /** Measures the document without keeping it. */
  method CanonicalJsonSize(v: Json, stopAfter: int) returns (r: Size)
    ensures stopAfter <= 0 ==> r == InvalidStop
    ensures stopAfter > 0 ==> r == if |Document(v)| <= stopAfter then Fits(|Document(v)|) else Exceeded
  {
    if stopAfter <= 0 { return InvalidStop; }
    UptoAll(v);
    hide *;
    var tokens := Tokens(v);
    var size := 0;
    var i := 0;
    while i < |tokens|
      invariant 0 <= i <= |tokens|
      invariant size == |Upto(tokens, i)| && size <= stopAfter
    {
      UptoGrows(tokens, i);
      size := size + |Encode(tokens[i])|;
      if size > stopAfter { return Exceeded; }
      i := i + 1;
    }
    r := Fits(size);
  }

  /** `json.loads` on bytes: UTF-8, then one JSON document. */
  function Loads(b: Bytes): Option<Json> {
    var text := Decode(b);
    if text.None? then None else ParseDocument(text.value, false)
  }

  /** The same with an `object_pairs_hook` that refuses repeated names. */
  function LoadsStrictly(b: Bytes): Option<Json> {
    var text := Decode(b);
    if text.None? then None else ParseDocument(text.value, true)
  }

  lemma LoadsUndoesDocument(v: Json)
    requires WellFormed(v)
    ensures Loads(Document(v)) == Some(v)
  {
    Utf8.RoundTrip(Text(v));
    DocumentRoundTrip(v, false);
  }

  /** Two values have the same bytes exactly when they are the same value. */
  lemma DocumentIsInjective(v: Json, w: Json)
    requires WellFormed(v) && WellFormed(w)
    ensures Document(v) == Document(w) <==> v == w
  {
    LoadsUndoesDocument(v);
    LoadsUndoesDocument(w);
  }
}
