/** The printer's output is read back, by a reader that knows nothing of the printer, as the value printed. */
module JsonRoundTrip {
  import opened Common
  import opened CanonicalJson
  import opened JsonParser

  /** Every float is carried as the text of a number with a fraction or an exponent. */
  predicate WellFormed(v: Json) {
    match v
    case JFloat(lexeme) => IsFloatLexeme(lexeme)
    case JArray(items) => forall i :: 0 <= i < |items| ==> WellFormed(items[i])
    case JObject(m) => forall k :: k in m ==> WellFormed(m[k])
    case _ => true
  }

  /** A following text that would be read as more of a number. */
  predicate ContinuesNumber(rest: string) {
    rest != "" && (IsDigit(rest[0]) || rest[0] == '.' || rest[0] == 'e' || rest[0] == 'E')
  }

  // ---- strings ------------------------------------------------------------

  lemma HexRoundTrip(n: int)
    requires 0 <= n < 16
    ensures HexValue(HexDigit(n)) == Some(n)
  {
  }

  lemma ControlRoundTrip(c: char, rest: string)
    requires c as int < 32
    ensures ParseUnicode("00" + [HexDigit(c as int / 16), HexDigit(c as int % 16)] + rest) == Some((c, rest))
  {
    var t := "00" + [HexDigit(c as int / 16), HexDigit(c as int % 16)] + rest;
    HexRoundTrip(c as int / 16);
    HexRoundTrip(c as int % 16);
    HexRoundTrip(0);
    assert Hex4(t) == Some(c as int);
    assert t[4..] == rest;
  }

  lemma CharRoundTrip(c: char, rest: string)
    ensures ParseChar(EscapeChar(c) + rest) == Some((c, rest))
    ensures EscapeChar(c)[0] != '"'
  {
    var e := EscapeChar(c);
    var t := e + rest;
    if |e| == 6 {
      ControlRoundTrip(c, rest);
      assert t[2..] == "00" + [HexDigit(c as int / 16), HexDigit(c as int % 16)] + rest;
    } else if |e| == 2 {
      assert t[2..] == rest;
    } else {
      assert t[1..] == rest;
    }
  }

  lemma CharStep(t: string, c: char, tail: string)
    requires t != "" && t[0] != '"' && ParseChar(t) == Some((c, tail)) && ParseChars(tail).Some?
    ensures ParseChars(t) == Some(([c] + ParseChars(tail).value.0, ParseChars(tail).value.1))
  {
    hide ParseChar;
  }

  lemma EscapeGrows(s: string, rest: string)
    requires s != ""
    ensures Escape(s) + "\"" + rest == EscapeChar(s[0]) + (Escape(s[1..]) + "\"" + rest)
    ensures EscapeChar(s[0]) != "" && (Escape(s) + "\"" + rest)[0] == EscapeChar(s[0])[0]
  {
  }

  lemma NoMoreChars(rest: string)
    ensures ParseChars(Escape("") + "\"" + rest) == Some(("", rest))
  {
    assert (Escape("") + "\"" + rest)[1..] == rest;
  }

  lemma {:induction false} CharsRoundTrip(s: string, rest: string)
    ensures ParseChars(Escape(s) + "\"" + rest) == Some((s, rest))
    decreases |s|
  {
    hide *;
    if s == "" {
      NoMoreChars(rest);
    } else {
      var t, tail := Escape(s) + "\"" + rest, Escape(s[1..]) + "\"" + rest;
      EscapeGrows(s, rest);
      CharRoundTrip(s[0], tail);
      CharsRoundTrip(s[1..], rest);
      CharStep(t, s[0], tail);
      assert s == [s[0]] + s[1..];
    }
  }

  lemma QuoteRoundTrip(s: string, rest: string)
    ensures (Quote(s) + rest)[0] == '"'
    ensures ParseChars((Quote(s) + rest)[1..]) == Some((s, rest))
  {
    assert (Quote(s) + rest)[1..] == Escape(s) + "\"" + rest;
    CharsRoundTrip(s, rest);
  }

  // ---- numbers ------------------------------------------------------------

  ghost predicate AllDigits(d: string) { forall i :: 0 <= i < |d| ==> IsDigit(d[i]) }

  lemma {:induction false} DigitRunStops(d: string, rest: string)
    requires AllDigits(d) && !StartsWithDigit(rest)
    ensures DigitRun(d + rest) == |d|
    decreases |d|
  {
    if d == "" {
      assert d + rest == rest;
    } else {
      assert (d + rest)[1..] == d[1..] + rest;
      DigitRunStops(d[1..], rest);
    }
  }

  lemma {:induction false} DigitRunExtends(t: string, rest: string)
    requires !StartsWithDigit(rest)
    ensures DigitRun(t + rest) == DigitRun(t)
    decreases |t|
  {
    if t == "" {
      assert t + rest == rest;
    } else if StartsWithDigit(t) {
      assert (t + rest)[1..] == t[1..] + rest;
      DigitRunExtends(t[1..], rest);
    }
  }

  lemma {:induction false} DigitsDenote(n: nat)
    ensures AllDigits(Digits(n)) && NatValue(Digits(n)) == n
    ensures Digits(n)[0] == '0' <==> n == 0
  {
    if n < 10 {
      assert NatValue("") == 0;
      assert Digits(n)[..0] == "";
    } else {
      DigitsDenote(n / 10);
      assert Digits(n)[..|Digits(n)| - 1] == Digits(n / 10);
    }
  }

  lemma IntShape(sign: string, d: string, rest: string)
    requires sign == "" || sign == "-"
    requires d != "" && AllDigits(d) && (d[0] == '0' ==> |d| == 1)
    requires !ContinuesNumber(rest)
    ensures SignLength(sign + d + rest) == |sign|
    ensures ShapeOf(sign + d + rest) == NumberShape(|sign| + |d|, 0, 0)
  {
    var t := sign + d + rest;
    assert t[|sign|..] == d + rest;
    DigitRunStops(d, rest);
    assert t[|sign| + |d|..] == rest && rest[0..] == rest;
  }

  lemma IntRoundTrip(i: int, rest: string)
    requires !ContinuesNumber(rest)
    ensures ParseNumber(IntText(i) + rest) == Some((JInt(i), rest))
  {
    var n: nat := if i < 0 then -i else i;
    var sign := if i < 0 then "-" else "";
    var d := Digits(n);
    var t := sign + d + rest;
    DigitsDenote(n);
    assert t == IntText(i) + rest;
    IntShape(sign, d, rest);
    assert t[|sign|..|sign| + |d|] == d;
    assert t[|sign| + |d|..] == rest;
  }

  lemma FracExtends(t: string, rest: string)
    requires !ContinuesNumber(rest)
    ensures FracLength(t + rest) == FracLength(t)
  {
    if t == "" {
      assert t + rest == rest;
    } else {
      assert (t + rest)[1..] == t[1..] + rest;
      DigitRunExtends(t[1..], rest);
    }
  }

  lemma ExpExtends(t: string, rest: string)
    requires !ContinuesNumber(rest)
    requires ExpLength(t) == |t|
    ensures ExpLength(t + rest) == |t|
  {
    if t == "" {
      assert t + rest == rest;
    } else {
      assert (t + rest)[1..] == t[1..] + rest;
      DigitRunExtends(t[1..], rest);
      if |t| >= 2 {
        assert (t + rest)[2..] == t[2..] + rest;
        DigitRunExtends(t[2..], rest);
      }
    }
  }

  lemma IntExtends(t: string, rest: string)
    requires !ContinuesNumber(rest)
    ensures IntLength(t + rest) == IntLength(t)
  {
    DigitRunExtends(t, rest);
    if t == "" { assert t + rest == rest; }
  }

  lemma WholeExtends(lexeme: string, rest: string)
    requires lexeme != "" && !ContinuesNumber(rest)
    ensures SignLength(lexeme + rest) == SignLength(lexeme)
    ensures IntLength((lexeme + rest)[SignLength(lexeme)..]) == IntLength(lexeme[SignLength(lexeme)..])
  {
    var sign := SignLength(lexeme);
    assert (lexeme + rest)[sign..] == lexeme[sign..] + rest;
    IntExtends(lexeme[sign..], rest);
  }

  lemma TailExtends(tail: string, rest: string)
    requires !ContinuesNumber(rest)
    requires ExpLength(tail[FracLength(tail)..]) == |tail| - FracLength(tail)
    ensures FracLength(tail + rest) == FracLength(tail)
    ensures ExpLength((tail + rest)[FracLength(tail)..]) == ExpLength(tail[FracLength(tail)..])
  {
    var frac := FracLength(tail);
    FracExtends(tail, rest);
    assert (tail + rest)[frac..] == tail[frac..] + rest;
    ExpExtends(tail[frac..], rest);
  }

  lemma ShapeByParts(t: string, whole: nat, tail: string)
    requires SignLength(t) + IntLength(t[SignLength(t)..]) == whole
    requires IntLength(t[SignLength(t)..]) > 0
    requires t[whole..] == tail
    ensures ShapeOf(t) == NumberShape(whole, FracLength(tail), ExpLength(tail[FracLength(tail)..]))
  {
  }

  lemma FloatShape(lexeme: string, rest: string)
    requires IsFloatLexeme(lexeme) && !ContinuesNumber(rest)
    ensures ShapeOf(lexeme + rest) == ShapeOf(lexeme)
  {
    var whole := SignLength(lexeme) + IntLength(lexeme[SignLength(lexeme)..]);
    var tail := lexeme[whole..];
    ShapeByParts(lexeme, whole, tail);
    WholeExtends(lexeme, rest);
    TailExtends(tail, rest);
    assert (lexeme + rest)[whole..] == tail + rest;
    ShapeByParts(lexeme + rest, whole, tail + rest);
  }

  lemma FloatRoundTrip(lexeme: string, rest: string)
    requires IsFloatLexeme(lexeme) && !ContinuesNumber(rest)
    ensures ParseNumber(lexeme + rest) == Some((JFloat(lexeme), rest))
  {
    FloatShape(lexeme, rest);
    var t := lexeme + rest;
    assert t[..|lexeme|] == lexeme && t[|lexeme|..] == rest;
  }

  // ---- values -------------------------------------------------------------

  /** No printed value starts with white space or with a character that could close or separate a container. */
  lemma {:induction false} FirstCharacter(v: Json, rest: string)
    requires WellFormed(v)
    ensures Print(v, rest) != ""
    ensures var c := Print(v, rest)[0];
      match v
      case JNull => c == 'n'
      case JBool(b) => c == if b then 't' else 'f'
      case JString(_) => c == '"'
      case JInt(_) => c == '-' || IsDigit(c)
      case JFloat(_) => c == '-' || IsDigit(c)
      case JArray(_) => c == '['
      case JObject(_) => c == '{'
  {
    match v
    case JInt(i) => DigitsDenote(if i < 0 then -i else i);
    case JFloat(lexeme) =>
      var sign := SignLength(lexeme);
      assert IntLength(lexeme[sign..]) > 0;
    case _ =>
  }

  lemma LiteralRoundTrip(v: Json, rest: string)
    requires v.JNull? || v.JBool?
    ensures ParseLiteral(Print(v, rest)) == Some((v, rest))
  {
    var t := Print(v, rest);
    if v == JBool(false) {
      assert t[0] == 'f' && t[5..] == rest && "false" <= t;
    } else if v == JBool(true) {
      assert t[0] == 't' && t[4..] == rest && "true" <= t;
    } else {
      assert t[4..] == rest && "null" <= t;
    }
  }

  lemma {:induction false} ValueRoundTrip(v: Json, rest: string, strict: bool)
    requires WellFormed(v) && !ContinuesNumber(rest)
    ensures ParseValue(Print(v, rest), strict) == Some((v, rest))
    decreases v, 3
  {
    var t := Print(v, rest);
    FirstCharacter(v, rest);
    assert SkipSpace(t) == t;
    match v
    case JNull => LiteralRoundTrip(v, rest);
    case JBool(b) => LiteralRoundTrip(v, rest);
    case JString(s) => QuoteRoundTrip(s, rest);
    case JInt(i) => IntRoundTrip(i, rest);
    case JFloat(lexeme) => FloatRoundTrip(lexeme, rest);
    case JArray(items) => ArrayRoundTrip(items, rest, strict);
    case JObject(m) => ObjectRoundTrip(v, rest, strict);
  }

  lemma {:induction false} ArrayRoundTrip(items: seq<Json>, rest: string, strict: bool)
    requires WellFormed(JArray(items))
    ensures ParseArray("[" + PrintItems(items, rest), strict) == Some((JArray(items), rest))
    decreases items, 1
  {
    var inner := PrintItems(items, rest);
    assert ("[" + inner)[1..] == inner;
    if items == [] {
      assert SkipSpace(inner) == inner && inner[1..] == rest;
    } else {
      FirstCharacter(items[0], AfterItem(items, rest));
      assert SkipSpace(inner) == inner;
      ItemsRoundTrip(items, rest, strict);
    }
  }

  lemma ItemStep(text: string, first: Json, after: string, strict: bool)
    requires ParseValue(text, strict) == Some((first, after)) && SkipSpace(after) == after && after != ""
    ensures after[0] == ']' ==> ParseItems(text, strict) == Some(([first], after[1..]))
    ensures after[0] == ',' && ParseItems(after[1..], strict).Some? ==>
      var more := ParseItems(after[1..], strict).value;
      ParseItems(text, strict) == Some(([first] + more.0, more.1))
  {
  }

  /** What follows an item in a printed array. */
  lemma AfterItemIs(items: seq<Json>, rest: string)
    requires items != []
    ensures PrintItems(items, rest) == Print(items[0], AfterItem(items, rest))
    ensures
      var after := AfterItem(items, rest);
      && after != "" && SkipSpace(after) == after && !ContinuesNumber(after)
      && after[0] == (if |items| == 1 then ']' else ',')
      && after[1..] == if |items| == 1 then rest else PrintItems(items[1..], rest)
  {
    hide Print;
    var after := AfterItem(items, rest);
    assert after == (if |items| == 1 then "]" + rest else "," + PrintItems(items[1..], rest));
  }

  lemma {:induction false} ItemsRoundTrip(items: seq<Json>, rest: string, strict: bool)
    requires items != [] && forall i :: 0 <= i < |items| ==> WellFormed(items[i])
    ensures ParseItems(PrintItems(items, rest), strict) == Some((items, rest))
    decreases items, 0
  {
    hide *;
    var first, after := items[0], AfterItem(items, rest);
    AfterItemIs(items, rest);
    ValueRoundTrip(first, after, strict);
    ItemStep(Print(first, after), first, after, strict);
    if |items| == 1 {
      assert items == [first];
    } else {
      var others := items[1..];
      assert items == [first] + others;
      ItemsRoundTrip(others, rest, strict);
    }
  }

  /** A map grown by the members of another that are named in a list. */
  ghost function Extended(acc: map<string, Json>, m: map<string, Json>, keys: seq<string>): map<string, Json>
    requires forall k :: k in keys ==> k in m
  {
    acc + map k | k in keys :: m[k]
  }

  lemma ExtendedByAll(m: map<string, Json>, keys: seq<string>)
    requires forall k :: k in keys <==> k in m
    ensures Extended(map[], m, keys) == m
  {
  }

  lemma ExtendedByFirst(acc: map<string, Json>, m: map<string, Json>, keys: seq<string>)
    requires keys != [] && forall k :: k in keys ==> k in m
    ensures Extended(acc, m, keys) == Extended(acc[keys[0] := m[keys[0]]], m, keys[1..])
    ensures |keys| == 1 ==> Extended(acc, m, keys) == acc[keys[0] := m[keys[0]]]
  {
    var k, rest := keys[0], keys[1..];
    assert keys == [k] + rest;
    var whole, grown := Extended(acc, m, keys), Extended(acc[k := m[k]], m, rest);
    forall x ensures x in whole <==> x in grown {
    }
    forall x | x in whole ensures whole[x] == grown[x] {
    }
  }

  lemma {:induction false} ObjectRoundTrip(v: Json, rest: string, strict: bool)
    requires v.JObject? && WellFormed(v)
    ensures ParseObject(Print(v, rest), strict) == Some((v, rest))
    decreases v, 2
  {
    var keys := SortedKeys(v.members.Keys);
    var inner := PrintMembers(v, keys, rest);
    assert Print(v, rest)[1..] == inner;
    ExtendedByAll(v.members, keys);
    if keys == [] {
      assert SkipSpace(inner) == inner && inner[1..] == rest;
      assert Extended(map[], v.members, keys) == map[];
    } else {
      MembersStart(v, keys, rest);
      SortedKeysAreDistinct(v.members.Keys);
      MembersRoundTrip(v, keys, map[], rest, strict);
    }
  }

  lemma MembersStart(v: Json, keys: seq<string>, rest: string)
    requires v.JObject? && keys != [] && forall k :: k in keys ==> k in v.members
    ensures var t := PrintMembers(v, keys, rest); t != "" && t[0] == '"' && SkipSpace(t) == t
  {
  }

  lemma {:induction false} MemberRoundTrip(v: Json, k: string, rest: string, strict: bool)
    requires v.JObject? && WellFormed(v) && k in v.members && !ContinuesNumber(rest)
    ensures ParseMember(Quote(k) + (":" + Print(v.members[k], rest)), strict) == Some(((k, v.members[k]), rest))
    decreases v, 0
  {
    var colon := ":" + Print(v.members[k], rest);
    QuoteRoundTrip(k, colon);
    assert SkipSpace(Quote(k) + colon) == Quote(k) + colon;
    assert SkipSpace(colon) == colon && colon[1..] == Print(v.members[k], rest);
    ValueRoundTrip(v.members[k], rest, strict);
  }

  lemma MemberStep(text: string, acc: map<string, Json>, key: string, value: Json, after: string, strict: bool)
    requires ParseMember(text, strict) == Some(((key, value), after)) && SkipSpace(after) == after && after != ""
    requires strict ==> key !in acc
    ensures after[0] == '}' ==> ParseMembers(text, acc, strict) == Some((acc[key := value], after[1..]))
    ensures after[0] == ',' ==> ParseMembers(text, acc, strict) == ParseMembers(after[1..], acc[key := value], strict)
  {
  }

  lemma SortedKeysAreDistinct(keys: set<string>)
    ensures DistinctNames(SortedKeys(keys))
  {
    var r := SortedKeys(keys);
    forall i, j | 0 <= i < j < |r| ensures r[i] != r[j] {
      BelowTotal(r[i], r[j]);
    }
  }

  /** What follows a member in a printed object. */
  lemma AfterMemberIs(v: Json, keys: seq<string>, rest: string)
    requires v.JObject? && keys != [] && forall k :: k in keys ==> k in v.members
    ensures PrintMembers(v, keys, rest) == Quote(keys[0]) + (":" + Print(v.members[keys[0]], AfterMember(v, keys, rest)))
    ensures
      var after := AfterMember(v, keys, rest);
      && after != "" && SkipSpace(after) == after && !ContinuesNumber(after)
      && after[0] == (if |keys| == 1 then '}' else ',')
      && after[1..] == if |keys| == 1 then rest else PrintMembers(v, keys[1..], rest)
  {
    hide Print, Quote;
    var after := AfterMember(v, keys, rest);
    assert after == (if |keys| == 1 then "}" + rest else "," + PrintMembers(v, keys[1..], rest));
  }

  lemma {:induction false} MembersRoundTrip(v: Json, keys: seq<string>, acc: map<string, Json>, rest: string,
                                            strict: bool)
    requires v.JObject? && WellFormed(v)
    requires keys != [] && forall k :: k in keys ==> k in v.members
    requires DistinctNames(keys) && forall k :: k in keys ==> k !in acc
    ensures ParseMembers(PrintMembers(v, keys, rest), acc, strict) == Some((Extended(acc, v.members, keys), rest))
    decreases v, 1, |keys|
  {
    var k, value := keys[0], v.members[keys[0]];
    var after := AfterMember(v, keys, rest);
    RestIsDistinct(keys);
    hide *;
    AfterMemberIs(v, keys, rest);
    MemberRoundTrip(v, k, after, strict);
    MemberStep(PrintMembers(v, keys, rest), acc, k, value, after, strict);
    ExtendedByFirst(acc, v.members, keys);
    if |keys| > 1 { MembersRoundTrip(v, keys[1..], acc[k := value], rest, strict); }
  }

  lemma RestIsDistinct(keys: seq<string>)
    requires keys != [] && DistinctNames(keys)
    ensures DistinctNames(keys[1..]) && keys[0] !in keys[1..]
  {
  }

  /** The encoding of a value, followed by any text that does not continue a number, reads back as that value. */
  lemma TextRoundTrip(v: Json, rest: string, strict: bool)
    requires WellFormed(v) && !ContinuesNumber(rest)
    ensures ParseValue(Text(v) + rest, strict) == Some((v, rest))
  {
    TextIsPrint(v, rest);
    ValueRoundTrip(v, rest, strict);
  }

  /** A whole encoded document reads back as the value it was made from. */
  lemma DocumentRoundTrip(v: Json, strict: bool)
    requires WellFormed(v)
    ensures ParseDocument(Text(v), strict) == Some(v)
  {
    TextRoundTrip(v, "", strict);
    assert Text(v) + "" == Text(v);
  }

  /** One encoding for each value, and one value for each encoding, even as a prefix of a longer text. */
  lemma EncodingIsUnique(v: Json, w: Json, restV: string, restW: string)
    requires WellFormed(v) && WellFormed(w)
    requires !ContinuesNumber(restV) && !ContinuesNumber(restW)
    ensures Text(v) + restV == Text(w) + restW <==> v == w && restV == restW
  {
    TextRoundTrip(v, restV, false);
    TextRoundTrip(w, restW, false);
  }
}
