/** A canonical text is a shortest JSON text of its value: no space, no long escape, nothing said twice. */
module JsonShortest {
  import opened Common
  import opened CanonicalJson
  import opened JsonParser
  import opened JsonRoundTrip

  // ---- lengths ------------------------------------------------------------------------

  function MemberLength(k: string, v: Json): nat { |Quote(k)| + |Text(v)| + 2 }

  function ItemsLength(items: seq<Json>): nat {
    if items == [] then 0 else |Text(items[0])| + 1 + ItemsLength(items[1..])
  }

  ghost function AnyName(m: map<string, Json>): (k: string)
    requires |m| != 0
    ensures k in m
  {
    var k :| k in m;
    k
  }

  ghost function MembersLength(m: map<string, Json>): nat
    decreases |m|
  {
    if |m| == 0 then 0 else MemberLength(AnyName(m), m[AnyName(m)]) + MembersLength(m - {AnyName(m)})
  }

  lemma {:induction false} LengthWithout(m: map<string, Json>, k: string)
    requires k in m
    ensures MembersLength(m) == MemberLength(k, m[k]) + MembersLength(m - {k})
    decreases |m|
  {
    var j := AnyName(m);
    hide MemberLength;
    if j != k {
      assert k in m - {j} && j in m - {k};
      LengthWithout(m - {j}, k);
      LengthWithout(m - {k}, j);
      assert m - {j} - {k} == m - {k} - {j};
    }
  }

  lemma LengthWith(m: map<string, Json>, k: string, v: Json)
    ensures MembersLength(m[k := v]) <= MembersLength(m) + MemberLength(k, v)
  {
    LengthWithout(m[k := v], k);
    assert m[k := v] - {k} == m - {k};
    if k in m {
      LengthWithout(m, k);
    } else {
      assert m - {k} == m;
    }
    hide MemberLength, MembersLength;
  }

  lemma PrintLength(v: Json, rest: string)
    ensures |Print(v, rest)| == |Text(v)| + |rest|
  {
    TextIsPrint(v, rest);
  }

  lemma {:induction false} PrintItemsLength(items: seq<Json>, rest: string)
    requires items != []
    ensures |PrintItems(items, rest)| == ItemsLength(items) + |rest|
    decreases |items|
  {
    PrintLength(items[0], AfterItem(items, rest));
    hide Print, Text;
    if |items| > 1 {
      PrintItemsLength(items[1..], rest);
    } else {
      assert items[1..] == [];
    }
  }

  /** A map holds the members of an object that some distinct names name. */
  ghost predicate Named(v: Json, keys: seq<string>, m: map<string, Json>)
    requires v.JObject?
  {
    && DistinctNames(keys) && (forall k :: k in keys ==> k in v.members)
    && (forall k :: k in m <==> k in keys) && forall k :: k in m ==> m[k] == v.members[k]
  }

  lemma RestIsNamed(v: Json, keys: seq<string>, m: map<string, Json>)
    requires v.JObject? && keys != [] && Named(v, keys, m)
    ensures keys[0] in m && m[keys[0]] == v.members[keys[0]] && Named(v, keys[1..], m - {keys[0]})
    ensures forall k :: k in keys[1..] ==> k in v.members
    ensures |keys| == 1 ==> m - {keys[0]} == map[]
  {
    RestIsDistinct(keys);
    assert keys == [keys[0]] + keys[1..];
    assert keys[0] in keys;
  }

  lemma {:induction false} PrintMembersLength(v: Json, keys: seq<string>, m: map<string, Json>, rest: string)
    requires v.JObject? && keys != [] && (forall k :: k in keys ==> k in v.members) && Named(v, keys, m)
    ensures |PrintMembers(v, keys, rest)| == MembersLength(m) + |rest|
    decreases |keys|
  {
    RestIsNamed(v, keys, m);
    hide *;
    var k := keys[0];
    LengthWithout(m, k);
    PrintLength(v.members[k], AfterMember(v, keys, rest));
    AfterMemberIs(v, keys, rest);
    LengthOfMember(k, v.members[k]);
    if |keys| > 1 {
      PrintMembersLength(v, keys[1..], m - {k}, rest);
    } else {
      NoMembers(m - {k});
    }
  }

  lemma LengthOfMember(k: string, v: Json)
    ensures MemberLength(k, v) == |Quote(k)| + |Text(v)| + 2
  {
  }

  lemma NoMembers(m: map<string, Json>)
    requires forall k :: k !in m
    ensures MembersLength(m) == 0
  {
    assert m == map[];
  }

  lemma ArrayLength(items: seq<Json>)
    ensures |Text(JArray(items))| == if items == [] then 2 else 1 + ItemsLength(items)
  {
    TextIsPrint(JArray(items), "");
    assert Text(JArray(items)) + "" == Text(JArray(items));
    hide Text;
    if items != [] { PrintItemsLength(items, ""); }
  }

  lemma ObjectLength(m: map<string, Json>)
    ensures |Text(JObject(m))| == if m == map[] then 2 else 1 + MembersLength(m)
  {
    var v, keys := JObject(m), SortedKeys(m.Keys);
    TextIsPrint(v, "");
    assert Text(v) + "" == Text(v);
    SortedKeysAreDistinct(m.Keys);
    assert Named(v, keys, m);
    hide Text, MembersLength, Named;
    if keys != [] {
      PrintMembersLength(v, keys, m, "");
      assert keys[0] in m;
    } else {
      assert forall k :: k !in m;
      assert m == map[];
    }
  }

  // ---- what the reader takes, and how much of it ----------------------------------------------

  /** What has no short escape is written with lower-case hexadecimal digits. */
  lemma ControlsAreLowerCase(c: char)
    requires c as int < 32 && |EscapeChar(c)| != 2
    ensures |EscapeChar(c)| == 6 && "\\u00" <= EscapeChar(c)
    ensures EscapeChar(c)[4] == (if c as int < 16 then '0' else '1')
    ensures
      var low := c as int % 16;
      EscapeChar(c)[5] as int == if low < 10 then '0' as int + low else 'a' as int + low - 10
  {
  }

  lemma CharIsLong(t: string)
    requires ParseChar(t).Some?
    ensures |EscapeChar(ParseChar(t).value.0)| + |ParseChar(t).value.1| <= |t|
  {
  }

  lemma {:induction false} CharsAreLong(t: string)
    requires ParseChars(t).Some?
    ensures |Escape(ParseChars(t).value.0)| + 1 + |ParseChars(t).value.1| <= |t|
    decreases |t|
  {
    if t[0] != '"' {
      var head := ParseChar(t).value;
      CharIsLong(t);
      CharsAreLong(head.1);
      var tail := ParseChars(head.1).value.0;
      assert ([head.0] + tail)[1..] == tail;
      hide ParseChar, EscapeChar;
    }
  }

  lemma {:induction false} DigitsAreLong(t: string)
    requires t != "" && forall i :: 0 <= i < |t| ==> IsDigit(t[i])
    ensures |Digits(NatValue(t))| <= |t|
    decreases |t|
  {
    var before := t[..|t| - 1];
    if before != "" { DigitsAreLong(before); }
    if NatValue(t) >= 10 {
      assert NatValue(t) / 10 == NatValue(before);
    }
  }

  lemma TextOfNumber(v: Json)
    ensures v.JInt? ==> Text(v) == IntText(v.i)
    ensures v.JFloat? ==> Text(v) == v.lexeme
  {
    TextIsPrint(v, "");
    assert Text(v) + "" == Text(v);
    if v.JInt? { assert IntText(v.i) + "" == IntText(v.i); }
    if v.JFloat? { assert v.lexeme + "" == v.lexeme; }
  }

  lemma NumberIsLong(t: string)
    requires ParseNumber(t).Some?
    ensures |Text(ParseNumber(t).value.0)| + |ParseNumber(t).value.1| <= |t|
  {
    var n, r := ShapeOf(t), ParseNumber(t).value;
    TextOfNumber(r.0);
    hide Text;
    if n.Integral() {
      var sign := SignLength(t);
      var digits := t[sign..n.whole];
      DigitRunIsDigits(t[sign..]);
      assert forall i :: 0 <= i < |digits| ==> digits[i] == t[sign..][i];
      DigitsAreLong(digits);
      hide Digits, NatValue, ShapeOf;
    }
  }

  lemma TextOfString(s: string)
    ensures |Text(JString(s))| == |Escape(s)| + 2 && |Quote(s)| == |Escape(s)| + 2
  {
    TextIsPrint(JString(s), "");
    assert Text(JString(s)) + "" == Text(JString(s));
  }

  lemma LiteralIsLong(t: string)
    requires ParseLiteral(t).Some?
    ensures |Text(ParseLiteral(t).value.0)| + |ParseLiteral(t).value.1| <= |t|
  {
    var v := ParseLiteral(t).value.0;
    TextIsPrint(v, "");
    assert Text(v) + "" == Text(v);
  }

  lemma StringIsLong(t: string)
    requires t != "" && t[0] == '"' && ParseString(t).Some?
    ensures |Text(ParseString(t).value.0)| + |ParseString(t).value.1| <= |t|
  {
    CharsAreLong(t[1..]);
    TextOfString(ParseChars(t[1..]).value.0);
    hide Text, Escape, ParseChars, Quote;
  }

  /** Whatever text the reader takes for a value, it takes at least as many characters as the canonical text has. */
  lemma {:induction false} ValueIsLong(text: string, strict: bool)
    requires ParseValue(text, strict).Some?
    ensures |Text(ParseValue(text, strict).value.0)| + |ParseValue(text, strict).value.1| <= |text|
    decreases |text|, 2
  {
    var t := SkipSpace(text);
    hide Text, SkipSpace, ParseNumber, ParseLiteral, ParseString, ParseArray, ParseObject;
    if t[0] == '"' {
      StringIsLong(t);
    } else if t[0] == '[' {
      ArrayIsLong(t, strict);
    } else if t[0] == '{' {
      ObjectIsLong(t, strict);
    } else if t[0] == '-' || IsDigit(t[0]) {
      NumberIsLong(t);
    } else {
      LiteralIsLong(t);
    }
  }

  lemma {:induction false} ArrayIsLong(t: string, strict: bool)
    requires t != "" && t[0] == '[' && ParseArray(t, strict).Some?
    ensures |Text(ParseArray(t, strict).value.0)| + |ParseArray(t, strict).value.1| <= |t|
    decreases |t|, 1
  {
    var inner := SkipSpace(t[1..]);
    ArrayLength(ParseArray(t, strict).value.0.items);
    hide Text, SkipSpace, ParseItems;
    if !(inner != "" && inner[0] == ']') { ItemsAreLong(t[1..], strict); }
  }

  lemma {:induction false} ItemsAreLong(text: string, strict: bool)
    requires ParseItems(text, strict).Some?
    ensures
      var (items, rest) := ParseItems(text, strict).value;
      items != [] && ItemsLength(items) + |rest| <= |text|
    decreases |text|, 3
  {
    ValueIsLong(text, strict);
    var first := ParseValue(text, strict).value;
    var t := SkipSpace(first.1);
    hide Text, SkipSpace, ParseValue;
    assert ItemsLength([]) == 0;
    if t[0] == ']' {
      assert [first.0][1..] == [];
    } else {
      ItemsAreLong(t[1..], strict);
      var more := ParseItems(t[1..], strict).value.0;
      assert ([first.0] + more)[1..] == more;
    }
  }

  lemma {:induction false} ObjectIsLong(t: string, strict: bool)
    requires t != "" && t[0] == '{' && ParseObject(t, strict).Some?
    ensures |Text(ParseObject(t, strict).value.0)| + |ParseObject(t, strict).value.1| <= |t|
    decreases |t|, 1
  {
    var inner := SkipSpace(t[1..]);
    ObjectLength(ParseObject(t, strict).value.0.members);
    NoMembers(map[]);
    hide Text, SkipSpace, ParseMembers, MembersLength;
    if !(inner != "" && inner[0] == '}') { MembersAreLong(t[1..], map[], strict); }
  }

  lemma {:induction false} MemberIsLong(text: string, strict: bool)
    requires ParseMember(text, strict).Some?
    ensures
      var ((k, v), rest) := ParseMember(text, strict).value;
      |Quote(k)| + 1 + |Text(v)| + |rest| <= |text|
    decreases |text|, 3
  {
    var t := SkipSpace(text);
    CharsAreLong(t[1..]);
    var key := ParseChars(t[1..]).value;
    TextOfString(key.0);
    var colon := SkipSpace(key.1);
    hide Text, SkipSpace, ParseChars, ParseValue, Escape, Quote;
    ValueIsLong(colon[1..], strict);
  }

  lemma {:induction false} MembersAreLong(text: string, acc: map<string, Json>, strict: bool)
    requires ParseMembers(text, acc, strict).Some?
    ensures
      var (m, rest) := ParseMembers(text, acc, strict).value;
      m != map[] && MembersLength(m) + |rest| <= |text| + MembersLength(acc)
    decreases |text|, 4
  {
    MemberIsLong(text, strict);
    var first := ParseMember(text, strict).value;
    var t := SkipSpace(first.1);
    LengthWith(acc, first.0.0, first.0.1);
    hide Text, Quote, SkipSpace, ParseMember, MembersLength;
    if t[0] != '}' { MembersAreLong(t[1..], acc[first.0.0 := first.0.1], strict); }
  }

  /** Every JSON text of a value is at least as long as the canonical one. */
  lemma TextIsShortest(text: string, strict: bool, v: Json)
    requires ParseDocument(text, strict) == Some(v)
    ensures |Text(v)| <= |text|
  {
    ValueIsLong(text, strict);
    hide ParseValue, Text, SkipSpace;
  }
}
