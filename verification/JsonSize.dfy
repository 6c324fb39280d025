/** How many bytes the canonical text of a value takes. */
module JsonSize {
  import opened Common
  import opened CanonicalJson
  import opened JsonParser
  import opened JsonRoundTrip
  import opened Utf8

  predicate Ascii(s: string) { forall i :: 0 <= i < |s| ==> s[i] as int < 0x80 }

  lemma {:induction false} AsciiBytes(s: string)
    requires Ascii(s)
    ensures |Encode(s)| == |s|
    decreases |s|
  {
    if s != "" { AsciiBytes(s[1..]); }
  }

  lemma HexDigitIsAscii(n: int)
    requires 0 <= n < 16
    ensures HexDigit(n) as int < 0x80
  {
    assert forall i :: 0 <= i < 16 ==> "0123456789abcdef"[i] as int < 0x80;
  }

  lemma CharBytes(c: char)
    ensures |Encode(EscapeChar(c))| <= 6
  {
    var e := EscapeChar(c);
    if c as int < 32 {
      HexDigitIsAscii(c as int / 16);
      HexDigitIsAscii(c as int % 16);
      assert Ascii(e);
      AsciiBytes(e);
    } else if |e| == 2 {
      AsciiBytes(e);
    } else {
      assert e == [c] && e[1..] == "";
    }
  }

  lemma {:induction false} EscapeBytes(s: string)
    ensures |Encode(Escape(s))| <= 6 * |s|
    decreases |s|
  {
    if s != "" {
      CharBytes(s[0]);
      EscapeBytes(s[1..]);
      EncodeAppend(EscapeChar(s[0]), Escape(s[1..]));
    }
  }

  lemma QuoteBytes(s: string)
    ensures |Encode(Quote(s))| <= 6 * |s| + 2
  {
    EscapeBytes(s);
    EncodeAppend("\"", Escape(s));
    EncodeAppend("\"" + Escape(s), "\"");
    AsciiBytes("\"");
    assert Quote(s) == "\"" + Escape(s) + "\"";
  }

  function PowerOfTen(k: nat): nat { if k == 0 then 1 else 10 * PowerOfTen(k - 1) }

  lemma {:induction false} DigitsLength(n: nat, k: nat)
    requires k >= 1 && n < PowerOfTen(k)
    ensures |Digits(n)| <= k && Ascii(Digits(n))
    decreases k
  {
    assert forall i :: 0 <= i < 10 ==> "0123456789"[i] as int < 0x80;
    if n >= 10 {
      assert k >= 2;
      DigitsLength(n / 10, k - 1);
    }
  }

  lemma HundredTimes(k: nat, n: nat)
    requires PowerOfTen(k) == n
    ensures PowerOfTen(k + 2) == 100 * n
  {
  }

  lemma TenToTheNineteenth()
    ensures PowerOfTen(19) > MAX_INT64
  {
    assert PowerOfTen(9) == 1_000_000_000;
    HundredTimes(9, 1_000_000_000);
    HundredTimes(11, 100_000_000_000);
    HundredTimes(13, 10_000_000_000_000);
    HundredTimes(15, 1_000_000_000_000_000);
    HundredTimes(17, 100_000_000_000_000_000);
  }

  lemma IntBytes(i: int)
    requires 0 <= i <= MAX_INT64
    ensures |Encode(Text(JInt(i)))| <= 19
  {
    TenToTheNineteenth();
    DigitsLength(i, 19);
    AsciiBytes(Digits(i));
    TextIsPrint(JInt(i), "");
    assert Text(JInt(i)) + "" == Text(JInt(i)) && Digits(i) + "" == Digits(i);
  }

  lemma StringBytes(s: string)
    ensures |Encode(Text(JString(s)))| <= 6 * |s| + 2
  {
    QuoteBytes(s);
    TextIsPrint(JString(s), "");
    assert Text(JString(s)) + "" == Text(JString(s)) && Quote(s) + "" == Quote(s);
  }

  lemma PrintBytes(v: Json, rest: string)
    ensures |Encode(Print(v, rest))| == |Encode(Text(v))| + |Encode(rest)|
  {
    TextIsPrint(v, rest);
    EncodeAppend(Text(v), rest);
  }

  lemma PrefixBytes(c: char, rest: string)
    requires c as int < 0x80
    ensures |Encode([c] + rest)| == 1 + |Encode(rest)|
  {
    EncodeAppend([c], rest);
    AsciiBytes([c]);
  }

  /** Every member but one big one within a cap. */
  ghost predicate Capped(v: Json, keys: seq<string>, cap: nat, big: string, extra: nat)
    requires v.JObject? && forall k :: k in keys ==> k in v.members
  {
    forall k :: k in keys ==>
      |Encode(Quote(k))| + |Encode(Text(v.members[k]))| + 2 <= cap + if k == big then extra else 0
  }

  /** The first member, with the character after it. */
  lemma FirstMemberBytes(v: Json, keys: seq<string>, rest: string)
    requires v.JObject? && keys != [] && forall k :: k in keys ==> k in v.members
    ensures |Encode(PrintMembers(v, keys, rest))| ==
            |Encode(Quote(keys[0]))| + |Encode(Text(v.members[keys[0]]))| + 2
            + if |keys| == 1 then |Encode(rest)| else |Encode(PrintMembers(v, keys[1..], rest))|
  {
    hide Encode, Quote, Text, Print;
    var after := AfterMember(v, keys, rest);
    var value := Print(v.members[keys[0]], after);
    EncodeAppend(Quote(keys[0]), ":" + value);
    PrefixBytes(':', value);
    PrintBytes(v.members[keys[0]], after);
    if |keys| == 1 {
      PrefixBytes('}', rest);
    } else {
      PrefixBytes(',', PrintMembers(v, keys[1..], rest));
    }
  }

  lemma RestIsCapped(v: Json, keys: seq<string>, cap: nat, big: string, extra: nat)
    requires v.JObject? && keys != [] && (forall k :: k in keys ==> k in v.members)
    requires DistinctNames(keys) && Capped(v, keys, cap, big, extra)
    ensures DistinctNames(keys[1..]) && Capped(v, keys[1..], cap, big, extra)
    ensures |Encode(Quote(keys[0]))| + |Encode(Text(v.members[keys[0]]))| + 2 <=
            cap + if keys[0] == big then extra else 0
    ensures big in keys <==> big == keys[0] || big in keys[1..]
    ensures !(big == keys[0] && big in keys[1..])
  {
    hide Encode, Quote, Text;
    assert keys == [keys[0]] + keys[1..];
  }

  lemma {:induction false} MembersBytes(v: Json, keys: seq<string>, rest: string, cap: nat, big: string, extra: nat)
    requires v.JObject? && (forall k :: k in keys ==> k in v.members) && DistinctNames(keys)
    requires Capped(v, keys, cap, big, extra)
    ensures |Encode(PrintMembers(v, keys, rest))| <=
            |keys| * cap + (if big in keys then extra else 0) + 1 + |Encode(rest)|
    decreases |keys|
  {
    if keys == [] {
      PrefixBytes('}', rest);
    } else {
      FirstMemberBytes(v, keys, rest);
      RestIsCapped(v, keys, cap, big, extra);
      hide *;
      if |keys| == 1 {
        OneMoreCap(1, 0, cap);
      } else {
        MembersBytes(v, keys[1..], rest, cap, big, extra);
        OneMoreCap(|keys|, |keys[1..]|, cap);
      }
    }
  }

  lemma OneMoreCap(n: nat, fewer: nat, cap: nat)
    requires n == fewer + 1
    ensures n * cap == fewer * cap + cap && (fewer == 0 ==> fewer * cap == 0)
  {
  }

  lemma ArrayBytes(items: seq<Json>)
    ensures |Encode(Text(JArray(items)))| == 1 + |Encode(PrintItems(items, ""))|
  {
    hide Encode, Text, PrintItems;
    PrintBytes(JArray(items), "");
    PrefixBytes('[', PrintItems(items, ""));
    assert |Encode("")| == 0 by { AsciiBytes(""); }
  }

  lemma ItemBytes(items: seq<Json>)
    requires items != []
    ensures |Encode(PrintItems(items, ""))| ==
            |Encode(Text(items[0]))| + 1 + if |items| == 1 then 0 else |Encode(PrintItems(items[1..], ""))|
  {
    hide Encode, Text;
    var after := AfterItem(items, "");
    PrintBytes(items[0], after);
    assert |Encode("")| == 0 by { AsciiBytes(""); }
    if |items| == 1 { PrefixBytes(']', ""); } else { PrefixBytes(',', PrintItems(items[1..], "")); }
  }

  lemma EmptyBytes()
    ensures |Encode(PrintItems([], ""))| == 1
  {
    PrefixBytes(']', "");
  }

  // ---- plain text ---------------------------------------------------------------------

  /** Printable ASCII that needs no escape. */
  predicate Plain(s: string) { forall i :: 0 <= i < |s| ==> 32 <= s[i] as int < 127 && s[i] != '"' && s[i] != '\\' }

  lemma {:induction false} PlainIsNotEscaped(s: string)
    requires Plain(s)
    ensures Escape(s) == s && Ascii(s)
    decreases |s|
  {
    if s != "" {
      PlainIsNotEscaped(s[1..]);
      assert EscapeChar(s[0]) == [s[0]];
      assert s == [s[0]] + s[1..];
    }
  }

  lemma PlainBytes(s: string)
    requires Plain(s)
    ensures |Encode(Quote(s))| == |s| + 2 && |Encode(Text(JString(s)))| == |s| + 2
  {
    PlainIsNotEscaped(s);
    AsciiBytes(Quote(s));
    TextIsPrint(JString(s), "");
    assert Text(JString(s)) + "" == Text(JString(s)) && Quote(s) + "" == Quote(s);
  }

  lemma DigitsBytes(n: nat, k: nat)
    requires k >= 1 && n < PowerOfTen(k)
    ensures |Encode(Text(JInt(n)))| <= k && Plain(Digits(n)) && |Digits(n)| <= k
  {
    DigitsLength(n, k);
    DigitsArePlain(n);
    AsciiBytes(Digits(n));
    TextIsPrint(JInt(n), "");
    assert Text(JInt(n)) + "" == Text(JInt(n)) && Digits(n) + "" == Digits(n);
  }

  lemma {:induction false} DigitsArePlain(n: nat)
    ensures Plain(Digits(n))
    decreases n
  {
    assert forall i :: 0 <= i < 10 ==> '0' <= "0123456789"[i] <= '9';
    if n >= 10 { DigitsArePlain(n / 10); }
  }

  /** The whole text of an object. */
  lemma ObjectBytes(v: Json, keys: seq<string>, rest: string)
    requires v.JObject? && keys == SortedKeys(v.members.Keys)
    ensures |Encode(Text(v) + rest)| == 1 + |Encode(PrintMembers(v, keys, rest))|
  {
    hide Encode, Text, PrintMembers;
    PrefixBytes('{', PrintMembers(v, keys, rest));
    TextIsPrint(v, rest);
  }
}
