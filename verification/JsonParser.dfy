/** A recursive-descent reader for the grammar of RFC 8259, sections 2 to 7. */
module JsonParser {
  import opened Common
  import opened CanonicalJson

  type Parsed<T> = Option<(T, string)>

  predicate IsSpace(c: char) { c == ' ' || c == '\t' || c == '\n' || c == '\r' }

  predicate IsDigit(c: char) { '0' <= c <= '9' }

  predicate StartsWithDigit(t: string) { t != "" && IsDigit(t[0]) }

  function SkipSpace(t: string): (r: string)
    ensures |r| <= |t|
  {
    if t != "" && IsSpace(t[0]) then SkipSpace(t[1..]) else t
  }

  // ---- section 6: numbers ----------------------------------------------

  function DigitRun(t: string): (n: nat)
    ensures n <= |t|
    ensures n > 0 <==> StartsWithDigit(t)
  {
    if StartsWithDigit(t) then 1 + DigitRun(t[1..]) else 0
  }

  function SignLength(t: string): nat { if t != "" && t[0] == '-' then 1 else 0 }

  function IntLength(t: string): (n: nat)
    ensures n <= |t|
  {
    if t != "" && t[0] == '0' then 1 else DigitRun(t)
  }

  function FracLength(t: string): (n: nat)
    ensures n <= |t|
  {
    if t != "" && t[0] == '.' && StartsWithDigit(t[1..]) then 1 + DigitRun(t[1..]) else 0
  }

  function ExpLength(t: string): (n: nat)
    ensures n <= |t|
  {
    if t == "" || (t[0] != 'e' && t[0] != 'E') then 0
    else if StartsWithDigit(t[1..]) then 1 + DigitRun(t[1..])
    else if |t| >= 2 && (t[1] == '+' || t[1] == '-') && StartsWithDigit(t[2..]) then 2 + DigitRun(t[2..])
    else 0
  }

  /** How the longest number at the start of a text is divided: sign and integer part, fraction, exponent. */
  datatype NumberShape = NumberShape(whole: nat, frac: nat, exp: nat) {
    function Length(): nat { whole + frac + exp }
    predicate Integral() { frac == 0 && exp == 0 }
  }

  function ShapeOf(t: string): (n: NumberShape)
    ensures n.Length() <= |t|
  {
    var sign := SignLength(t);
    var digits := IntLength(t[sign..]);
    if digits == 0 then NumberShape(0, 0, 0)
    else
      var tail := t[sign + digits..];
      var frac := FracLength(tail);
      NumberShape(sign + digits, frac, ExpLength(tail[frac..]))
  }

  function DigitValue(c: char): nat
    requires IsDigit(c)
  {
    c as int - '0' as int
  }

  function NatValue(t: string): nat
    requires forall i :: 0 <= i < |t| ==> IsDigit(t[i])
  {
    if t == "" then 0 else 10 * NatValue(t[..|t| - 1]) + DigitValue(t[|t| - 1])
  }

  lemma {:induction false} DigitRunIsDigits(t: string)
    ensures forall i :: 0 <= i < DigitRun(t) ==> IsDigit(t[i])
  {
    if StartsWithDigit(t) { DigitRunIsDigits(t[1..]); }
  }

  function ParseNumber(t: string): (r: Parsed<Json>)
    ensures r.Some? ==> |r.value.1| < |t|
  {
    var n := ShapeOf(t);
    if n.whole == 0 then None
    else if !n.Integral() then Some((JFloat(t[..n.Length()]), t[n.Length()..]))
    else
      var sign := SignLength(t);
      var digits := t[sign..n.whole];
      assert forall i :: 0 <= i < |digits| ==> IsDigit(digits[i]) by {
        DigitRunIsDigits(t[sign..]);
        assert forall i :: 0 <= i < |digits| ==> digits[i] == t[sign..][i];
      }
      var v: int := NatValue(digits);
      Some((JInt(if sign == 1 then -v else v), t[n.whole..]))
  }

  /** A complete number with a fraction or an exponent: the texts a float may be printed as. */
  predicate IsFloatLexeme(s: string) {
    ShapeOf(s).whole > 0 && ShapeOf(s).Length() == |s| && !ShapeOf(s).Integral()
  }

  // ---- section 7: strings ----------------------------------------------

  function HexValue(c: char): (r: Option<int>)
    ensures r.Some? ==> 0 <= r.value < 16
  {
    if IsDigit(c) then Some(DigitValue(c))
    else if 'a' <= c <= 'f' then Some(c as int - 'a' as int + 10)
    else if 'A' <= c <= 'F' then Some(c as int - 'A' as int + 10)
    else None
  }

  function Hex4(t: string): (r: Option<int>)
    ensures r.Some? ==> |t| >= 4 && 0 <= r.value < 0x10000
  {
    if |t| < 4 then None
    else
      var a, b, c, d := HexValue(t[0]), HexValue(t[1]), HexValue(t[2]), HexValue(t[3]);
      if a.None? || b.None? || c.None? || d.None? then None
      else Some(((a.value * 16 + b.value) * 16 + c.value) * 16 + d.value)
  }

  function SimpleEscape(c: char): Option<char> {
    if c == '"' || c == '\\' || c == '/' then Some(c)
    else if c == 'b' then Some(8 as char)
    else if c == 'f' then Some(12 as char)
    else if c == 'n' then Some('\n')
    else if c == 'r' then Some('\r')
    else if c == 't' then Some('\t')
    else None
  }

  /** The character after `\u`; a high surrogate must be followed by an escaped low one. */
  function ParseUnicode(t: string): (r: Parsed<char>)
    ensures r.Some? ==> |r.value.1| < |t|
  {
    var hi := Hex4(t);
    if hi.None? then None
    else if !(0xD800 <= hi.value < 0xE000) then Some((hi.value as char, t[4..]))
    else if hi.value >= 0xDC00 || |t| < 6 || t[4..6] != "\\u" then None
    else
      var lo := Hex4(t[6..]);
      if lo.None? || !(0xDC00 <= lo.value < 0xE000) then None
      else Some(((0x10000 + (hi.value - 0xD800) * 0x400 + (lo.value - 0xDC00)) as char, t[10..]))
  }

  /** One character of a string body. */
  function ParseChar(t: string): (r: Parsed<char>)
    ensures r.Some? ==> |r.value.1| < |t|
  {
    if t == "" || t[0] == '"' || t[0] as int < 32 then None
    else if t[0] != '\\' then Some((t[0], t[1..]))
    else if |t| < 2 then None
    else if t[1] == 'u' then ParseUnicode(t[2..])
    else
      var c := SimpleEscape(t[1]);
      if c.None? then None else Some((c.value, t[2..]))
  }

  /** The rest of a string whose opening quotation mark has been read. */
  function ParseChars(t: string): (r: Parsed<string>)
    ensures r.Some? ==> |r.value.1| < |t|
    decreases |t|
  {
    if t != "" && t[0] == '"' then Some(("", t[1..]))
    else
      var head := ParseChar(t);
      if head.None? then None
      else
        var tail := ParseChars(head.value.1);
        if tail.None? then None else Some(([head.value.0] + tail.value.0, tail.value.1))
  }

  // ---- sections 2 to 5: values -----------------------------------------

  // A strict reader refuses an object that repeats a name; the other one keeps the last value.

  function ParseValue(text: string, strict: bool): (r: Parsed<Json>)
    ensures r.Some? ==> |r.value.1| < |text|
    decreases |text|, 2
  {
    var t := SkipSpace(text);
    if t == "" then None
    else if t[0] == '"' then ParseString(t)
    else if t[0] == '[' then ParseArray(t, strict)
    else if t[0] == '{' then ParseObject(t, strict)
    else if t[0] == '-' || IsDigit(t[0]) then ParseNumber(t)
    else ParseLiteral(t)
  }

  function ParseLiteral(t: string): (r: Parsed<Json>)
    ensures r.Some? ==> |r.value.1| < |t|
  {
    if "null" <= t then Some((JNull, t[4..]))
    else if "true" <= t then Some((JBool(true), t[4..]))
    else if "false" <= t then Some((JBool(false), t[5..]))
    else None
  }

  function ParseString(t: string): (r: Parsed<Json>)
    requires t != "" && t[0] == '"'
    ensures r.Some? ==> |r.value.1| < |t|
  {
    var s := ParseChars(t[1..]);
    if s.None? then None else Some((JString(s.value.0), s.value.1))
  }

  function ParseArray(t: string, strict: bool): (r: Parsed<Json>)
    requires t != "" && t[0] == '['
    ensures r.Some? ==> |r.value.1| < |t|
    decreases |t|, 1
  {
    var inner := SkipSpace(t[1..]);
    if inner != "" && inner[0] == ']' then Some((JArray([]), inner[1..]))
    else
      var items := ParseItems(t[1..], strict);
      if items.None? then None else Some((JArray(items.value.0), items.value.1))
  }

  function ParseObject(t: string, strict: bool): (r: Parsed<Json>)
    requires t != "" && t[0] == '{'
    ensures r.Some? ==> |r.value.1| < |t|
    decreases |t|, 1
  {
    var inner := SkipSpace(t[1..]);
    if inner != "" && inner[0] == '}' then Some((JObject(map[]), inner[1..]))
    else
      var members := ParseMembers(t[1..], map[], strict);
      if members.None? then None else Some((JObject(members.value.0), members.value.1))
  }

  /** One or more array elements and the closing bracket. */
  function ParseItems(text: string, strict: bool): (r: Parsed<seq<Json>>)
    ensures r.Some? ==> |r.value.1| < |text|
    decreases |text|, 3
  {
    var first := ParseValue(text, strict);
    if first.None? then None
    else
      var t := SkipSpace(first.value.1);
      if t == "" then None
      else if t[0] == ']' then Some(([first.value.0], t[1..]))
      else if t[0] != ',' then None
      else
        var more := ParseItems(t[1..], strict);
        if more.None? then None else Some(([first.value.0] + more.value.0, more.value.1))
  }

  /** A name, a colon and a value. */
  function ParseMember(text: string, strict: bool): (r: Parsed<(string, Json)>)
    ensures r.Some? ==> |r.value.1| < |text|
    decreases |text|, 3
  {
    var t := SkipSpace(text);
    if t == "" || t[0] != '"' then None
    else
      var key := ParseChars(t[1..]);
      if key.None? then None
      else
        var colon := SkipSpace(key.value.1);
        if colon == "" || colon[0] != ':' then None
        else
          var value := ParseValue(colon[1..], strict);
          if value.None? then None else Some(((key.value.0, value.value.0), value.value.1))
  }

  /** One or more object members and the closing brace. */
  function ParseMembers(text: string, acc: map<string, Json>, strict: bool): (r: Parsed<map<string, Json>>)
    ensures r.Some? ==> |r.value.1| < |text|
    decreases |text|, 4
  {
    var first := ParseMember(text, strict);
    if first.None? || (strict && first.value.0.0 in acc) then None
    else
      var t := SkipSpace(first.value.1);
      var grown := acc[first.value.0.0 := first.value.0.1];
      if t == "" then None
      else if t[0] == '}' then Some((grown, t[1..]))
      else if t[0] != ',' then None
      else ParseMembers(t[1..], grown, strict)
  }

  /** The names of one or more object members, in order, up to the closing brace. */
  function MemberNames(text: string, strict: bool): Option<seq<string>>
    decreases |text|
  {
    var first := ParseMember(text, strict);
    if first.None? then None
    else
      var t := SkipSpace(first.value.1);
      if t == "" then None
      else if t[0] == '}' then Some([first.value.0.0])
      else if t[0] != ',' then None
      else
        var more := MemberNames(t[1..], strict);
        if more.None? then None else Some([first.value.0.0] + more.value)
  }

  predicate DistinctNames(names: seq<string>) { forall i, j :: 0 <= i < j < |names| ==> names[i] != names[j] }

  /** No name repeats another, or one taken before. */
  predicate AllNew(names: seq<string>, acc: map<string, Json>) {
    DistinctNames(names) && forall i :: 0 <= i < |names| ==> names[i] !in acc
  }

  lemma NewOneByOne(first: string, value: Json, more: seq<string>, acc: map<string, Json>)
    ensures AllNew([first] + more, acc) <==> first !in acc && AllNew(more, acc[first := value])
  {
    var all := [first] + more;
    assert all[0] == first && forall i :: 0 <= i < |more| ==> all[i + 1] == more[i];
    if AllNew(all, acc) {
      forall i | 0 <= i < |more| ensures more[i] !in acc[first := value] {
        assert all[i + 1] !in acc && all[0] != all[i + 1];
      }
      forall i, j | 0 <= i < j < |more| ensures more[i] != more[j] {
        assert all[i + 1] != all[j + 1];
      }
    }
  }

  /** A strict reader takes the members of an object exactly when all their names are new. */
  lemma {:induction false} StrictRefusesRepeats(text: string, acc: map<string, Json>)
    ensures
      ParseMembers(text, acc, true).Some? <==>
        MemberNames(text, true).Some? && AllNew(MemberNames(text, true).value, acc)
    decreases |text|
  {
    var first := ParseMember(text, true);
    if first.Some? {
      var t := SkipSpace(first.value.1);
      var name, value := first.value.0.0, first.value.0.1;
      if t != "" && t[0] == ',' {
        StrictRefusesRepeats(t[1..], acc[name := value]);
        var more := MemberNames(t[1..], true);
        if more.Some? { NewOneByOne(name, value, more.value, acc); }
      } else {
        NewOneByOne(name, value, [], acc);
        assert [name] + [] == [name];
      }
      hide ParseMember, SkipSpace, AllNew;
    }
  }

  /** A whole document: one value between optional white space. */
  function ParseDocument(text: string, strict: bool): Option<Json> {
    var r := ParseValue(text, strict);
    if r.Some? && SkipSpace(r.value.1) == "" then Some(r.value.0) else None
  }
}
