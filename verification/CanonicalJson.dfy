/** The JSON values of observation documents and their deterministic printer. */
module CanonicalJson {
  /** A float is carried as the text `json.dumps` prints for it; Python's float formatting is not modelled. */
  datatype Json =
    | JNull
    | JBool(b: bool)
    | JInt(i: int)
    | JFloat(lexeme: string)
    | JString(s: string)
    | JArray(items: seq<Json>)
    | JObject(members: map<string, Json>)

  const STRING_CHUNK_CHARS: nat := 4096

  // ---- key order --------------------------------------------------------

  /** Strict code point order, which is Python's order on `str`. */
  predicate Below(a: string, b: string) {
    if b == "" then false
    else if a == "" then true
    else a[0] < b[0] || (a[0] == b[0] && Below(a[1..], b[1..]))
  }

  lemma {:induction false} BelowTotal(a: string, b: string)
    ensures a == b || Below(a, b) || Below(b, a)
    ensures !(Below(a, b) && Below(b, a))
    ensures Below(a, b) ==> a != b
  {
    if a != "" && b != "" {
      BelowTotal(a[1..], b[1..]);
      assert a == [a[0]] + a[1..] && b == [b[0]] + b[1..];
    }
  }

  lemma {:induction false} BelowTransitive(a: string, b: string, c: string)
    requires Below(a, b) && Below(b, c)
    ensures Below(a, c)
  {
    if a != "" && a[0] == b[0] && b[0] == c[0] {
      BelowTransitive(a[1..], b[1..], c[1..]);
    }
  }

  /** The first character in which two strings differ decides, and a prefix comes first. */
  lemma {:induction false} BelowIsFirstDifference(a: string, b: string)
    ensures Below(a, b) <==>
              exists n: nat :: n <= |a| && n < |b| && a[..n] == b[..n] && (n == |a| || a[n] as int < b[n] as int)
  {
    if a != "" && b != "" {
      BelowIsFirstDifference(a[1..], b[1..]);
      if a[0] < b[0] {
        assert a[..0] == b[..0];
      } else if a[0] == b[0] {
        forall n: nat | n < |a| && n < |b| ensures a[1..][..n] == b[1..][..n] <==> a[..n + 1] == b[..n + 1] {
          TailsAgree(a, b, n);
        }
        if Below(a, b) {
          var n: nat :| n <= |a| - 1 && n < |b| - 1 && a[1..][..n] == b[1..][..n]
                        && (n == |a| - 1 || a[1..][n] as int < b[1..][n] as int);
          assert a[..n + 1] == b[..n + 1];
        }
        if n: nat :| n <= |a| && n < |b| && a[..n] == b[..n] && (n == |a| || a[n] as int < b[n] as int) {
          assert n > 0;
          assert a[1..][..n - 1] == b[1..][..n - 1];
        }
      } else {
        forall n: nat | 0 < n <= |a| && n < |b| ensures a[..n] != b[..n] { assert a[..n][0] != b[..n][0]; }
      }
    } else if b != "" {
      assert a[..0] == b[..0];
    }
  }

  lemma TailsAgree(a: string, b: string, n: nat)
    requires n < |a| && n < |b| && a[0] == b[0]
    ensures a[1..][..n] == b[1..][..n] <==> a[..n + 1] == b[..n + 1]
  {
    assert a[..n + 1] == [a[0]] + a[1..][..n] && b[..n + 1] == [b[0]] + b[1..][..n];
    assert a[..n + 1][1..] == a[1..][..n] && b[..n + 1][1..] == b[1..][..n];
  }

  predicate IsLeast(k: string, keys: set<string>) {
    k in keys && forall j :: j in keys && j != k ==> Below(k, j)
  }

  lemma {:induction false} LeastExists(keys: set<string>)
    requires keys != {}
    ensures exists k :: IsLeast(k, keys)
    decreases |keys|
  {
    var x :| x in keys;
    var rest := keys - {x};
    if rest == {} {
      assert keys == {x};
      assert IsLeast(x, keys);
    } else {
      LeastExists(rest);
      var m :| IsLeast(m, rest);
      BelowTotal(x, m);
      if Below(x, m) {
        forall j | j in rest && j != m ensures Below(x, j) { BelowTransitive(x, m, j); }
        assert IsLeast(x, keys);
      } else {
        assert IsLeast(m, keys);
      }
    }
  }

  lemma LeastIsUnique(keys: set<string>)
    ensures forall a, b :: IsLeast(a, keys) && IsLeast(b, keys) ==> a == b
  {
    forall a, b | IsLeast(a, keys) && IsLeast(b, keys) ensures a == b { BelowTotal(a, b); }
  }

  /** Python's `sorted` over the keys of a mapping. */
  function SortedKeys(keys: set<string>): (r: seq<string>)
    ensures forall k :: k in r <==> k in keys
    ensures Ascending(r)
    ensures |r| == |keys|
    decreases |keys|
  {
    if keys == {} then []
    else
      var least := LeastOf(keys);
      [least] + SortedKeys(keys - {least})
  }

  function LeastOf(keys: set<string>): (k: string)
    requires keys != {}
    ensures IsLeast(k, keys)
  {
    LeastExists(keys);
    LeastIsUnique(keys);
    var least :| least in keys && IsLeast(least, keys);
    least
  }

  ghost predicate Ascending(r: seq<string>) {
    forall i, j :: 0 <= i < j < |r| ==> Below(r[i], r[j])
  }

  /** Whatever order a mapping iterates in, sorting its keys gives one result. */
  lemma {:induction false} AscendingIsUnique(a: seq<string>, b: seq<string>)
    requires Ascending(a) && Ascending(b)
    requires forall k :: k in a <==> k in b
    ensures a == b
    decreases |a|
  {
    if b != [] { assert b[0] in b; }
    if a == [] {
    } else {
      assert a[0] in b;
      assert b[0] in a;
      BelowTotal(a[0], b[0]);
      assert a[0] == b[0];
      forall k ensures k in a[1..] <==> k in b[1..] {
        BelowTotal(k, k);
        if k in a[1..] { assert k in a && k in b; assert Below(a[0], k); }
        if k in b[1..] { assert k in b && k in a; assert Below(b[0], k); }
      }
      AscendingIsUnique(a[1..], b[1..]);
    }
  }

  // ---- scalars ----------------------------------------------------------

  function HexDigit(n: int): char
    requires 0 <= n < 16
  {
    "0123456789abcdef"[n]
  }

  /** One character as `json.dumps(..., ensure_ascii=False)` writes it. */
  function EscapeChar(c: char): string {
    if c == '"' then "\\\""
    else if c == '\\' then "\\\\"
    else if c == '\n' then "\\n"
    else if c == '\r' then "\\r"
    else if c == '\t' then "\\t"
    else if c as int == 12 then "\\f"
    else if c as int == 8 then "\\b"
    else if c as int < 32 then "\\u00" + [HexDigit(c as int / 16), HexDigit(c as int % 16)]
    else [c]
  }

  function Escape(s: string): string {
    if s == "" then "" else EscapeChar(s[0]) + Escape(s[1..])
  }

  function DigitChar(n: int): char
    requires 0 <= n < 10
  {
    "0123456789"[n]
  }

  function Digits(n: nat): (r: string)
    ensures r != ""
  {
    if n < 10 then [DigitChar(n)] else Digits(n / 10) + [DigitChar(n % 10)]
  }

  function IntText(i: int): string {
    if i < 0 then "-" + Digits(-i) else Digits(i)
  }

  // ---- the printer, token by token --------------------------------------

  function Chunks(s: string): seq<string> {
    if |s| <= STRING_CHUNK_CHARS then (if s == "" then [] else [Escape(s)])
    else [Escape(s[..STRING_CHUNK_CHARS])] + Chunks(s[STRING_CHUNK_CHARS..])
  }

  function StringTokens(s: string): seq<string> {
    ["\""] + Chunks(s) + ["\""]
  }

  /** The token stream of `canonical_json_tokens`. */
  function Tokens(v: Json): seq<string>
    decreases v, 2
  {
    match v
    case JNull => ["null"]
    case JBool(b) => [if b then "true" else "false"]
    case JString(s) => StringTokens(s)
    case JInt(i) => [IntText(i)]
    case JFloat(lexeme) => [lexeme]
    case JObject(m) => ["{"] + MemberTokens(v, SortedKeys(m.Keys)) + ["}"]
    case JArray(items) => ["["] + ItemTokens(items) + ["]"]
  }

  function MemberTokens(v: Json, keys: seq<string>): seq<string>
    requires v.JObject? && forall k :: k in keys ==> k in v.members
    decreases v, 1, |keys|
  {
    if keys == [] then []
    else
      StringTokens(keys[0]) + [":"] + Tokens(v.members[keys[0]])
      + (if |keys| == 1 then [] else [","] + MemberTokens(v, keys[1..]))
  }

  function ItemTokens(items: seq<Json>): seq<string>
    decreases items, 0
  {
    if items == [] then []
    else Tokens(items[0]) + (if |items| == 1 then [] else [","] + ItemTokens(items[1..]))
  }

  /** The concatenation of the tokens, followed by a given rest. */
  function Spell(tokens: seq<string>, rest: string): string {
    if tokens == [] then rest else tokens[0] + Spell(tokens[1..], rest)
  }

  /** The document a value is encoded as. */
  function Text(v: Json): string {
    Spell(Tokens(v), "")
  }

  // ---- the same text without tokens or chunks ----------------------------

  function Quote(s: string): string {
    "\"" + Escape(s) + "\""
  }

  /** The text of a value, followed by a given rest. */
  ghost function Print(v: Json, rest: string): string
    decreases v, 2
  {
    match v
    case JNull => "null" + rest
    case JBool(b) => (if b then "true" else "false") + rest
    case JString(s) => Quote(s) + rest
    case JInt(i) => IntText(i) + rest
    case JFloat(lexeme) => lexeme + rest
    case JObject(m) => "{" + PrintMembers(v, SortedKeys(m.Keys), rest)
    case JArray(items) => "[" + PrintItems(items, rest)
  }

  ghost function PrintMembers(v: Json, keys: seq<string>, rest: string): string
    requires v.JObject? && forall k :: k in keys ==> k in v.members
    decreases v, 1, |keys|
  {
    if keys == [] then "}" + rest
    else Quote(keys[0]) + (":" + Print(v.members[keys[0]], AfterMember(v, keys, rest)))
  }

  ghost function AfterMember(v: Json, keys: seq<string>, rest: string): string
    requires v.JObject? && keys != [] && forall k :: k in keys ==> k in v.members
    decreases v, 1, |keys|, 0
  {
    if |keys| == 1 then "}" + rest else "," + PrintMembers(v, keys[1..], rest)
  }

  ghost function PrintItems(items: seq<Json>, rest: string): string
    decreases items, 1
  {
    if items == [] then "]" + rest else Print(items[0], AfterItem(items, rest))
  }

  ghost function AfterItem(items: seq<Json>, rest: string): string
    requires items != []
    decreases items, 0
  {
    if |items| == 1 then "]" + rest else "," + PrintItems(items[1..], rest)
  }

  lemma {:induction false} SpellAppend(a: seq<string>, b: seq<string>, rest: string)
    ensures Spell(a + b, rest) == Spell(a, Spell(b, rest))
    decreases |a|
  {
    if a == [] {
      assert a + b == b;
    } else {
      assert (a + b)[1..] == a[1..] + b;
      SpellAppend(a[1..], b, rest);
    }
  }

  lemma SpellOne(t: string, rest: string)
    ensures Spell([t], rest) == t + rest
  {
    assert Spell([], rest) == rest;
  }

  lemma {:induction false} SpellRest(tokens: seq<string>, rest: string)
    ensures Spell(tokens, rest) == Spell(tokens, "") + rest
  {
    if tokens != [] { SpellRest(tokens[1..], rest); }
  }

  lemma {:induction false} EscapeAppend(a: string, b: string)
    ensures Escape(a + b) == Escape(a) + Escape(b)
    decreases |a|
  {
    if a == "" {
      assert a + b == b;
    } else {
      assert (a + b)[1..] == a[1..] + b;
      EscapeAppend(a[1..], b);
    }
  }

  lemma {:induction false} ChunksSpell(s: string, rest: string)
    ensures Spell(Chunks(s), rest) == Escape(s) + rest
    decreases |s|
  {
    if s == "" {
    } else if |s| <= STRING_CHUNK_CHARS {
      SpellOne(Escape(s), rest);
    } else {
      var head, tail := s[..STRING_CHUNK_CHARS], s[STRING_CHUNK_CHARS..];
      ChunksSpell(tail, rest);
      EscapeAppend(head, tail);
      assert s == head + tail;
      assert Chunks(s)[1..] == Chunks(tail);
    }
  }

  /** Cutting a string into 4096-character chunks leaves no trace in its text. */
  lemma StringTokensSpell(s: string, rest: string)
    ensures Spell(StringTokens(s), rest) == Quote(s) + rest
  {
    var quote := ["\""];
    SpellAppend(quote + Chunks(s), quote, rest);
    SpellAppend(quote, Chunks(s), Spell(quote, rest));
    ChunksSpell(s, Spell(quote, rest));
    SpellOne("\"", rest);
    SpellOne("\"", Escape(s) + ("\"" + rest));
  }

  /** The token stream spells the plain text. */
  lemma {:induction false} TokensSpellPrint(v: Json, rest: string)
    ensures Spell(Tokens(v), rest) == Print(v, rest)
    decreases v, 2
  {
    match v
    case JString(s) => StringTokensSpell(s, rest);
    case JObject(m) =>
      var members := MemberTokens(v, SortedKeys(m.Keys));
      SpellAppend(["{"] + members, ["}"], rest);
      SpellAppend(["{"], members, Spell(["}"], rest));
      SpellOne("}", rest);
      MembersSpell(v, SortedKeys(m.Keys), rest);
      SpellOne("{", Spell(members, "}" + rest));
    case JArray(items) =>
      SpellAppend(["["] + ItemTokens(items), ["]"], rest);
      SpellAppend(["["], ItemTokens(items), Spell(["]"], rest));
      SpellOne("]", rest);
      ItemsSpell(items, rest);
      SpellOne("[", Spell(ItemTokens(items), "]" + rest));
    case _ => SpellOne(Tokens(v)[0], rest);
  }

  lemma {:induction false} MembersSpell(v: Json, keys: seq<string>, rest: string)
    requires v.JObject? && forall k :: k in keys ==> k in v.members
    ensures Spell(MemberTokens(v, keys), "}" + rest) == PrintMembers(v, keys, rest)
    decreases v, 1, |keys|
  {
    if keys != [] {
      var k, value := keys[0], Tokens(v.members[keys[0]]);
      var more := if |keys| == 1 then [] else [","] + MemberTokens(v, keys[1..]);
      var end := "}" + rest;
      if |keys| > 1 {
        SpellAppend([","], MemberTokens(v, keys[1..]), end);
        MembersSpell(v, keys[1..], rest);
        SpellOne(",", PrintMembers(v, keys[1..], rest));
      }
      assert Spell(more, end) == AfterMember(v, keys, rest);
      SpellAppend(StringTokens(k) + [":"] + value, more, end);
      SpellAppend(StringTokens(k) + [":"], value, Spell(more, end));
      TokensSpellPrint(v.members[k], Spell(more, end));
      SpellAppend(StringTokens(k), [":"], Print(v.members[k], Spell(more, end)));
      SpellOne(":", Print(v.members[k], Spell(more, end)));
      StringTokensSpell(k, ":" + Print(v.members[k], Spell(more, end)));
    }
  }

  lemma {:induction false} ItemsSpell(items: seq<Json>, rest: string)
    ensures Spell(ItemTokens(items), "]" + rest) == PrintItems(items, rest)
    decreases items, 0
  {
    if items != [] {
      var more := if |items| == 1 then [] else [","] + ItemTokens(items[1..]);
      var end := "]" + rest;
      if |items| > 1 {
        SpellAppend([","], ItemTokens(items[1..]), end);
        ItemsSpell(items[1..], rest);
        SpellOne(",", PrintItems(items[1..], rest));
      }
      assert Spell(more, end) == AfterItem(items, rest);
      SpellAppend(Tokens(items[0]), more, end);
      TokensSpellPrint(items[0], Spell(more, end));
    }
  }

  /** The document of a value is its plain text, whatever follows. */
  lemma TextIsPrint(v: Json, rest: string)
    ensures Text(v) + rest == Print(v, rest)
  {
    SpellRest(Tokens(v), rest);
    TokensSpellPrint(v, rest);
  }
}
