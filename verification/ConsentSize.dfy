/** The consent file never reaches its byte ceiling, so a write is never refused for its size. */
module ConsentSize {
  import opened Common
  import opened CanonicalJson
  import opened JsonRoundTrip
  import opened JsonSize
  import opened Utf8
  import opened Consent

  const MEMBER_BYTES: nat := 900

  lemma ScopesBytes(scopes: set<Scope>)
    ensures
      var names := ScopeNames(scopes);
      |Encode(Text(JArray(seq(|names|, i requires 0 <= i < |names| => JString(names[i])))))| <= 400
  {
    var names := ScopeNames(scopes);
    var items := seq(|names|, i requires 0 <= i < |names| => JString(names[i]));
    assert |names| <= 2 && forall i :: 0 <= i < |names| ==> |names[i]| <= 16;
    hide Encode, Text, ScopeNames, PrintItems;
    ArrayBytes(items);
    if |items| > 0 {
      ItemBytes(items);
      StringBytes(names[0]);
    } else {
      EmptyBytes();
      assert items == [];
    }
    if |items| == 2 {
      ItemBytes(items[1..]);
      StringBytes(names[1]);
    }
  }

  lemma FieldBytes(s: ConsentState, f: FieldName)
    requires ValidState(s)
    ensures |Encode(Quote(NameOf(f)))| + |Encode(Text(FieldValue(s, f)))| + 2 <= MEMBER_BYTES
  {
    hide Text, Encode, Quote;
    QuoteBytes(NameOf(f));
    assert |NameOf(f)| <= 19;
    match f
    case Kind => StringBytes(KIND);
    case PublicId => StringBytes(s.grant.publicId);
    case SchemaVersion => IntBytes(1);
    case Scopes => ScopesBytes(s.grant.scopes);
    case SensitivityCeiling => StringBytes(SensitivityName(s.grant.ceiling));
    case CreatedUnixNs => IntBytes(s.created);
    case ExpiresUnixNs => IntBytes(s.grant.expires);
    case Generation => IntBytes(s.generation);
    case SnapshotAttempts => IntBytes(s.attempts);
    case SnapshotQuota => IntBytes(s.grant.quota);
  }

  lemma {:induction false} MemberCount(s: ConsentState, fields: seq<FieldName>)
    ensures |Members(s, fields).Keys| <= |fields|
    decreases |fields|
  {
    if fields != [] {
      MemberCount(s, fields[1..]);
      var more := Members(s, fields[1..]);
      var m := more[NameOf(fields[0]) := FieldValue(s, fields[0])];
      assert m.Keys == more.Keys + {NameOf(fields[0])};
    }
  }

  lemma DocumentBytes(s: ConsentState)
    requires ValidState(s)
    ensures |FileBytes(s)| <= 10 * MEMBER_BYTES + 3
  {
    hide ValidState, Encode, Text, Quote, Members, PrintMembers, FieldValue;
    var v := DocumentOf(s);
    var keys := SortedKeys(v.members.Keys);
    MemberCount(s, ALL_FIELDS);
    MembersAreFields(s, ALL_FIELDS);
    assert |keys| <= 10;
    forall k | k in keys ensures |Encode(Quote(k))| + |Encode(Text(v.members[k]))| + 2 <= MEMBER_BYTES {
      var f: FieldName :| k == NameOf(f);
      FieldBytes(s, f);
    }
    SortedKeysAreDistinct(v.members.Keys);
    MembersBytes(v, keys, "\n", MEMBER_BYTES, "", 0);
    ObjectBytes(v, keys, "\n");
    AsciiBytes("\n");
  }

  /** Every valid state fits the consent file, so reading back what was written always gives the same state. */
  lemma WrittenStateIsReadBack(s: ConsentState)
    requires ValidState(s)
    ensures |FileBytes(s)| <= MAX_CONSENT_FILE_BYTES
    ensures DecodeFile(FileBytes(s)) == Some(s)
  {
    hide ValidState, FileBytes, DecodeFile;
    DocumentBytes(s);
    FileRoundTrip(s);
  }
}
