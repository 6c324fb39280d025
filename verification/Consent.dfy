/** Consent grants, their evaluation, and the persisted consent document. */
module Consent {
  import opened Common
  import opened CanonicalJson
  import opened JsonParser
  import opened JsonRoundTrip
  import opened BoundedEncoding
  import opened Utf8
  import F = PayloadFreeze

  const MAX_CONSENT_FILE_BYTES: nat := 16_384
  const MAX_CONSENT_DURATION_SECONDS: nat := 604_800
  const MAX_SNAPSHOT_QUOTA: nat := 1_024
  const MAX_PUBLIC_ID_CHARS: nat := 128
  const NANOSECONDS: nat := 1_000_000_000

  datatype Scope = ObservationRead | SnapshotRead

  /** The sensitivity classes a grant can name, in rank order, and the one it cannot. */
  datatype Sensitivity = Public | Operational | Sensitive | Identifiable | Prohibited

  datatype Grant = Grant(publicId: string, scopes: set<Scope>, expires: int, quota: int, ceiling: Sensitivity)

  datatype ConsentState = ConsentState(grant: Grant, created: int, attempts: int, generation: int)

  predicate Nonblank(s: string) { exists i :: 0 <= i < |s| && !F.IsWhitespace(s[i]) }

  predicate ValidGrant(g: Grant) {
    && Nonblank(g.publicId) && |g.publicId| <= MAX_PUBLIC_ID_CHARS
    && 1 <= g.expires <= MAX_INT64 && 0 <= g.quota <= MAX_INT64 && !g.ceiling.Prohibited?
  }

  /** What the state's own checks admit; among them that the generation counts the attempts. */
  predicate ValidState(s: ConsentState) {
    && ValidGrant(s.grant)
    && 0 <= s.created <= MAX_INT64 && 0 <= s.attempts <= MAX_INT64 && 0 <= s.generation <= MAX_INT64
    && s.attempts <= s.grant.quota <= MAX_SNAPSHOT_QUOTA
    && 1 <= s.grant.expires - s.created <= MAX_CONSENT_DURATION_SECONDS * NANOSECONDS
    && s.generation == s.attempts + 1
  }

  // ---- evaluation ---------------------------------------------------------------

  datatype Reason =
    | Allowed | ProhibitedContent | GrantMissing | GrantExpired | ScopeMissing | SensitivityDenied | QuotaExhausted

  function Rank(s: Sensitivity): nat {
    match s
    case Public => 0
    case Operational => 1
    case Sensitive => 2
    case Identifiable => 3
    case Prohibited => 4
  }

  function EvaluateGrant(g: Option<Grant>, scope: Scope, sensitivity: Sensitivity, now: int, used: int): Reason {
    if sensitivity.Prohibited? then ProhibitedContent
    else if g.None? then GrantMissing
    else if now >= g.value.expires then GrantExpired
    else if scope !in g.value.scopes then ScopeMissing
    else if Rank(sensitivity) > Rank(g.value.ceiling) then SensitivityDenied
    else if scope.SnapshotRead? && used >= g.value.quota then QuotaExhausted
    else Allowed
  }

  /** The classes a ceiling admits. */
  function Admitted(ceiling: Sensitivity): set<Sensitivity> {
    match ceiling
    case Public => {Public}
    case Operational => {Public, Operational}
    case Sensitive => {Public, Operational, Sensitive}
    case Identifiable => {Public, Operational, Sensitive, Identifiable}
    case Prohibited => {Public, Operational, Sensitive, Identifiable, Prohibited}
  }

  /** A grant covers a request: in scope, unexpired, within its ceiling, which never reaches prohibited content. */
  predicate Covers(g: Grant, scope: Scope, sensitivity: Sensitivity, now: int) {
    !sensitivity.Prohibited? && now < g.expires && scope in g.scopes && sensitivity in Admitted(g.ceiling)
  }

  lemma AllowedMeansCovered(g: Option<Grant>, scope: Scope, sensitivity: Sensitivity, now: int, used: int)
    ensures EvaluateGrant(g, scope, sensitivity, now, used).Allowed? <==>
            g.Some? && Covers(g.value, scope, sensitivity, now) && (scope.SnapshotRead? ==> used < g.value.quota)
  {
    if g.Some? { RankAdmits(sensitivity, g.value.ceiling); }
  }

  lemma RankAdmits(s: Sensitivity, ceiling: Sensitivity)
    ensures Rank(s) <= Rank(ceiling) <==> s in Admitted(ceiling)
  {
  }

  /** The reason of every refusal. */
  lemma RefusalDecides(g: Option<Grant>, scope: Scope, sensitivity: Sensitivity, now: int, used: int)
    ensures EvaluateGrant(g, scope, sensitivity, now, used).ProhibitedContent? <==> sensitivity.Prohibited?
    ensures EvaluateGrant(g, scope, sensitivity, now, used).GrantMissing? <==> !sensitivity.Prohibited? && g.None?
    ensures EvaluateGrant(g, scope, sensitivity, now, used).GrantExpired? <==>
              !sensitivity.Prohibited? && g.Some? && g.value.expires <= now
    ensures EvaluateGrant(g, scope, sensitivity, now, used).ScopeMissing? <==>
              !sensitivity.Prohibited? && g.Some? && now < g.value.expires && scope !in g.value.scopes
    ensures EvaluateGrant(g, scope, sensitivity, now, used).SensitivityDenied? <==>
              && !sensitivity.Prohibited? && g.Some? && now < g.value.expires && scope in g.value.scopes
              && sensitivity !in Admitted(g.value.ceiling)
    ensures EvaluateGrant(g, scope, sensitivity, now, used).QuotaExhausted? <==>
              g.Some? && Covers(g.value, scope, sensitivity, now) && scope.SnapshotRead? && g.value.quota <= used
  {
    if g.Some? { RankAdmits(sensitivity, g.value.ceiling); }
    hide Admitted, Rank;
  }

  // ---- the document -----------------------------------------------------------------

  datatype FieldName =
    | CreatedUnixNs | ExpiresUnixNs | Generation | Kind | PublicId | SchemaVersion | Scopes | SensitivityCeiling
    | SnapshotAttempts | SnapshotQuota

  function NameOf(f: FieldName): (s: string)
    ensures |s| >= 2
  {
    match f
    case CreatedUnixNs => "created_unix_ns"
    case ExpiresUnixNs => "expires_unix_ns"
    case Generation => "generation"
    case Kind => "kind"
    case PublicId => "public_id"
    case SchemaVersion => "schema_version"
    case Scopes => "scopes"
    case SensitivityCeiling => "sensitivity_ceiling"
    case SnapshotAttempts => "snapshot_attempts"
    case SnapshotQuota => "snapshot_quota"
  }

  lemma NamesAreDistinct()
    ensures forall f, g: FieldName :: NameOf(f) == NameOf(g) ==> f == g
  {
    forall f, g: FieldName | NameOf(f) == NameOf(g) ensures f == g {
      assert |NameOf(f)| == |NameOf(g)| && NameOf(f)[0] == NameOf(g)[0] && NameOf(f)[1] == NameOf(g)[1];
    }
  }

  const KIND := "viskium.agent-consent"

  function ScopeName(s: Scope): string {
    match s
    case ObservationRead => "observation.read"
    case SnapshotRead => "snapshot.read"
  }

  /** The scopes' names in ascending order. */
  function ScopeNames(scopes: set<Scope>): seq<string> {
    (if ObservationRead in scopes then [ScopeName(ObservationRead)] else [])
    + (if SnapshotRead in scopes then [ScopeName(SnapshotRead)] else [])
  }

  function SensitivityName(s: Sensitivity): string {
    match s
    case Public => "public"
    case Operational => "operational"
    case Sensitive => "sensitive"
    case Identifiable => "identifiable"
    case Prohibited => "prohibited"
  }

  function FieldValue(s: ConsentState, f: FieldName): Json {
    match f
    case CreatedUnixNs => JInt(s.created)
    case ExpiresUnixNs => JInt(s.grant.expires)
    case Generation => JInt(s.generation)
    case Kind => JString(KIND)
    case PublicId => JString(s.grant.publicId)
    case SchemaVersion => JInt(1)
    case Scopes =>
      var names := ScopeNames(s.grant.scopes);
      JArray(seq(|names|, i requires 0 <= i < |names| => JString(names[i])))
    case SensitivityCeiling => JString(SensitivityName(s.grant.ceiling))
    case SnapshotAttempts => JInt(s.attempts)
    case SnapshotQuota => JInt(s.grant.quota)
  }

  const ALL_FIELDS: seq<FieldName> := [
    CreatedUnixNs, ExpiresUnixNs, Generation, Kind, PublicId, SchemaVersion, Scopes, SensitivityCeiling,
    SnapshotAttempts, SnapshotQuota]

  function Members(s: ConsentState, fields: seq<FieldName>): map<string, Json> {
    if fields == [] then map[] else Members(s, fields[1..])[NameOf(fields[0]) := FieldValue(s, fields[0])]
  }

  function DocumentOf(s: ConsentState): Json { JObject(Members(s, ALL_FIELDS)) }

  /** The bytes `_write` puts into the file. */
  function FileBytes(s: ConsentState): Bytes { Encode(Text(DocumentOf(s)) + "\n") }

  function ScopeOf(v: Json): Option<Scope> {
    if v == JString("observation.read") then Some(ObservationRead)
    else if v == JString("snapshot.read") then Some(SnapshotRead)
    else None
  }

  function SensitivityOf(v: Json): Option<Sensitivity> {
    if v == JString("public") then Some(Public)
    else if v == JString("operational") then Some(Operational)
    else if v == JString("sensitive") then Some(Sensitive)
    else if v == JString("identifiable") then Some(Identifiable)
    else None
  }

  predicate ScopesReadable(v: Json) {
    v.JArray? && |v.items| <= 2 && forall i :: 0 <= i < |v.items| ==> ScopeOf(v.items[i]).Some?
  }

  function ScopesOf(items: seq<Json>): set<Scope> {
    set s: Scope | exists i :: 0 <= i < |items| && ScopeOf(items[i]) == Some(s)
  }

  /** Exactly the expected fields, each of its type. */
  predicate Typed(m: map<string, Json>) {
    && (forall k :: k in m ==> exists f: FieldName :: k == NameOf(f))
    && (forall f: FieldName :: NameOf(f) in m && HasFieldType(f, m[NameOf(f)]))
  }

  predicate HasFieldType(f: FieldName, v: Json) {
    match f
    case Kind => v == JString(KIND)
    case SchemaVersion => v == JInt(1) || v == JBool(true)
    case PublicId => v.JString?
    case Scopes => ScopesReadable(v)
    case SensitivityCeiling => SensitivityOf(v).Some?
    case _ => v.JInt?
  }

  function IntOf(v: Json): int { if v.JInt? then v.i else 0 }

  function Rebuilt(value: FieldName -> Json): ConsentState {
    var g := Grant(
      if value(PublicId).JString? then value(PublicId).s else "",
      if value(Scopes).JArray? then ScopesOf(value(Scopes).items) else {},
      IntOf(value(ExpiresUnixNs)), IntOf(value(SnapshotQuota)),
      if SensitivityOf(value(SensitivityCeiling)).Some? then SensitivityOf(value(SensitivityCeiling)).value
      else Prohibited);
    ConsentState(g, IntOf(value(CreatedUnixNs)), IntOf(value(SnapshotAttempts)), IntOf(value(Generation)))
  }

  function Lookup(m: map<string, Json>, f: FieldName): Json {
    if NameOf(f) in m then m[NameOf(f)] else JNull
  }

  /** `_decode`; None for its error. */
  function DecodeDocument(v: Json): (s: Option<ConsentState>)
    ensures s.Some? ==> ValidState(s.value)
  {
    if !v.JObject? || !Typed(v.members) then None
    else
      var s := Rebuilt(f => Lookup(v.members, f));
      if ValidState(s) then Some(s) else None
  }

  /** The state in a consent file; None for a file `load` refuses. */
  function DecodeFile(b: Bytes): (s: Option<ConsentState>)
    ensures s.Some? ==> ValidState(s.value)
  {
    if |b| > MAX_CONSENT_FILE_BYTES then None
    else
      var v := LoadsStrictly(b);
      if v.None? then None else DecodeDocument(v.value)
  }

  // ---- decode undoes write ---------------------------------------------------------------

  lemma {:induction false} MembersAreFields(s: ConsentState, fields: seq<FieldName>)
    ensures forall f :: f in fields ==> NameOf(f) in Members(s, fields)
    ensures forall f: FieldName :: NameOf(f) in Members(s, fields) ==>
              f in fields && Members(s, fields)[NameOf(f)] == FieldValue(s, f)
    ensures forall k :: k in Members(s, fields) ==> exists f: FieldName :: k == NameOf(f)
  {
    NamesAreDistinct();
    if fields != [] {
      MembersAreFields(s, fields[1..]);
      assert fields == [fields[0]] + fields[1..];
    }
  }

  lemma EveryFieldIsListed(f: FieldName)
    ensures f in ALL_FIELDS
  {
    var i := match f
      case CreatedUnixNs => 0 case ExpiresUnixNs => 1 case Generation => 2 case Kind => 3 case PublicId => 4
      case SchemaVersion => 5 case Scopes => 6 case SensitivityCeiling => 7 case SnapshotAttempts => 8
      case SnapshotQuota => 9;
    assert ALL_FIELDS[i] == f;
  }

  lemma ScopesSurvive(scopes: set<Scope>)
    ensures
      var names := ScopeNames(scopes);
      var items := seq(|names|, i requires 0 <= i < |names| => JString(names[i]));
      ScopesReadable(JArray(items)) && ScopesOf(items) == scopes
  {
    var names := ScopeNames(scopes);
    var items := seq(|names|, i requires 0 <= i < |names| => JString(names[i]));
    assert |"observation.read"| == 16 && |"snapshot.read"| == 13;
    forall s: Scope ensures s in ScopesOf(items) <==> s in scopes {
      if s in scopes {
        var i := if s.SnapshotRead? && ObservationRead in scopes then 1 else 0;
        assert ScopeOf(items[i]) == Some(s);
      }
    }
  }

  lemma CeilingSurvives(c: Sensitivity)
    requires !c.Prohibited?
    ensures SensitivityOf(JString(SensitivityName(c))) == Some(c)
  {
    assert "public"[0] == 'p' && "operational"[0] == 'o' && "sensitive"[0] == 's' && "identifiable"[0] == 'i';
  }

  lemma FieldSurvives(s: ConsentState, f: FieldName)
    requires ValidState(s)
    ensures Lookup(DocumentOf(s).members, f) == FieldValue(s, f)
    ensures HasFieldType(f, FieldValue(s, f)) && WellFormed(FieldValue(s, f))
  {
    MembersAreFields(s, ALL_FIELDS);
    EveryFieldIsListed(f);
    ScopesSurvive(s.grant.scopes);
    CeilingSurvives(s.grant.ceiling);
  }

  lemma RebuiltFromFields(s: ConsentState, value: FieldName -> Json)
    requires ValidState(s) && forall f: FieldName :: value(f) == FieldValue(s, f)
    ensures Rebuilt(value) == s
  {
    ScopesSurvive(s.grant.scopes);
    CeilingSurvives(s.grant.ceiling);
  }

  lemma DocumentIsTyped(s: ConsentState)
    requires ValidState(s)
    ensures Typed(DocumentOf(s).members)
  {
    hide FieldValue, HasFieldType, ValidState;
    var m := DocumentOf(s).members;
    MembersAreFields(s, ALL_FIELDS);
    forall f: FieldName ensures NameOf(f) in m && HasFieldType(f, m[NameOf(f)]) {
      EveryFieldIsListed(f);
      FieldSurvives(s, f);
    }
    hide NameOf, Members;
  }

  lemma DocumentIsWellFormed(s: ConsentState)
    requires ValidState(s)
    ensures WellFormed(DocumentOf(s))
  {
    hide FieldValue, HasFieldType, ValidState;
    var m := DocumentOf(s).members;
    MembersAreFields(s, ALL_FIELDS);
    forall k | k in m ensures WellFormed(m[k]) {
      var f: FieldName :| k == NameOf(f);
      FieldSurvives(s, f);
    }
  }

  lemma DocumentDecodes(s: ConsentState)
    requires ValidState(s)
    ensures WellFormed(DocumentOf(s)) && DecodeDocument(DocumentOf(s)) == Some(s)
  {
    hide FieldValue, HasFieldType, ValidState, Members, Typed, Rebuilt, Lookup, WellFormed;
    var m := DocumentOf(s).members;
    DocumentIsTyped(s);
    DocumentIsWellFormed(s);
    forall f: FieldName ensures Lookup(m, f) == FieldValue(s, f) { FieldSurvives(s, f); }
    RebuiltFromFields(s, f => Lookup(m, f));
  }

  lemma LineParses(v: Json)
    requires WellFormed(v)
    ensures ParseDocument(Text(v) + "\n", true) == Some(v)
  {
    assert SkipSpace("\n") == "";
    hide WellFormed, ParseValue, Text, SkipSpace;
    TextRoundTrip(v, "\n", true);
  }

  lemma LineLoads(v: Json)
    requires WellFormed(v)
    ensures LoadsStrictly(Encode(Text(v) + "\n")) == Some(v)
  {
    hide WellFormed, ParseValue, Text, SkipSpace, Encode, Decode, ParseDocument;
    LineParses(v);
    Utf8.RoundTrip(Text(v) + "\n");
  }

  /** What is written is read back, whatever the grant, as long as the file is within its ceiling. */
  lemma FileRoundTrip(s: ConsentState)
    requires ValidState(s)
    ensures |FileBytes(s)| <= MAX_CONSENT_FILE_BYTES ==> DecodeFile(FileBytes(s)) == Some(s)
  {
    hide LoadsStrictly, Encode, Text, DocumentOf, DecodeDocument, WellFormed, ValidState;
    DocumentDecodes(s);
    LineLoads(DocumentOf(s));
  }

  // ---- which files decode -------------------------------------------------------------------

  const FIELD_NAMES: set<string> := {
    "created_unix_ns", "expires_unix_ns", "generation", "kind", "public_id", "schema_version", "scopes",
    "sensitivity_ceiling", "snapshot_attempts", "snapshot_quota"}

  /** A list of at most two scopes, which may repeat, names exactly these. */
  predicate SaysScopes(v: Json, scopes: set<Scope>) {
    && v.JArray? && |v.items| <= 2
    && (forall x :: x in v.items ==> x in {JString("observation.read"), JString("snapshot.read")})
    && (ObservationRead in scopes <==> JString("observation.read") in v.items)
    && (SnapshotRead in scopes <==> JString("snapshot.read") in v.items)
  }

  predicate SaysCeiling(v: Json, c: Sensitivity) {
    match c
    case Public => v == JString("public")
    case Operational => v == JString("operational")
    case Sensitive => v == JString("sensitive")
    case Identifiable => v == JString("identifiable")
    case Prohibited => false
  }

  /** The members of the ten fields say this state. */
  predicate MembersSay(m: map<string, Json>, s: ConsentState)
    requires m.Keys == FIELD_NAMES
  {
    && m["kind"] == JString("viskium.agent-consent") && m["schema_version"] in {JInt(1), JBool(true)}
    && m["public_id"] == JString(s.grant.publicId) && SaysScopes(m["scopes"], s.grant.scopes)
    && m["expires_unix_ns"] == JInt(s.grant.expires) && m["snapshot_quota"] == JInt(s.grant.quota)
    && SaysCeiling(m["sensitivity_ceiling"], s.grant.ceiling) && m["created_unix_ns"] == JInt(s.created)
    && m["snapshot_attempts"] == JInt(s.attempts) && m["generation"] == JInt(s.generation)
  }

  /** A document says this state: ten fields and no other, each with its value; Python takes true for version 1. */
  predicate Says(v: Json, s: ConsentState) {
    && v.JObject?
    && v.members.Keys == FIELD_NAMES
    && MembersSay(v.members, s)
  }

  /** The values a state may have. */
  ghost predicate InBounds(s: ConsentState) {
    && |s.grant.publicId| <= 128 && (exists c :: c in s.grant.publicId && !F.IsWhitespace(c))
    && 0 <= s.created < s.grant.expires <= MAX_INT64 && s.grant.expires - s.created <= 604_800_000_000_000
    && 0 <= s.attempts <= s.grant.quota <= 1_024 && s.generation == s.attempts + 1
  }

  lemma ValidMeansInBounds(s: ConsentState)
    ensures ValidState(s) <==> InBounds(s) && !s.grant.ceiling.Prohibited?
  {
    var id := s.grant.publicId;
    if c :| c in id && !F.IsWhitespace(c) {
      var i :| 0 <= i < |id| && id[i] == c;
      assert !F.IsWhitespace(id[i]);
    }
    hide F.IsWhitespace;
  }

  lemma ScopesAreSaid(v: Json, scopes: set<Scope>)
    ensures SaysScopes(v, scopes) <==> ScopesReadable(v) && ScopesOf(v.items) == scopes
  {
    assert |"observation.read"| == 16 && |"snapshot.read"| == 13;
    if v.JArray? {
      assert ObservationRead in ScopesOf(v.items) <==> JString("observation.read") in v.items;
      assert SnapshotRead in ScopesOf(v.items) <==> JString("snapshot.read") in v.items;
      hide ScopesOf;
      forall x | x in v.items
        ensures ScopeOf(x).Some? <==> x in {JString("observation.read"), JString("snapshot.read")}
      {
      }
      if ScopesReadable(v) {
        forall x | x in v.items ensures ScopeOf(x).Some? { var i :| 0 <= i < |v.items| && v.items[i] == x; }
      }
      hide ScopeOf;
      if SaysScopes(v, scopes) {
        forall i | 0 <= i < |v.items| ensures ScopeOf(v.items[i]).Some? { assert v.items[i] in v.items; }
        forall x: Scope ensures x in ScopesOf(v.items) <==> x in scopes { assert x.ObservationRead? || x.SnapshotRead?; }
      }
    }
  }

  lemma CeilingIsSaid(v: Json, c: Sensitivity)
    ensures SaysCeiling(v, c) <==> SensitivityOf(v) == Some(c)
  {
    assert "public"[0] == 'p' && "operational"[0] == 'o' && "sensitive"[0] == 's' && "identifiable"[0] == 'i';
  }

  /** The names of the fields are these ten. */
  lemma FieldsAreTen(m: map<string, Json>)
    ensures
      && (forall k :: k in m ==> exists f: FieldName :: k == NameOf(f))
      && (forall f: FieldName :: NameOf(f) in m)
      <==>
      m.Keys == FIELD_NAMES
  {
    assert forall f: FieldName :: NameOf(f) in FIELD_NAMES;
    forall k | k in FIELD_NAMES ensures exists f: FieldName :: k == NameOf(f) {
      assert NameOf(CreatedUnixNs) == "created_unix_ns" && NameOf(ExpiresUnixNs) == "expires_unix_ns";
      assert NameOf(Generation) == "generation" && NameOf(Kind) == "kind" && NameOf(PublicId) == "public_id";
      assert NameOf(SchemaVersion) == "schema_version" && NameOf(Scopes) == "scopes";
      assert NameOf(SensitivityCeiling) == "sensitivity_ceiling";
      assert NameOf(SnapshotAttempts) == "snapshot_attempts" && NameOf(SnapshotQuota) == "snapshot_quota";
    }
    hide NameOf;
    if (forall k :: k in m ==> exists f: FieldName :: k == NameOf(f)) && (forall f: FieldName :: NameOf(f) in m) {
      assert m.Keys == FIELD_NAMES;
    }
    if m.Keys == FIELD_NAMES {
      forall k | k in m ensures exists f: FieldName :: k == NameOf(f) { assert k in m.Keys; }
      forall f: FieldName ensures NameOf(f) in m { assert NameOf(f) in m.Keys; }
    }
  }

  predicate AllTyped(m: map<string, Json>) { forall f: FieldName :: HasFieldType(f, Lookup(m, f)) }

  lemma AllTypedMeans(m: map<string, Json>)
    requires m.Keys == FIELD_NAMES
    ensures
      AllTyped(m) <==>
        && m["kind"] == JString(KIND) && m["schema_version"] in {JInt(1), JBool(true)} && m["public_id"].JString?
        && ScopesReadable(m["scopes"]) && m["expires_unix_ns"].JInt? && m["snapshot_quota"].JInt?
        && SensitivityOf(m["sensitivity_ceiling"]).Some? && m["created_unix_ns"].JInt?
        && m["snapshot_attempts"].JInt? && m["generation"].JInt?
  {
    hide ScopesReadable, SensitivityOf;
    if AllTyped(m) {
      assert HasFieldType(Kind, Lookup(m, Kind)) && HasFieldType(SchemaVersion, Lookup(m, SchemaVersion));
      assert HasFieldType(PublicId, Lookup(m, PublicId)) && HasFieldType(Scopes, Lookup(m, Scopes));
      assert HasFieldType(ExpiresUnixNs, Lookup(m, ExpiresUnixNs));
      assert HasFieldType(SnapshotQuota, Lookup(m, SnapshotQuota));
      assert HasFieldType(SensitivityCeiling, Lookup(m, SensitivityCeiling));
      assert HasFieldType(CreatedUnixNs, Lookup(m, CreatedUnixNs)) && HasFieldType(Generation, Lookup(m, Generation));
      assert HasFieldType(SnapshotAttempts, Lookup(m, SnapshotAttempts));
    }
  }

  /** Rebuilding reads off what a typed document says. */
  lemma TypedSays(m: map<string, Json>, s: ConsentState)
    requires m.Keys == FIELD_NAMES
    ensures
      AllTyped(m) && Rebuilt(f => Lookup(m, f)) == s && !s.grant.ceiling.Prohibited? <==> MembersSay(m, s)
  {
    AllTypedMeans(m);
    ScopesAreSaid(m["scopes"], s.grant.scopes);
    CeilingIsSaid(m["sensitivity_ceiling"], s.grant.ceiling);
    assert SensitivityOf(m["sensitivity_ceiling"]) != Some(Prohibited);
    hide SaysScopes, SaysCeiling, ScopesReadable, ScopesOf, SensitivityOf, AllTyped;
  }

  /** A file decodes to a state exactly when it is within its ceiling, can be read without a repeated name, says that
      state field by field, and the state is within its bounds. */
  lemma DecodeDecides(b: Bytes, s: ConsentState)
    ensures DecodeFile(b) == Some(s) <==>
              && |b| <= 16_384 && Utf8.Decode(b).Some? && InBounds(s)
              && var document := ParseDocument(Utf8.Decode(b).value, true);
                 document.Some? && Says(document.value, s)
  {
    FileReads(b, s);
    ValidMeansInBounds(s);
    hide *;
    if Utf8.Decode(b).Some? {
      var document := ParseDocument(Utf8.Decode(b).value, true);
      if document.Some? {
        DocumentDecides(document.value, s);
        if Says(document.value, s) { SaidIsNotProhibited(document.value, s); }
      }
    }
  }

  lemma FileReads(b: Bytes, s: ConsentState)
    ensures DecodeFile(b) == Some(s) <==>
              && |b| <= 16_384 && Utf8.Decode(b).Some?
              && var document := ParseDocument(Utf8.Decode(b).value, true);
                 document.Some? && DecodeDocument(document.value) == Some(s)
  {
    hide ParseDocument, Utf8.Decode, DecodeDocument, ValidState;
  }

  lemma SaidIsNotProhibited(v: Json, s: ConsentState)
    requires Says(v, s)
    ensures !s.grant.ceiling.Prohibited?
  {
    hide SaysScopes;
  }

  lemma TypedMeansAllTyped(m: map<string, Json>)
    requires m.Keys == FIELD_NAMES
    ensures Typed(m) <==> AllTyped(m)
  {
    FieldsAreTen(m);
    hide NameOf, HasFieldType;
    if Typed(m) {
      forall f: FieldName ensures HasFieldType(f, Lookup(m, f)) { assert NameOf(f) in m; }
    }
    if AllTyped(m) {
      forall f: FieldName ensures NameOf(f) in m && HasFieldType(f, m[NameOf(f)]) {
        assert NameOf(f) in m && HasFieldType(f, Lookup(m, f));
      }
    }
  }

  lemma DocumentDecides(v: Json, s: ConsentState)
    ensures DecodeDocument(v) == Some(s) <==> Says(v, s) && ValidState(s)
  {
    if v.JObject? {
      var m := v.members;
      FieldsAreTen(m);
      if m.Keys == FIELD_NAMES {
        TypedMeansAllTyped(m);
        TypedSays(m, s);
      }
      assert ValidState(s) ==> !s.grant.ceiling.Prohibited?;
      hide ValidState, Rebuilt, AllTyped, MembersSay;
    }
  }
}
