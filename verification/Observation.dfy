/** Observation envelopes, their documents, and their reconstruction from a document. */
module Observations {
  import opened Common
  import opened CanonicalJson
  import opened JsonParser
  import opened JsonRoundTrip
  import opened BoundedEncoding
  import opened PayloadFreeze
  import opened Utf8

  const MAX_PROVENANCE_ENTRIES: nat := 64

  datatype Observation = Observation(
    sessionId: string, sourceId: string, streamEpoch: int, sourceSequence: int, observedMonotonicNs: int,
    producerId: string, producerVersion: string, schemaId: string, schemaVersion: int,
    payload: map<string, Json>, idempotencyKey: string, traceId: string,
    confidence: Option<string>, provenance: seq<string>,
    sensitivityClass: string, persistenceClass: string, ttlNs: Option<int>, wallUtc: Option<string>)

  /** Whether a float's text denotes a number between 0 and 1; float parsing itself is not modelled. */
  type UnitTest = string -> bool

  predicate InRange(n: int, minimum: int) { minimum <= n <= MAX_INT64 }

  /** A payload value as the tree that freezing it would traverse. */
  function TreeOf(v: Json): Tree
    decreases v, 2
  {
    match v
    case JNull => Leaf(VNull)
    case JBool(b) => Leaf(VBool(b))
    case JInt(i) => Leaf(VInt(i))
    case JFloat(lexeme) => Leaf(VFloat(Some(lexeme)))
    case JString(s) => Leaf(VString(s))
    case JArray(items) => TupleTree(seq(|items|, i requires 0 <= i < |items| => TreeOf(items[i])))
    case JObject(m) =>
      var keys := SortedKeys(m.Keys);
      MapTree(seq(|keys|, i requires 0 <= i < |keys| => StringKey(keys[i])),
        seq(|keys|, i requires 0 <= i < |keys| => TreeOf(m[keys[i]])))
  }

  predicate ValidPayload(payload: map<string, Json>) {
    WellFormed(JObject(payload)) && Admissible(TreeOf(JObject(payload)), 0, 0, 0)
  }

  /** What the constructor of an envelope accepts. */
  predicate Valid(o: Observation, unit: UnitTest) {
    && NonEmpty(o.sessionId) && NonEmpty(o.sourceId) && NonEmpty(o.producerId) && NonEmpty(o.producerVersion)
    && NonEmpty(o.schemaId) && NonEmpty(o.idempotencyKey) && NonEmpty(o.traceId)
    && InRange(o.streamEpoch, 0) && InRange(o.sourceSequence, 0) && InRange(o.observedMonotonicNs, 0)
    && InRange(o.schemaVersion, 1)
    && (o.confidence.Some? ==> IsFloatLexeme(o.confidence.value) && unit(o.confidence.value))
    && (o.ttlNs.Some? ==> InRange(o.ttlNs.value, 1))
    && o.sensitivityClass in {"public", "operational", "sensitive", "identifiable", "prohibited"}
    && o.persistenceClass in {"routine", "important", "diagnostic", "visual"}
    && (o.wallUtc.Some? ==> NonEmpty(o.wallUtc.value))
    && ValidPayload(o.payload)
    && |o.provenance| <= MAX_PROVENANCE_ENTRIES
    && (forall i :: 0 <= i < |o.provenance| ==> NonEmpty(o.provenance[i]))
  }

  datatype FieldName =
    | SessionId | SourceId | StreamEpoch | SourceSequence | ObservedMonotonicNs | ProducerId | ProducerVersion
    | SchemaId | SchemaVersion | Payload | IdempotencyKey | TraceId | Confidence | Provenance
    | SensitivityClass | PersistenceClass | TtlNs | WallUtc

  function NameOf(f: FieldName): (s: string)
    ensures |s| >= 2
  {
    match f
    case SessionId => "session_id"
    case SourceId => "source_id"
    case StreamEpoch => "stream_epoch"
    case SourceSequence => "source_sequence"
    case ObservedMonotonicNs => "observed_monotonic_ns"
    case ProducerId => "producer_id"
    case ProducerVersion => "producer_version"
    case SchemaId => "schema_id"
    case SchemaVersion => "schema_version"
    case Payload => "payload"
    case IdempotencyKey => "idempotency_key"
    case TraceId => "trace_id"
    case Confidence => "confidence"
    case Provenance => "provenance"
    case SensitivityClass => "sensitivity_class"
    case PersistenceClass => "persistence_class"
    case TtlNs => "ttl_ns"
    case WallUtc => "wall_utc"
  }

  /** The length and the first two characters of a field's name already tell it from the others. */
  lemma NamesAreDistinct()
    ensures forall f, g: FieldName :: NameOf(f) == NameOf(g) ==> f == g
  {
    forall f, g: FieldName | NameOf(f) == NameOf(g) ensures f == g {
      assert |NameOf(f)| == |NameOf(g)| && NameOf(f)[0] == NameOf(g)[0] && NameOf(f)[1] == NameOf(g)[1];
    }
  }

  function Strings(texts: seq<string>): seq<Json> {
    seq(|texts|, i requires 0 <= i < |texts| => JString(texts[i]))
  }

  function FieldValue(o: Observation, f: FieldName): Json {
    match f
    case SessionId => JString(o.sessionId)
    case SourceId => JString(o.sourceId)
    case StreamEpoch => JInt(o.streamEpoch)
    case SourceSequence => JInt(o.sourceSequence)
    case ObservedMonotonicNs => JInt(o.observedMonotonicNs)
    case ProducerId => JString(o.producerId)
    case ProducerVersion => JString(o.producerVersion)
    case SchemaId => JString(o.schemaId)
    case SchemaVersion => JInt(o.schemaVersion)
    case Payload => JObject(o.payload)
    case IdempotencyKey => JString(o.idempotencyKey)
    case TraceId => JString(o.traceId)
    case Confidence => if o.confidence.Some? then JFloat(o.confidence.value) else JNull
    case Provenance => JArray(Strings(o.provenance))
    case SensitivityClass => JString(o.sensitivityClass)
    case PersistenceClass => JString(o.persistenceClass)
    case TtlNs => if o.ttlNs.Some? then JInt(o.ttlNs.value) else JNull
    case WallUtc => if o.wallUtc.Some? then JString(o.wallUtc.value) else JNull
  }

  const ALL_FIELDS: seq<FieldName> := [
    SessionId, SourceId, StreamEpoch, SourceSequence, ObservedMonotonicNs, ProducerId, ProducerVersion,
    SchemaId, SchemaVersion, Payload, IdempotencyKey, TraceId, Confidence, Provenance,
    SensitivityClass, PersistenceClass, TtlNs, WallUtc]

  function Members(o: Observation, fields: seq<FieldName>): map<string, Json> {
    if fields == [] then map[] else Members(o, fields[1..])[NameOf(fields[0]) := FieldValue(o, fields[0])]
  }

  /** The complete stable document of an observation. */
  function DocumentOf(o: Observation): map<string, Json> {
    Members(o, ALL_FIELDS)
  }

  lemma {:induction false} MembersAreFields(o: Observation, fields: seq<FieldName>)
    ensures forall f :: f in fields ==> NameOf(f) in Members(o, fields)
    ensures forall f: FieldName :: NameOf(f) in Members(o, fields) ==>
      f in fields && Members(o, fields)[NameOf(f)] == FieldValue(o, f)
    ensures forall k :: k in Members(o, fields) ==> exists f: FieldName :: k == NameOf(f)
  {
    NamesAreDistinct();
    if fields != [] {
      MembersAreFields(o, fields[1..]);
      assert fields == [fields[0]] + fields[1..];
    }
  }

  lemma EveryFieldIsListed(f: FieldName)
    ensures f in ALL_FIELDS
  {
    var i := match f
      case SessionId => 0 case SourceId => 1 case StreamEpoch => 2 case SourceSequence => 3
      case ObservedMonotonicNs => 4 case ProducerId => 5 case ProducerVersion => 6 case SchemaId => 7
      case SchemaVersion => 8 case Payload => 9 case IdempotencyKey => 10 case TraceId => 11
      case Confidence => 12 case Provenance => 13 case SensitivityClass => 14 case PersistenceClass => 15
      case TtlNs => 16 case WallUtc => 17;
    assert ALL_FIELDS[i] == f;
  }

  predicate IsOptional(f: FieldName) {
    f in {Confidence, Provenance, SensitivityClass, PersistenceClass, TtlNs, WallUtc}
  }

  function Default(f: FieldName): Json
    requires IsOptional(f)
  {
    match f
    case SensitivityClass => JString("operational")
    case PersistenceClass => JString("routine")
    case Provenance => JArray([])
    case _ => JNull
  }

  /** The argument a field receives when a document's members are passed as keyword arguments. */
  function Argument(m: map<string, Json>, f: FieldName): Option<Json> {
    if NameOf(f) in m then Some(m[NameOf(f)]) else if IsOptional(f) then Some(Default(f)) else None
  }

  /** The JSON type that the constructor's type checks demand of a field. */
  predicate HasFieldType(f: FieldName, v: Json) {
    match f
    case StreamEpoch => v.JInt?
    case SourceSequence => v.JInt?
    case ObservedMonotonicNs => v.JInt?
    case SchemaVersion => v.JInt?
    case Payload => v.JObject?
    case Confidence => v.JNull? || v.JFloat?
    case Provenance => v.JArray? && (forall i :: 0 <= i < |v.items| ==> v.items[i].JString?)
    case TtlNs => v.JNull? || v.JInt?
    case WallUtc => v.JNull? || v.JString?
    case _ => v.JString?
  }

  /** No unknown member, no required field missing, every field of its type. */
  predicate Typed(m: map<string, Json>) {
    && (forall k :: k in m ==> exists f: FieldName :: k == NameOf(f))
    && (forall f: FieldName :: Argument(m, f).Some? && HasFieldType(f, Argument(m, f).value))
  }

  function TextArgument(a: Option<Json>): string {
    match a
    case Some(JString(s)) => s
    case _ => ""
  }

  function NumberArgument(a: Option<Json>): int {
    match a
    case Some(JInt(i)) => i
    case _ => 0
  }

  function ItemsArgument(a: Option<Json>): seq<Json> {
    match a
    case Some(JArray(items)) => items
    case _ => []
  }

  function MembersArgument(a: Option<Json>): map<string, Json> {
    match a
    case Some(JObject(members)) => members
    case _ => map[]
  }

  function FloatArgument(a: Option<Json>): Option<string> {
    match a
    case Some(JFloat(lexeme)) => Some(lexeme)
    case _ => None
  }

  predicate IsNull(a: Option<Json>) { a == Some(JNull) }

  function Texts(items: seq<Json>): seq<string> {
    seq(|items|, i requires 0 <= i < |items| => if items[i].JString? then items[i].s else "")
  }

  /** The envelope built from a document's members, once their types are known to be right. */
  function Rebuilt(argument: FieldName -> Option<Json>): Observation {
    Observation(
      TextArgument(argument(SessionId)), TextArgument(argument(SourceId)), NumberArgument(argument(StreamEpoch)),
      NumberArgument(argument(SourceSequence)), NumberArgument(argument(ObservedMonotonicNs)),
      TextArgument(argument(ProducerId)), TextArgument(argument(ProducerVersion)), TextArgument(argument(SchemaId)),
      NumberArgument(argument(SchemaVersion)), MembersArgument(argument(Payload)),
      TextArgument(argument(IdempotencyKey)), TextArgument(argument(TraceId)),
      FloatArgument(argument(Confidence)), Texts(ItemsArgument(argument(Provenance))),
      TextArgument(argument(SensitivityClass)), TextArgument(argument(PersistenceClass)),
      if IsNull(argument(TtlNs)) then None else Some(NumberArgument(argument(TtlNs))),
      if IsNull(argument(WallUtc)) then None else Some(TextArgument(argument(WallUtc))))
  }

  /** `ObservationEnvelope(**document)`. */
  function FromDocument(j: Json, unit: UnitTest): Option<Observation> {
    if !j.JObject? || !Typed(j.members) then None
    else
      var o := Rebuilt(f => Argument(j.members, f));
      if Valid(o, unit) then Some(o) else None
  }

  lemma DocumentArgument(o: Observation, f: FieldName)
    ensures Argument(DocumentOf(o), f) == Some(FieldValue(o, f))
    ensures HasFieldType(f, FieldValue(o, f))
  {
    MembersAreFields(o, ALL_FIELDS);
    EveryFieldIsListed(f);
  }

  lemma DocumentIsTyped(o: Observation)
    ensures Typed(DocumentOf(o))
  {
    MembersAreFields(o, ALL_FIELDS);
    forall f: FieldName ensures Argument(DocumentOf(o), f).Some? && HasFieldType(f, Argument(DocumentOf(o), f).value) {
      DocumentArgument(o, f);
    }
  }

  lemma RebuiltTexts(o: Observation, argument: FieldName -> Option<Json>)
    requires forall f: FieldName :: argument(f) == Some(FieldValue(o, f))
    ensures var r := Rebuilt(argument);
      && r.sessionId == o.sessionId && r.sourceId == o.sourceId && r.producerId == o.producerId
      && r.producerVersion == o.producerVersion && r.schemaId == o.schemaId
      && r.idempotencyKey == o.idempotencyKey && r.traceId == o.traceId
      && r.sensitivityClass == o.sensitivityClass && r.persistenceClass == o.persistenceClass
  {
  }

  lemma RebuiltNumbers(o: Observation, argument: FieldName -> Option<Json>)
    requires forall f: FieldName :: argument(f) == Some(FieldValue(o, f))
    ensures var r := Rebuilt(argument);
      && r.streamEpoch == o.streamEpoch && r.sourceSequence == o.sourceSequence
      && r.observedMonotonicNs == o.observedMonotonicNs && r.schemaVersion == o.schemaVersion
      && r.payload == o.payload
  {
  }

  lemma RebuiltOptions(o: Observation, argument: FieldName -> Option<Json>)
    requires forall f: FieldName :: argument(f) == Some(FieldValue(o, f))
    ensures var r := Rebuilt(argument);
      r.confidence == o.confidence && r.ttlNs == o.ttlNs && r.wallUtc == o.wallUtc
  {
    hide Texts, Strings, ItemsArgument, MembersArgument;
  }

  lemma RebuiltProvenance(o: Observation, argument: FieldName -> Option<Json>)
    requires forall f: FieldName :: argument(f) == Some(FieldValue(o, f))
    ensures Rebuilt(argument).provenance == o.provenance
  {
    TextsOfStrings(o.provenance);
    hide Texts, Strings, TextArgument, NumberArgument, FloatArgument, MembersArgument;
  }

  lemma RebuiltFromArguments(o: Observation, argument: FieldName -> Option<Json>)
    requires forall f: FieldName :: argument(f) == Some(FieldValue(o, f))
    ensures Rebuilt(argument) == o
  {
    RebuiltTexts(o, argument);
    RebuiltNumbers(o, argument);
    RebuiltOptions(o, argument);
    RebuiltProvenance(o, argument);
  }

  lemma TextsOfStrings(texts: seq<string>)
    ensures Texts(Strings(texts)) == texts
  {
  }

  lemma RebuiltFromOwnDocument(o: Observation)
    ensures Rebuilt(f => Argument(DocumentOf(o), f)) == o
  {
    forall f: FieldName ensures Argument(DocumentOf(o), f) == Some(FieldValue(o, f)) { DocumentArgument(o, f); }
    RebuiltFromArguments(o, f => Argument(DocumentOf(o), f));
  }

  lemma DocumentIsWellFormed(o: Observation, unit: UnitTest)
    requires Valid(o, unit)
    ensures WellFormed(JObject(DocumentOf(o)))
  {
    MembersAreFields(o, ALL_FIELDS);
    forall k | k in DocumentOf(o) ensures WellFormed(DocumentOf(o)[k]) {
      var f: FieldName :| k == NameOf(f);
      DocumentArgument(o, f);
      FieldIsWellFormed(o, f, unit);
    }
  }

  lemma FieldIsWellFormed(o: Observation, f: FieldName, unit: UnitTest)
    requires Valid(o, unit)
    ensures WellFormed(FieldValue(o, f))
  {
    hide Admissible, TreeOf, IsFloatLexeme, NonEmpty, SortedKeys;
    match f
    case Payload =>
    case _ =>
  }

  /** The canonical bytes of an observation. */
  function Encoding(o: Observation): Bytes {
    Document(JObject(DocumentOf(o)))
  }

  /** Loading an observation's bytes and rebuilding the envelope gives the observation back. */
  lemma EncodingRoundTrip(o: Observation, unit: UnitTest)
    requires Valid(o, unit)
    ensures Loads(Encoding(o)) == Some(JObject(DocumentOf(o)))
    ensures FromDocument(JObject(DocumentOf(o)), unit) == Some(o)
  {
    DocumentIsWellFormed(o, unit);
    LoadsUndoesDocument(JObject(DocumentOf(o)));
    DocumentIsTyped(o);
    RebuiltFromOwnDocument(o);
  }

  /** Observations with equal bytes are equal. */
  lemma EncodingIsInjective(o: Observation, p: Observation, unit: UnitTest)
    requires Valid(o, unit) && Valid(p, unit)
    ensures Encoding(o) == Encoding(p) <==> o == p
  {
    EncodingRoundTrip(o, unit);
    EncodingRoundTrip(p, unit);
  }
}
