/** The replay's source and processor: a small frame for each sequence number, and the digest observation of each. */
module DigestProcessor {
  import opened Common
  import opened CanonicalJson
  import opened JsonParser
  import opened JsonRoundTrip
  import opened JsonSize
  import opened Utf8
  import opened BoundedEncoding
  import opened Observations
  import opened Replay

  const FRAME_BYTES: nat := 64
  const SOURCE_ID := "synthetic"
  const TTL_NS: nat := 300_000_000_000

  /** CRC-32 of a payload, any function of its bytes; what is used of it are its low 32 bits. */
  type Checksum = seq<Byte> -> nat

  function FramePayload(sequence: nat): (payload: seq<Byte>)
    ensures |payload| == FRAME_BYTES
  {
    seq(FRAME_BYTES, offset requires 0 <= offset < FRAME_BYTES => ((sequence * 31 + offset * 13) % 256) as Byte)
  }

  function ByteSum(payload: seq<Byte>): nat {
    if payload == [] then 0 else ByteSum(payload[..|payload| - 1]) + payload[|payload| - 1] as nat
  }

  function Crc(c: Checksum, sequence: nat): nat { c(FramePayload(sequence)) % 0x1_0000_0000 }

  /** `08x` formatting. */
  function Hex(n: nat, digits: nat): (s: string)
    ensures |s| == digits
    decreases digits
  {
    if digits == 0 then "" else Hex(n / 16, digits - 1) + [HexDigit(n % 16)]
  }

  function FrameIdentity(c: Checksum, sequence: nat): string {
    SOURCE_ID + ":0:" + (Digits(sequence) + (":" + Hex(Crc(c, sequence), 8)))
  }

  function SessionOf(mode: Mode): string {
    if mode.Faithful? then "synthetic-faithful-v1" else "synthetic-exhaustive-v1"
  }

  datatype PayloadField = ByteCount | ByteTotal | Crc32 | Crc32Hex | PixelFormat

  function PayloadName(f: PayloadField): string {
    match f
    case ByteCount => "byte_count"
    case ByteTotal => "byte_sum"
    case Crc32 => "crc32"
    case Crc32Hex => "crc32_hex"
    case PixelFormat => "pixel_format"
  }

  function PayloadValue(c: Checksum, sequence: nat, f: PayloadField): Json {
    match f
    case ByteCount => JInt(FRAME_BYTES)
    case ByteTotal => JInt(ByteSum(FramePayload(sequence)))
    case Crc32 => JInt(Crc(c, sequence))
    case Crc32Hex => JString(Hex(Crc(c, sequence), 8))
    case PixelFormat => JString("GRAY8")
  }

  function DigestPayload(c: Checksum, sequence: nat): map<string, Json> {
    map["byte_count" := PayloadValue(c, sequence, ByteCount), "byte_sum" := PayloadValue(c, sequence, ByteTotal),
        "crc32" := PayloadValue(c, sequence, Crc32), "crc32_hex" := PayloadValue(c, sequence, Crc32Hex),
        "pixel_format" := PayloadValue(c, sequence, PixelFormat)]
  }

  /** `DeterministicProcessor.process` on the frame of a sequence number. */
  function Process(c: Checksum, mode: Mode, sequence: nat): Observation {
    Observation(
      SessionOf(mode), SOURCE_ID, 0, sequence, sequence * FRAME_INTERVAL_NS,
      "viskium.deterministic.crc32", "1", "viskium.synthetic.digest", 1, DigestPayload(c, sequence),
      "digest:" + FrameIdentity(c, sequence), "synthetic:" + FrameIdentity(c, sequence),
      Some("1.0"), ["frame:" + SOURCE_ID + ":0:" + Digits(sequence)], "operational", "routine", Some(TTL_NS), None)
  }

  // ---- one key for each frame ------------------------------------------------------------

  lemma PrefixIsSame(prefix: string, a: string, b: string)
    requires prefix + a == prefix + b
    ensures a == b
  {
    assert (prefix + a)[|prefix|..] == a && (prefix + b)[|prefix|..] == b;
  }

  /** The key of a frame tells its sequence number, whatever the checksums. */
  lemma KeysAreDistinct(c: Checksum, mode: Mode, i: nat, j: nat)
    requires Process(c, mode, i).idempotencyKey == Process(c, mode, j).idempotencyKey
    ensures i == j
  {
    var restI, restJ := ":" + Hex(Crc(c, i), 8), ":" + Hex(Crc(c, j), 8);
    PrefixIsSame("digest:", FrameIdentity(c, i), FrameIdentity(c, j));
    PrefixIsSame(SOURCE_ID + ":0:", Digits(i) + restI, Digits(j) + restJ);
    hide Digits, Hex, ParseNumber;
    IntRoundTrip(i, restI);
    IntRoundTrip(j, restJ);
  }

  // ---- documents within the allowance ------------------------------------------------------

  lemma HexIsPlain(n: nat, digits: nat)
    ensures Plain(Hex(n, digits))
    decreases digits
  {
    assert forall i :: 0 <= i < 16 ==> Plain([HexDigit(i)]);
    if digits > 0 {
      HexIsPlain(n / 16, digits - 1);
      PlainAppends(Hex(n / 16, digits - 1), [HexDigit(n % 16)]);
    }
  }

  lemma PlainAppends(a: string, b: string)
    requires Plain(a) && Plain(b)
    ensures Plain(a + b)
  {
  }

  lemma {:induction false} ByteSumIsBounded(payload: seq<Byte>)
    ensures ByteSum(payload) <= 255 * |payload|
    decreases |payload|
  {
    if payload != [] { ByteSumIsBounded(payload[..|payload| - 1]); }
  }

  lemma PowersOfTen()
    ensures PowerOfTen(2) == 100 && PowerOfTen(5) == 100_000 && PowerOfTen(10) == 10_000_000_000
    ensures PowerOfTen(12) == 1_000_000_000_000
  {
    assert PowerOfTen(2) == 100;
    assert PowerOfTen(5) == 100_000;
    HundredTimes(5, 100_000);
    assert PowerOfTen(8) == 10 * PowerOfTen(7);
    HundredTimes(8, 100_000_000);
    HundredTimes(10, 10_000_000_000);
  }

  const PAYLOAD_MEMBER: nat := 24

  lemma PayloadMemberBytes(c: Checksum, sequence: nat, f: PayloadField)
    ensures |Encode(Quote(PayloadName(f)))| + |Encode(Text(PayloadValue(c, sequence, f)))| + 2 <= PAYLOAD_MEMBER
  {
    hide Encode, Text, Quote, Digits;
    PowersOfTen();
    PlainBytes(PayloadName(f));
    match f
    case ByteCount => DigitsBytes(FRAME_BYTES, 2);
    case ByteTotal =>
      ByteSumIsBounded(FramePayload(sequence));
      DigitsBytes(ByteSum(FramePayload(sequence)), 5);
    case Crc32 => DigitsBytes(Crc(c, sequence), 10);
    case Crc32Hex =>
      HexIsPlain(Crc(c, sequence), 8);
      PlainBytes(Hex(Crc(c, sequence), 8));
    case PixelFormat => PlainBytes("GRAY8");
  }

  lemma PayloadKeys(c: Checksum, sequence: nat)
    ensures |DigestPayload(c, sequence).Keys| == 5
    ensures forall k :: k in DigestPayload(c, sequence) ==> NamesOne(c, sequence, k)
  {
    var m := DigestPayload(c, sequence);
    hide PayloadValue;
    assert |"byte_count"| == 10 && |"byte_sum"| == 8 && |"crc32"| == 5 && |"crc32_hex"| == 9 && |"pixel_format"| == 12;
    assert m.Keys == {"byte_count", "byte_sum", "crc32", "crc32_hex", "pixel_format"};
    forall k | k in m ensures NamesOne(c, sequence, k) {
      var f := if k == "byte_count" then ByteCount else if k == "byte_sum" then ByteTotal
               else if k == "crc32" then Crc32 else if k == "crc32_hex" then Crc32Hex else PixelFormat;
      assert k == PayloadName(f) && m[k] == PayloadValue(c, sequence, f);
    }
  }

  ghost predicate NamesOne(c: Checksum, sequence: nat, k: string) {
    k in DigestPayload(c, sequence)
    && exists f: PayloadField :: k == PayloadName(f) && DigestPayload(c, sequence)[k] == PayloadValue(c, sequence, f)
  }

  lemma PayloadBytes(c: Checksum, sequence: nat)
    ensures |Encode(Text(JObject(DigestPayload(c, sequence))))| <= 5 * PAYLOAD_MEMBER + 2
  {
    hide Encode, Text, Quote, PrintMembers, PayloadValue, PayloadName, DigestPayload;
    var v := JObject(DigestPayload(c, sequence));
    var keys := SortedKeys(v.members.Keys);
    PayloadKeys(c, sequence);
    forall k | k in keys ensures |Encode(Quote(k))| + |Encode(Text(v.members[k]))| + 2 <= PAYLOAD_MEMBER {
      assert NamesOne(c, sequence, k);
      var f: PayloadField :| k == PayloadName(f) && v.members[k] == PayloadValue(c, sequence, f);
      PayloadMemberBytes(c, sequence, f);
    }
    SortedKeysAreDistinct(v.members.Keys);
    MembersBytes(v, keys, "", PAYLOAD_MEMBER, "", 0);
    ObjectBytes(v, keys, "");
    assert Text(v) + "" == Text(v);
    assert |Encode("")| == 0 by { AsciiBytes(""); }
  }

  const DOCUMENT_MEMBER: nat := 90
  const PAYLOAD_EXTRA: nat := 60

  lemma IdentityIsShort(c: Checksum, sequence: nat)
    requires sequence < 100_000
    ensures Plain(FrameIdentity(c, sequence)) && |FrameIdentity(c, sequence)| <= 30
    ensures Plain("frame:" + SOURCE_ID + ":0:" + Digits(sequence))
    ensures |"frame:" + SOURCE_ID + ":0:" + Digits(sequence)| <= 30
  {
    PowersOfTen();
    DigitsBytes(sequence, 5);
    HexIsPlain(Crc(c, sequence), 8);
    SourceIsPlain();
    hide Digits, Hex, Encode, Text, Plain;
    var digits, hex := Digits(sequence), Hex(Crc(c, sequence), 8);
    PlainAppends(":", hex);
    PlainAppends(digits, ":" + hex);
    PlainAppends(SOURCE_ID + ":0:", digits + (":" + hex));
    PlainAppends("frame:" + SOURCE_ID + ":0:", digits);
  }

  lemma SourceIsPlain()
    ensures Plain(SOURCE_ID) && Plain(":") && Plain(SOURCE_ID + ":0:") && Plain("frame:" + SOURCE_ID + ":0:")
  {
    PlainAppends(SOURCE_ID, ":0:");
    PlainAppends("frame:", SOURCE_ID);
    PlainAppends("frame:" + SOURCE_ID, ":0:");
  }

  lemma PlainNames0(f: FieldName)
    requires f in {SessionId, SourceId, StreamEpoch, SourceSequence}
    ensures Plain(NameOf(f)) && |NameOf(f)| <= 21
  {
  }

  lemma PlainNames1(f: FieldName)
    requires f in {ObservedMonotonicNs, ProducerId, ProducerVersion}
    ensures Plain(NameOf(f)) && |NameOf(f)| <= 21
  {
  }

  lemma PlainNames2(f: FieldName)
    requires f in {SchemaId, SchemaVersion, Payload, IdempotencyKey}
    ensures Plain(NameOf(f)) && |NameOf(f)| <= 21
  {
  }

  lemma PlainNames3(f: FieldName)
    requires f in {TraceId, Confidence, Provenance, TtlNs, WallUtc}
    ensures Plain(NameOf(f)) && |NameOf(f)| <= 21
  {
  }

  lemma PlainNames4(f: FieldName)
    requires f in {SensitivityClass, PersistenceClass}
    ensures Plain(NameOf(f)) && |NameOf(f)| <= 21
  {
  }

  lemma NamesArePlain(f: FieldName)
    ensures Plain(NameOf(f)) && |NameOf(f)| <= 21
  {
    hide Plain, NameOf;
    if f in {SessionId, SourceId, StreamEpoch, SourceSequence} {
      PlainNames0(f);
    } else if f in {ObservedMonotonicNs, ProducerId, ProducerVersion} {
      PlainNames1(f);
    } else if f in {SchemaId, SchemaVersion, Payload, IdempotencyKey} {
      PlainNames2(f);
    } else if f in {TraceId, Confidence, Provenance, TtlNs, WallUtc} {
      PlainNames3(f);
    } else {
      PlainNames4(f);
    }
  }

  lemma ProducerBytes()
    ensures |Encode(Text(JString("viskium.deterministic.crc32")))| == 29
  {
    hide Encode, Text, Quote;
    PlainBytes("viskium.deterministic.crc32");
  }

  lemma SchemaBytes()
    ensures |Encode(Text(JString("viskium.synthetic.digest")))| == 26
  {
    hide Encode, Text, Quote;
    PlainBytes("viskium.synthetic.digest");
  }

  lemma ClassBytes()
    ensures |Encode(Text(JString("operational")))| == 13
    ensures |Encode(Text(JString("routine")))| == 9
  {
    hide Encode, Text, Quote;
    PlainBytes("operational");
    PlainBytes("routine");
  }

  lemma SessionBytes(mode: Mode)
    ensures |Encode(Text(JString(SessionOf(mode))))| <= 25
  {
    hide Encode, Text, Quote;
    PlainBytes(SessionOf(mode));
  }

  lemma SourceBytes()
    ensures |Encode(Text(JString(SOURCE_ID)))| == 11 && |Encode(Text(JString("1")))| == 3
  {
    hide Encode, Text, Quote;
    PlainBytes(SOURCE_ID);
    PlainBytes("1");
  }

  /** The text fields whose values do not depend on the frame. */
  lemma FixedTextBytes(c: Checksum, mode: Mode, sequence: nat, f: FieldName)
    requires f in {SessionId, SourceId, ProducerId, ProducerVersion, SchemaId, SensitivityClass, PersistenceClass}
    ensures |Encode(Text(FieldValue(Process(c, mode, sequence), f)))| <= 29
  {
    SessionBytes(mode);
    SourceBytes();
    ProducerBytes();
    SchemaBytes();
    ClassBytes();
    hide Encode, Text, SessionOf, DigestPayload, FrameIdentity, Digits;
  }

  lemma FixedNumberBytes(c: Checksum, mode: Mode, sequence: nat, f: FieldName)
    requires sequence < 100_000
    requires f in {StreamEpoch, SourceSequence, ObservedMonotonicNs, SchemaVersion, TtlNs}
    ensures |Encode(Text(FieldValue(Process(c, mode, sequence), f)))| <= 19
  {
    hide Encode, Text;
    match f
    case StreamEpoch => IntBytes(0);
    case SourceSequence => IntBytes(sequence);
    case ObservedMonotonicNs => IntBytes(sequence * FRAME_INTERVAL_NS);
    case SchemaVersion => IntBytes(1);
    case TtlNs => IntBytes(TTL_NS);
  }

  lemma KeyPrefixesArePlain()
    ensures Plain("digest:") && Plain("synthetic:")
  {
  }

  lemma KeyBytes(c: Checksum, mode: Mode, sequence: nat, f: FieldName)
    requires sequence < 100_000 && (f.IdempotencyKey? || f.TraceId?)
    ensures |Encode(Text(FieldValue(Process(c, mode, sequence), f)))| <= 50
  {
    KeyPrefixesArePlain();
    hide Encode, Text, FrameIdentity, Plain, DigestPayload;
    IdentityIsShort(c, sequence);
    PlainAppends("digest:", FrameIdentity(c, sequence));
    PlainAppends("synthetic:", FrameIdentity(c, sequence));
    if f.IdempotencyKey? {
      PlainBytes("digest:" + FrameIdentity(c, sequence));
    } else {
      PlainBytes("synthetic:" + FrameIdentity(c, sequence));
    }
  }

  lemma ProvenanceBytes(c: Checksum, sequence: nat)
    requires sequence < 100_000
    ensures |Encode(Text(JArray(Strings(["frame:" + SOURCE_ID + ":0:" + Digits(sequence)]))))| <= 50
  {
    hide Encode, Text, PrintItems, Digits;
    IdentityIsShort(c, sequence);
    var entry := "frame:" + SOURCE_ID + ":0:" + Digits(sequence);
    PlainBytes(entry);
    var items := Strings([entry]);
    assert items == [JString(entry)];
    ArrayBytes(items);
    ItemBytes(items);
  }

  lemma LiteralBytes()
    ensures |Encode(Text(JFloat("1.0")))| == 3 && |Encode(Text(JNull))| == 4
  {
    TextIsPrint(JFloat("1.0"), "");
    TextIsPrint(JNull, "");
    assert Text(JFloat("1.0")) + "" == Text(JFloat("1.0")) && Text(JNull) + "" == Text(JNull);
    assert "1.0" + "" == "1.0" && "null" + "" == "null";
    AsciiBytes("1.0");
    AsciiBytes("null");
  }

  lemma FieldBytes(c: Checksum, mode: Mode, sequence: nat, f: FieldName)
    requires sequence < 100_000
    ensures
      |Encode(Quote(NameOf(f)))| + |Encode(Text(FieldValue(Process(c, mode, sequence), f)))| + 2 <=
        DOCUMENT_MEMBER + if f.Payload? then PAYLOAD_EXTRA else 0
  {
    hide Encode, Text, Quote, Digits, FrameIdentity, DigestPayload, Plain, NameOf;
    NamesArePlain(f);
    PlainBytes(NameOf(f));
    LiteralBytes();
    match f
    case Payload => PayloadBytes(c, sequence);
    case Provenance => ProvenanceBytes(c, sequence);
    case Confidence =>
    case WallUtc =>
    case IdempotencyKey => KeyBytes(c, mode, sequence, f);
    case TraceId => KeyBytes(c, mode, sequence, f);
    case _ =>
      if f in {StreamEpoch, SourceSequence, ObservedMonotonicNs, SchemaVersion, TtlNs} {
        FixedNumberBytes(c, mode, sequence, f);
      } else {
        FixedTextBytes(c, mode, sequence, f);
      }
  }

  lemma {:induction false} MemberCount(o: Observation, fields: seq<FieldName>)
    ensures |Members(o, fields).Keys| <= |fields|
    decreases |fields|
  {
    if fields != [] {
      MemberCount(o, fields[1..]);
      var more := Members(o, fields[1..]);
      var m := more[NameOf(fields[0]) := FieldValue(o, fields[0])];
      assert m.Keys == more.Keys + {NameOf(fields[0])};
    }
  }

  /** The document of every digest observation fits in what the replay's store allows for each frame. */
  lemma DocumentBytes(c: Checksum, mode: Mode, sequence: nat)
    requires sequence < 100_000
    ensures |Observations.Encoding(Process(c, mode, sequence))| <= 18 * DOCUMENT_MEMBER + PAYLOAD_EXTRA + 2
  {
    hide Encode, Text, Quote, PrintMembers, Members, FieldValue, Process, NameOf;
    var o := Process(c, mode, sequence);
    var v := JObject(DocumentOf(o));
    var keys := SortedKeys(v.members.Keys);
    MemberCount(o, ALL_FIELDS);
    MembersAreFields(o, ALL_FIELDS);
    assert |keys| <= 18;
    forall k | k in keys
      ensures |Encode(Quote(k))| + |Encode(Text(v.members[k]))| + 2 <=
              DOCUMENT_MEMBER + if k == NameOf(Payload) then PAYLOAD_EXTRA else 0
    {
      var f: FieldName :| k == NameOf(f);
      FieldBytes(c, mode, sequence, f);
    }
    SortedKeysAreDistinct(v.members.Keys);
    MembersBytes(v, keys, "", DOCUMENT_MEMBER, NameOf(Payload), PAYLOAD_EXTRA);
    ObjectBytes(v, keys, "");
    assert Text(v) + "" == Text(v);
    assert |Encode("")| == 0 by { AsciiBytes(""); }
  }
}
