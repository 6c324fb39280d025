/** Reading a row back: every check of the row decoder, and which rows pass them all. */
module RowCodec {
  import opened Common
  import CanonicalJson
  import opened Observations
  import opened BoundedEncoding
  import opened StoreTable
  import opened SqliteStore
  import opened SqliteStoreProofs
  import opened Utf8

  /** A store that encodes envelopes canonically and is handed only envelopes that exist. */
  ghost predicate Canonical(c: Config, unit: UnitTest) {
    && (forall o :: c.encode(o) == Observations.Encoding(o))
    && (forall o :: c.valid(o) ==> Valid(o, unit))
  }

  predicate BoundedText(s: string, maximum: nat) { 1 <= |s| <= maximum }

  /** The checks of a row's own columns. */
  predicate ColumnsAreSound(c: Config, sequence: nat, row: Row) {
    && 1 <= sequence <= MAX_INT64
    && BoundedText(row.key, 256) && BoundedText(row.sessionId, 256)
    && InRange(row.observedNs, 0) && InRange(row.storedNs, 0) && InRange(row.expiresNs, 0)
    && BoundedText(row.persistenceClass, 32) && BoundedText(row.sensitivityClass, 32)
    && |row.digest| == 32
    && 1 <= row.logicalBytes <= MAX_INT64
    && |row.document| <= c.maxObservationBytes
    && row.expiresNs >= row.storedNs
    && row.logicalBytes == |row.document|
    && c.hash(row.document) == row.digest
  }

  /** The columns repeat what the reconstructed envelope says. */
  predicate MatchesEnvelope(row: Row, o: Observation) {
    && o.idempotencyKey == row.key && o.sessionId == row.sessionId
    && o.observedMonotonicNs == row.observedNs
    && o.persistenceClass == row.persistenceClass && o.sensitivityClass == row.sensitivityClass
    && o.ttlNs.Some? && row.storedNs + o.ttlNs.value == row.expiresNs
  }

  /** `_decode_row`; None stands for an integrity error. */
  function DecodeRow(c: Config, unit: UnitTest, sequence: nat, row: Row): Option<Observation> {
    if !ColumnsAreSound(c, sequence, row) then None
    else
      var document := Loads(row.document);
      if document.None? then None
      else
        var o := FromDocument(document.value, unit);
        if o.None? then None
        else if |c.encode(o.value)| > c.maxObservationBytes || c.encode(o.value) != row.document then None
        else if !MatchesEnvelope(row, o.value) then None
        else o
  }

  lemma ValidTexts(o: Observation, unit: UnitTest)
    requires Valid(o, unit)
    ensures BoundedText(o.idempotencyKey, 256) && BoundedText(o.sessionId, 256)
    ensures BoundedText(o.persistenceClass, 32) && BoundedText(o.sensitivityClass, 32)
    ensures InRange(o.observedMonotonicNs, 0) && (o.ttlNs.Some? ==> InRange(o.ttlNs.value, 1))
  {
  }

  lemma WrittenColumnsAreSound(c: Config, unit: UnitTest, sequence: nat, o: Observation, nowNs: int)
    requires ValidConfig(c) && Valid(o, unit) && o.ttlNs.Some? && ExpiryFits(o, nowNs)
    requires 1 <= |c.encode(o)| <= Min(c.maxObservationBytes, MAX_INT64) && 1 <= sequence <= MAX_INT64
    ensures ColumnsAreSound(c, sequence, RowOf(c, o, nowNs))
  {
    ValidTexts(o, unit);
  }

  lemma DecodeByParts(c: Config, unit: UnitTest, sequence: nat, row: Row, document: CanonicalJson.Json, o: Observation)
    requires ColumnsAreSound(c, sequence, row)
    requires Loads(row.document) == Some(document) && FromDocument(document, unit) == Some(o)
    requires c.encode(o) == row.document && MatchesEnvelope(row, o)
    ensures DecodeRow(c, unit, sequence, row) == Some(o)
  {
  }

  /** A row written by an accepted `put` passes every check and gives back the observation that was put. */
  lemma WrittenRowDecodes(c: Config, unit: UnitTest, sequence: nat, row: Row, o: Observation, nowNs: int)
    requires ValidConfig(c) && Canonical(c, unit) && RowFor(c, row, o, nowNs)
    requires 1 <= sequence <= MAX_INT64 && row.logicalBytes <= c.maxLogicalBytes
    ensures DecodeRow(c, unit, sequence, row) == Some(o)
  {
    assert |c.encode(o)| >= 1 && row.logicalBytes == |c.encode(o)|;
    WrittenColumnsAreSound(c, unit, sequence, o, nowNs);
    EncodingRoundTrip(o, unit);
    assert c.encode(o) == Observations.Encoding(o);
    DecodeByParts(c, unit, sequence, row, CanonicalJson.JObject(DocumentOf(o)), o);
  }

  /** A row that passes every check is, column by column, the row an accepted `put` of its observation writes. */
  lemma DecodedRowWasWritten(c: Config, unit: UnitTest, sequence: nat, row: Row)
    requires DecodeRow(c, unit, sequence, row).Some?
    ensures var o := DecodeRow(c, unit, sequence, row).value;
      Valid(o, unit) && o.ttlNs.Some? && row == RowOf(c, o, row.storedNs)
  {
  }

  lemma RowFitsTotal(rows: Rows, k: nat)
    requires Positive(rows) && k in rows
    ensures rows[k].logicalBytes <= TotalBytes(rows)
  {
    TotalWithout(rows, k);
    TotalIsBounded(rows - {k});
  }

  /** Every row of a wholesome file decodes. */
  lemma WholesomeRowsDecode(c: Config, unit: UnitTest, t: Table, k: nat)
    requires ValidConfig(c) && Canonical(c, unit) && Wholesome(c, t) && k in t.rows
    ensures DecodeRow(c, unit, k, t.rows[k]).Some?
  {
    var o, nowNs :| RowFor(c, t.rows[k], o, nowNs);
    RowFitsTotal(t.rows, k);
    WrittenRowDecodes(c, unit, k, t.rows[k], o, nowNs);
  }
}
