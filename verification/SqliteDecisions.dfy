/** Which answer a `put` or a purge comes to, in terms of the limits, the clock, the volume, the file and the faults. */
module SqliteDecisions {
  import opened Common
  import opened Observations
  import opened StoreTable
  import opened SqliteStore
  import opened SqliteStoreProofs
  import opened Utf8

  // ---- how far a put gets --------------------------------------------------------------

  ghost predicate Known(rows: Rows, key: string) { exists k :: k in rows && rows[k].key == key }

  /** The file a put finds in its transaction. */
  function FileOf(s: Store, env: PutEnv): Table { if env.other.Some? then env.other.value else s.committed }

  /** An observation that may be stored at all. */
  predicate Permitted(c: Config, o: Observation) {
    && o.ttlNs.Some? && o.sensitivityClass != "prohibited" && o.persistenceClass != "visual"
    && |c.encode(o)| <= c.maxObservationBytes
  }

  ghost predicate IsNew(c: Config, s: Store, o: Observation, env: PutEnv) {
    Permitted(c, o) && env.faults.lookup.None? && !Known(s.committed.rows, o.idempotencyKey)
  }

  ghost predicate IsDated(c: Config, s: Store, o: Observation, env: PutEnv) {
    IsNew(c, s, o, env) && 0 <= env.nowNs <= MAX_INT64 && env.nowNs + o.ttlNs.value <= MAX_INT64
  }

  predicate VolumeKnown(env: PutEnv) { env.freeBytes.Some? && 0 <= env.freeBytes.value <= MAX_INT64 }

  ghost predicate HasVolume(c: Config, s: Store, o: Observation, env: PutEnv) {
    && IsDated(c, s, o, env) && VolumeKnown(env)
    && env.freeBytes.value - |c.encode(o)| >= c.volumeReserveBytes
  }

  /** In its transaction the put still finds no row with its key. */
  ghost predicate IsStillNew(c: Config, s: Store, o: Observation, env: PutEnv) {
    && HasVolume(c, s, o, env) && env.faults.begin.None? && env.faults.recheck.None?
    && !Known(FileOf(s, env).rows, o.idempotencyKey)
  }

  ghost predicate IsCounted(c: Config, s: Store, o: Observation, env: PutEnv) {
    && IsStillNew(c, s, o, env) && env.faults.readState.None?
    && FileOf(s, env).rowCount == s.rowCount && FileOf(s, env).logicalBytes == s.logicalBytes
  }

  ghost predicate HasNumber(c: Config, s: Store, o: Observation, env: PutEnv) {
    IsCounted(c, s, o, env) && FileOf(s, env).nextSequence < MAX_INT64
  }

  predicate FitsRows(c: Config, rowCount: int) { rowCount + 1 <= c.maxRows }

  predicate FitsBytes(c: Config, logicalBytes: int, size: nat) { logicalBytes + size <= c.maxLogicalBytes }

  /** The rows left when the first expired ones are gone. */
  function Rest(c: Config, t: Table, nowNs: int): Rows { DeleteIn(t.rows, SelectExpired(t.rows, nowNs, c.maxPurgeRows)) }

  /** There is no room as the file is, and the first expired rows have been deleted, if there are any. */
  ghost predicate HasReclaimed(c: Config, s: Store, o: Observation, env: PutEnv) {
    var t := FileOf(s, env);
    && HasNumber(c, s, o, env) && !(FitsRows(c, t.rowCount) && FitsBytes(c, t.logicalBytes, |c.encode(o)|))
    && env.faults.select.None? && (AnyExpired(t.rows, env.nowNs) && c.maxPurgeRows > 0 ==> env.faults.delete.None?)
  }

  ghost predicate HasRoom(c: Config, s: Store, o: Observation, env: PutEnv) {
    var t, size := FileOf(s, env), |c.encode(o)|;
    || (HasNumber(c, s, o, env) && FitsRows(c, t.rowCount) && FitsBytes(c, t.logicalBytes, size))
    || (HasReclaimed(c, s, o, env)
        && FitsRows(c, |Rest(c, t, env.nowNs)|) && FitsBytes(c, TotalBytes(Rest(c, t, env.nowNs)), size))
  }

  predicate Written(f: Faults) { f.insert.None? && f.update.None? && f.commit.None? }

  // ---- what a put answers ----------------------------------------------------------------

  /** The rejections before the file is looked at. */
  ghost predicate DecidesForm(c: Config, o: Observation, r: Receipt) {
    && (r == Refuse(Rejected, TtlRequired) <==> o.ttlNs.None?)
    && (r == Refuse(Rejected, ProhibitedContent) <==> o.ttlNs.Some? && o.sensitivityClass == "prohibited")
    && (r == Refuse(Rejected, VisualPersistenceDisabled) <==>
          o.ttlNs.Some? && o.sensitivityClass != "prohibited" && o.persistenceClass == "visual")
    && (r == Refuse(Rejected, ObservationExceedsByteLimit) <==>
          && o.ttlNs.Some? && o.sensitivityClass != "prohibited" && o.persistenceClass != "visual"
          && |c.encode(o)| > c.maxObservationBytes)
  }

  /** The rejections by the clock and the volume. */
  ghost predicate DecidesOutside(c: Config, s: Store, o: Observation, env: PutEnv, r: Receipt) {
    && (r == Refuse(Rejected, ExpiryOutOfRange) <==> IsNew(c, s, o, env) && !IsDated(c, s, o, env))
    && (r == Refuse(Failed, VolumeSpaceUnavailable) <==> IsDated(c, s, o, env) && !VolumeKnown(env))
    && (r == Refuse(Rejected, VolumeReserveReached) <==>
          && IsDated(c, s, o, env) && VolumeKnown(env)
          && env.freeBytes.value - |c.encode(o)| < c.volumeReserveBytes)
  }

  /** A row with the key of the observation answers for it. */
  ghost predicate AnsweredBy(c: Config, rows: Rows, o: Observation, r: Receipt) {
    exists k :: k in rows && rows[k].key == o.idempotencyKey
      && r == if rows[k].digest == c.hash(c.encode(o)) then Receipt(Coalesced, Some(DuplicateIdempotencyKey), Some(k), 0)
              else Receipt(Rejected, Some(IdempotencyConflict), Some(k), 0)
  }

  predicate SpeaksOfKey(r: Receipt) {
    r.status == Coalesced || r.reason == Some(DuplicateIdempotencyKey) || r.reason == Some(IdempotencyConflict)
  }

  /** Duplicates, seen at once or only in the transaction. */
  ghost predicate DecidesKey(c: Config, s: Store, o: Observation, env: PutEnv, r: Receipt) {
    var f := env.faults;
    var atOnce := Permitted(c, o) && f.lookup.None? && Known(s.committed.rows, o.idempotencyKey);
    var later := HasVolume(c, s, o, env) && f.begin.None? && f.recheck.None? && f.rollback.None?
                 && Known(FileOf(s, env).rows, o.idempotencyKey);
    && (SpeaksOfKey(r) <==> atOnce || later)
    && (atOnce ==> AnsweredBy(c, s.committed.rows, o, r))
    && (later ==> AnsweredBy(c, FileOf(s, env).rows, o, r))
  }

  /** The ends of a transaction that found no row with the key. */
  ghost predicate DecidesInside(c: Config, s: Store, o: Observation, env: PutEnv, r: Receipt) {
    var t, f, size := FileOf(s, env), env.faults, |c.encode(o)|;
    && (r == Refuse(Failed, RecordIntegrityError) <==>
          IsStillNew(c, s, o, env) && f.readState.None? && !IsCounted(c, s, o, env) && f.rollback.None?)
    && (r == Refuse(Failed, SequenceExhausted) <==>
          IsCounted(c, s, o, env) && t.nextSequence == MAX_INT64 && f.rollback.None?)
    && (r == Refuse(Rejected, CountLimitReached) <==>
          HasReclaimed(c, s, o, env) && !FitsRows(c, |Rest(c, t, env.nowNs)|) && f.rollback.None?)
    && (r == Refuse(Rejected, LogicalByteLimitReached) <==>
          && HasReclaimed(c, s, o, env) && FitsRows(c, |Rest(c, t, env.nowNs)|)
          && !FitsBytes(c, TotalBytes(Rest(c, t, env.nowNs)), size) && f.rollback.None?)
    && (r.status == Accepted <==> HasRoom(c, s, o, env) && Written(f))
    && (r.status == Accepted ==> r == Receipt(Accepted, None, Some(t.nextSequence), size))
  }

  /** A healthy store's answer. */
  ghost predicate Decides(c: Config, s: Store, o: Observation, env: PutEnv, r: Receipt) {
    && DecidesForm(c, o, r) && DecidesOutside(c, s, o, env, r) && DecidesKey(c, s, o, env, r)
    && DecidesInside(c, s, o, env, r)
  }

  /** It becomes read-only exactly when the put fails for anything but a busy database or an unknown volume, and then
      for the very reason it reports. */
  ghost predicate LatchesAsReported(s': Store, r: Receipt) {
    && (s'.condition.Healthy? <==>
          r.status != Failed || r.reason == Some(SqliteBusy) || r.reason == Some(VolumeSpaceUnavailable))
    && (!s'.condition.Healthy? ==> s'.condition.ReadOnly? && s'.reason == r.reason)
  }

  // ---- proofs --------------------------------------------------------------------------------

  /** What a failing statement is reported as. */
  predicate IsSqlFailure(r: Receipt) {
    r.status == Failed && r.reason in {
      Some(SqliteFull), Some(SqliteIoError), Some(SqliteCorrupt), Some(SqliteReadOnly), Some(SqliteBusy),
      Some(SqliteDatabaseError), Some(RollbackFailed)}
  }

  lemma ErrorAnswers(s: Store, e: SqlError, rollbackFails: bool)
    requires s.condition.Healthy?
    ensures IsSqlFailure(WriteError(s, e, rollbackFails).1)
    ensures LatchesAsReported(WriteError(s, e, rollbackFails).0, WriteError(s, e, rollbackFails).1)
  {
  }

  lemma RollbackAnswers(s: Store, f: Faults, r: Receipt)
    requires s.condition.Healthy? && r.status != Failed
    ensures
      var (s', r') := RollbackAndReturn(s, f, r);
      (if f.rollback.None? then r' == r else IsSqlFailure(r')) && LatchesAsReported(s', r')
  {
    if f.rollback.Some? { ErrorAnswers(s, f.rollback.value, f.rollbackAgain); }
  }

  /** The end of a transaction from the ceilings on: whether the row fits as it is, whether the expired rows are gone
      and it fits then, whether it is written, and whether a rollback succeeds. */
  ghost predicate EndsAt(
    fits: bool, reclaimed: bool, fitsRows: bool, fitsBytes: bool, written: bool, undone: bool, sequence: nat, size: nat,
    r: Receipt)
  {
    if (fits || (reclaimed && fitsRows && fitsBytes)) && written then r == Receipt(Accepted, None, Some(sequence), size)
    else if !fits && reclaimed && !fitsRows && undone then r == Refuse(Rejected, CountLimitReached)
    else if !fits && reclaimed && fitsRows && !fitsBytes && undone then r == Refuse(Rejected, LogicalByteLimitReached)
    else IsSqlFailure(r)
  }

  predicate FitsAsIs(c: Config, t: Table, size: nat) { FitsRows(c, t.rowCount) && FitsBytes(c, t.logicalBytes, size) }

  predicate ReclaimsRows(c: Config, t: Table, env: PutEnv) {
    env.faults.select.None? && (AnyExpired(t.rows, env.nowNs) && c.maxPurgeRows > 0 ==> env.faults.delete.None?)
  }

  ghost predicate RowsAnswer(c: Config, t: Table, o: Observation, env: PutEnv, r: Receipt) {
    var size, rest := |c.encode(o)|, Rest(c, t, env.nowNs);
    EndsAt(FitsAsIs(c, t, size), ReclaimsRows(c, t, env), FitsRows(c, |rest|), FitsBytes(c, TotalBytes(rest), size),
           Written(env.faults), env.faults.rollback.None?, t.nextSequence, size, r)
  }

  lemma RestIsReclaimed(c: Config, t: Table, nowNs: int)
    requires Consistent(t)
    ensures
      var batch := SelectExpired(t.rows, nowNs, c.maxPurgeRows);
      && IsFirstBatch(t.rows, nowNs, c.maxPurgeRows, batch) && Distinct(batch) && (forall k :: k in batch ==> k in t.rows)
      && Reclaimed(t, batch).rowCount == |Rest(c, t, nowNs)|
      && Reclaimed(t, batch).logicalBytes == TotalBytes(Rest(c, t, nowNs))
      && (batch != [] <==> AnyExpired(t.rows, nowNs) && c.maxPurgeRows > 0)
  {
    BatchIsFirst(t.rows, nowNs, c.maxPurgeRows);
    DeleteBatch(t.rows, SelectExpired(t.rows, nowNs, c.maxPurgeRows));
  }

  lemma HealthyStays(s: Store, r: Receipt)
    requires s.condition.Healthy? && (r.status != Failed || r.reason == Some(VolumeSpaceUnavailable))
    ensures LatchesAsReported(s, r)
  {
  }

  lemma RowAnswers(c: Config, s: Store, o: Observation, env: PutEnv, u: Table)
    requires s.condition.Healthy? && o.ttlNs.Some? && u.nextSequence == s.committed.nextSequence
    ensures
      var (s', r) := PutRow(c, s, o, env, u);
      && LatchesAsReported(s', r)
      && if Written(env.faults) then r == Receipt(Accepted, None, Some(s.committed.nextSequence), |c.encode(o)|)
         else IsSqlFailure(r)
  {
    var f, t, v := env.faults, s.committed, Inserted(c, u, o, env.nowNs);
    if f.insert.Some? {
      ErrorAnswers(s.(working := Some(t.(rows := u.rows))), f.insert.value, f.rollback.Some?);
    } else if f.update.Some? {
      ErrorAnswers(s.(working := Some(t.(rows := v.rows))), f.update.value, f.rollback.Some?);
    } else if f.commit.Some? {
      ErrorAnswers(s.(working := Some(v)), f.commit.value, f.rollback.Some?);
    }
    hide WriteError, LatchesAsReported, IsSqlFailure, Inserted;
    if Written(f) { HealthyStays(PutRow(c, s, o, env, u).0, PutRow(c, s, o, env, u).1); }
  }

  /** The expired rows a put deletes, and the table it goes on with. */
  lemma PressureIsRest(c: Config, t: Table, size: nat, nowNs: int)
    requires Consistent(t)
    ensures
      var over := OverCeiling(c, t.rowCount, t.logicalBytes, size);
      var batch := PressureBatch(c, t, size, nowNs);
      && Distinct(batch) && (forall k :: k in batch ==> k in t.rows)
      && var u := Reclaimed(t, batch);
         && u.nextSequence == t.nextSequence
         && u.rowCount == (if over then |Rest(c, t, nowNs)| else t.rowCount)
         && u.logicalBytes == (if over then TotalBytes(Rest(c, t, nowNs)) else t.logicalBytes)
         && (batch != [] <==> over && AnyExpired(t.rows, nowNs) && c.maxPurgeRows > 0)
  {
    RestIsReclaimed(c, t, nowNs);
    hide SelectExpired, Rest, Consistent, OverCeiling;
  }

  lemma RowsPaths(c: Config, s: Store, o: Observation, env: PutEnv)
    requires o.ttlNs.Some? && Consistent(s.committed)
    ensures
      var f, t, size := env.faults, s.committed, |c.encode(o)|;
      var begun, batch := s.(working := Some(t)), PressureBatch(c, t, size, env.nowNs);
      && Distinct(batch) && (forall k :: k in batch ==> k in t.rows)
      && var u := Reclaimed(t, batch);
         var purged := begun.(working := Some(t.(rows := u.rows)));
         PutRows(c, s, o, env) ==
           if OverCeiling(c, t.rowCount, t.logicalBytes, size) && f.select.Some? then
             WriteError(begun, f.select.value, f.rollback.Some?)
           else if batch != [] && f.delete.Some? then WriteError(begun, f.delete.value, f.rollback.Some?)
           else if u.rowCount >= c.maxRows then RollbackAndReturn(purged, f, Refuse(Rejected, CountLimitReached))
           else if u.logicalBytes + size > c.maxLogicalBytes then
             RollbackAndReturn(purged, f, Refuse(Rejected, LogicalByteLimitReached))
           else PutRow(c, s, o, env, u)
  {
    PressureIsRest(c, s.committed, |c.encode(o)|, env.nowNs);
    hide PressureBatch, Consistent, OverCeiling, PutRow, WriteError, RollbackAndReturn, Rest;
  }

  lemma OverMeans(c: Config, t: Table, size: nat)
    ensures OverCeiling(c, t.rowCount, t.logicalBytes, size) <==> !FitsAsIs(c, t, size)
  {
  }

  lemma RowsDecide(c: Config, s: Store, o: Observation, env: PutEnv)
    requires s.condition.Healthy? && o.ttlNs.Some? && Consistent(s.committed)
    ensures
      var (s', r) := PutRows(c, s, o, env);
      RowsAnswer(c, s.committed, o, env, r) && LatchesAsReported(s', r)
  {
    var f, t, size := env.faults, s.committed, |c.encode(o)|;
    var begun := s.(working := Some(t));
    RowsPaths(c, s, o, env);
    PressureIsRest(c, t, size, env.nowNs);
    OverMeans(c, t, size);
    var batch := PressureBatch(c, t, size, env.nowNs);
    var u := Reclaimed(t, batch);
    var purged := begun.(working := Some(t.(rows := u.rows)));
    var rest := Rest(c, t, env.nowNs);
    var restRows, restBytes := |rest|, TotalBytes(rest);
    var over, reclaims := !FitsAsIs(c, t, size), ReclaimsRows(c, t, env);
    hide PutRows, PutRow, WriteError, RollbackAndReturn, LatchesAsReported, IsSqlFailure, Rest, Consistent, Reclaimed;
    hide PressureBatch, AnyExpired, OverCeiling;
    if over && f.select.Some? {
      ErrorAnswers(begun, f.select.value, f.rollback.Some?);
    } else if batch != [] && f.delete.Some? {
      ErrorAnswers(begun, f.delete.value, f.rollback.Some?);
    } else if u.rowCount >= c.maxRows {
      RollbackAnswers(purged, f, Refuse(Rejected, CountLimitReached));
    } else if u.logicalBytes + size > c.maxLogicalBytes {
      RollbackAnswers(purged, f, Refuse(Rejected, LogicalByteLimitReached));
    } else {
      RowAnswers(c, s, o, env, u);
    }
  }

  lemma KnownIsFound(rows: Rows, key: string)
    requires DistinctKeys(rows)
    ensures FindKey(rows, key).Some? <==> Known(rows, key)
    ensures FindKey(rows, key).Some? ==> FindKey(rows, key).value in rows && rows[FindKey(rows, key).value].key == key
  {
    var found := FindKey(rows, key);
    if found.Some? { assert HasKey(rows, key, found.value); }
    forall k | k in rows && rows[k].key == key ensures found.Some? { assert HasKey(rows, key, k); }
  }

  lemma DuplicateAnswers(c: Config, rows: Rows, o: Observation)
    requires DistinctKeys(rows) && FindKey(rows, o.idempotencyKey).Some?
    ensures
      var r := DuplicateReceipt(c, rows, FindKey(rows, o.idempotencyKey).value, o);
      AnsweredBy(c, rows, o, r) && SpeaksOfKey(r) && r.status != Failed
  {
    KnownIsFound(rows, o.idempotencyKey);
    hide FindKey, DistinctKeys;
  }

  /** The end of a transaction, for a store with these counters in memory. */
  ghost predicate TransactionAnswer(c: Config, s: Store, t: Table, o: Observation, env: PutEnv, r: Receipt) {
    var f := env.faults;
    if f.begin.Some? || f.recheck.Some? then IsSqlFailure(r)
    else if Known(t.rows, o.idempotencyKey) then
      if f.rollback.None? then AnsweredBy(c, t.rows, o, r) && SpeaksOfKey(r) else IsSqlFailure(r)
    else if f.readState.Some? then IsSqlFailure(r)
    else if t.rowCount != s.rowCount || t.logicalBytes != s.logicalBytes then
      if f.rollback.None? then r == Refuse(Failed, RecordIntegrityError) else IsSqlFailure(r)
    else if t.nextSequence == MAX_INT64 then
      if f.rollback.None? then r == Refuse(Failed, SequenceExhausted) else IsSqlFailure(r)
    else RowsAnswer(c, t, o, env, r)
  }

  lemma IntegrityAnswers(s: Store, rollbackFails: bool)
    requires s.condition.Healthy? && s.working.Some?
    ensures
      var (s', r) := IntegrityError(s, rollbackFails);
      && (if rollbackFails then IsSqlFailure(r) else r == Refuse(Failed, RecordIntegrityError))
      && LatchesAsReported(s', r)
  {
  }

  lemma ExhaustionAnswers(s: Store)
    requires s.condition.Healthy?
    ensures LatchesAsReported(Latch(s.(working := None), SequenceExhausted), Refuse(Failed, SequenceExhausted))
  {
  }

  lemma TransactionDecides(c: Config, s: Store, o: Observation, env: PutEnv)
    requires s.condition.Healthy? && o.ttlNs.Some? && Consistent(s.committed)
    ensures
      var (s', r) := PutTransaction(c, s, o, env);
      TransactionAnswer(c, s, s.committed, o, env, r) && LatchesAsReported(s', r)
  {
    var f, t := env.faults, s.committed;
    var begun, fails := s.(working := Some(t)), f.rollback.Some?;
    KnownIsFound(t.rows, o.idempotencyKey);
    var duplicate := FindKey(t.rows, o.idempotencyKey);
    hide FindKey, DistinctKeys, PutRows, WriteError, RollbackAndReturn, IntegrityError, LatchesAsReported, IsSqlFailure;
    hide RowsAnswer, AnsweredBy, SpeaksOfKey, DuplicateReceipt;
    if f.begin.Some? {
      ErrorAnswers(s, f.begin.value, fails);
    } else if f.recheck.Some? {
      ErrorAnswers(begun, f.recheck.value, fails);
    } else if duplicate.Some? {
      DuplicateAnswers(c, t.rows, o);
      RollbackAnswers(begun, f, DuplicateReceipt(c, t.rows, duplicate.value, o));
    } else if f.readState.Some? {
      ErrorAnswers(begun, f.readState.value, fails);
    } else if t.rowCount != s.rowCount || t.logicalBytes != s.logicalBytes {
      IntegrityAnswers(begun, fails);
    } else if t.nextSequence == MAX_INT64 {
      if fails { ErrorAnswers(begun, f.rollback.value, f.rollbackAgain); }
      ExhaustionAnswers(begun);
    } else {
      RowsDecide(c, s, o, env);
    }
  }

  /** The end of a put on a healthy store. */
  ghost predicate PutAnswer(c: Config, s: Store, o: Observation, env: PutEnv, r: Receipt) {
    if o.ttlNs.None? then r == Refuse(Rejected, TtlRequired)
    else if o.sensitivityClass == "prohibited" then r == Refuse(Rejected, ProhibitedContent)
    else if o.persistenceClass == "visual" then r == Refuse(Rejected, VisualPersistenceDisabled)
    else if |c.encode(o)| > c.maxObservationBytes then r == Refuse(Rejected, ObservationExceedsByteLimit)
    else if env.faults.lookup.Some? then IsSqlFailure(r)
    else if Known(s.committed.rows, o.idempotencyKey) then AnsweredBy(c, s.committed.rows, o, r) && SpeaksOfKey(r)
    else if !(0 <= env.nowNs <= MAX_INT64) || env.nowNs + o.ttlNs.value > MAX_INT64 then
      r == Refuse(Rejected, ExpiryOutOfRange)
    else if !VolumeKnown(env) then r == Refuse(Failed, VolumeSpaceUnavailable)
    else if env.freeBytes.value - |c.encode(o)| < c.volumeReserveBytes then r == Refuse(Rejected, VolumeReserveReached)
    else TransactionAnswer(c, s, FileOf(s, env), o, env, r)
  }

  /** A put that gets to its transaction, and what it answers if it does not. */
  lemma PutPaths(c: Config, s: Store, o: Observation, env: PutEnv)
    requires s.condition.Healthy? && Consistent(s.committed) && (env.other.Some? ==> Consistent(env.other.value))
    ensures
      var begun, known := OtherCommit(s, env.other), FindKey(s.committed.rows, o.idempotencyKey);
      var refusal := Prevalidate(c, s, o);
      Put(c, s, o, env) ==
        if refusal.Some? then (s, refusal.value)
        else if env.faults.lookup.Some? then WriteError(s, env.faults.lookup.value, env.faults.rollback.Some?)
        else if known.Some? then (s, DuplicateReceipt(c, s.committed.rows, known.value, o))
        else if PreflightRefusal(c, o, env).Some? then (s, PreflightRefusal(c, o, env).value)
        else PutTransaction(c, begun, o, env)
    ensures OtherCommit(s, env.other) == s.(committed := FileOf(s, env)) && Consistent(FileOf(s, env))
  {
    hide FindKey, PutTransaction, WriteError, DuplicateReceipt, Consistent;
  }

  lemma PrevalidationAnswers(c: Config, s: Store, o: Observation, env: PutEnv)
    requires s.condition.Healthy?
    ensures Prevalidate(c, s, o).None? <==> Permitted(c, o)
    ensures
      Prevalidate(c, s, o).Some? ==>
        PutAnswer(c, s, o, env, Prevalidate(c, s, o).value) && Prevalidate(c, s, o).value.status != Failed
  {
    hide TransactionAnswer, Known, FileOf, AnsweredBy;
  }

  lemma LookupAnswers(c: Config, s: Store, o: Observation, env: PutEnv, r: Receipt)
    requires Permitted(c, o)
    requires if env.faults.lookup.Some? then IsSqlFailure(r)
             else
               && Known(s.committed.rows, o.idempotencyKey)
               && AnsweredBy(c, s.committed.rows, o, r) && SpeaksOfKey(r)
    ensures PutAnswer(c, s, o, env, r)
  {
    hide TransactionAnswer, Known, FileOf, AnsweredBy, SpeaksOfKey, IsSqlFailure;
  }

  lemma PreflightAnswers(c: Config, s: Store, o: Observation, env: PutEnv, r: Receipt)
    requires IsNew(c, s, o, env)
    requires if PreflightRefusal(c, o, env).Some? then r == PreflightRefusal(c, o, env).value
             else TransactionAnswer(c, s, FileOf(s, env), o, env, r)
    ensures PutAnswer(c, s, o, env, r)
    ensures PreflightRefusal(c, o, env).Some? ==> r.status != Failed || r.reason == Some(VolumeSpaceUnavailable)
  {
    hide TransactionAnswer, Known, FileOf, AnsweredBy, SpeaksOfKey, IsSqlFailure;
  }

  lemma PutAnswers(c: Config, s: Store, o: Observation, env: PutEnv)
    requires s.condition.Healthy? && Consistent(s.committed) && (env.other.Some? ==> Consistent(env.other.value))
    ensures var (s', r) := Put(c, s, o, env); PutAnswer(c, s, o, env, r) && LatchesAsReported(s', r)
  {
    var (s', r) := Put(c, s, o, env);
    var begun := OtherCommit(s, env.other);
    PutPaths(c, s, o, env);
    PrevalidationAnswers(c, s, o, env);
    KnownIsFound(s.committed.rows, o.idempotencyKey);
    NewMeans(c, s, o, env);
    hide *;
    if Prevalidate(c, s, o).Some? {
      HealthyStays(s, r);
    } else if env.faults.lookup.Some? {
      ErrorAnswers(s, env.faults.lookup.value, env.faults.rollback.Some?);
      LookupAnswers(c, s, o, env, r);
    } else if FindKey(s.committed.rows, o.idempotencyKey).Some? {
      DuplicateAnswers(c, s.committed.rows, o);
      LookupAnswers(c, s, o, env, r);
      HealthyStays(s, r);
    } else {
      if PreflightRefusal(c, o, env).Some? {
        PreflightAnswers(c, s, o, env, r);
        HealthyStays(s, r);
      } else {
        TransactionDecides(c, begun, o, env);
        SameCounters(c, s, begun, FileOf(s, env), o, env, r);
        PreflightAnswers(c, s, o, env, r);
      }
    }
  }

  lemma NewMeans(c: Config, s: Store, o: Observation, env: PutEnv)
    ensures Permitted(c, o) ==> o.ttlNs.Some?
    ensures
      Permitted(c, o) && env.faults.lookup.None? && !Known(s.committed.rows, o.idempotencyKey) <==> IsNew(c, s, o, env)
  {
    hide Known;
  }

  lemma SameCounters(c: Config, s: Store, begun: Store, t: Table, o: Observation, env: PutEnv, r: Receipt)
    requires TransactionAnswer(c, begun, t, o, env, r) && begun == s.(committed := t)
    ensures TransactionAnswer(c, s, t, o, env, r)
  {
    hide RowsAnswer, Known, AnsweredBy, SpeaksOfKey, IsSqlFailure;
  }

  lemma RowsAnswerDecides(c: Config, s: Store, o: Observation, env: PutEnv, r: Receipt)
    requires HasNumber(c, s, o, env) && RowsAnswer(c, FileOf(s, env), o, env, r)
    ensures DecidesInside(c, s, o, env, r) && r.status != Coalesced && !SpeaksOfKey(r)
    ensures r.reason.Some? ==> IsSqlFailure(r) || r.reason.value in {CountLimitReached, LogicalByteLimitReached}
  {
    hide Rest, AnyExpired, Known, Permitted, VolumeKnown;
  }

  /** Before its rows, a transaction speaks neither of room nor of an acceptance. */
  lemma NoRowsDecides(c: Config, s: Store, o: Observation, env: PutEnv, r: Receipt)
    requires r.status != Accepted && !IsCeiling(r) && !HasNumber(c, s, o, env)
    requires r == Refuse(Failed, RecordIntegrityError) <==>
               && IsStillNew(c, s, o, env) && env.faults.readState.None? && !IsCounted(c, s, o, env)
               && env.faults.rollback.None?
    requires r == Refuse(Failed, SequenceExhausted) <==>
               IsCounted(c, s, o, env) && FileOf(s, env).nextSequence == MAX_INT64 && env.faults.rollback.None?
    ensures DecidesInside(c, s, o, env, r)
  {
    hide Rest, AnyExpired, IsStillNew, IsCounted, HasNumber;
  }

  predicate SpeaksOfOutside(r: Receipt) {
    r.reason in {
      Some(TtlRequired), Some(ProhibitedContent), Some(VisualPersistenceDisabled), Some(ObservationExceedsByteLimit),
      Some(ExpiryOutOfRange), Some(VolumeSpaceUnavailable), Some(VolumeReserveReached)}
  }

  lemma TransactionSpeaks(c: Config, s: Store, t: Table, o: Observation, env: PutEnv, r: Receipt)
    requires TransactionAnswer(c, s, t, o, env, r)
    ensures !SpeaksOfOutside(r)
    ensures SpeaksOfKey(r) <==>
            && env.faults.begin.None? && env.faults.recheck.None? && env.faults.rollback.None?
            && Known(t.rows, o.idempotencyKey)
    ensures SpeaksOfKey(r) ==> AnsweredBy(c, t.rows, o, r)
  {
    hide Rest, AnyExpired, Known, FitsAsIs, ReclaimsRows, FitsRows, FitsBytes, Written;
  }

  lemma NumberedAnswer(c: Config, s: Store, o: Observation, env: PutEnv, r: Receipt)
    requires HasNumber(c, s, o, env) && TransactionAnswer(c, s, FileOf(s, env), o, env, r)
    ensures RowsAnswer(c, FileOf(s, env), o, env, r)
  {
    hide RowsAnswer, Known, HasVolume, FileOf, AnsweredBy, SpeaksOfKey, IsSqlFailure;
  }

  /** A transaction that ends before its rows does so for one of these reasons. */
  lemma UnnumberedAnswer(c: Config, s: Store, o: Observation, env: PutEnv, r: Receipt)
    requires HasVolume(c, s, o, env) && !HasNumber(c, s, o, env) && FileOf(s, env).nextSequence <= MAX_INT64
    requires TransactionAnswer(c, s, FileOf(s, env), o, env, r)
    ensures r.status != Accepted && !IsCeiling(r)
    ensures r == Refuse(Failed, RecordIntegrityError) <==>
              && IsStillNew(c, s, o, env) && env.faults.readState.None? && !IsCounted(c, s, o, env)
              && env.faults.rollback.None?
    ensures r == Refuse(Failed, SequenceExhausted) <==>
              IsCounted(c, s, o, env) && FileOf(s, env).nextSequence == MAX_INT64 && env.faults.rollback.None?
  {
    hide RowsAnswer, Known, HasVolume, FileOf;
  }

  lemma TransactionInside(c: Config, s: Store, o: Observation, env: PutEnv, r: Receipt)
    requires HasVolume(c, s, o, env) && FileOf(s, env).nextSequence <= MAX_INT64
    requires TransactionAnswer(c, s, FileOf(s, env), o, env, r)
    ensures DecidesInside(c, s, o, env, r)
  {
    hide *;
    if HasNumber(c, s, o, env) {
      NumberedAnswer(c, s, o, env, r);
      RowsAnswerDecides(c, s, o, env, r);
    } else {
      UnnumberedAnswer(c, s, o, env, r);
      NoRowsDecides(c, s, o, env, r);
    }
  }

  /** A put that gets to its transaction is not refused before it. */
  lemma InsideIsNotOutside(c: Config, s: Store, o: Observation, env: PutEnv, r: Receipt)
    requires HasVolume(c, s, o, env) && !SpeaksOfOutside(r)
    ensures DecidesForm(c, o, r) && DecidesOutside(c, s, o, env, r)
  {
    hide Known;
  }

  lemma TransactionKey(c: Config, s: Store, o: Observation, env: PutEnv, r: Receipt)
    requires HasVolume(c, s, o, env)
    requires SpeaksOfKey(r) <==>
               && env.faults.begin.None? && env.faults.recheck.None? && env.faults.rollback.None?
               && Known(FileOf(s, env).rows, o.idempotencyKey)
    requires SpeaksOfKey(r) ==> AnsweredBy(c, FileOf(s, env).rows, o, r)
    ensures DecidesKey(c, s, o, env, r)
  {
    hide Known, AnsweredBy, SpeaksOfKey, FileOf, Permitted, VolumeKnown;
  }

  lemma TransactionAnswerDecides(c: Config, s: Store, o: Observation, env: PutEnv, r: Receipt)
    requires HasVolume(c, s, o, env) && FileOf(s, env).nextSequence <= MAX_INT64
    requires TransactionAnswer(c, s, FileOf(s, env), o, env, r)
    ensures DecidesForm(c, o, r) && DecidesOutside(c, s, o, env, r) && DecidesKey(c, s, o, env, r)
    ensures DecidesInside(c, s, o, env, r)
  {
    hide *;
    TransactionInside(c, s, o, env, r);
    TransactionSpeaks(c, s, FileOf(s, env), o, env, r);
    InsideIsNotOutside(c, s, o, env, r);
    TransactionKey(c, s, o, env, r);
  }

  /** A put that does not get to its transaction. */
  lemma OutsideAnswerDecides(c: Config, s: Store, o: Observation, env: PutEnv, r: Receipt)
    requires PutAnswer(c, s, o, env, r) && !HasVolume(c, s, o, env)
    ensures Decides(c, s, o, env, r)
  {
    OutsideSpeaks(c, s, o, env, r);
    NoRowsDecides(c, s, o, env, r);
    hide TransactionAnswer, Known, DecidesInside, FileOf, AnsweredBy;
  }

  lemma OutsideSpeaks(c: Config, s: Store, o: Observation, env: PutEnv, r: Receipt)
    requires PutAnswer(c, s, o, env, r) && !HasVolume(c, s, o, env)
    ensures r.status != Accepted && !IsCeiling(r) && !HasNumber(c, s, o, env)
    ensures r != Refuse(Failed, RecordIntegrityError) && r != Refuse(Failed, SequenceExhausted)
    ensures !IsStillNew(c, s, o, env)
  {
    hide TransactionAnswer, Known, FileOf;
  }

  lemma VolumeGetsInside(c: Config, s: Store, o: Observation, env: PutEnv, r: Receipt)
    requires PutAnswer(c, s, o, env, r) && HasVolume(c, s, o, env)
    ensures TransactionAnswer(c, s, FileOf(s, env), o, env, r)
  {
    hide TransactionAnswer, Known, FileOf;
  }

  lemma AnswerDecides(c: Config, s: Store, o: Observation, env: PutEnv, r: Receipt)
    requires PutAnswer(c, s, o, env, r) && Consistent(FileOf(s, env))
    ensures Decides(c, s, o, env, r)
  {
    assert FileOf(s, env).nextSequence <= MAX_INT64;
    hide TransactionAnswer, Known, Consistent, FileOf, HasVolume, PutAnswer;
    hide DecidesForm, DecidesOutside, DecidesKey, DecidesInside;
    if HasVolume(c, s, o, env) {
      VolumeGetsInside(c, s, o, env, r);
      TransactionAnswerDecides(c, s, o, env, r);
    } else {
      OutsideAnswerDecides(c, s, o, env, r);
    }
  }

  /** Every answer of a put to a healthy store, by what it met; and when the store stays healthy. */
  lemma PutDecides(c: Config, s: Store, o: Observation, env: PutEnv)
    requires s.condition.Healthy? && Consistent(s.committed) && (env.other.Some? ==> Consistent(env.other.value))
    ensures var (s', r) := Put(c, s, o, env); Decides(c, s, o, env, r) && LatchesAsReported(s', r)
  {
    PutAnswers(c, s, o, env);
    hide *;
    AnswerDecides(c, s, o, env, Put(c, s, o, env).1);
  }

  /** A store that is not healthy answers at once and is left alone. */
  lemma ShutStoreRefuses(c: Config, s: Store, o: Observation, env: PutEnv)
    requires !s.condition.Healthy? && Consistent(s.committed) && (env.other.Some? ==> Consistent(env.other.value))
    ensures
      Put(c, s, o, env) == (
        s, Refuse(Failed, if s.condition.Closed? then StoreClosed
                          else if s.reason.Some? then s.reason.value else StoreReadOnly))
  {
    hide PutTransaction, FindKey;
  }

  // ---- what a purge answers --------------------------------------------------------------------

  /** The purge gets to the rows it would delete. */
  predicate PurgeLooks(c: Config, s: Store, limit: int, nowNs: int, f: Faults) {
    && 0 < limit <= c.maxPurgeRows && 0 <= nowNs <= MAX_INT64 && f.begin.None? && f.readState.None?
    && s.committed.rowCount == s.rowCount && s.committed.logicalBytes == s.logicalBytes && f.select.None?
  }

  /** A healthy store's answer to a purge. */
  ghost predicate PurgeDecided(c: Config, s: Store, limit: int, nowNs: int, f: Faults, s': Store, r: PurgeOutcome) {
    var differs := s.committed.rowCount != s.rowCount || s.committed.logicalBytes != s.logicalBytes;
    var valid := 0 < limit <= c.maxPurgeRows && 0 <= nowNs <= MAX_INT64;
    && (r == PurgeBadLimit <==> limit <= 0 || limit > c.maxPurgeRows)
    && (r == PurgeBadClock <==> 0 < limit <= c.maxPurgeRows && !(0 <= nowNs <= MAX_INT64))
    && (r.Purged? <==>
          && PurgeLooks(c, s, limit, nowNs, f)
          && if AnyExpired(s.committed.rows, nowNs) then f.delete.None? && f.update.None? && f.commit.None?
             else f.rollback.None?)
    && (r == PurgeFailed(Some(RecordIntegrityError)) <==>
          valid && f.begin.None? && f.readState.None? && differs && f.rollback.None?)
    && !r.PurgeClosed? && !r.PurgeReadOnly?
    && (s'.condition.Healthy? <==> !r.PurgeFailed? || r.reason == Some(SqliteBusy))
    && (!s'.condition.Healthy? ==> s'.condition.ReadOnly? && s'.reason == r.reason)
  }

  /** How a purge ends that fails. */
  ghost predicate PurgeFails(s': Store, r: PurgeOutcome) {
    && r.PurgeFailed? && r != PurgeFailed(Some(RecordIntegrityError))
    && (s'.condition.Healthy? <==> r.reason == Some(SqliteBusy))
    && (!s'.condition.Healthy? ==> s'.condition.ReadOnly? && s'.reason == r.reason)
  }

  lemma PurgeErrorFails(s: Store, e: SqlError, rollbackFails: bool)
    requires s.condition.Healthy?
    ensures
      PurgeFails(PurgeError(WriteError(s, e, rollbackFails)).0, PurgeError(WriteError(s, e, rollbackFails)).1)
  {
    ErrorAnswers(s, e, rollbackFails);
    hide WriteError;
  }

  lemma PurgeIntegrityFails(s: Store, rollbackFails: bool)
    requires s.condition.Healthy? && s.working.Some?
    ensures
      var (s', r) := PurgeError(IntegrityError(s, rollbackFails));
      && (if rollbackFails then PurgeFails(s', r)
          else r == PurgeFailed(Some(RecordIntegrityError)) && s'.condition.ReadOnly? && s'.reason == r.reason)
  {
  }

  lemma PurgeRowsEnd(s: Store, batch: seq<nat>, f: Faults)
    requires Consistent(s.committed) && Distinct(batch) && forall k :: k in batch ==> k in s.committed.rows
    requires s.condition.Healthy?
    ensures
      var (s', r) := PurgeRows(s, batch, f);
      if f.update.None? && f.commit.None? then r.Purged? && s'.condition.Healthy? else PurgeFails(s', r)
  {
    var t, u := s.committed, Reclaimed(s.committed, batch);
    if f.update.Some? {
      PurgeErrorFails(s.(working := Some(t.(rows := u.rows))), f.update.value, f.rollback.Some?);
    } else if f.commit.Some? {
      PurgeErrorFails(s.(working := Some(u)), f.commit.value, f.rollback.Some?);
    }
    hide WriteError, PurgeFails, Consistent;
  }

  /** The expired rows a purge selects. */
  lemma PurgeBatch(rows: Rows, nowNs: int, limit: nat)
    ensures
      var batch := SelectExpired(rows, nowNs, limit);
      && Distinct(batch) && (forall k :: k in batch ==> k in rows)
      && (batch == [] <==> limit == 0 || !AnyExpired(rows, nowNs))
  {
    BatchIsFirst(rows, nowNs, limit);
  }

  /** The end of a purge from BEGIN on. */
  ghost predicate PurgeEnds(s: Store, limit: nat, nowNs: int, f: Faults, s': Store, r: PurgeOutcome) {
    var t := s.committed;
    if f.begin.Some? || f.readState.Some? then PurgeFails(s', r)
    else if t.rowCount != s.rowCount || t.logicalBytes != s.logicalBytes then
      if f.rollback.Some? then PurgeFails(s', r)
      else r == PurgeFailed(Some(RecordIntegrityError)) && s'.condition.ReadOnly? && s'.reason == r.reason
    else if f.select.Some? then PurgeFails(s', r)
    else if AnyExpired(t.rows, nowNs) then
      if f.delete.None? && f.update.None? && f.commit.None? then r.Purged? && s'.condition.Healthy?
      else PurgeFails(s', r)
    else if f.rollback.None? then r.Purged? && s'.condition.Healthy?
    else PurgeFails(s', r)
  }

  lemma PurgeTransactionEnds(s: Store, limit: nat, nowNs: int, f: Faults)
    requires s.condition.Healthy? && Consistent(s.committed) && limit > 0
    ensures var (s', r) := PurgeTransaction(s, limit, nowNs, f); PurgeEnds(s, limit, nowNs, f, s', r)
  {
    var t, batch := s.committed, SelectExpired(s.committed.rows, nowNs, limit);
    var begun, fails := s.(working := Some(t)), f.rollback.Some?;
    PurgeBatch(t.rows, nowNs, limit);
    hide PurgeFails, WriteError, IntegrityError, PurgeRows, PurgeError, AnyExpired, SelectExpired, Consistent, Distinct;
    if f.begin.Some? {
      PurgeErrorFails(s, f.begin.value, fails);
    } else if f.readState.Some? {
      PurgeErrorFails(begun, f.readState.value, fails);
    } else if t.rowCount != s.rowCount || t.logicalBytes != s.logicalBytes {
      PurgeIntegrityFails(begun, fails);
    } else if f.select.Some? {
      PurgeErrorFails(begun, f.select.value, fails);
    } else if batch == [] {
      if fails { PurgeErrorFails(begun, f.rollback.value, f.rollbackAgain); }
    } else if f.delete.Some? {
      PurgeErrorFails(begun, f.delete.value, fails);
    } else {
      PurgeRowsEnd(s, batch, f);
    }
  }

  /** When a purge deletes the expired rows, and what every other end of it is. */
  lemma PurgeDecides(c: Config, s: Store, limit: int, nowNs: int, f: Faults)
    requires Consistent(s.committed)
    ensures
      var (s', r) := Purge(c, s, limit, nowNs, f);
      if s.condition.Healthy? then PurgeDecided(c, s, limit, nowNs, f, s', r)
      else
        s' == s && r == if s.condition.Closed? then PurgeClosed
                        else PurgeReadOnly(if s.reason.Some? then s.reason.value else StoreReadOnly)
  {
    if s.condition.Healthy? && 0 < limit <= c.maxPurgeRows { PurgeTransactionEnds(s, limit, nowNs, f); }
    hide PurgeTransaction, AnyExpired, Consistent;
  }

  // ---- which files open --------------------------------------------------------------------------

  /** A file opens exactly when its counters are those of its rows, no sequence was handed out ahead of its next one,
      and it is within both ceilings; then it is a healthy store with those counters. */
  lemma OpenDecides(c: Config, t: Table)
    ensures Open(c, t).Some? <==>
              && t.rowCount == |t.rows| && t.logicalBytes == TotalBytes(t.rows)
              && 0 < t.nextSequence && (forall k :: k in t.rows ==> k < t.nextSequence)
              && t.rowCount <= c.maxRows && t.logicalBytes <= c.maxLogicalBytes
    ensures Open(c, t).Some? ==> Open(c, t) == Some(Store(Healthy, None, |t.rows|, TotalBytes(t.rows), t, None))
  {
    if |t.rows| > 0 { assert Newest(t.rows) in t.rows; }
    hide TotalBytes, Newest;
  }
}
