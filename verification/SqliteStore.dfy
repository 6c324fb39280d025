/** The bounded transactional store: `put`, `purge_expired` and reopening, statement by statement. */
module SqliteStore {
  import opened Common
  import opened Observations
  import opened StoreTable
  import opened Utf8

  datatype SqlError =
    | DatabaseFull | IoError | Corrupt | NotADatabase | ReadOnlyDatabase | CannotOpen | Busy | Locked | OtherError

  datatype Condition = Healthy | ReadOnly | Closed

  /** The reason codes of receipts and of the read-only latch. */
  datatype Reason =
    | CountLimitReached | DuplicateIdempotencyKey | ExpiryOutOfRange | IdempotencyConflict
    | LogicalByteLimitReached | ObservationExceedsByteLimit | ProhibitedContent | RecordIntegrityError
    | RollbackFailed | SequenceExhausted | SqliteBusy | SqliteCorrupt | SqliteReadError
    | SqliteDatabaseError | SqliteFull | SqliteIoError | SqliteReadOnly
    | StoreClosed | StoreReadOnly | TtlRequired | VisualPersistenceDisabled
    | VolumeReserveReached | VolumeSpaceUnavailable

  datatype Receipt = Receipt(status: Status, reason: Option<Reason>, sequence: Option<nat>, bytesAccepted: nat)

  /** Limits of one store, its digest function, the encoder it calls, and the envelopes that exist. */
  datatype Config = Config(
    maxRows: nat, maxLogicalBytes: nat, maxObservationBytes: nat, volumeReserveBytes: nat,
    maxQueryRows: nat, maxQueryBytes: nat, maxPurgeRows: nat,
    hash: Bytes -> Bytes, encode: Observation -> Bytes, valid: Observation -> bool)

  ghost predicate ValidConfig(c: Config) {
    && 1 <= c.maxRows <= MAX_INT64 && 1 <= c.maxLogicalBytes <= MAX_INT64
    && 1 <= c.maxObservationBytes && 1 <= c.maxQueryRows && 1 <= c.maxQueryBytes && 1 <= c.maxPurgeRows
    && (forall b :: |c.hash(b)| == 32)
    && (forall o :: |c.encode(o)| >= 1)
  }

  /** The fields of a store object, the committed file, and the working copy of an open transaction. */
  datatype Store = Store(
    condition: Condition, reason: Option<Reason>, rowCount: nat, logicalBytes: nat,
    committed: Table, working: Option<Table>)

  /** The statement at which the database reports an error, if any; a failing explicit ROLLBACK may fail again. */
  datatype Faults = Faults(
    lookup: Option<SqlError>, begin: Option<SqlError>, recheck: Option<SqlError>, readState: Option<SqlError>,
    select: Option<SqlError>, delete: Option<SqlError>, insert: Option<SqlError>, update: Option<SqlError>,
    commit: Option<SqlError>, rollback: Option<SqlError>, rollbackAgain: bool)

  /** What the surroundings do during one `put`: the clock, the volume, another connection that commits
      between the first lookup and BEGIN, and database errors. */
  datatype PutEnv = PutEnv(nowNs: int, freeBytes: Option<int>, other: Option<Table>, faults: Faults)

  function Refuse(status: Status, reason: Reason): Receipt { Receipt(status, Some(reason), None, 0) }

  function Latch(s: Store, reason: Reason): Store {
    if s.condition.Closed? then s else s.(condition := ReadOnly, reason := Some(reason))
  }

  /** The reason an error is reported under, and whether it makes the store read-only. */
  function ErrorReason(e: SqlError): (Reason, bool) {
    match e
    case DatabaseFull => (SqliteFull, true)
    case IoError => (SqliteIoError, true)
    case Corrupt => (SqliteCorrupt, true)
    case NotADatabase => (SqliteCorrupt, true)
    case ReadOnlyDatabase => (SqliteReadOnly, true)
    case CannotOpen => (SqliteReadOnly, true)
    case Busy => (SqliteBusy, false)
    case Locked => (SqliteBusy, false)
    case OtherError => (SqliteDatabaseError, true)
  }

  function WriteError(s: Store, e: SqlError, rollbackFails: bool): (Store, Receipt) {
    if s.working.Some? && rollbackFails then (Latch(s, RollbackFailed), Refuse(Failed, RollbackFailed))
    else
      var (reason, latches) := ErrorReason(e);
      var closed := s.(working := None);
      (if latches then Latch(closed, reason) else closed, Refuse(Failed, reason))
  }

  function IntegrityError(s: Store, rollbackFails: bool): (Store, Receipt) {
    if s.working.Some? && rollbackFails then (Latch(s, RollbackFailed), Refuse(Failed, RollbackFailed))
    else (Latch(s.(working := None), RecordIntegrityError), Refuse(Failed, RecordIntegrityError))
  }

  /** An explicit ROLLBACK followed by a return; its failure goes through the error handler. */
  function RollbackAndReturn(s: Store, f: Faults, r: Receipt): (Store, Receipt) {
    if f.rollback.Some? then WriteError(s, f.rollback.value, f.rollbackAgain) else (s.(working := None), r)
  }

  function RowOf(c: Config, o: Observation, nowNs: int): Row
    requires o.ttlNs.Some?
  {
    Row(o.idempotencyKey, o.sessionId, o.observedMonotonicNs, nowNs, nowNs + o.ttlNs.value,
        o.persistenceClass, o.sensitivityClass, c.hash(c.encode(o)), |c.encode(o)|, c.encode(o))
  }

  /** Rejections decided before the database is touched. */
  function Prevalidate(c: Config, s: Store, o: Observation): Option<Receipt> {
    if s.condition.Closed? then Some(Refuse(Failed, StoreClosed))
    else if s.condition.ReadOnly? then
      Some(Refuse(Failed, if s.reason.Some? then s.reason.value else StoreReadOnly))
    else if o.ttlNs.None? then Some(Refuse(Rejected, TtlRequired))
    else if o.sensitivityClass == "prohibited" then Some(Refuse(Rejected, ProhibitedContent))
    else if o.persistenceClass == "visual" then Some(Refuse(Rejected, VisualPersistenceDisabled))
    else if |c.encode(o)| > c.maxObservationBytes then Some(Refuse(Rejected, ObservationExceedsByteLimit))
    else None
  }

  function DuplicateReceipt(c: Config, rows: Rows, k: nat, o: Observation): Receipt
    requires k in rows
  {
    if rows[k].digest == c.hash(c.encode(o)) then
      Receipt(Coalesced, Some(DuplicateIdempotencyKey), Some(k), 0)
    else Receipt(Rejected, Some(IdempotencyConflict), Some(k), 0)
  }

  predicate ExpiryFits(o: Observation, nowNs: int)
    requires o.ttlNs.Some?
  {
    0 <= nowNs <= MAX_INT64 && nowNs + o.ttlNs.value <= MAX_INT64
  }

  /** Rejections decided from the clock and the volume, between the lookup and BEGIN. */
  function PreflightRefusal(c: Config, o: Observation, env: PutEnv): Option<Receipt>
    requires o.ttlNs.Some?
  {
    if !ExpiryFits(o, env.nowNs) then Some(Refuse(Rejected, ExpiryOutOfRange))
    else if env.freeBytes.None? || !(0 <= env.freeBytes.value <= MAX_INT64) then
      Some(Refuse(Failed, VolumeSpaceUnavailable))
    else if env.freeBytes.value - |c.encode(o)| < c.volumeReserveBytes then
      Some(Refuse(Rejected, VolumeReserveReached))
    else None
  }

  function OtherCommit(s: Store, other: Option<Table>): Store {
    if other.Some? then s.(committed := other.value) else s
  }

  predicate OverCeiling(c: Config, rowCount: int, logicalBytes: int, size: nat) {
    rowCount >= c.maxRows || logicalBytes + size > c.maxLogicalBytes
  }

  /** The rows reclaimed before an insertion that would cross a ceiling. */
  function PressureBatch(c: Config, t: Table, size: nat, nowNs: int): seq<nat> {
    if OverCeiling(c, t.rowCount, t.logicalBytes, size) then SelectExpired(t.rows, nowNs, c.maxPurgeRows) else []
  }

  /** The table after the expired batch is deleted; `store_state` is updated only at the end. */
  function Reclaimed(t: Table, batch: seq<nat>): (u: Table)
    requires Consistent(t) && Distinct(batch) && forall k :: k in batch ==> k in t.rows
    ensures u.rowCount == t.rowCount - |batch| && u.logicalBytes == t.logicalBytes - BatchBytes(t.rows, batch)
    ensures u.rows == DeleteIn(t.rows, batch) && u.nextSequence == t.nextSequence
  {
    DeleteBatch(t.rows, batch);
    Table(t.nextSequence, t.rowCount - |batch|, t.logicalBytes - BatchBytes(t.rows, batch), DeleteIn(t.rows, batch))
  }

  function Inserted(c: Config, t: Table, o: Observation, nowNs: int): Table
    requires o.ttlNs.Some?
  {
    Table(t.nextSequence + 1, t.rowCount + 1, t.logicalBytes + |c.encode(o)|,
          t.rows[t.nextSequence := RowOf(c, o, nowNs)])
  }

  /** A `put` from the ceilings on, inside its transaction. */
  function PutRows(c: Config, s: Store, o: Observation, env: PutEnv): (Store, Receipt)
    requires Consistent(s.committed) && o.ttlNs.Some?
  {
    var f, t, size := env.faults, s.committed, |c.encode(o)|;
    var begun := s.(working := Some(t));
    var fails := f.rollback.Some?;
    if OverCeiling(c, t.rowCount, t.logicalBytes, size) && f.select.Some? then
      WriteError(begun, f.select.value, fails)
    else
      var batch := PressureBatch(c, t, size, env.nowNs);
      BatchIsFirst(t.rows, env.nowNs, c.maxPurgeRows);
      if batch != [] && f.delete.Some? then WriteError(begun, f.delete.value, fails)
      else
        var u := Reclaimed(t, batch);
        var purged := begun.(working := Some(t.(rows := u.rows)));
        if u.rowCount >= c.maxRows then RollbackAndReturn(purged, f, Refuse(Rejected, CountLimitReached))
        else if u.logicalBytes + size > c.maxLogicalBytes then
          RollbackAndReturn(purged, f, Refuse(Rejected, LogicalByteLimitReached))
        else PutRow(c, s, o, env, u)
  }

  /** The insertion itself, from the table that is left after reclaiming. */
  function PutRow(c: Config, s: Store, o: Observation, env: PutEnv, u: Table): (Store, Receipt)
    requires o.ttlNs.Some?
  {
    var f, t := env.faults, s.committed;
    var v := Inserted(c, u, o, env.nowNs);
    var fails := f.rollback.Some?;
    if f.insert.Some? then WriteError(s.(working := Some(t.(rows := u.rows))), f.insert.value, fails)
    else if f.update.Some? then WriteError(s.(working := Some(t.(rows := v.rows))), f.update.value, fails)
    else if f.commit.Some? then WriteError(s.(working := Some(v)), f.commit.value, fails)
    else
      (s.(committed := v, rowCount := v.rowCount, logicalBytes := v.logicalBytes, working := None),
       Receipt(Accepted, None, Some(u.nextSequence), |c.encode(o)|))
  }

  /** A `put` from BEGIN on. */
  function PutTransaction(c: Config, s: Store, o: Observation, env: PutEnv): (Store, Receipt)
    requires Consistent(s.committed) && o.ttlNs.Some?
  {
    var f, t := env.faults, s.committed;
    var begun := s.(working := Some(t));
    var fails := f.rollback.Some?;
    if f.begin.Some? then WriteError(s, f.begin.value, fails)
    else if f.recheck.Some? then WriteError(begun, f.recheck.value, fails)
    else
      var duplicate := FindKey(t.rows, o.idempotencyKey);
      if duplicate.Some? then RollbackAndReturn(begun, f, DuplicateReceipt(c, t.rows, duplicate.value, o))
      else if f.readState.Some? then WriteError(begun, f.readState.value, fails)
      else if t.rowCount != s.rowCount || t.logicalBytes != s.logicalBytes then IntegrityError(begun, fails)
      else if t.nextSequence == MAX_INT64 then
        if fails then WriteError(begun, f.rollback.value, f.rollbackAgain)
        else (Latch(s.(working := None), SequenceExhausted), Refuse(Failed, SequenceExhausted))
      else PutRows(c, s, o, env)
  }

  function Put(c: Config, s: Store, o: Observation, env: PutEnv): (Store, Receipt)
    requires Consistent(s.committed) && (env.other.Some? ==> Consistent(env.other.value))
  {
    var refusal := Prevalidate(c, s, o);
    if refusal.Some? then (s, refusal.value)
    else if env.faults.lookup.Some? then WriteError(s, env.faults.lookup.value, env.faults.rollback.Some?)
    else
      var existing := FindKey(s.committed.rows, o.idempotencyKey);
      if existing.Some? then (s, DuplicateReceipt(c, s.committed.rows, existing.value, o))
      else
        var preflight := PreflightRefusal(c, o, env);
        if preflight.Some? then (s, preflight.value)
        else PutTransaction(c, OtherCommit(s, env.other), o, env)
  }

  // ---- purge_expired ------------------------------------------------------

  datatype PurgeOutcome =
    | Purged(rows: nat, bytes: int)
    | PurgeClosed | PurgeReadOnly(why: Reason) | PurgeBadLimit | PurgeBadClock | PurgeFailed(reason: Option<Reason>)

  function PurgeError(r: (Store, Receipt)): (Store, PurgeOutcome) {
    (r.0, PurgeFailed(r.1.reason))
  }

  /** A purge from BEGIN on. */
  function PurgeTransaction(s: Store, limit: nat, nowNs: int, f: Faults): (Store, PurgeOutcome)
    requires Consistent(s.committed)
  {
    var t := s.committed;
    var begun := s.(working := Some(t));
    var fails := f.rollback.Some?;
    if f.begin.Some? then PurgeError(WriteError(s, f.begin.value, fails))
    else if f.readState.Some? then PurgeError(WriteError(begun, f.readState.value, fails))
    else if t.rowCount != s.rowCount || t.logicalBytes != s.logicalBytes then
      PurgeError(IntegrityError(begun, fails))
    else if f.select.Some? then PurgeError(WriteError(begun, f.select.value, fails))
    else
      var batch := SelectExpired(t.rows, nowNs, limit);
      BatchIsFirst(t.rows, nowNs, limit);
      if batch == [] then
        if fails then PurgeError(WriteError(begun, f.rollback.value, f.rollbackAgain))
        else (s.(working := None), Purged(0, 0))
      else if f.delete.Some? then PurgeError(WriteError(begun, f.delete.value, fails))
      else PurgeRows(s, batch, f)
  }

  /** The deletion of a batch, the new counters and the commit. */
  function PurgeRows(s: Store, batch: seq<nat>, f: Faults): (Store, PurgeOutcome)
    requires Consistent(s.committed) && Distinct(batch) && forall k :: k in batch ==> k in s.committed.rows
  {
    var t := s.committed;
    var u := Reclaimed(t, batch);
    var fails := f.rollback.Some?;
    if f.update.Some? then PurgeError(WriteError(s.(working := Some(t.(rows := u.rows))), f.update.value, fails))
    else if f.commit.Some? then PurgeError(WriteError(s.(working := Some(u)), f.commit.value, fails))
    else
      (s.(committed := u, rowCount := u.rowCount, logicalBytes := u.logicalBytes, working := None),
       Purged(|batch|, BatchBytes(t.rows, batch)))
  }

  function Purge(c: Config, s: Store, limit: int, nowNs: int, f: Faults): (Store, PurgeOutcome)
    requires Consistent(s.committed)
  {
    if s.condition.Closed? then (s, PurgeClosed)
    else if s.condition.ReadOnly? then
      (s, PurgeReadOnly(if s.reason.Some? then s.reason.value else StoreReadOnly))
    else if !(0 < limit <= c.maxPurgeRows) then (s, PurgeBadLimit)
    else if !(0 <= nowNs <= MAX_INT64) then (s, PurgeBadClock)
    else PurgeTransaction(s, limit, nowNs, f)
  }

  // ---- opening a file -----------------------------------------------------

  ghost function MaxSequence(rows: Rows): nat {
    if |rows| == 0 then 0 else Newest(rows)
  }

  /** `_load_and_verify_counters` on an existing file. */
  ghost function Open(c: Config, t: Table): Option<Store> {
    if t.rowCount != |t.rows| || t.logicalBytes != TotalBytes(t.rows) then None
    else if t.nextSequence <= MaxSequence(t.rows) then None
    else if t.rowCount > c.maxRows || t.logicalBytes > c.maxLogicalBytes then None
    else Some(Store(Healthy, None, t.rowCount, t.logicalBytes, t, None))
  }
}
