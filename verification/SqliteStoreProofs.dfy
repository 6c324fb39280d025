/** What every run of the store keeps, whatever statement fails and whoever else commits. */
module SqliteStoreProofs {
  import opened Common
  import opened Observations
  import opened StoreTable
  import opened SqliteStore
  import opened Utf8

  /** An observation that `put` may store. */
  ghost predicate Storable(c: Config, o: Observation) {
    && c.valid(o) && o.ttlNs.Some?
    && o.sensitivityClass != "prohibited" && o.persistenceClass != "visual"
    && |c.encode(o)| <= c.maxObservationBytes
  }

  ghost predicate RowFor(c: Config, row: Row, o: Observation, nowNs: int) {
    Storable(c, o) && ExpiryFits(o, nowNs) && row == RowOf(c, o, nowNs)
  }

  /** A row some `put` has written. */
  ghost predicate Genuine(c: Config, row: Row) {
    exists o, nowNs :: RowFor(c, row, o, nowNs)
  }

  /** A committed file that a store with these limits may have produced. */
  ghost predicate Wholesome(c: Config, t: Table) {
    && Consistent(t)
    && t.rowCount <= c.maxRows && t.logicalBytes <= c.maxLogicalBytes
    && forall k :: k in t.rows ==> Genuine(c, t.rows[k])
  }

  ghost predicate Inv(c: Config, s: Store) {
    Wholesome(c, s.committed) && (s.condition.Healthy? ==> s.working.None?)
  }

  /** The counters kept in memory are those in the file. */
  ghost predicate InStep(s: Store) {
    s.condition.Healthy? ==> s.rowCount == s.committed.rowCount && s.logicalBytes == s.committed.logicalBytes
  }

  /** Another connection only ever commits what a store may produce, and never lowers the next sequence. */
  ghost predicate FairOther(c: Config, s: Store, other: Option<Table>) {
    other.Some? ==> Wholesome(c, other.value) && other.value.nextSequence >= s.committed.nextSequence
  }

  lemma ReclaimedIsWholesome(c: Config, t: Table, now: int, limit: nat)
    requires Wholesome(c, t)
    ensures var batch := SelectExpired(t.rows, now, limit);
      Distinct(batch) && (forall k :: k in batch ==> k in t.rows) && Wholesome(c, Reclaimed(t, batch))
  {
    BatchIsFirst(t.rows, now, limit);
    DeletionIsWholesome(c, t, SelectExpired(t.rows, now, limit));
  }

  lemma SubsetStaysSound(rows: Rows, rest: Rows)
    requires DistinctKeys(rows) && Positive(rows)
    requires forall k :: k in rest ==> k in rows && rest[k] == rows[k]
    ensures DistinctKeys(rest) && Positive(rest)
  {
  }

  lemma DeletionIsConsistent(t: Table, batch: seq<nat>)
    requires Consistent(t) && Distinct(batch) && forall k :: k in batch ==> k in t.rows
    ensures Consistent(Reclaimed(t, batch))
  {
    DeleteBatch(t.rows, batch);
    SubsetStaysSound(t.rows, DeleteIn(t.rows, batch));
  }

  lemma DeletionIsWholesome(c: Config, t: Table, batch: seq<nat>)
    requires Wholesome(c, t) && Distinct(batch) && forall k :: k in batch ==> k in t.rows
    ensures Wholesome(c, Reclaimed(t, batch))
  {
    DeletionIsConsistent(t, batch);
    DeleteBatch(t.rows, batch);
  }

  lemma InsertedIsConsistent(c: Config, u: Table, o: Observation, nowNs: int)
    requires Consistent(u) && o.ttlNs.Some? && |c.encode(o)| >= 1 && u.nextSequence < MAX_INT64
    requires forall k :: k in u.rows ==> u.rows[k].key != o.idempotencyKey
    ensures Consistent(Inserted(c, u, o, nowNs))
  {
    var row, v := RowOf(c, o, nowNs), Inserted(c, u, o, nowNs);
    TotalWith(u.rows, u.nextSequence, row);
    assert |v.rows| == |u.rows| + 1;
    forall k | k in v.rows ensures k < v.nextSequence && k >= 1 && v.rows[k].logicalBytes >= 1 {
      assert k == u.nextSequence || k in u.rows;
    }
    forall j, k | j in v.rows && k in v.rows && j != k ensures v.rows[j].key != v.rows[k].key {
      assert j == u.nextSequence || j in u.rows;
      assert k == u.nextSequence || k in u.rows;
    }
  }

  lemma InsertedIsWholesome(c: Config, u: Table, o: Observation, nowNs: int)
    requires Wholesome(c, u) && Storable(c, o) && ExpiryFits(o, nowNs) && u.nextSequence < MAX_INT64
    requires forall k :: k in u.rows ==> u.rows[k].key != o.idempotencyKey
    requires |c.encode(o)| >= 1 && u.rowCount < c.maxRows && u.logicalBytes + |c.encode(o)| <= c.maxLogicalBytes
    ensures Wholesome(c, Inserted(c, u, o, nowNs))
  {
    InsertedIsConsistent(c, u, o, nowNs);
    var v := Inserted(c, u, o, nowNs);
    assert RowFor(c, RowOf(c, o, nowNs), o, nowNs);
    forall k | k in v.rows ensures Genuine(c, v.rows[k]) {
      assert k == u.nextSequence || k in u.rows;
    }
  }

  /** The table from which a row is inserted, once the pressure batch is gone. */
  ghost function AfterPressure(c: Config, t: Table, size: nat, nowNs: int): Table
    requires Consistent(t)
  {
    var batch := PressureBatch(c, t, size, nowNs);
    BatchIsFirst(t.rows, nowNs, c.maxPurgeRows);
    Reclaimed(t, batch)
  }

  lemma AfterPressureIsWholesome(c: Config, t: Table, size: nat, nowNs: int)
    requires Wholesome(c, t)
    ensures Wholesome(c, AfterPressure(c, t, size, nowNs))
    ensures AfterPressure(c, t, size, nowNs).nextSequence == t.nextSequence
    ensures forall k :: k in AfterPressure(c, t, size, nowNs).rows ==>
      k in t.rows && AfterPressure(c, t, size, nowNs).rows[k] == t.rows[k]
  {
    BatchIsFirst(t.rows, nowNs, c.maxPurgeRows);
    DeletionIsWholesome(c, t, PressureBatch(c, t, size, nowNs));
  }

  /** An acceptance commits the file with the new row under the file's next sequence. */
  ghost predicate Accepts(c: Config, s: Store, o: Observation, env: PutEnv, s': Store, r: Receipt)
    requires Consistent(s.committed) && o.ttlNs.Some?
  {
    var u := AfterPressure(c, s.committed, |c.encode(o)|, env.nowNs);
    && s' == s.(committed := Inserted(c, u, o, env.nowNs), rowCount := u.rowCount + 1,
                logicalBytes := u.logicalBytes + |c.encode(o)|, working := None)
    && r == Receipt(Accepted, None, Some(s.committed.nextSequence), |c.encode(o)|)
    && u.rowCount < c.maxRows && u.logicalBytes + |c.encode(o)| <= c.maxLogicalBytes
  }

  /** Anything else leaves the file and the counters alone and no transaction open on a healthy store. */
  ghost predicate Declines(s: Store, s': Store, r: Receipt) {
    && r.status != Accepted
    && s'.committed == s.committed && s'.rowCount == s.rowCount && s'.logicalBytes == s.logicalBytes
    && (s'.condition.Healthy? ==> s'.working.None?)
    && (s'.condition.Closed? <==> s.condition.Closed?)
  }

  predicate IsCeiling(r: Receipt) {
    r.reason == Some(CountLimitReached) || r.reason == Some(LogicalByteLimitReached)
  }

  /** Both before and after reclaiming, the new row would cross a ceiling. */
  ghost predicate NoRoom(c: Config, t: Table, size: nat, nowNs: int)
    requires Consistent(t)
  {
    && OverCeiling(c, t.rowCount, t.logicalBytes, size)
    && var u := AfterPressure(c, t, size, nowNs); OverCeiling(c, u.rowCount, u.logicalBytes, size)
  }

  lemma ErrorDeclines(s: Store, begun: Store, e: SqlError, rollbackFails: bool)
    requires s.condition.Healthy? && s.working.None?
    requires begun == s || exists w :: begun == s.(working := w)
    ensures Declines(s, WriteError(begun, e, rollbackFails).0, WriteError(begun, e, rollbackFails).1)
    ensures Declines(s, IntegrityError(begun, rollbackFails).0, IntegrityError(begun, rollbackFails).1)
    ensures !IsCeiling(WriteError(begun, e, rollbackFails).1) && !IsCeiling(IntegrityError(begun, rollbackFails).1)
  {
  }

  lemma RollbackDeclines(s: Store, w: Table, f: Faults, r: Receipt)
    requires s.condition.Healthy? && s.working.None? && r.status != Accepted
    ensures var (s', r') := RollbackAndReturn(s.(working := Some(w)), f, r);
      Declines(s, s', r') && (IsCeiling(r') ==> IsCeiling(r))
  {
    if f.rollback.Some? { ErrorDeclines(s, s.(working := Some(w)), f.rollback.value, f.rollbackAgain); }
  }

  lemma RowOutcome(c: Config, s: Store, o: Observation, env: PutEnv)
    requires Inv(c, s) && s.condition.Healthy? && o.ttlNs.Some?
    requires var u := AfterPressure(c, s.committed, |c.encode(o)|, env.nowNs);
      u.rowCount < c.maxRows && u.logicalBytes + |c.encode(o)| <= c.maxLogicalBytes
    ensures var u := AfterPressure(c, s.committed, |c.encode(o)|, env.nowNs);
      var (s', r) := PutRow(c, s, o, env, u);
      if r.status == Accepted then Accepts(c, s, o, env, s', r) else Declines(s, s', r) && !IsCeiling(r)
  {
    var f := env.faults;
    var u := AfterPressure(c, s.committed, |c.encode(o)|, env.nowNs);
    if f.insert.Some? {
      ErrorDeclines(s, s.(working := Some(s.committed.(rows := u.rows))), f.insert.value, f.rollback.Some?);
    } else if f.update.Some? {
      var v := Inserted(c, u, o, env.nowNs);
      ErrorDeclines(s, s.(working := Some(s.committed.(rows := v.rows))), f.update.value, f.rollback.Some?);
    } else if f.commit.Some? {
      ErrorDeclines(s, s.(working := Some(Inserted(c, u, o, env.nowNs))), f.commit.value, f.rollback.Some?);
    }
  }

  lemma NoPressureNoChange(c: Config, t: Table, size: nat, nowNs: int)
    requires Consistent(t)
    ensures var u := AfterPressure(c, t, size, nowNs);
      !OverCeiling(c, t.rowCount, t.logicalBytes, size) ==> u.rowCount == t.rowCount && u.logicalBytes == t.logicalBytes
  {
  }

  lemma RowsOutcome(c: Config, s: Store, o: Observation, env: PutEnv)
    requires Inv(c, s) && s.condition.Healthy? && o.ttlNs.Some?
    ensures var (s', r) := PutRows(c, s, o, env);
      && (if r.status == Accepted then Accepts(c, s, o, env, s', r) else Declines(s, s', r))
      && (IsCeiling(r) ==> NoRoom(c, s.committed, |c.encode(o)|, env.nowNs))
  {
    NoPressureNoChange(c, s.committed, |c.encode(o)|, env.nowNs);
    var f, t, size := env.faults, s.committed, |c.encode(o)|;
    var batch := PressureBatch(c, t, size, env.nowNs);
    var u := AfterPressure(c, t, size, env.nowNs);
    var purged := t.(rows := u.rows);
    if OverCeiling(c, t.rowCount, t.logicalBytes, size) && f.select.Some? {
      ErrorDeclines(s, s.(working := Some(t)), f.select.value, f.rollback.Some?);
    } else if batch != [] && f.delete.Some? {
      ErrorDeclines(s, s.(working := Some(t)), f.delete.value, f.rollback.Some?);
    } else if u.rowCount >= c.maxRows {
      RollbackDeclines(s, purged, f, Refuse(Rejected, CountLimitReached));
    } else if u.logicalBytes + size > c.maxLogicalBytes {
      RollbackDeclines(s, purged, f, Refuse(Rejected, LogicalByteLimitReached));
    } else {
      RowOutcome(c, s, o, env);
    }
  }

  lemma TransactionOutcome(c: Config, s: Store, o: Observation, env: PutEnv)
    requires Inv(c, s) && s.condition.Healthy? && o.ttlNs.Some?
    ensures var (s', r) := PutTransaction(c, s, o, env);
      && (if r.status == Accepted then
            Accepts(c, s, o, env, s', r) && FindKey(s.committed.rows, o.idempotencyKey).None?
            && s.committed.nextSequence < MAX_INT64
          else Declines(s, s', r))
      && (IsCeiling(r) ==> NoRoom(c, s.committed, |c.encode(o)|, env.nowNs))
  {
    var f, t := env.faults, s.committed;
    var begun, fails := s.(working := Some(t)), f.rollback.Some?;
    var duplicate := FindKey(t.rows, o.idempotencyKey);
    if f.begin.Some? {
      ErrorDeclines(s, s, f.begin.value, fails);
    } else if f.recheck.Some? {
      ErrorDeclines(s, begun, f.recheck.value, fails);
    } else if duplicate.Some? {
      RollbackDeclines(s, t, f, DuplicateReceipt(c, t.rows, duplicate.value, o));
    } else if f.readState.Some? {
      ErrorDeclines(s, begun, f.readState.value, fails);
    } else if t.rowCount != s.rowCount || t.logicalBytes != s.logicalBytes {
      ErrorDeclines(s, begun, Busy, fails);
    } else if t.nextSequence == MAX_INT64 {
      if fails { ErrorDeclines(s, begun, f.rollback.value, f.rollbackAgain); }
    } else {
      RowsOutcome(c, s, o, env);
    }
  }

  /** A transaction keeps the invariant, and an accepting one brings the counters in step. */
  lemma TransactionKeeps(c: Config, s: Store, o: Observation, env: PutEnv)
    requires ValidConfig(c) && Inv(c, s) && s.condition.Healthy? && Storable(c, o) && ExpiryFits(o, env.nowNs)
    ensures var (s', r) := PutTransaction(c, s, o, env);
      && Inv(c, s')
      && (r.status == Accepted || InStep(s) ==> InStep(s'))
  {
    TransactionOutcome(c, s, o, env);
    var (s', r) := PutTransaction(c, s, o, env);
    if r.status == Accepted {
      var t := s.committed;
      var u := AfterPressure(c, t, |c.encode(o)|, env.nowNs);
      AfterPressureIsWholesome(c, t, |c.encode(o)|, env.nowNs);
      forall k | k in u.rows ensures u.rows[k].key != o.idempotencyKey {
        assert !HasKey(t.rows, o.idempotencyKey, k);
      }
      InsertedIsWholesome(c, u, o, env.nowNs);
    }
  }

  /** A valid observation that `put` stores only after `Prevalidate` let it pass. */
  lemma PrevalidatedIsStorable(c: Config, s: Store, o: Observation)
    requires c.valid(o) && Prevalidate(c, s, o).None?
    ensures Storable(c, o) && s.condition.Healthy?
  {
  }

  lemma OtherCommitKeeps(c: Config, s: Store, other: Option<Table>)
    requires Inv(c, s) && FairOther(c, s, other)
    ensures Inv(c, OtherCommit(s, other))
    ensures other.None? ==> OtherCommit(s, other) == s
  {
  }

  /** Every `put` keeps the file consistent, within both ceilings and free of repeated keys, and its sequence
      counter from falling; a `put` that is not accepted leaves the file as it was, up to the other connection's
      commit; an accepted one hands out the file's next sequence. */
  lemma PutKeeps(c: Config, s: Store, o: Observation, env: PutEnv)
    requires ValidConfig(c) && Inv(c, s) && c.valid(o) && FairOther(c, s, env.other)
    ensures var (s', r) := Put(c, s, o, env);
      && Inv(c, s')
      && s'.committed.nextSequence >= s.committed.nextSequence
      && (r.status != Accepted ==>
            s'.committed == s.committed || (env.other.Some? && s'.committed == env.other.value))
      && (r.status == Accepted ==>
            && r.sequence.Some? && s.committed.nextSequence <= r.sequence.value
            && s'.committed.nextSequence == r.sequence.value + 1
            && r.bytesAccepted == |c.encode(o)|)
      && (InStep(s) && env.other.None? ==> InStep(s'))
      && (r.status == Accepted ==> InStep(s'))
  {
    var f := env.faults;
    if Prevalidate(c, s, o).None? {
      PrevalidatedIsStorable(c, s, o);
      if f.lookup.Some? {
        ErrorDeclines(s, s, f.lookup.value, f.rollback.Some?);
      } else if FindKey(s.committed.rows, o.idempotencyKey).None? && PreflightRefusal(c, o, env).None? {
        OtherCommitKeeps(c, s, env.other);
        TransactionOutcome(c, OtherCommit(s, env.other), o, env);
        TransactionKeeps(c, OtherCommit(s, env.other), o, env);
      }
    }
  }

  /** The rows left once the first expired ones, in (expiry, sequence) order, have been deleted. */
  ghost predicate LeftAfterFirstBatch(rows: Rows, now: int, limit: nat, rest: Rows) {
    exists batch :: IsFirstBatch(rows, now, limit, batch) && rest == DeleteIn(rows, batch)
  }

  ghost predicate LeavesNoRoom(c: Config, rows: Rows, size: nat, nowNs: int) {
    exists rest ::
      && LeftAfterFirstBatch(rows, nowNs, c.maxPurgeRows, rest)
      && OverCeiling(c, |rest|, TotalBytes(rest), size)
  }

  lemma PressureLeaves(c: Config, t: Table, size: nat, nowNs: int)
    requires Consistent(t) && NoRoom(c, t, size, nowNs)
    ensures LeavesNoRoom(c, t.rows, size, nowNs)
  {
    var batch := SelectExpired(t.rows, nowNs, c.maxPurgeRows);
    BatchIsFirst(t.rows, nowNs, c.maxPurgeRows);
    DeleteBatch(t.rows, batch);
    assert LeftAfterFirstBatch(t.rows, nowNs, c.maxPurgeRows, DeleteIn(t.rows, batch));
  }

  /** Only the transaction speaks of ceilings. */
  lemma CeilingComesFromTransaction(c: Config, s: Store, o: Observation, env: PutEnv)
    requires Inv(c, s) && s.condition.Healthy? && FairOther(c, s, env.other)
    requires IsCeiling(Put(c, s, o, env).1)
    ensures o.ttlNs.Some? && Consistent(OtherCommit(s, env.other).committed)
    ensures Put(c, s, o, env) == PutTransaction(c, OtherCommit(s, env.other), o, env)
  {
    if Prevalidate(c, s, o).None? && env.faults.lookup.Some? {
      ErrorDeclines(s, s, env.faults.lookup.value, env.faults.rollback.Some?);
    }
  }

  /** A `put` turned away by a ceiling would still not fit once the first batch of expired rows is gone. */
  lemma CeilingRejectionIsNecessary(c: Config, s: Store, o: Observation, env: PutEnv)
    requires Inv(c, s) && s.condition.Healthy? && FairOther(c, s, env.other)
    requires IsCeiling(Put(c, s, o, env).1)
    ensures LeavesNoRoom(c, OtherCommit(s, env.other).committed.rows, |c.encode(o)|, env.nowNs)
  {
    CeilingComesFromTransaction(c, s, o, env);
    OtherCommitKeeps(c, s, env.other);
    TransactionOutcome(c, OtherCommit(s, env.other), o, env);
    PressureLeaves(c, OtherCommit(s, env.other).committed, |c.encode(o)|, env.nowNs);
  }

  // ---- purging ------------------------------------------------------------

  /** The batch is gone, the counters follow, and the memory agrees with the file. */
  ghost predicate PurgeDone(s: Store, batch: seq<nat>, s': Store, r: PurgeOutcome)
    requires Consistent(s.committed) && Distinct(batch) && forall k :: k in batch ==> k in s.committed.rows
  {
    var u := Reclaimed(s.committed, batch);
    && r == Purged(|batch|, BatchBytes(s.committed.rows, batch))
    && s' == s.(committed := u, rowCount := u.rowCount, logicalBytes := u.logicalBytes, working := None)
  }

  ghost predicate PurgeDeclined(s: Store, s': Store, r: PurgeOutcome) {
    && !r.Purged?
    && s'.committed == s.committed && s'.rowCount == s.rowCount && s'.logicalBytes == s.logicalBytes
    && (s'.condition.Healthy? ==> s'.working.None?)
  }

  lemma PurgeErrorDeclines(s: Store, begun: Store, e: SqlError, rollbackFails: bool)
    requires s.condition.Healthy? && s.working.None?
    requires begun == s || exists w :: begun == s.(working := w)
    ensures var (s', r) := PurgeError(WriteError(begun, e, rollbackFails)); PurgeDeclined(s, s', r)
    ensures var (s', r) := PurgeError(IntegrityError(begun, rollbackFails)); PurgeDeclined(s, s', r)
  {
    ErrorDeclines(s, begun, e, rollbackFails);
  }

  lemma PurgeRowsOutcome(s: Store, batch: seq<nat>, f: Faults)
    requires Consistent(s.committed) && Distinct(batch) && forall k :: k in batch ==> k in s.committed.rows
    requires s.condition.Healthy? && s.working.None?
    ensures var (s', r) := PurgeRows(s, batch, f); PurgeDone(s, batch, s', r) || PurgeDeclined(s, s', r)
  {
    var t, u, fails := s.committed, Reclaimed(s.committed, batch), f.rollback.Some?;
    if f.update.Some? {
      PurgeErrorDeclines(s, s.(working := Some(t.(rows := u.rows))), f.update.value, fails);
    } else if f.commit.Some? {
      PurgeErrorDeclines(s, s.(working := Some(u)), f.commit.value, fails);
    }
  }

  lemma PurgeOutcomes(s: Store, limit: nat, nowNs: int, f: Faults)
    requires Consistent(s.committed) && s.condition.Healthy? && s.working.None?
    ensures var (s', r) := PurgeTransaction(s, limit, nowNs, f);
      var batch := SelectExpired(s.committed.rows, nowNs, limit);
      && IsFirstBatch(s.committed.rows, nowNs, limit, batch)
      && (PurgeDone(s, batch, s', r) || PurgeDeclined(s, s', r)
          || (batch == [] && s' == s && r == Purged(0, 0)))
  {
    var t, fails := s.committed, f.rollback.Some?;
    var begun := s.(working := Some(t));
    BatchIsFirst(t.rows, nowNs, limit);
    if f.begin.Some? {
      PurgeErrorDeclines(s, s, f.begin.value, fails);
    } else if f.readState.Some? {
      PurgeErrorDeclines(s, begun, f.readState.value, fails);
    } else if t.rowCount != s.rowCount || t.logicalBytes != s.logicalBytes {
      PurgeErrorDeclines(s, begun, Busy, fails);
    } else if f.select.Some? {
      PurgeErrorDeclines(s, begun, f.select.value, fails);
    } else if SelectExpired(t.rows, nowNs, limit) == [] {
      if fails { PurgeErrorDeclines(s, begun, f.rollback.value, f.rollbackAgain); }
    } else if f.delete.Some? {
      PurgeErrorDeclines(s, begun, f.delete.value, fails);
    } else {
      PurgeRowsOutcome(s, SelectExpired(t.rows, nowNs, limit), f);
    }
  }

  /** What a purge may do to a file: delete the first batch, or nothing. */
  ghost predicate PurgeEffect(c: Config, s: Store, limit: nat, nowNs: int, s': Store, r: PurgeOutcome) {
    && Inv(c, s') && (InStep(s) ==> InStep(s'))
    && s'.committed.nextSequence == s.committed.nextSequence
    && (!r.Purged? ==> s'.committed == s.committed)
    && (r.Purged? ==> exists batch :: DeletedBatch(s.committed.rows, limit, nowNs, s'.committed.rows, r, batch))
  }

  ghost predicate DeletedBatch(rows: Rows, limit: nat, nowNs: int, rest: Rows, r: PurgeOutcome, batch: seq<nat>) {
    && IsFirstBatch(rows, nowNs, limit, batch) && rest == DeleteIn(rows, batch)
    && r == Purged(|batch|, TotalBytes(rows) - TotalBytes(rest))
  }

  lemma PurgeDoneKeeps(c: Config, s: Store, limit: nat, nowNs: int, s': Store, r: PurgeOutcome)
    requires Inv(c, s)
    requires var batch := SelectExpired(s.committed.rows, nowNs, limit);
      Distinct(batch) && (forall k :: k in batch ==> k in s.committed.rows) && PurgeDone(s, batch, s', r)
    ensures PurgeEffect(c, s, limit, nowNs, s', r)
  {
    ReclaimedIsWholesome(c, s.committed, nowNs, limit);
    BatchIsFirst(s.committed.rows, nowNs, limit);
    BatchIsDeleted(s.committed.rows, limit, nowNs, SelectExpired(s.committed.rows, nowNs, limit));
  }

  lemma BatchIsDeleted(rows: Rows, limit: nat, nowNs: int, batch: seq<nat>)
    requires IsFirstBatch(rows, nowNs, limit, batch) && Positive(rows)
    ensures forall k :: k in batch ==> k in rows
    ensures DeletedBatch(rows, limit, nowNs, DeleteIn(rows, batch), Purged(|batch|, BatchBytes(rows, batch)), batch)
  {
    FirstBatchDeducts(rows, nowNs, limit, batch);
  }

  lemma PurgeNothingKeeps(c: Config, s: Store, limit: nat, nowNs: int)
    requires Inv(c, s) && SelectExpired(s.committed.rows, nowNs, limit) == []
    ensures PurgeEffect(c, s, limit, nowNs, s, Purged(0, 0))
  {
    BatchIsFirst(s.committed.rows, nowNs, limit);
    assert StoreTable.Members([]) == {};
    assert DeleteIn(s.committed.rows, []) == s.committed.rows;
    assert DeletedBatch(s.committed.rows, limit, nowNs, s.committed.rows, Purged(0, 0), []);
  }

  lemma PurgeTransactionKeeps(c: Config, s: Store, limit: nat, nowNs: int, f: Faults)
    requires Inv(c, s) && s.condition.Healthy?
    ensures var (s', r) := PurgeTransaction(s, limit, nowNs, f); PurgeEffect(c, s, limit, nowNs, s', r)
  {
    PurgeOutcomes(s, limit, nowNs, f);
    hide PurgeTransaction;
    var (s', r) := PurgeTransaction(s, limit, nowNs, f);
    if PurgeDone(s, SelectExpired(s.committed.rows, nowNs, limit), s', r) {
      PurgeDoneKeeps(c, s, limit, nowNs, s', r);
    } else if !PurgeDeclined(s, s', r) {
      PurgeNothingKeeps(c, s, limit, nowNs);
    }
  }

  lemma PurgeRefusalKeeps(c: Config, s: Store, limit: nat, nowNs: int, r: PurgeOutcome)
    requires Inv(c, s) && !r.Purged?
    ensures PurgeEffect(c, s, limit, nowNs, s, r)
  {
    hide Inv;
  }

  lemma PurgeRunsOrRefuses(c: Config, s: Store, limit: int, nowNs: int, f: Faults)
    requires Consistent(s.committed)
    ensures
      var (s', r) := Purge(c, s, limit, nowNs, f);
      || (s.condition.Healthy? && 0 < limit <= c.maxPurgeRows && (s', r) == PurgeTransaction(s, limit, nowNs, f))
      || (s' == s && !r.Purged?)
  {
    hide PurgeTransaction, Consistent;
  }

  /** A purge deletes exactly the first expired rows and no live one, or leaves the file alone. */
  lemma PurgeKeeps(c: Config, s: Store, limit: int, nowNs: int, f: Faults)
    requires Inv(c, s)
    ensures var (s', r) := Purge(c, s, limit, nowNs, f);
      PurgeEffect(c, s, if limit > 0 then limit else 0, nowNs, s', r) && (r.Purged? ==> 0 < limit <= c.maxPurgeRows)
  {
    var (s', r) := Purge(c, s, limit, nowNs, f);
    PurgeRunsOrRefuses(c, s, limit, nowNs, f);
    hide PurgeEffect, Purge, PurgeTransaction;
    if s' == s && !r.Purged? {
      PurgeRefusalKeeps(c, s, if limit > 0 then limit else 0, nowNs, r);
    } else {
      PurgeTransactionKeeps(c, s, limit, nowNs, f);
    }
  }

  // ---- opening ------------------------------------------------------------

  lemma NewestIsMember(t: Table)
    requires Consistent(t)
    ensures MaxSequence(t.rows) < t.nextSequence
  {
  }

  /** A file left by any run opens again under the same limits, with counters in step. */
  lemma ReopenSucceeds(c: Config, t: Table)
    requires Wholesome(c, t)
    ensures Open(c, t).Some? && Inv(c, Open(c, t).value) && InStep(Open(c, t).value)
    ensures Open(c, t).value.committed == t && Open(c, t).value.condition.Healthy?
  {
    NewestIsMember(t);
  }

  // ---- runs ---------------------------------------------------------------

  datatype Event =
    | PutEvent(o: Observation, env: PutEnv)
    | PurgeEvent(limit: int, nowNs: int, faults: Faults)
    | CloseEvent
    | ReopenEvent
    | OtherEvent(table: Table)

  ghost predicate Possible(c: Config, s: Store, e: Event) {
    match e
    case PutEvent(o, env) => c.valid(o) && FairOther(c, s, env.other)
    case OtherEvent(t) => FairOther(c, s, Some(t))
    case _ => true
  }

  /** A store together with every sequence its `put`s have handed out. */
  datatype World = World(store: Store, handed: seq<nat>)

  ghost predicate WorldInv(c: Config, w: World) {
    && Inv(c, w.store)
    && (forall i, j :: 0 <= i < j < |w.handed| ==> w.handed[i] < w.handed[j])
    && (forall i :: 0 <= i < |w.handed| ==> w.handed[i] < w.store.committed.nextSequence)
  }

  /** One event; an event that cannot happen in this state is skipped. */
  ghost function Step(c: Config, w: World, e: Event): World {
    var s := w.store;
    if !Consistent(s.committed) || !Possible(c, s, e) then w
    else
      match e
      case PutEvent(o, env) =>
        var (s', r) := Put(c, s, o, env);
        World(s', if r.status == Accepted && r.sequence.Some? then w.handed + [r.sequence.value] else w.handed)
      case PurgeEvent(limit, nowNs, faults) => w.(store := Purge(c, s, limit, nowNs, faults).0)
      case CloseEvent => w.(store := s.(condition := Closed, working := None))
      case ReopenEvent => if Open(c, s.committed).Some? then w.(store := Open(c, s.committed).value) else w
      case OtherEvent(t) => w.(store := s.(committed := t))
  }

  ghost function Run(c: Config, w: World, events: seq<Event>): World
    decreases |events|
  {
    if events == [] then w else Run(c, Step(c, w, events[0]), events[1..])
  }

  ghost predicate StepSafe(c: Config, w: World, w': World) {
    WorldInv(c, w') && w.handed <= w'.handed
  }

  lemma PutStepIsSafe(c: Config, w: World, o: Observation, env: PutEnv)
    requires ValidConfig(c) && WorldInv(c, w)
    ensures var w' := Step(c, w, PutEvent(o, env));
      StepSafe(c, w, w') && (InStep(w.store) && env.other.None? ==> InStep(w'.store))
  {
    SameHandedIsSafe(c, w, w.store);
    if Possible(c, w.store, PutEvent(o, env)) {
      PutKeeps(c, w.store, o, env);
      var (s, r) := Put(c, w.store, o, env);
      if r.status == Accepted { NextHandedIsSafe(c, w, s, r.sequence.value); } else { SameHandedIsSafe(c, w, s); }
    }
    hide Put, WorldInv, StepSafe, ValidConfig, FairOther;
  }

  lemma SameHandedIsSafe(c: Config, w: World, s: Store)
    requires WorldInv(c, w) && Inv(c, s) && w.store.committed.nextSequence <= s.committed.nextSequence
    ensures StepSafe(c, w, w.(store := s))
  {
    hide Inv;
  }

  lemma NextHandedIsSafe(c: Config, w: World, s: Store, sequence: nat)
    requires WorldInv(c, w) && Inv(c, s) && w.store.committed.nextSequence <= sequence < s.committed.nextSequence
    ensures StepSafe(c, w, World(s, w.handed + [sequence]))
  {
    hide Inv;
  }

  lemma PurgeStepIsSafe(c: Config, w: World, limit: int, nowNs: int, f: Faults)
    requires WorldInv(c, w)
    ensures var w' := Step(c, w, PurgeEvent(limit, nowNs, f));
      StepSafe(c, w, w') && (InStep(w.store) ==> InStep(w'.store))
  {
    assert Inv(c, w.store) && Consistent(w.store.committed);
    hide Purge, PurgeEffect, WorldInv, StepSafe, Inv, Consistent;
    var (s, r) := Purge(c, w.store, limit, nowNs, f);
    PurgeKeeps(c, w.store, limit, nowNs, f);
    PurgeEffectIsSafe(c, w, if limit > 0 then limit else 0, nowNs, s, r);
  }

  lemma PurgeEffectIsSafe(c: Config, w: World, limit: nat, nowNs: int, s: Store, r: PurgeOutcome)
    requires WorldInv(c, w) && PurgeEffect(c, w.store, limit, nowNs, s, r)
    ensures StepSafe(c, w, w.(store := s)) && (InStep(w.store) ==> InStep(s))
  {
    hide Inv;
  }

  lemma StepIsSafe(c: Config, w: World, e: Event)
    requires ValidConfig(c) && WorldInv(c, w)
    ensures StepSafe(c, w, Step(c, w, e))
    ensures InStep(w.store) && !e.OtherEvent? && (e.PutEvent? ==> e.env.other.None?) ==> InStep(Step(c, w, e).store)
  {
    hide Step, StepSafe, WorldInv;
    match e
    case PutEvent(o, env) => PutStepIsSafe(c, w, o, env);
    case PurgeEvent(limit, nowNs, faults) => PurgeStepIsSafe(c, w, limit, nowNs, faults);
    case ReopenEvent => ReopenStepIsSafe(c, w);
    case CloseEvent => CloseStepIsSafe(c, w);
    case OtherEvent(t) => OtherStepIsSafe(c, w, t);
  }

  lemma ReopenStepIsSafe(c: Config, w: World)
    requires WorldInv(c, w)
    ensures StepSafe(c, w, Step(c, w, ReopenEvent)) && InStep(Step(c, w, ReopenEvent).store)
  {
    ReopenSucceeds(c, w.store.committed);
    hide Open;
  }

  lemma CloseStepIsSafe(c: Config, w: World)
    requires WorldInv(c, w)
    ensures StepSafe(c, w, Step(c, w, CloseEvent)) && InStep(Step(c, w, CloseEvent).store)
  {
  }

  lemma OtherStepIsSafe(c: Config, w: World, t: Table)
    requires WorldInv(c, w)
    ensures StepSafe(c, w, Step(c, w, OtherEvent(t)))
  {
  }

  /** Over every run, whatever statement fails and whoever else commits, the file stays wholesome, and the
      sequences handed out increase strictly and stay below the file's next one: none is ever reused. */
  lemma {:induction false} RunIsSafe(c: Config, w: World, events: seq<Event>)
    requires ValidConfig(c) && WorldInv(c, w)
    ensures WorldInv(c, Run(c, w, events)) && w.handed <= Run(c, w, events).handed
    decreases |events|
  {
    if events != [] {
      StepIsSafe(c, w, events[0]);
      RunIsSafe(c, Step(c, w, events[0]), events[1..]);
    }
  }

  ghost predicate Alone(events: seq<Event>) {
    forall e :: e in events ==> !e.OtherEvent? && (e.PutEvent? ==> e.env.other.None?)
  }

  /** With no other connection, the counters in memory are those in the file whenever the store is healthy. */
  lemma {:induction false} AloneStaysInStep(c: Config, w: World, events: seq<Event>)
    requires ValidConfig(c) && WorldInv(c, w) && InStep(w.store) && Alone(events)
    ensures InStep(Run(c, w, events).store)
    decreases |events|
  {
    if events != [] {
      assert events[0] in events;
      assert forall e :: e in events[1..] ==> e in events;
      StepIsSafe(c, w, events[0]);
      AloneStaysInStep(c, Step(c, w, events[0]), events[1..]);
    }
  }

  /** A store that has just created its file. */
  function NewStore(): Store { Store(Healthy, None, 0, 0, EMPTY_TABLE, None) }

  lemma NewWorldIsSafe(c: Config)
    requires ValidConfig(c)
    ensures WorldInv(c, World(NewStore(), [])) && InStep(NewStore())
  {
    assert TotalBytes(EMPTY_TABLE.rows) == 0;
  }

  /** From a new file, over every run of puts, purges, closings and reopenings, errors at any statement and commits
      of another store: the stored counters are the row count and the byte sum, both ceilings hold, no two rows have
      the same key, and the sequences handed out increase strictly below the next one. */
  lemma EveryRunIsSafe(c: Config, events: seq<Event>)
    requires ValidConfig(c)
    ensures
      var w := Run(c, World(NewStore(), []), events);
      var t := w.store.committed;
      && t.rowCount == |t.rows| <= c.maxRows && t.logicalBytes == TotalBytes(t.rows) <= c.maxLogicalBytes
      && (forall j, k :: j in t.rows && k in t.rows && t.rows[j].key == t.rows[k].key ==> j == k)
      && (forall k :: k in t.rows ==> k < t.nextSequence)
      && (forall i, j :: 0 <= i < j < |w.handed| ==> w.handed[i] < w.handed[j])
      && (forall i :: 0 <= i < |w.handed| ==> w.handed[i] < t.nextSequence)
  {
    hide Run;
    NewWorldIsSafe(c);
    RunIsSafe(c, World(NewStore(), []), events);
  }
}
