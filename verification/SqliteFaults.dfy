/** Under which reason a put or a purge reports the first statement that fails. */
module SqliteFaults {
  import opened Common
  import opened Observations
  import opened StoreTable
  import opened SqliteStore
  import opened SqliteDecisions

  // ---- what is reported ---------------------------------------------------------------------

  /** The reason for an error, or for the rollback after it that failed as well. */
  predicate Names(reason: Option<Reason>, e: SqlError, undone: bool) {
    && (reason == Some(RollbackFailed) <==> !undone)
    && (reason == Some(SqliteFull) <==> undone && e == DatabaseFull)
    && (reason == Some(SqliteIoError) <==> undone && e == IoError)
    && (reason == Some(SqliteCorrupt) <==> undone && e in {Corrupt, NotADatabase})
    && (reason == Some(SqliteReadOnly) <==> undone && e in {ReadOnlyDatabase, CannotOpen})
    && (reason == Some(SqliteBusy) <==> undone && e in {Busy, Locked})
    && (reason == Some(SqliteDatabaseError) <==> undone && e == OtherError)
  }

  predicate Reports(r: Receipt, e: SqlError, undone: bool) {
    r.status == Failed && r.sequence == None && r.bytesAccepted == 0 && Names(r.reason, e, undone)
  }

  /** A rollback works, or there is none to make because no transaction was left open. */
  predicate Undone(s: Store, f: Faults) { s.working.None? || f.rollback.None? }

  /** There is no room as the file is. */
  ghost predicate IsStarved(c: Config, s: Store, o: Observation, env: PutEnv) {
    var t := FileOf(s, env);
    HasNumber(c, s, o, env) && !(FitsRows(c, t.rowCount) && FitsBytes(c, t.logicalBytes, |c.encode(o)|))
  }

  ghost predicate HasExpired(c: Config, s: Store, env: PutEnv) {
    AnyExpired(FileOf(s, env).rows, env.nowNs) && c.maxPurgeRows > 0
  }

  /** The first statement that fails is the one reported, wherever the put had got to. */
  ghost predicate FaultsDecide(c: Config, s: Store, o: Observation, env: PutEnv, r: Receipt) {
    var f := env.faults;
    var undone, looked := f.rollback.None?, HasVolume(c, s, o, env) && f.begin.None?;
    && (Permitted(c, o) && f.lookup.Some? ==> Reports(r, f.lookup.value, Undone(s, f)))
    && (HasVolume(c, s, o, env) && f.begin.Some? ==> Reports(r, f.begin.value, Undone(s, f)))
    && (looked && f.recheck.Some? ==> Reports(r, f.recheck.value, undone))
    && (IsStillNew(c, s, o, env) && f.readState.Some? ==> Reports(r, f.readState.value, undone))
    && (IsStarved(c, s, o, env) && f.select.Some? ==> Reports(r, f.select.value, undone))
    && (IsStarved(c, s, o, env) && f.select.None? && HasExpired(c, s, env) && f.delete.Some? ==>
          Reports(r, f.delete.value, undone))
    && (HasRoom(c, s, o, env) && f.insert.Some? ==> Reports(r, f.insert.value, undone))
    && (HasRoom(c, s, o, env) && f.insert.None? && f.update.Some? ==> Reports(r, f.update.value, undone))
    && (HasRoom(c, s, o, env) && f.insert.None? && f.update.None? && f.commit.Some? ==>
          Reports(r, f.commit.value, undone))
  }

  /** A rollback that fails is reported in place of the refusal it belongs to. */
  ghost predicate RollbackDecides(c: Config, s: Store, o: Observation, env: PutEnv, r: Receipt) {
    var f, t := env.faults, FileOf(s, env);
    var looked := HasVolume(c, s, o, env) && f.begin.None? && f.recheck.None?;
    f.rollback.Some? ==>
      && (looked && Known(t.rows, o.idempotencyKey) ==> Reports(r, f.rollback.value, !f.rollbackAgain))
      && (IsStillNew(c, s, o, env) && f.readState.None? && !IsCounted(c, s, o, env) ==>
            r == Refuse(Failed, RollbackFailed))
      && (IsCounted(c, s, o, env) && t.nextSequence == MAX_INT64 ==>
            Reports(r, f.rollback.value, !f.rollbackAgain))
      && (HasReclaimed(c, s, o, env) && !HasRoom(c, s, o, env) ==>
            Reports(r, f.rollback.value, !f.rollbackAgain))
  }

  // ---- proofs -------------------------------------------------------------------------------------

  lemma ErrorReports(s: Store, e: SqlError, rollbackFails: bool)
    ensures Reports(WriteError(s, e, rollbackFails).1, e, s.working.None? || !rollbackFails)
  {
  }

  lemma RollbackReports(s: Store, f: Faults, r: Receipt)
    requires s.working.Some?
    ensures f.rollback.Some? ==> Reports(RollbackAndReturn(s, f, r).1, f.rollback.value, !f.rollbackAgain)
  {
    if f.rollback.Some? { ErrorReports(s, f.rollback.value, f.rollbackAgain); }
    hide WriteError, Reports;
  }

  ghost predicate RowReports(f: Faults, r: Receipt) {
    var undone := f.rollback.None?;
    && (f.insert.Some? ==> Reports(r, f.insert.value, undone))
    && (f.insert.None? && f.update.Some? ==> Reports(r, f.update.value, undone))
    && (f.insert.None? && f.update.None? && f.commit.Some? ==> Reports(r, f.commit.value, undone))
  }

  lemma RowIsReported(c: Config, s: Store, o: Observation, env: PutEnv, u: Table)
    requires o.ttlNs.Some?
    ensures RowReports(env.faults, PutRow(c, s, o, env, u).1)
  {
    var f, t, v := env.faults, s.committed, Inserted(c, u, o, env.nowNs);
    if f.insert.Some? {
      ErrorReports(s.(working := Some(t.(rows := u.rows))), f.insert.value, f.rollback.Some?);
    } else if f.update.Some? {
      ErrorReports(s.(working := Some(t.(rows := v.rows))), f.update.value, f.rollback.Some?);
    } else if f.commit.Some? {
      ErrorReports(s.(working := Some(v)), f.commit.value, f.rollback.Some?);
    }
    hide WriteError, Reports, Inserted;
  }

  /** The end of a transaction from the ceilings on. */
  ghost predicate RowsReport(f: Faults, fits: bool, expired: bool, fitsThen: bool, r: Receipt) {
    if !fits && f.select.Some? then Reports(r, f.select.value, f.rollback.None?)
    else if !fits && expired && f.delete.Some? then Reports(r, f.delete.value, f.rollback.None?)
    else if fits || fitsThen then RowReports(f, r)
    else f.rollback.Some? ==> Reports(r, f.rollback.value, !f.rollbackAgain)
  }

  ghost predicate RowsAreReported(c: Config, t: Table, o: Observation, env: PutEnv, r: Receipt) {
    var rest := Rest(c, t, env.nowNs);
    RowsReport(env.faults, FitsAsIs(c, t, |c.encode(o)|), AnyExpired(t.rows, env.nowNs) && c.maxPurgeRows > 0,
               FitsRows(c, |rest|) && FitsBytes(c, TotalBytes(rest), |c.encode(o)|), r)
  }

  lemma RowsReported(c: Config, s: Store, o: Observation, env: PutEnv)
    requires o.ttlNs.Some? && Consistent(s.committed)
    ensures RowsAreReported(c, s.committed, o, env, PutRows(c, s, o, env).1)
  {
    var f, t, size := env.faults, s.committed, |c.encode(o)|;
    var begun := s.(working := Some(t));
    RowsPaths(c, s, o, env);
    PressureIsRest(c, t, size, env.nowNs);
    OverMeans(c, t, size);
    var batch := PressureBatch(c, t, size, env.nowNs);
    var u := Reclaimed(t, batch);
    var purged := begun.(working := Some(t.(rows := u.rows)));
    var rest := Rest(c, t, env.nowNs);
    var restRows, restBytes := |rest|, TotalBytes(rest);
    var over := !FitsAsIs(c, t, size);
    hide PutRows, PutRow, WriteError, RollbackAndReturn, Reports, RowReports, Rest, Consistent, Reclaimed;
    hide PressureBatch, AnyExpired, OverCeiling;
    if over && f.select.Some? {
      ErrorReports(begun, f.select.value, f.rollback.Some?);
    } else if batch != [] && f.delete.Some? {
      ErrorReports(begun, f.delete.value, f.rollback.Some?);
    } else if u.rowCount >= c.maxRows {
      RollbackReports(purged, f, Refuse(Rejected, CountLimitReached));
    } else if u.logicalBytes + size > c.maxLogicalBytes {
      RollbackReports(purged, f, Refuse(Rejected, LogicalByteLimitReached));
    } else {
      RowIsReported(c, s, o, env, u);
    }
  }

  /** The end of a transaction, for a store with these counters in memory. */
  ghost predicate TransactionReports(c: Config, s: Store, t: Table, o: Observation, env: PutEnv, r: Receipt) {
    var f, undone := env.faults, env.faults.rollback.None?;
    if f.begin.Some? then Reports(r, f.begin.value, Undone(s, f))
    else if f.recheck.Some? then Reports(r, f.recheck.value, undone)
    else if Known(t.rows, o.idempotencyKey) then !undone ==> Reports(r, f.rollback.value, !f.rollbackAgain)
    else if f.readState.Some? then Reports(r, f.readState.value, undone)
    else if t.rowCount != s.rowCount || t.logicalBytes != s.logicalBytes then
      !undone ==> r == Refuse(Failed, RollbackFailed)
    else if t.nextSequence == MAX_INT64 then !undone ==> Reports(r, f.rollback.value, !f.rollbackAgain)
    else RowsAreReported(c, t, o, env, r)
  }

  lemma TransactionIsReported(c: Config, s: Store, o: Observation, env: PutEnv)
    requires o.ttlNs.Some? && Consistent(s.committed)
    ensures TransactionReports(c, s, s.committed, o, env, PutTransaction(c, s, o, env).1)
  {
    var f, t := env.faults, s.committed;
    var begun, fails := s.(working := Some(t)), f.rollback.Some?;
    KnownIsFound(t.rows, o.idempotencyKey);
    var duplicate := FindKey(t.rows, o.idempotencyKey);
    hide FindKey, DistinctKeys, PutRows, WriteError, RollbackAndReturn, Reports, RowsAreReported, DuplicateReceipt;
    if f.begin.Some? {
      ErrorReports(s, f.begin.value, fails);
    } else if f.recheck.Some? {
      ErrorReports(begun, f.recheck.value, fails);
    } else if duplicate.Some? {
      RollbackReports(begun, f, DuplicateReceipt(c, t.rows, duplicate.value, o));
    } else if f.readState.Some? {
      ErrorReports(begun, f.readState.value, fails);
    } else if t.rowCount == s.rowCount && t.logicalBytes == s.logicalBytes {
      if t.nextSequence == MAX_INT64 {
        if fails { ErrorReports(begun, f.rollback.value, f.rollbackAgain); }
      } else {
        RowsReported(c, s, o, env);
      }
    }
  }

  /** A put that gets to its transaction, but not to its rows. */
  lemma UnnumberedIsReported(c: Config, s: Store, o: Observation, env: PutEnv, r: Receipt)
    requires HasVolume(c, s, o, env) && !HasNumber(c, s, o, env) && FileOf(s, env).nextSequence <= MAX_INT64
    requires TransactionReports(c, s, FileOf(s, env), o, env, r)
    ensures FaultsDecide(c, s, o, env, r) && RollbackDecides(c, s, o, env, r)
  {
    hide FileOf, Known, Reports, Rest, AnyExpired, VolumeKnown, Permitted, RowsAreReported;
  }

  lemma NumberedIsReported(c: Config, s: Store, o: Observation, env: PutEnv, r: Receipt)
    requires HasNumber(c, s, o, env)
    requires TransactionReports(c, s, FileOf(s, env), o, env, r)
    ensures RowsAreReported(c, FileOf(s, env), o, env, r)
  {
    hide FileOf, Known, Reports, VolumeKnown, Permitted, RowsAreReported;
  }

  /** A put that gets to its rows. */
  lemma RowsFaultsDecide(c: Config, s: Store, o: Observation, env: PutEnv, r: Receipt)
    requires HasNumber(c, s, o, env) && RowsAreReported(c, FileOf(s, env), o, env, r)
    ensures FaultsDecide(c, s, o, env, r)
  {
    hide FileOf, Known, Reports, Rest, AnyExpired, VolumeKnown, Permitted;
  }

  lemma RowsRollbackDecides(c: Config, s: Store, o: Observation, env: PutEnv, r: Receipt)
    requires HasNumber(c, s, o, env) && RowsAreReported(c, FileOf(s, env), o, env, r)
    ensures RollbackDecides(c, s, o, env, r)
  {
    hide FileOf, Known, Reports, Rest, AnyExpired, VolumeKnown, Permitted;
  }

  /** A put that gets to its transaction. */
  lemma InsideIsReported(c: Config, s: Store, o: Observation, env: PutEnv, r: Receipt)
    requires HasVolume(c, s, o, env) && Consistent(FileOf(s, env))
    requires TransactionReports(c, s, FileOf(s, env), o, env, r)
    ensures FaultsDecide(c, s, o, env, r) && RollbackDecides(c, s, o, env, r)
  {
    assert FileOf(s, env).nextSequence <= MAX_INT64;
    hide *;
    if HasNumber(c, s, o, env) {
      NumberedIsReported(c, s, o, env, r);
      RowsFaultsDecide(c, s, o, env, r);
      RowsRollbackDecides(c, s, o, env, r);
    } else {
      UnnumberedIsReported(c, s, o, env, r);
    }
  }

  /** A put that ends before its transaction. */
  lemma OutsideIsReported(c: Config, s: Store, o: Observation, env: PutEnv, r: Receipt)
    requires !HasVolume(c, s, o, env)
    requires Permitted(c, o) && env.faults.lookup.Some? ==> Reports(r, env.faults.lookup.value, Undone(s, env.faults))
    ensures FaultsDecide(c, s, o, env, r) && RollbackDecides(c, s, o, env, r)
  {
    hide FileOf, Known, Reports, Rest, AnyExpired, VolumeKnown, Permitted;
  }

  lemma LookupIsReported(c: Config, s: Store, o: Observation, env: PutEnv)
    requires s.condition.Healthy? && Consistent(s.committed) && (env.other.Some? ==> Consistent(env.other.value))
    requires Permitted(c, o) && env.faults.lookup.Some?
    ensures Reports(Put(c, s, o, env).1, env.faults.lookup.value, Undone(s, env.faults))
  {
    PutPaths(c, s, o, env);
    PrevalidationAnswers(c, s, o, env);
    ErrorReports(s, env.faults.lookup.value, env.faults.rollback.Some?);
    hide Put, Prevalidate, WriteError, Reports, FindKey, PutTransaction, Consistent, Permitted;
  }

  lemma VolumePasses(c: Config, s: Store, o: Observation, env: PutEnv)
    requires HasVolume(c, s, o, env) && DistinctKeys(s.committed.rows)
    ensures o.ttlNs.Some? && PreflightRefusal(c, o, env).None? && FindKey(s.committed.rows, o.idempotencyKey).None?
    ensures Permitted(c, o) && env.faults.lookup.None?
  {
    KnownIsFound(s.committed.rows, o.idempotencyKey);
    hide FindKey, DistinctKeys, Known;
  }

  /** What a healthy store reports when statements fail, for every put and every combination of failures. */
  lemma FaultsAreReported(c: Config, s: Store, o: Observation, env: PutEnv)
    requires s.condition.Healthy? && Consistent(s.committed) && (env.other.Some? ==> Consistent(env.other.value))
    ensures var r := Put(c, s, o, env).1; FaultsDecide(c, s, o, env, r) && RollbackDecides(c, s, o, env, r)
  {
    var r, begun := Put(c, s, o, env).1, OtherCommit(s, env.other);
    PutPaths(c, s, o, env);
    PrevalidationAnswers(c, s, o, env);
    assert DistinctKeys(s.committed.rows);
    hide *;
    if HasVolume(c, s, o, env) {
      VolumePasses(c, s, o, env);
      TransactionIsReported(c, begun, o, env);
      SameMemory(c, s, begun, FileOf(s, env), o, env, r);
      InsideIsReported(c, s, o, env, r);
    } else {
      if Permitted(c, o) && env.faults.lookup.Some? { LookupIsReported(c, s, o, env); }
      OutsideIsReported(c, s, o, env, r);
    }
  }

  lemma SameMemory(c: Config, s: Store, begun: Store, t: Table, o: Observation, env: PutEnv, r: Receipt)
    requires TransactionReports(c, begun, t, o, env, r) && begun == s.(committed := t)
    ensures TransactionReports(c, s, t, o, env, r)
  {
    hide RowsAreReported, Known, Reports;
  }

  // ---- purges -----------------------------------------------------------------------------------------

  /** The first statement of a purge that fails is the one reported. */
  ghost predicate PurgeReports(c: Config, s: Store, limit: int, nowNs: int, f: Faults, r: PurgeOutcome) {
    var t, undone := s.committed, f.rollback.None?;
    var begun := 0 < limit <= c.maxPurgeRows && 0 <= nowNs <= MAX_INT64 && f.begin.None?;
    var counted := begun && f.readState.None? && t.rowCount == s.rowCount && t.logicalBytes == s.logicalBytes;
    var found := counted && f.select.None? && AnyExpired(t.rows, nowNs);
    && (0 < limit <= c.maxPurgeRows && 0 <= nowNs <= MAX_INT64 && f.begin.Some? ==>
          r.PurgeFailed? && Names(r.reason, f.begin.value, Undone(s, f)))
    && (begun && f.readState.Some? ==> r.PurgeFailed? && Names(r.reason, f.readState.value, undone))
    && (begun && f.readState.None? && !counted && !undone ==> r == PurgeFailed(Some(RollbackFailed)))
    && (counted && f.select.Some? ==> r.PurgeFailed? && Names(r.reason, f.select.value, undone))
    && (counted && f.select.None? && !AnyExpired(t.rows, nowNs) && !undone ==>
          r.PurgeFailed? && Names(r.reason, f.rollback.value, !f.rollbackAgain))
    && (found && f.delete.Some? ==> r.PurgeFailed? && Names(r.reason, f.delete.value, undone))
    && (found && f.delete.None? && f.update.Some? ==> r.PurgeFailed? && Names(r.reason, f.update.value, undone))
    && (found && f.delete.None? && f.update.None? && f.commit.Some? ==>
          r.PurgeFailed? && Names(r.reason, f.commit.value, undone))
  }

  lemma PurgeErrorReports(s: Store, e: SqlError, rollbackFails: bool)
    ensures
      var r := PurgeError(WriteError(s, e, rollbackFails)).1;
      r.PurgeFailed? && Names(r.reason, e, s.working.None? || !rollbackFails)
  {
    ErrorReports(s, e, rollbackFails);
    hide WriteError, Names;
  }

  lemma PurgedRowsReported(s: Store, batch: seq<nat>, f: Faults)
    requires Consistent(s.committed) && Distinct(batch) && forall k :: k in batch ==> k in s.committed.rows
    ensures
      var r, undone := PurgeRows(s, batch, f).1, f.rollback.None?;
      && (f.update.Some? ==> r.PurgeFailed? && Names(r.reason, f.update.value, undone))
      && (f.update.None? && f.commit.Some? ==> r.PurgeFailed? && Names(r.reason, f.commit.value, undone))
  {
    var t, u := s.committed, Reclaimed(s.committed, batch);
    if f.update.Some? {
      PurgeErrorReports(s.(working := Some(t.(rows := u.rows))), f.update.value, f.rollback.Some?);
    } else if f.commit.Some? {
      PurgeErrorReports(s.(working := Some(u)), f.commit.value, f.rollback.Some?);
    }
    hide WriteError, Names, Consistent;
  }

  lemma PurgeUndoneReports(s: Store, rollbackFails: bool)
    requires s.working.Some? && rollbackFails
    ensures PurgeError(IntegrityError(s, rollbackFails)).1 == PurgeFailed(Some(RollbackFailed))
  {
  }

  lemma PurgeFaultsAreReported(c: Config, s: Store, limit: int, nowNs: int, f: Faults)
    requires s.condition.Healthy? && Consistent(s.committed)
    ensures PurgeReports(c, s, limit, nowNs, f, Purge(c, s, limit, nowNs, f).1)
  {
    if 0 < limit <= c.maxPurgeRows && 0 <= nowNs <= MAX_INT64 {
      var t, batch := s.committed, SelectExpired(s.committed.rows, nowNs, limit);
      var begun, fails := s.(working := Some(t)), f.rollback.Some?;
      PurgeBatch(t.rows, nowNs, limit);
      hide Names, WriteError, PurgeRows, PurgeError, AnyExpired, SelectExpired, Consistent, Distinct;
      if f.begin.Some? {
        PurgeErrorReports(s, f.begin.value, fails);
      } else if f.readState.Some? {
        PurgeErrorReports(begun, f.readState.value, fails);
      } else if t.rowCount != s.rowCount || t.logicalBytes != s.logicalBytes {
        if fails { PurgeUndoneReports(begun, fails); }
      } else if f.select.Some? {
        PurgeErrorReports(begun, f.select.value, fails);
      } else if batch == [] {
        if fails { PurgeErrorReports(begun, f.rollback.value, f.rollbackAgain); }
      } else if f.delete.Some? {
        PurgeErrorReports(begun, f.delete.value, fails);
      } else {
        PurgedRowsReported(s, batch, f);
      }
    }
  }
}
