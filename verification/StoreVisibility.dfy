/** What an accepted put leaves behind, and who finds it until when. */
module StoreVisibility {
  import opened Common
  import opened Observations
  import opened StoreTable
  import opened SqliteStore
  import opened SqliteStoreProofs
  import opened SqliteDecisions
  import opened RowCodec
  import opened Utf8
  import Q = SqliteStoreObject

  /** The rows an accepted put keeps: all of them, or all but the first expired ones if it would not fit otherwise. */
  function Kept(c: Config, t: Table, size: nat, nowNs: int): Rows {
    if FitsAsIs(c, t, size) then t.rows else Rest(c, t, nowNs)
  }

  /** The row it adds. */
  function NewRow(c: Config, o: Observation, nowNs: int): Row
    requires o.ttlNs.Some?
  {
    Row(o.idempotencyKey, o.sessionId, o.observedMonotonicNs, nowNs, nowNs + o.ttlNs.value, o.persistenceClass,
        o.sensitivityClass, c.hash(c.encode(o)), |c.encode(o)|, c.encode(o))
  }

  /** The file after an accepted put, and the store's own counters. */
  ghost predicate Stores(c: Config, s: Store, o: Observation, env: PutEnv, s': Store) {
    var t, size := FileOf(s, env), |c.encode(o)|;
    && o.ttlNs.Some?
    && var kept := Kept(c, t, size, env.nowNs);
       && s'.committed == Table(t.nextSequence + 1, |kept| + 1, s'.committed.logicalBytes,
                                kept[t.nextSequence := NewRow(c, o, env.nowNs)])
       && s'.committed.logicalBytes == TotalBytes(kept) + size
       && s'.rowCount == s'.committed.rowCount && s'.logicalBytes == s'.committed.logicalBytes
  }

  lemma AcceptedComesFromTransaction(c: Config, s: Store, o: Observation, env: PutEnv)
    requires s.condition.Healthy? && Consistent(s.committed) && (env.other.Some? ==> Consistent(env.other.value))
    requires Put(c, s, o, env).1.status == Accepted
    ensures o.ttlNs.Some? && Consistent(FileOf(s, env))
    ensures Put(c, s, o, env) == PutTransaction(c, s.(committed := FileOf(s, env)), o, env)
  {
    PutPaths(c, s, o, env);
    PrevalidationAnswers(c, s, o, env);
    if env.faults.lookup.Some? { ErrorAnswers(s, env.faults.lookup.value, env.faults.rollback.Some?); }
    hide PutTransaction, WriteError, FindKey, Consistent, Put;
  }

  lemma PressureKeeps(c: Config, t: Table, size: nat, nowNs: int)
    requires Consistent(t)
    ensures
      var u, kept := AfterPressure(c, t, size, nowNs), Kept(c, t, size, nowNs);
      u.rows == kept && u.rowCount == |kept| && u.logicalBytes == TotalBytes(kept) && u.nextSequence == t.nextSequence
  {
    RestIsReclaimed(c, t, nowNs);
    PressureIsRest(c, t, size, nowNs);
    OverMeans(c, t, size);
    NoneDeleted(t.rows);
    hide SelectExpired, OverCeiling, FitsAsIs;
  }

  lemma NoneDeleted(rows: Rows)
    ensures DeleteIn(rows, []) == rows
  {
    assert StoreTable.Members([]) == {};
  }

  /** An accepted put adds its row to the file, under the file's next sequence, and deletes no row but expired ones it
      needs the room of. */
  lemma PutStores(c: Config, s: Store, o: Observation, env: PutEnv)
    requires Inv(c, s) && s.condition.Healthy? && FairOther(c, s, env.other)
    requires Put(c, s, o, env).1.status == Accepted
    ensures Stores(c, s, o, env, Put(c, s, o, env).0)
    ensures Put(c, s, o, env).1.sequence == Some(FileOf(s, env).nextSequence)
  {
    AcceptedComesFromTransaction(c, s, o, env);
    OtherCommitKeeps(c, s, env.other);
    var begun := s.(committed := FileOf(s, env));
    BegunIsCommitted(s, env);
    TransactionOutcome(c, begun, o, env);
    PressureKeeps(c, begun.committed, |c.encode(o)|, env.nowNs);
    hide Put, PutTransaction, FindKey, Inv, Consistent, FairOther, FileOf, OtherCommit;
    var (s', r) := PutTransaction(c, begun, o, env);
    AcceptanceStores(c, s, o, env, begun, s', r);
  }

  lemma BegunIsCommitted(s: Store, env: PutEnv)
    ensures OtherCommit(s, env.other) == s.(committed := FileOf(s, env))
  {
  }

  lemma AcceptanceStores(c: Config, s: Store, o: Observation, env: PutEnv, begun: Store, s': Store, r: Receipt)
    requires o.ttlNs.Some? && begun == s.(committed := FileOf(s, env)) && Consistent(begun.committed)
    requires Accepts(c, begun, o, env, s', r)
    requires
      var t, size := begun.committed, |c.encode(o)|;
      var u, kept := AfterPressure(c, t, size, env.nowNs), Kept(c, t, size, env.nowNs);
      u.rows == kept && u.rowCount == |kept| && u.logicalBytes == TotalBytes(kept) && u.nextSequence == t.nextSequence
    ensures Stores(c, s, o, env, s') && r.sequence == Some(FileOf(s, env).nextSequence)
  {
    hide AfterPressure, Kept, Consistent, FileOf;
  }

  /** A row that a store has just written is found by every query of its session until it expires, before all others, and
      decodes to what was put; from then on it is what a purge may delete. */
  lemma PutIsFound(
    c: Config, unit: UnitTest, s: Store, o: Observation, env: PutEnv, sessionId: Option<string>, t: int, limit: nat)
    requires ValidConfig(c) && Canonical(c, unit) && Inv(c, s) && s.condition.Healthy? && c.valid(o)
    requires FairOther(c, s, env.other) && Put(c, s, o, env).1.status == Accepted && limit >= 1
    ensures
      var (s', r) := Put(c, s, o, env);
      var rows := s'.committed.rows;
      && r.sequence.Some? && r.sequence.value in rows && o.ttlNs.Some?
      && var k := r.sequence.value;
         && DecodeRow(c, unit, k, rows[k]) == Some(o)
         && (k in Q.Cursor(rows, sessionId, t, limit) <==>
               t < env.nowNs + o.ttlNs.value && (sessionId.None? || sessionId.value == o.sessionId))
         && (k in Q.Cursor(rows, sessionId, t, limit) ==> Q.Cursor(rows, sessionId, t, limit)[0] == k)
         && (Expired(rows, t, k) <==> t >= env.nowNs + o.ttlNs.value)
  {
    var (s', r) := Put(c, s, o, env);
    PutStores(c, s, o, env);
    PutKeeps(c, s, o, env);
    AcceptedWasPermitted(c, s, o, env);
    hide Put;
    var rows, k := s'.committed.rows, r.sequence.value;
    assert Consistent(s'.committed) && Wholesome(c, s'.committed);
    NewestIsFirst(rows, k, sessionId, t, limit);
    NewRowDecodes(c, unit, s'.committed, k, o, env.nowNs);
    hide Kept, Wholesome, Q.Cursor;
  }

  lemma AcceptedWasPermitted(c: Config, s: Store, o: Observation, env: PutEnv)
    requires s.condition.Healthy? && Consistent(s.committed) && (env.other.Some? ==> Consistent(env.other.value))
    requires Put(c, s, o, env).1.status == Accepted
    ensures Permitted(c, o) && 0 <= env.nowNs <= MAX_INT64 && env.nowNs + o.ttlNs.value <= MAX_INT64
  {
    PutDecides(c, s, o, env);
    hide Put, Known, FileOf, Rest, AnyExpired, Consistent;
  }

  lemma NewRowDecodes(c: Config, unit: UnitTest, t: Table, k: nat, o: Observation, nowNs: int)
    requires ValidConfig(c) && Canonical(c, unit) && Wholesome(c, t) && k in t.rows && c.valid(o) && Permitted(c, o)
    requires 0 <= nowNs <= MAX_INT64 && nowNs + o.ttlNs.value <= MAX_INT64 && t.rows[k] == NewRow(c, o, nowNs)
    ensures DecodeRow(c, unit, k, t.rows[k]) == Some(o)
  {
    RowFitsTotal(t.rows, k);
    NewRowIsFor(c, o, nowNs);
    WholesomeNumbers(c, t, k);
    hide *;
    WrittenRowDecodes(c, unit, k, t.rows[k], o, nowNs);
  }

  lemma NewRowIsFor(c: Config, o: Observation, nowNs: int)
    requires c.valid(o) && Permitted(c, o) && 0 <= nowNs <= MAX_INT64 && nowNs + o.ttlNs.value <= MAX_INT64
    ensures RowFor(c, NewRow(c, o, nowNs), o, nowNs)
  {
  }

  lemma WholesomeNumbers(c: Config, t: Table, k: nat)
    requires ValidConfig(c) && Wholesome(c, t) && k in t.rows
    ensures 1 <= k <= MAX_INT64 && TotalBytes(t.rows) <= c.maxLogicalBytes
  {
  }

  /** The newest row comes first in every cursor that wants it. */
  lemma NewestIsFirst(rows: Rows, k: nat, sessionId: Option<string>, t: int, limit: nat)
    requires k in rows && (forall j :: j in rows ==> j <= k) && limit >= 1
    ensures k in Q.Cursor(rows, sessionId, t, limit) <==> Q.Wanted(rows, sessionId, t, k)
    ensures k in Q.Cursor(rows, sessionId, t, limit) ==> Q.Cursor(rows, sessionId, t, limit)[0] == k
  {
    Q.CursorIsNewestFirst(rows, sessionId, t, limit);
    var cursor := Q.Cursor(rows, sessionId, t, limit);
    hide Q.Cursor;
    if cursor != [] { assert cursor[0] in cursor; }
  }

  /** A put that has been accepted can be tried again: as long as its row is on file the same observation coalesces with
      it, whatever the clock and the volume say, and the store is left as it is. */
  lemma PutIsIdempotent(c: Config, s: Store, o: Observation, env: PutEnv, again: PutEnv)
    requires ValidConfig(c) && Inv(c, s) && s.condition.Healthy? && c.valid(o) && FairOther(c, s, env.other)
    requires Put(c, s, o, env).1.status == Accepted && again.faults.lookup.None? && again.other.None?
    ensures
      var (s', r) := Put(c, s, o, env);
      && Consistent(s'.committed)
      && Put(c, s', o, again) == (s', Receipt(Coalesced, Some(DuplicateIdempotencyKey), r.sequence, 0))
  {
    var (s', r) := Put(c, s, o, env);
    PutStores(c, s, o, env);
    PutKeeps(c, s, o, env);
    AcceptedWasPermitted(c, s, o, env);
    AcceptedStaysHealthy(c, s, o, env);
    hide Put;
    var rows, k := s'.committed.rows, r.sequence.value;
    assert Consistent(s'.committed);
    assert k in rows && rows[k] == NewRow(c, o, env.nowNs);
    KeyIsFound(rows, o.idempotencyKey, k);
    PutPaths(c, s', o, again);
    PrevalidationAnswers(c, s', o, again);
    hide Kept, Inv, Consistent, FindKey;
    assert Put(c, s', o, again) == (s', DuplicateReceipt(c, rows, k, o));
  }

  lemma AcceptedStaysHealthy(c: Config, s: Store, o: Observation, env: PutEnv)
    requires s.condition.Healthy? && Consistent(s.committed) && (env.other.Some? ==> Consistent(env.other.value))
    requires Put(c, s, o, env).1.status == Accepted
    ensures Put(c, s, o, env).0.condition.Healthy?
  {
    PutDecides(c, s, o, env);
    hide Put, Decides;
  }

  lemma KeyIsFound(rows: Rows, key: string, k: nat)
    requires DistinctKeys(rows) && k in rows && rows[k].key == key
    ensures FindKey(rows, key) == Some(k)
  {
    assert HasKey(rows, key, k);
  }
}
