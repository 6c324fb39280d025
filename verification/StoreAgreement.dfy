/** While nothing expires or fails, the transactional store answers every call as the in-memory store does. */
module StoreAgreement {
  import opened Common
  import opened Observations
  import opened StoreTable
  import opened SqliteStore
  import opened SqliteStoreProofs
  import opened MemoryStore
  import opened Utf8

  /** Among the envelopes in use, different ones have different digests. */
  ghost predicate NoCollision(c: Config, used: set<Observation>) {
    forall o, p :: o in used && p in used && c.hash(c.encode(o)) == c.hash(c.encode(p)) ==> o == p
  }

  /** For canonical encodings this asks only that the digest does not collide on the documents in use. */
  lemma DigestsDecide(c: Config, unit: UnitTest, used: set<Observation>)
    requires forall o :: o in used ==> Valid(o, unit) && c.encode(o) == Encoding(o)
    requires forall o, p :: o in used && p in used && c.encode(o) != c.encode(p) ==>
      c.hash(c.encode(o)) != c.hash(c.encode(p))
    ensures NoCollision(c, used)
  {
    forall o, p | o in used && p in used && c.hash(c.encode(o)) == c.hash(c.encode(p)) ensures o == p {
      EncodingIsInjective(o, p, unit);
    }
  }

  ghost predicate NoFaults(f: Faults) {
    f == Faults(None, None, None, None, None, None, None, None, None, None, false)
  }

  /** A quiet surrounding: nothing fails, nobody else writes, there is room on the volume, and no row is expired. */
  ghost predicate Quiet(c: Config, s: Store, o: Observation, env: PutEnv, used: set<Observation>) {
    && o in used
    && NoFaults(env.faults) && env.other.None?
    && Storable(c, o) && 0 <= env.nowNs <= MAX_INT64 && env.nowNs + o.ttlNs.value <= MAX_INT64
    && env.freeBytes.Some? && env.freeBytes.value <= MAX_INT64
    && env.freeBytes.value - |c.encode(o)| >= c.volumeReserveBytes
    && s.committed.nextSequence < MAX_INT64
    && forall k :: k in s.committed.rows ==> s.committed.rows[k].expiresNs > env.nowNs
  }

  /** Row `i + 1` is the i-th observation. */
  ghost predicate Mirrors(c: Config, rows: Rows, observations: seq<Observation>, used: set<Observation>) {
    && (forall k :: k in rows <==> 1 <= k <= |observations|)
    && forall i: nat :: i < |observations| ==>
         && observations[i] in used
         && rows[i + 1].key == observations[i].idempotencyKey
         && rows[i + 1].digest == c.hash(c.encode(observations[i]))
  }

  ghost predicate Agrees(c: Config, s: Store, m: Memory, used: set<Observation>) {
    && Inv(c, s) && InStep(s) && s.condition.Healthy?
    && Indexed(m) && !m.closed
    && s.committed.nextSequence == |m.observations| + 1
    && s.rowCount == |m.observations| && s.logicalBytes == m.bytesUsed
    && Mirrors(c, s.committed.rows, m.observations, used)
  }

  lemma EmptyStoresAgree(c: Config, reason: Option<Reason>, used: set<Observation>)
    requires ValidConfig(c)
    ensures Agrees(c, Store(Healthy, reason, 0, 0, EMPTY_TABLE, None), EMPTY_MEMORY, used)
  {
  }

  lemma NoRowIsReclaimed(c: Config, t: Table, size: nat, nowNs: int)
    requires Consistent(t) && forall k :: k in t.rows ==> t.rows[k].expiresNs > nowNs
    ensures AfterPressure(c, t, size, nowNs) == t
  {
    assert SelectExpired(t.rows, nowNs, c.maxPurgeRows) == [];
    assert StoreTable.Members([]) == {};
    assert DeleteIn(t.rows, []) == t.rows;
  }

  lemma QuietTransaction(c: Config, s: Store, o: Observation, env: PutEnv, used: set<Observation>)
    requires Inv(c, s) && InStep(s) && s.condition.Healthy? && Quiet(c, s, o, env, used)
    requires FindKey(s.committed.rows, o.idempotencyKey).None?
    ensures var t := s.committed;
      if OverCeiling(c, t.rowCount, t.logicalBytes, |c.encode(o)|) then
        Put(c, s, o, env).0 == s && Put(c, s, o, env).1.status == Rejected && Put(c, s, o, env).1.bytesAccepted == 0
      else Accepts(c, s, o, env, Put(c, s, o, env).0, Put(c, s, o, env).1)
  {
    QuietPutIsRows(c, s, o, env, used);
    hide Put, Inv, PreflightRefusal, FindKey;
    QuietRows(c, s, o, env);
    hide PutRows, Accepts, OverCeiling;
  }

  lemma QuietRows(c: Config, s: Store, o: Observation, env: PutEnv)
    requires Consistent(s.committed) && InStep(s) && s.working.None? && NoFaults(env.faults) && o.ttlNs.Some?
    requires forall k :: k in s.committed.rows ==> s.committed.rows[k].expiresNs > env.nowNs
    ensures
      var (s', r) := PutRows(c, s, o, env);
      if OverCeiling(c, s.committed.rowCount, s.committed.logicalBytes, |c.encode(o)|) then
        s' == s && r.status == Rejected && r.bytesAccepted == 0
      else Accepts(c, s, o, env, s', r)
  {
    NoRowIsReclaimed(c, s.committed, |c.encode(o)|, env.nowNs);
    hide Consistent;
  }

  /** In a quiet surrounding a put of a new key gets to its rows. */
  lemma QuietPutIsRows(c: Config, s: Store, o: Observation, env: PutEnv, used: set<Observation>)
    requires Inv(c, s) && InStep(s) && s.condition.Healthy? && Quiet(c, s, o, env, used)
    requires FindKey(s.committed.rows, o.idempotencyKey).None?
    ensures Put(c, s, o, env) == PutRows(c, s, o, env)
  {
    hide PutRows;
    assert Put(c, s, o, env) == PutTransaction(c, s, o, env);
  }

  lemma KnownKey(c: Config, s: Store, m: Memory, o: Observation, used: set<Observation>)
    requires Agrees(c, s, m, used)
    ensures FindKey(s.committed.rows, o.idempotencyKey).Some? <==> o.idempotencyKey in m.observationsByKey
    ensures o.idempotencyKey in m.observationsByKey ==>
      FindKey(s.committed.rows, o.idempotencyKey).value == m.sequencesByKey[o.idempotencyKey]
  {
    var key, rows := o.idempotencyKey, s.committed.rows;
    var found := FindKey(rows, key);
    if found.Some? {
      var i: nat := found.value - 1;
      assert NamedAt(m, i);
      assert Names(m, m.observations[i].idempotencyKey);
      assert rows[i + 1].key == m.observations[i].idempotencyKey;
    }
    if key in m.observationsByKey {
      assert Names(m, key);
      var i: nat := m.sequencesByKey[key] - 1;
      assert HasKey(rows, key, i + 1);
    }
  }

  lemma DuplicateAgrees(c: Config, s: Store, m: Memory, o: Observation, used: set<Observation>)
    requires NoCollision(c, used) && Agrees(c, s, m, used) && o.idempotencyKey in m.observationsByKey && o in used
    ensures Names(m, o.idempotencyKey)
    ensures var k := m.sequencesByKey[o.idempotencyKey];
      && k in s.committed.rows
      && (s.committed.rows[k].digest == c.hash(c.encode(o)) <==> m.observationsByKey[o.idempotencyKey] == o)
  {
    assert Names(m, o.idempotencyKey);
    var i: nat := m.sequencesByKey[o.idempotencyKey] - 1;
    assert s.committed.rows[i + 1].digest == c.hash(c.encode(m.observations[i]));
  }

  lemma AcceptedAgrees(
    c: Config, s: Store, m: Memory, o: Observation, env: PutEnv, s': Store, r: Receipt, used: set<Observation>)
    requires Agrees(c, s, m, used) && Quiet(c, s, o, env, used) && o.idempotencyKey !in m.observationsByKey
    requires Inv(c, s') && InStep(s') && Accepts(c, s, o, env, s', r)
    ensures Agrees(c, s', Remember(m, o, |c.encode(o)|), used)
  {
    NoRowIsReclaimed(c, s.committed, |c.encode(o)|, env.nowNs);
    AcceptedMirrors(c, s.committed, m.observations, o, env.nowNs, used);
    RememberKeepsIndex(m, o, |c.encode(o)|);
  }

  /** Two receipts say the same: the status, and the sequence of an observation that is or was stored. */
  predicate SameReceipt(r: Receipt, q: MemoryReceipt) {
    && r.status == q.status && r.bytesAccepted == q.bytesAccepted
    && (r.status == Accepted || r.status == Coalesced ==> r.sequence == q.sequence)
  }

  lemma StorablePassesPrevalidation(c: Config, s: Store, o: Observation)
    requires Storable(c, o) && s.condition.Healthy?
    ensures Prevalidate(c, s, o).None?
  {
  }

  lemma PutExisting(c: Config, s: Store, o: Observation, env: PutEnv, k: nat)
    requires Consistent(s.committed) && Prevalidate(c, s, o).None? && env.faults.lookup.None? && env.other.None?
    requires FindKey(s.committed.rows, o.idempotencyKey) == Some(k)
    ensures Put(c, s, o, env) == (s, DuplicateReceipt(c, s.committed.rows, k, o))
  {
  }

  lemma DuplicateReceiptsMatch(c: Config, rows: Rows, k: nat, m: Memory, o: Observation, size: nat)
    requires k in rows && !m.closed && Names(m, o.idempotencyKey) && m.sequencesByKey[o.idempotencyKey] == k
    requires rows[k].digest == c.hash(c.encode(o)) <==> m.observationsByKey[o.idempotencyKey] == o
    ensures var (m', q) := MemoryPut(c.maxRows, c.maxLogicalBytes, SameDocument, m, o, Some(size));
      m' == m && SameReceipt(DuplicateReceipt(c, rows, k, o), q)
  {
  }

  lemma KnownAgrees(c: Config, s: Store, m: Memory, o: Observation, env: PutEnv, k: nat, used: set<Observation>)
    requires NoCollision(c, used) && Agrees(c, s, m, used) && Quiet(c, s, o, env, used)
    requires o.idempotencyKey in m.observationsByKey && Names(m, o.idempotencyKey)
    requires k == m.sequencesByKey[o.idempotencyKey]
    ensures k in s.committed.rows && Put(c, s, o, env) == (s, DuplicateReceipt(c, s.committed.rows, k, o))
    ensures var (m', q) := MemoryPut(c.maxRows, c.maxLogicalBytes, SameDocument, m, o, Some(|c.encode(o)|));
      m' == m && SameReceipt(DuplicateReceipt(c, s.committed.rows, k, o), q)
  {
    KnownKey(c, s, m, o, used);
    DuplicateAgrees(c, s, m, o, used);
    StorablePassesPrevalidation(c, s, o);
    PutExisting(c, s, o, env, k);
    DuplicateReceiptsMatch(c, s.committed.rows, k, m, o, |c.encode(o)|);
  }

  lemma NewAgrees(c: Config, s: Store, m: Memory, o: Observation, env: PutEnv, used: set<Observation>)
    requires ValidConfig(c) && Agrees(c, s, m, used) && Quiet(c, s, o, env, used) && o.idempotencyKey !in m.observationsByKey
    ensures var (s', r) := Put(c, s, o, env);
      var (m', q) := MemoryPut(c.maxRows, c.maxLogicalBytes, SameDocument, m, o, Some(|c.encode(o)|));
      Agrees(c, s', m', used) && SameReceipt(r, q)
  {
    AgreementMeans(c, s, m, used);
    QuietMeans(c, s, o, env, used);
    hide Put, MemoryPut, Agrees, Inv, Remember, Quiet, OverCeiling, Storable, Accepts, InStep, FairOther, ValidConfig;
    var (s', r) := Put(c, s, o, env);
    KnownKey(c, s, m, o, used);
    MemoryTakesNew(c, s, m, o, used);
    QuietTransaction(c, s, o, env, used);
    if !OverCeiling(c, s.committed.rowCount, s.committed.logicalBytes, |c.encode(o)|) {
      AcceptsMeans(c, s, o, env, s', r);
      PutKeeps(c, s, o, env);
      AcceptedAgrees(c, s, m, o, env, s', r, used);
    }
  }

  lemma QuietMeans(c: Config, s: Store, o: Observation, env: PutEnv, used: set<Observation>)
    requires Quiet(c, s, o, env, used)
    ensures Storable(c, o) && c.valid(o) && o.ttlNs.Some? && env.other.None? && FairOther(c, s, env.other)
  {
    hide NoFaults;
  }

  lemma AcceptsMeans(c: Config, s: Store, o: Observation, env: PutEnv, s': Store, r: Receipt)
    requires Consistent(s.committed) && o.ttlNs.Some? && Accepts(c, s, o, env, s', r)
    ensures r == Receipt(Accepted, None, Some(s.committed.nextSequence), |c.encode(o)|)
  {
    hide AfterPressure, Inserted, Consistent;
  }

  lemma AgreementMeans(c: Config, s: Store, m: Memory, used: set<Observation>)
    requires Agrees(c, s, m, used)
    ensures Inv(c, s) && Consistent(s.committed) && InStep(s) && s.condition.Healthy?
    ensures s.committed.nextSequence == |m.observations| + 1
  {
    hide Indexed, Mirrors;
  }

  /** What the memory store does with a new key, in terms of the other store's counters. */
  lemma MemoryTakesNew(c: Config, s: Store, m: Memory, o: Observation, used: set<Observation>)
    requires Agrees(c, s, m, used) && Storable(c, o) && o.idempotencyKey !in m.observationsByKey
    ensures
      var (m', q) := MemoryPut(c.maxRows, c.maxLogicalBytes, SameDocument, m, o, Some(|c.encode(o)|));
      if OverCeiling(c, s.committed.rowCount, s.committed.logicalBytes, |c.encode(o)|) then
        m' == m && q.status == Rejected && q.bytesAccepted == 0
      else
        && m' == Remember(m, o, |c.encode(o)|)
        && q == MemoryReceipt(Accepted, None, Some(|m.observations| + 1), |c.encode(o)|)
  {
    hide Inv, Indexed, Mirrors, Remember;
  }

  /** One call of both stores. */
  lemma PutAgrees(c: Config, s: Store, m: Memory, o: Observation, env: PutEnv, used: set<Observation>)
    requires ValidConfig(c) && NoCollision(c, used) && Agrees(c, s, m, used) && Quiet(c, s, o, env, used)
    ensures var (s', r) := Put(c, s, o, env);
      var (m', q) := MemoryPut(c.maxRows, c.maxLogicalBytes, SameDocument, m, o, Some(|c.encode(o)|));
      Agrees(c, s', m', used) && SameReceipt(r, q)
  {
    if o.idempotencyKey in m.observationsByKey {
      assert Names(m, o.idempotencyKey);
      KnownAgrees(c, s, m, o, env, m.sequencesByKey[o.idempotencyKey], used);
    } else {
      NewAgrees(c, s, m, o, env, used);
    }
  }

  lemma AcceptedMirrors(
    c: Config, t: Table, observations: seq<Observation>, o: Observation, nowNs: int, used: set<Observation>)
    requires Mirrors(c, t.rows, observations, used) && t.nextSequence == |observations| + 1
    requires o in used && o.ttlNs.Some?
    ensures Mirrors(c, Inserted(c, t, o, nowNs).rows, observations + [o], used)
  {
    var rows, all := Inserted(c, t, o, nowNs).rows, observations + [o];
    forall i: nat | i < |all|
      ensures all[i] in used && rows[i + 1].key == all[i].idempotencyKey
        && rows[i + 1].digest == c.hash(c.encode(all[i]))
    {
      if i < |observations| { assert all[i] == observations[i]; }
    }
  }

  /** A whole sequence of calls, with the surroundings of each. */
  ghost predicate QuietRun(c: Config, s: Store, calls: seq<(Observation, PutEnv)>, used: set<Observation>)
    requires Consistent(s.committed)
    decreases |calls|
  {
    calls != [] ==>
      && Quiet(c, s, calls[0].0, calls[0].1, used)
      && var s' := Put(c, s, calls[0].0, calls[0].1).0;
         Consistent(s'.committed) && QuietRun(c, s', calls[1..], used)
  }

  ghost predicate SameAnswers(c: Config, s: Store, m: Memory, calls: seq<(Observation, PutEnv)>)
    requires Consistent(s.committed)
    decreases |calls|
  {
    calls != [] ==>
      && calls[0].1.other.None?
      && var (s', r) := Put(c, s, calls[0].0, calls[0].1);
         var (m', q) := MemoryPut(c.maxRows, c.maxLogicalBytes, SameDocument, m, calls[0].0, Some(|c.encode(calls[0].0)|));
         SameReceipt(r, q) && Consistent(s'.committed) && SameAnswers(c, s', m', calls[1..])
  }

  /** The transactional store simulates the in-memory store, call by call, for as long as nothing expires. */
  lemma {:induction false} SqliteSimulatesMemory(
    c: Config, s: Store, m: Memory, calls: seq<(Observation, PutEnv)>, used: set<Observation>)
    requires ValidConfig(c) && NoCollision(c, used) && Agrees(c, s, m, used) && QuietRun(c, s, calls, used)
    ensures SameAnswers(c, s, m, calls)
    decreases |calls|
  {
    if calls != [] {
      PutAgrees(c, s, m, calls[0].0, calls[0].1, used);
      var s' := Put(c, s, calls[0].0, calls[0].1).0;
      var m' := MemoryPut(c.maxRows, c.maxLogicalBytes, SameDocument, m, calls[0].0, Some(|c.encode(calls[0].0)|)).0;
      SqliteSimulatesMemory(c, s', m', calls[1..], used);
    }
  }
}
