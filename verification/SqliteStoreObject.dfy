/** The store object: the same operations, changing its fields statement by statement. */
module SqliteStoreObject {
  import opened Common
  import opened Observations
  import opened StoreTable
  import opened SqliteStore
  import opened SqliteStoreProofs
  import D = SqliteDecisions
  import opened RowCodec
  import opened Utf8

  datatype QueryOutcome =
    | Latest(found: seq<(nat, Observation)>)
    | QueryClosed | QueryBadArgument | QueryCorrupt | QueryFailed

  /** The live rows of a session, newest first. */
  function LiveRows(rows: Rows, order: seq<nat>, sessionId: Option<string>, now: int): seq<nat> {
    if order == [] then []
    else
      var rest := LiveRows(rows, order[1..], sessionId, now);
      var k := order[0];
      if k in rows && rows[k].expiresNs > now && (sessionId.None? || rows[k].sessionId == sessionId.value) then [k] + rest
      else rest
  }

  function Take(s: seq<nat>, n: nat): seq<nat> { if |s| <= n then s else s[..n] }

  /** `SELECT ... ORDER BY store_sequence DESC LIMIT ?`. */
  function Cursor(rows: Rows, sessionId: Option<string>, now: int, limit: nat): seq<nat> {
    Take(LiveRows(rows, NewestFirst(rows), sessionId, now), limit)
  }

  /** A live row of the session asked for. */
  predicate Wanted(rows: Rows, sessionId: Option<string>, now: int, k: nat) {
    k in rows && rows[k].expiresNs > now && (sessionId.None? || rows[k].sessionId == sessionId.value)
  }

  lemma {:induction false} LiveRowsAreWanted(rows: Rows, order: seq<nat>, sessionId: Option<string>, now: int)
    ensures forall k :: k in LiveRows(rows, order, sessionId, now) <==> k in order && Wanted(rows, sessionId, now, k)
    decreases |order|
  {
    if order != [] {
      LiveRowsAreWanted(rows, order[1..], sessionId, now);
      assert order == [order[0]] + order[1..];
    }
  }

  lemma {:induction false} LiveRowsKeepOrder(rows: Rows, order: seq<nat>, sessionId: Option<string>, now: int)
    requires Descending(order)
    ensures Descending(LiveRows(rows, order, sessionId, now))
    decreases |order|
  {
    if order != [] {
      DescendingTail(order);
      LiveRowsKeepOrder(rows, order[1..], sessionId, now);
      LiveRowsAreWanted(rows, order[1..], sessionId, now);
      DescendingCons(order[0], LiveRows(rows, order[1..], sessionId, now));
    }
  }

  /** A full cursor of rows newer than one left out. */
  predicate Precedes(cursor: seq<nat>, limit: nat, k: nat) {
    |cursor| == limit && forall i :: 0 <= i < |cursor| ==> cursor[i] > k
  }

  lemma TakeCuts(s: seq<nat>, n: nat)
    requires Descending(s)
    ensures Descending(Take(s, n)) && |Take(s, n)| <= n
    ensures forall k :: k in Take(s, n) ==> k in s
    ensures forall k :: k in s && k !in Take(s, n) ==> Precedes(Take(s, n), n, k)
  {
    var t := Take(s, n);
    assert forall i :: 0 <= i < |t| ==> t[i] == s[i];
    forall k | k in s && k !in t ensures Precedes(t, n, k) {
      assert s == t + s[|t|..];
      var j :| 0 <= j < |s[|t|..]| && s[|t|..][j] == k;
      assert k == s[|t| + j];
    }
  }

  /** The cursor lists wanted rows only, newest first, and leaves out only older ones, once the limit is reached. */
  lemma CursorIsNewestFirst(rows: Rows, sessionId: Option<string>, now: int, limit: nat)
    ensures var cursor := Cursor(rows, sessionId, now, limit);
      && |cursor| <= limit && Descending(cursor)
      && (forall k :: k in cursor ==> Wanted(rows, sessionId, now, k))
      && (forall k :: Wanted(rows, sessionId, now, k) && k !in cursor ==> Precedes(cursor, limit, k))
  {
    var order := NewestFirst(rows);
    NewestFirstIsOrder(rows);
    LiveRowsAreWanted(rows, order, sessionId, now);
    LiveRowsKeepOrder(rows, order, sessionId, now);
    TakeCuts(LiveRows(rows, order, sessionId, now), limit);
  }

  type RowDecoder = (nat, Row) -> Option<Observation>

  function Decoder(c: Config, unit: UnitTest): RowDecoder { (k: nat, row: Row) => DecodeRow(c, unit, k, row) }

  ghost predicate AllDecode(decode: RowDecoder, rows: Rows, ks: seq<nat>) {
    forall i :: 0 <= i < |ks| ==> ks[i] in rows && decode(ks[i], rows[ks[i]]).Some?
  }

  /** The first rows of the cursor, decoded. */
  ghost predicate IsDecodedPrefix(decode: RowDecoder, rows: Rows, cursor: seq<nat>, found: seq<(nat, Observation)>) {
    && |found| <= |cursor|
    && forall i :: 0 <= i < |found| ==>
         && found[i].0 == cursor[i] && cursor[i] in rows
         && decode(cursor[i], rows[cursor[i]]) == Some(found[i].1)
  }

  /** The longest decoded prefix of a cursor that fits in a byte limit. */
  ghost predicate LongestFit(decode: RowDecoder, rows: Rows, cursor: seq<nat>, limit: int, found: seq<(nat, Observation)>) {
    && IsDecodedPrefix(decode, rows, cursor, found)
    && BytesOf(rows, cursor, |found|) <= limit
    && (|found| < |cursor| ==> BytesOf(rows, cursor, |found| + 1) > limit)
  }

  /** The first n rows of a cursor decode, and fit in the limit one after the other. */
  ghost predicate Reaches(decode: RowDecoder, rows: Rows, cursor: seq<nat>, limit: int, n: nat) {
    && n <= |cursor|
    && forall i :: 0 <= i < n ==>
         cursor[i] in rows && decode(cursor[i], rows[cursor[i]]).Some? && BytesOf(rows, cursor, i + 1) <= limit
  }

  /** Row n of a cursor is reached and does not decode. */
  ghost predicate Stumbles(decode: RowDecoder, rows: Rows, cursor: seq<nat>, limit: int, n: nat) {
    && Reaches(decode, rows, cursor, limit, n)
    && n < |cursor| && !(cursor[n] in rows && decode(cursor[n], rows[cursor[n]]).Some?)
  }

  /** The one right answer of a query that gets to its cursor. */
  ghost predicate Answers(
    decode: RowDecoder, rows: Rows, cursor: seq<nat>, limit: int, fault: Option<SqlError>, after: nat, r: QueryOutcome)
  {
    && (r.Latest? || r.QueryCorrupt? || r.QueryFailed?)
    && (r.QueryFailed? <==> fault.Some? && Reaches(decode, rows, cursor, limit, after))
    && (r.QueryCorrupt? <==> exists n: nat :: Stumbles(decode, rows, cursor, limit, n) && (fault.Some? ==> n < after))
    && (r.Latest? ==> LongestFit(decode, rows, cursor, limit, r.found))
  }

  /** The read loop takes one more row. */
  lemma OneMoreRow(
    decode: RowDecoder, rows: Rows, cursor: seq<nat>, limit: int, found: seq<(nat, Observation)>, o: Observation)
    requires |found| < |cursor| && cursor[|found|] in rows && decode(cursor[|found|], rows[cursor[|found|]]) == Some(o)
    requires IsDecodedPrefix(decode, rows, cursor, found) && Reaches(decode, rows, cursor, limit, |found|)
    requires BytesOf(rows, cursor, |found|) + rows[cursor[|found|]].logicalBytes <= limit
    ensures IsDecodedPrefix(decode, rows, cursor, found + [(cursor[|found|], o)])
    ensures Reaches(decode, rows, cursor, limit, |found| + 1)
    ensures BytesOf(rows, cursor, |found| + 1) == BytesOf(rows, cursor, |found|) + rows[cursor[|found|]].logicalBytes
  {
    var n, grown := |found|, found + [(cursor[|found|], o)];
    forall j | 0 <= j < n + 1
      ensures grown[j].0 == cursor[j] && cursor[j] in rows && decode(cursor[j], rows[cursor[j]]) == Some(grown[j].1)
      ensures BytesOf(rows, cursor, j + 1) <= limit
    {
      if j < n { assert grown[j] == found[j]; }
    }
  }

  lemma NoRowsYet(decode: RowDecoder, rows: Rows, cursor: seq<nat>, limit: int)
    ensures IsDecodedPrefix(decode, rows, cursor, []) && Reaches(decode, rows, cursor, limit, 0)
    ensures BytesOf(rows, cursor, 0) == 0
  {
  }

  lemma FaultAnswers(decode: RowDecoder, rows: Rows, cursor: seq<nat>, limit: int, fault: Option<SqlError>, n: nat)
    requires fault.Some? && Reaches(decode, rows, cursor, limit, n)
    ensures Answers(decode, rows, cursor, limit, fault, n, QueryFailed)
  {
  }

  lemma StumbleAnswers(
    decode: RowDecoder, rows: Rows, cursor: seq<nat>, limit: int, fault: Option<SqlError>, after: nat, n: nat)
    requires n < |cursor| && !(cursor[n] in rows && decode(cursor[n], rows[cursor[n]]).Some?)
    requires Reaches(decode, rows, cursor, limit, n) && (fault.Some? ==> n < after)
    ensures Answers(decode, rows, cursor, limit, fault, after, QueryCorrupt)
  {
    assert Stumbles(decode, rows, cursor, limit, n);
  }

  lemma PrefixAnswers(
    decode: RowDecoder, rows: Rows, cursor: seq<nat>, limit: int, fault: Option<SqlError>, after: nat,
    found: seq<(nat, Observation)>)
    requires IsDecodedPrefix(decode, rows, cursor, found) && Reaches(decode, rows, cursor, limit, |found|)
    requires BytesOf(rows, cursor, |found|) <= limit && (fault.Some? ==> |found| < after)
    requires |found| < |cursor| ==>
               var k := cursor[|found|];
               k in rows && decode(k, rows[k]).Some? && BytesOf(rows, cursor, |found|) + rows[k].logicalBytes > limit
    ensures Answers(decode, rows, cursor, limit, fault, after, Latest(found))
  {
  }

  /** When every row decodes and the database does not fail, the query answers. */
  lemma DecodableRowsAnswer(decode: RowDecoder, rows: Rows, cursor: seq<nat>, limit: int, after: nat, r: QueryOutcome)
    requires AllDecode(decode, rows, cursor) && Answers(decode, rows, cursor, limit, None, after, r)
    ensures r.Latest? && LongestFit(decode, rows, cursor, limit, r.found)
  {
    forall n: nat ensures !Stumbles(decode, rows, cursor, limit, n) {
    }
  }

  class SQLiteStore {
    const config: Config
    const unit: UnitTest
    var condition: Condition
    var reason: Option<Reason>
    var rowCount: nat
    var logicalBytes: nat
    /** What the file holds, and the copy an open transaction works on. */
    var committed: Table
    var working: Option<Table>

    ghost function State(): Store
      reads this
    {
      Store(condition, reason, rowCount, logicalBytes, committed, working)
    }

    constructor Create(config: Config, unit: UnitTest)
      ensures State() == Store(Healthy, None, 0, 0, EMPTY_TABLE, None)
      ensures this.config == config && this.unit == unit
    {
      this.config, this.unit := config, unit;
      condition, reason, rowCount, logicalBytes := Healthy, None, 0, 0;
      committed, working := EMPTY_TABLE, None;
    }

    method LatchReadOnly(why: Reason)
      modifies this`condition, this`reason
      ensures State() == Latch(old(State()), why)
    {
      if condition != Closed {
        condition, reason := ReadOnly, Some(why);
      }
    }

    method HandleWriteError(e: SqlError, rollbackFails: bool) returns (r: Receipt)
      modifies this
      ensures (State(), r) == WriteError(old(State()), e, rollbackFails)
    {
      if working.Some? && rollbackFails {
        LatchReadOnly(RollbackFailed);
        return Refuse(Failed, RollbackFailed);
      }
      working := None;
      var (why, latches) := ErrorReason(e);
      if latches { LatchReadOnly(why); }
      r := Refuse(Failed, why);
    }

    method HandleIntegrityError(rollbackFails: bool) returns (r: Receipt)
      modifies this
      ensures (State(), r) == IntegrityError(old(State()), rollbackFails)
    {
      if working.Some? && rollbackFails {
        LatchReadOnly(RollbackFailed);
        return Refuse(Failed, RollbackFailed);
      }
      working := None;
      LatchReadOnly(RecordIntegrityError);
      r := Refuse(Failed, RecordIntegrityError);
    }

    method Rollback(f: Faults, receipt: Receipt) returns (r: Receipt)
      modifies this
      ensures (State(), r) == RollbackAndReturn(old(State()), f, receipt)
    {
      if f.rollback.Some? {
        r := HandleWriteError(f.rollback.value, f.rollbackAgain);
      } else {
        working := None;
        r := receipt;
      }
    }

    method Put(o: Observation, env: PutEnv) returns (r: Receipt)
      requires Consistent(committed) && (env.other.Some? ==> Consistent(env.other.value))
      modifies this
      ensures (State(), r) == SqliteStore.Put(config, old(State()), o, env)
      ensures if old(condition) == Healthy
              then D.Decides(config, old(State()), o, env, r) && D.LatchesAsReported(State(), r)
              else State() == old(State()) && r.status == Failed
    {
      if condition == Healthy {
        D.PutDecides(config, State(), o, env);
      } else {
        D.ShutStoreRefuses(config, State(), o, env);
      }
      hide D.Decides, D.LatchesAsReported;
      if condition == Closed { return Refuse(Failed, StoreClosed); }
      if condition == ReadOnly { return Refuse(Failed, if reason.Some? then reason.value else StoreReadOnly); }
      if o.ttlNs.None? { return Refuse(Rejected, TtlRequired); }
      if o.sensitivityClass == "prohibited" { return Refuse(Rejected, ProhibitedContent); }
      if o.persistenceClass == "visual" { return Refuse(Rejected, VisualPersistenceDisabled); }
      var document := config.encode(o);
      if |document| > config.maxObservationBytes { return Refuse(Rejected, ObservationExceedsByteLimit); }
      if env.faults.lookup.Some? {
        r := HandleWriteError(env.faults.lookup.value, env.faults.rollback.Some?);
        return;
      }
      var existing := FindKey(committed.rows, o.idempotencyKey);
      if existing.Some? {
        return DuplicateReceipt(config, committed.rows, existing.value, o);
      }
      if !ExpiryFits(o, env.nowNs) { return Refuse(Rejected, ExpiryOutOfRange); }
      if env.freeBytes.None? || !(0 <= env.freeBytes.value <= MAX_INT64) {
        return Refuse(Failed, VolumeSpaceUnavailable);
      }
      if env.freeBytes.value - |document| < config.volumeReserveBytes {
        return Refuse(Rejected, VolumeReserveReached);
      }
      if env.other.Some? { committed := env.other.value; }
      r := Transact(o, env);
    }

    method Transact(o: Observation, env: PutEnv) returns (r: Receipt)
      requires Consistent(committed) && o.ttlNs.Some?
      modifies this
      ensures (State(), r) == PutTransaction(config, old(State()), o, env)
    {
      var f := env.faults;
      if f.begin.Some? { r := HandleWriteError(f.begin.value, f.rollback.Some?); return; }
      working := Some(committed);
      if f.recheck.Some? { r := HandleWriteError(f.recheck.value, f.rollback.Some?); return; }
      var duplicate := FindKey(committed.rows, o.idempotencyKey);
      if duplicate.Some? {
        r := Rollback(f, DuplicateReceipt(config, committed.rows, duplicate.value, o));
        return;
      }
      if f.readState.Some? { r := HandleWriteError(f.readState.value, f.rollback.Some?); return; }
      if committed.rowCount != rowCount || committed.logicalBytes != logicalBytes {
        r := HandleIntegrityError(f.rollback.Some?);
        return;
      }
      if committed.nextSequence == MAX_INT64 {
        r := Rollback(f, Refuse(Failed, SequenceExhausted));
        if f.rollback.None? { LatchReadOnly(SequenceExhausted); }
        return;
      }
      r := StoreRow(o, env);
    }

    method StoreRow(o: Observation, env: PutEnv) returns (r: Receipt)
      requires Consistent(committed) && o.ttlNs.Some? && working == Some(committed)
      modifies this
      ensures (State(), r) == PutRows(config, old(State()), o, env)
    {
      var f, size := env.faults, |config.encode(o)|;
      var table := committed;
      if OverCeiling(config, table.rowCount, table.logicalBytes, size) {
        if f.select.Some? { r := HandleWriteError(f.select.value, f.rollback.Some?); return; }
        var candidates := SelectExpired(table.rows, env.nowNs, config.maxPurgeRows);
        BatchIsFirst(table.rows, env.nowNs, config.maxPurgeRows);
        if candidates != [] {
          if f.delete.Some? { r := HandleWriteError(f.delete.value, f.rollback.Some?); return; }
          table := Reclaimed(table, candidates);
        } else {
          NothingReclaimed(table);
        }
        working := Some(committed.(rows := table.rows));
        if table.rowCount >= config.maxRows {
          r := Rollback(f, Refuse(Rejected, CountLimitReached));
          return;
        }
        if table.logicalBytes + size > config.maxLogicalBytes {
          r := Rollback(f, Refuse(Rejected, LogicalByteLimitReached));
          return;
        }
      } else {
        NothingReclaimed(table);
      }
      r := InsertRow(o, env, table);
    }

    method InsertRow(o: Observation, env: PutEnv, table: Table) returns (r: Receipt)
      requires o.ttlNs.Some? && working.Some?
      modifies this
      ensures (State(), r) == PutRow(config, old(State()), o, env, table)
    {
      var f := env.faults;
      var sequence := table.nextSequence;
      working := Some(committed.(rows := table.rows));
      if f.insert.Some? { r := HandleWriteError(f.insert.value, f.rollback.Some?); return; }
      var rows := table.rows[sequence := RowOf(config, o, env.nowNs)];
      working := Some(committed.(rows := rows));
      if f.update.Some? { r := HandleWriteError(f.update.value, f.rollback.Some?); return; }
      var size := |config.encode(o)|;
      working := Some(Table(sequence + 1, table.rowCount + 1, table.logicalBytes + size, rows));
      if f.commit.Some? { r := HandleWriteError(f.commit.value, f.rollback.Some?); return; }
      committed, working := working.value, None;
      rowCount := table.rowCount + 1;
      logicalBytes := table.logicalBytes + size;
      r := Receipt(Accepted, None, Some(sequence), size);
    }

    method PurgeExpired(limit: int, nowNs: int, f: Faults) returns (r: PurgeOutcome)
      requires Consistent(committed)
      modifies this
      ensures (State(), r) == Purge(config, old(State()), limit, nowNs, f)
      ensures if old(condition) == Healthy then D.PurgeDecided(config, old(State()), limit, nowNs, f, State(), r)
              else State() == old(State()) && (r.PurgeClosed? || r.PurgeReadOnly?)
    {
      D.PurgeDecides(config, State(), limit, nowNs, f);
      hide D.PurgeDecided;
      if condition == Closed { return PurgeClosed; }
      if condition == ReadOnly { return PurgeReadOnly(if reason.Some? then reason.value else StoreReadOnly); }
      if !(0 < limit <= config.maxPurgeRows) { return PurgeBadLimit; }
      if !(0 <= nowNs <= MAX_INT64) { return PurgeBadClock; }
      var receipt: Receipt;
      if f.begin.Some? {
        receipt := HandleWriteError(f.begin.value, f.rollback.Some?);
        return PurgeFailed(receipt.reason);
      }
      working := Some(committed);
      if f.readState.Some? {
        receipt := HandleWriteError(f.readState.value, f.rollback.Some?);
        return PurgeFailed(receipt.reason);
      }
      if committed.rowCount != rowCount || committed.logicalBytes != logicalBytes {
        receipt := HandleIntegrityError(f.rollback.Some?);
        return PurgeFailed(receipt.reason);
      }
      if f.select.Some? {
        receipt := HandleWriteError(f.select.value, f.rollback.Some?);
        return PurgeFailed(receipt.reason);
      }
      var candidates := SelectExpired(committed.rows, nowNs, limit);
      BatchIsFirst(committed.rows, nowNs, limit);
      if candidates == [] {
        if f.rollback.Some? {
          receipt := HandleWriteError(f.rollback.value, f.rollbackAgain);
          return PurgeFailed(receipt.reason);
        }
        working := None;
        return Purged(0, 0);
      }
      if f.delete.Some? {
        receipt := HandleWriteError(f.delete.value, f.rollback.Some?);
        return PurgeFailed(receipt.reason);
      }
      r := DeleteRows(candidates, f);
    }

    method DeleteRows(candidates: seq<nat>, f: Faults) returns (r: PurgeOutcome)
      requires Consistent(committed) && Distinct(candidates) && forall k :: k in candidates ==> k in committed.rows
      modifies this
      ensures (State(), r) == PurgeRows(old(State()), candidates, f)
    {
      var table := Reclaimed(committed, candidates);
      var bytes := BatchBytes(committed.rows, candidates);
      var receipt: Receipt;
      working := Some(committed.(rows := table.rows));
      if f.update.Some? {
        receipt := HandleWriteError(f.update.value, f.rollback.Some?);
        return PurgeFailed(receipt.reason);
      }
      working := Some(table);
      if f.commit.Some? {
        receipt := HandleWriteError(f.commit.value, f.rollback.Some?);
        return PurgeFailed(receipt.reason);
      }
      committed, working := table, None;
      rowCount, logicalBytes := table.rowCount, table.logicalBytes;
      r := Purged(|candidates|, bytes);
    }

    /** The rows a query of this connection sees. */
    function Visible(): Rows
      reads this
    {
      if working.Some? then working.value.rows else committed.rows
    }

    /** The arguments a query accepts. */
    predicate Askable(limit: int, sessionId: Option<string>, maxBytes: Option<int>, nowNs: int)
      reads this
    {
      && 0 < limit <= config.maxQueryRows && (maxBytes.Some? ==> 0 < maxBytes.value <= config.maxQueryBytes)
      && 0 <= nowNs <= MAX_INT64 && (sessionId.Some? ==> BoundedText(sessionId.value, 256))
    }

    /** The newest live rows, decoded, cut at the row limit and at the longest prefix that fits in the bytes. The
        database may fail when asked for the row after the first `after`. A closed store and a bad argument are the
        only refusals; the query fails exactly when the failing row is reached, it reports corruption exactly when a
        row that does not decode is reached before, and in every other case it answers. */
    method QueryLatest(limit: int, sessionId: Option<string>, maxBytes: Option<int>, nowNs: int,
                       fault: Option<SqlError>, after: nat)
      returns (r: QueryOutcome)
      modifies this`condition, this`reason
      ensures r.QueryClosed? <==> old(condition) == Closed
      ensures r.QueryBadArgument? <==> old(condition) != Closed && !Askable(limit, sessionId, maxBytes, nowNs)
      ensures old(condition) != Closed && Askable(limit, sessionId, maxBytes, nowNs) ==>
                var bytes := if maxBytes.Some? then maxBytes.value else config.maxQueryBytes;
                var cursor := Cursor(Visible(), sessionId, nowNs, limit);
                Answers(Decoder(config, unit), Visible(), cursor, bytes, fault, after, r)
      ensures State() ==
                if r.QueryCorrupt? then Latch(old(State()), RecordIntegrityError)
                else if r.QueryFailed? && fault.Some? && fault.value in {Corrupt, NotADatabase, IoError}
                then Latch(old(State()), SqliteReadError)
                else old(State())
    {
      if condition == Closed { return QueryClosed; }
      if !(0 < limit <= config.maxQueryRows) { return QueryBadArgument; }
      var byteLimit := if maxBytes.Some? then maxBytes.value else config.maxQueryBytes;
      if maxBytes.Some? && !(0 < byteLimit <= config.maxQueryBytes) { return QueryBadArgument; }
      if !(0 <= nowNs <= MAX_INT64) { return QueryBadArgument; }
      if sessionId.Some? && !BoundedText(sessionId.value, 256) { return QueryBadArgument; }
      var cursor := Cursor(Visible(), sessionId, nowNs, limit);
      CursorIsNewestFirst(Visible(), sessionId, nowNs, limit);
      r := ReadRows(Decoder(config, unit), Visible(), cursor, byteLimit, fault, after);
      if r.QueryCorrupt? { LatchReadOnly(RecordIntegrityError); }
      if r.QueryFailed? && fault.value in {Corrupt, NotADatabase, IoError} { LatchReadOnly(SqliteReadError); }
    }

    static method ReadRows(decode: RowDecoder, rows: Rows, cursor: seq<nat>, byteLimit: nat, fault: Option<SqlError>,
                           after: nat)
      returns (r: QueryOutcome)
      requires forall k :: k in cursor ==> k in rows
      ensures Answers(decode, rows, cursor, byteLimit, fault, after, r)
    {
      hide Reaches, Stumbles, IsDecodedPrefix, LongestFit, Answers, BytesOf;
      var result: seq<(nat, Observation)> := [];
      var consumed := 0;
      var i := 0;
      NoRowsYet(decode, rows, cursor, byteLimit);
      while i < |cursor|
        invariant 0 <= i <= |cursor| && |result| == i && (fault.Some? ==> i <= after)
        invariant IsDecodedPrefix(decode, rows, cursor, result) && Reaches(decode, rows, cursor, byteLimit, i)
        invariant consumed == BytesOf(rows, cursor, i) && consumed <= byteLimit
      {
        if fault.Some? && i == after {
          FaultAnswers(decode, rows, cursor, byteLimit, fault, i);
          return QueryFailed;
        }
        var k := cursor[i];
        var decoded := decode(k, rows[k]);
        if decoded.None? {
          StumbleAnswers(decode, rows, cursor, byteLimit, fault, after, i);
          return QueryCorrupt;
        }
        if consumed + rows[k].logicalBytes > byteLimit {
          PrefixAnswers(decode, rows, cursor, byteLimit, fault, after, result);
          return Latest(result);
        }
        OneMoreRow(decode, rows, cursor, byteLimit, result, decoded.value);
        result := result + [(k, decoded.value)];
        consumed := consumed + rows[k].logicalBytes;
        i := i + 1;
      }
      if fault.Some? && i == after {
        FaultAnswers(decode, rows, cursor, byteLimit, fault, i);
        return QueryFailed;
      }
      PrefixAnswers(decode, rows, cursor, byteLimit, fault, after, result);
      r := Latest(result);
    }

    method Close()
      modifies this
      ensures condition == Closed && committed == old(committed) && (old(condition) != Closed ==> working == None)
    {
      if condition == Closed { return; }
      working := None;
      condition := Closed;
    }
  }

  lemma NothingReclaimed(t: Table)
    requires Consistent(t)
    ensures Reclaimed(t, []) == t
  {
    assert StoreTable.Members([]) == {};
  }

  /** The bytes of the first n rows of a cursor. */
  function BytesOf(rows: Rows, cursor: seq<nat>, n: nat): int
    requires n <= |cursor|
  {
    if n == 0 then 0
    else BytesOf(rows, cursor, n - 1) + if cursor[n - 1] in rows then rows[cursor[n - 1]].logicalBytes else 0
  }

  /** On a file that only stores have written, every row a query reads decodes, to an observation that was put. */
  lemma QueriesReadWhatWasPut(c: Config, unit: UnitTest, t: Table, sessionId: Option<string>, now: int, limit: nat)
    requires ValidConfig(c) && Canonical(c, unit) && Wholesome(c, t)
    ensures AllDecode(Decoder(c, unit), t.rows, Cursor(t.rows, sessionId, now, limit))
    ensures forall k :: k in Cursor(t.rows, sessionId, now, limit) ==> Genuine(c, t.rows[k])
  {
    var cursor := Cursor(t.rows, sessionId, now, limit);
    CursorIsNewestFirst(t.rows, sessionId, now, limit);
    forall i | 0 <= i < |cursor| ensures cursor[i] in t.rows && DecodeRow(c, unit, cursor[i], t.rows[cursor[i]]).Some? {
      assert cursor[i] in cursor;
      WholesomeRowsDecode(c, unit, t, cursor[i]);
    }
  }

  /** On such a file a query that gets to its cursor answers, and what it finds are observations that were put, for
      the rows of the longest prefix of its cursor that fits. */
  lemma WholesomeFilesAnswer(c: Config, unit: UnitTest, t: Table, sessionId: Option<string>, now: int, limit: nat,
                             bytes: int, after: nat, r: QueryOutcome)
    requires ValidConfig(c) && Canonical(c, unit) && Wholesome(c, t)
    requires Answers(Decoder(c, unit), t.rows, Cursor(t.rows, sessionId, now, limit), bytes, None, after, r)
    ensures r.Latest? && LongestFit(Decoder(c, unit), t.rows, Cursor(t.rows, sessionId, now, limit), bytes, r.found)
    ensures forall i :: 0 <= i < |r.found| ==> WasPut(c, t, r.found[i].0, r.found[i].1)
  {
    var cursor := Cursor(t.rows, sessionId, now, limit);
    QueriesReadWhatWasPut(c, unit, t, sessionId, now, limit);
    DecodableRowsAnswer(Decoder(c, unit), t.rows, cursor, bytes, after, r);
    forall i | 0 <= i < |r.found| ensures WasPut(c, t, r.found[i].0, r.found[i].1) {
      assert cursor[i] in cursor;
      FoundWasPut(c, unit, t, cursor[i], r.found[i].1);
    }
  }

  /** Row k was written by a put of this very observation. */
  ghost predicate WasPut(c: Config, t: Table, k: nat, o: Observation) {
    k in t.rows && exists now: int :: RowFor(c, t.rows[k], o, now)
  }

  lemma FoundWasPut(c: Config, unit: UnitTest, t: Table, k: nat, o: Observation)
    requires ValidConfig(c) && Canonical(c, unit) && Wholesome(c, t) && k in t.rows
    requires DecodeRow(c, unit, k, t.rows[k]) == Some(o)
    ensures WasPut(c, t, k, o)
  {
    var put, now :| RowFor(c, t.rows[k], put, now);
    RowFitsTotal(t.rows, k);
    WrittenRowDecodes(c, unit, k, t.rows[k], put, now);
  }
}
