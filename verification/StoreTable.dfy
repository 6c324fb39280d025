/** The persisted table: rows under their sequence, the redundant counters, and the queries the store issues. */
module StoreTable {
  import opened Common
  import opened Utf8

  datatype Row = Row(
    key: string, sessionId: string, observedNs: int, storedNs: int, expiresNs: int,
    persistenceClass: string, sensitivityClass: string, digest: Bytes, logicalBytes: int, document: Bytes)

  /** `observations`, by its integer primary key. */
  type Rows = map<nat, Row>

  /** `store_state` and `observations`. */
  datatype Table = Table(nextSequence: nat, rowCount: nat, logicalBytes: nat, rows: Rows)

  const EMPTY_TABLE := Table(1, 0, 0, map[])

  // ---- SUM(logical_bytes) -------------------------------------------------

  ghost function Any(rows: Rows): (k: nat)
    requires |rows| != 0
    ensures k in rows
  {
    var k :| k in rows;
    k
  }

  ghost function TotalBytes(rows: Rows): int
    decreases |rows|
  {
    if |rows| == 0 then 0 else rows[Any(rows)].logicalBytes + TotalBytes(rows - {Any(rows)})
  }

  lemma SwapRemovals(rows: Rows, j: nat, k: nat)
    ensures rows - {j} - {k} == rows - {k} - {j}
  {
  }

  lemma {:induction false} TotalWithout(rows: Rows, k: nat)
    requires k in rows
    ensures TotalBytes(rows) == rows[k].logicalBytes + TotalBytes(rows - {k})
    decreases |rows|
  {
    var j := Any(rows);
    if j != k {
      assert k in rows - {j} && j in rows - {k};
      TotalWithout(rows - {j}, k);
      TotalWithout(rows - {k}, j);
      SwapRemovals(rows, j, k);
    }
  }

  lemma TotalWith(rows: Rows, k: nat, row: Row)
    requires k !in rows
    ensures TotalBytes(rows[k := row]) == TotalBytes(rows) + row.logicalBytes
  {
    TotalWithout(rows[k := row], k);
    assert rows[k := row] - {k} == rows;
  }

  ghost predicate Positive(rows: Rows) {
    forall k :: k in rows ==> k >= 1 && rows[k].logicalBytes >= 1
  }

  lemma {:induction false} TotalIsBounded(rows: Rows)
    requires Positive(rows)
    ensures TotalBytes(rows) >= |rows|
    decreases |rows|
  {
    if |rows| != 0 {
      TotalIsBounded(rows - {Any(rows)});
    }
  }

  ghost predicate DistinctKeys(rows: Rows) {
    forall j, k :: j in rows && k in rows && j != k ==> rows[j].key != rows[k].key
  }

  /** What every committed state of the file satisfies. */
  ghost predicate Consistent(t: Table) {
    && t.rowCount == |t.rows|
    && t.logicalBytes == TotalBytes(t.rows)
    && 1 <= t.nextSequence <= MAX_INT64
    && (forall k :: k in t.rows ==> k < t.nextSequence)
    && DistinctKeys(t.rows) && Positive(t.rows)
  }

  // ---- SELECT ... WHERE idempotency_key = ? -------------------------------

  predicate HasKey(rows: Rows, key: string, k: nat) { k in rows && rows[k].key == key }

  function FindKey(rows: Rows, key: string): (r: Option<nat>)
    requires DistinctKeys(rows)
    ensures r.Some? ==> HasKey(rows, key, r.value)
    ensures r.None? ==> forall k :: !HasKey(rows, key, k)
  {
    if exists k :: k in rows && HasKey(rows, key, k) then
      var k :| k in rows && HasKey(rows, key, k);
      Some(k)
    else None
  }

  // ---- SELECT ... WHERE expires_unix_ns <= ? ORDER BY expires_unix_ns, store_sequence LIMIT ? --

  predicate Expired(rows: Rows, now: int, k: nat) { k in rows && rows[k].expiresNs <= now }

  predicate Earlier(rows: Rows, j: nat, k: nat) {
    && j in rows && k in rows
    && (rows[j].expiresNs < rows[k].expiresNs || (rows[j].expiresNs == rows[k].expiresNs && j < k))
  }

  predicate IsFirstExpired(rows: Rows, now: int, k: nat) {
    Expired(rows, now, k) && forall j :: j in rows && Expired(rows, now, j) && j != k ==> Earlier(rows, k, j)
  }

  predicate AnyExpired(rows: Rows, now: int) { exists k :: k in rows && Expired(rows, now, k) }

  lemma {:induction false} FirstExpiredExists(rows: Rows, now: int)
    requires AnyExpired(rows, now)
    ensures exists k :: IsFirstExpired(rows, now, k)
    decreases |rows|
  {
    var x :| x in rows && Expired(rows, now, x);
    var rest := rows - {x};
    assert rows.Keys == rest.Keys + {x};
    if AnyExpired(rest, now) {
      FirstExpiredExists(rest, now);
      var m :| IsFirstExpired(rest, now, m);
      var best := if Earlier(rows, x, m) then x else m;
      forall j | Expired(rows, now, j) && j != best ensures Earlier(rows, best, j) {
        assert j == x || Expired(rest, now, j);
      }
      assert IsFirstExpired(rows, now, best);
    } else {
      forall j | Expired(rows, now, j) ensures j == x { assert j == x || Expired(rest, now, j); }
      assert IsFirstExpired(rows, now, x);
    }
  }

  function FirstExpired(rows: Rows, now: int): (k: nat)
    requires AnyExpired(rows, now)
    ensures IsFirstExpired(rows, now, k)
  {
    FirstExpiredExists(rows, now);
    var k :| k in rows && IsFirstExpired(rows, now, k);
    k
  }

  /** The sequences that the query returns, in its order. */
  function SelectExpired(rows: Rows, now: int, limit: nat): seq<nat>
    decreases limit
  {
    if limit == 0 || !AnyExpired(rows, now) then []
    else
      var k := FirstExpired(rows, now);
      [k] + SelectExpired(rows - {k}, now, limit - 1)
  }

  function Members(sequences: seq<nat>): set<nat> { set k | k in sequences }

  /** DELETE ... WHERE store_sequence IN (...). */
  function DeleteIn(rows: Rows, sequences: seq<nat>): Rows {
    rows - Members(sequences)
  }

  function BatchBytes(rows: Rows, sequences: seq<nat>): int
    requires forall k :: k in sequences ==> k in rows
  {
    if sequences == [] then 0 else rows[sequences[0]].logicalBytes + BatchBytes(rows, sequences[1..])
  }

  ghost function ExpiredSet(rows: Rows, now: int): set<nat> { set k | k in rows && Expired(rows, now, k) }

  /** The first `limit` expired rows in (expiry, sequence) order: of that size, all expired, in order, without
      repetition, and leaving out no row that comes before one it takes. */
  ghost predicate IsFirstBatch(rows: Rows, now: int, limit: nat, batch: seq<nat>) {
    && |batch| == Min(limit, |ExpiredSet(rows, now)|)
    && (forall k :: k in batch ==> Expired(rows, now, k))
    && (forall i, j :: 0 <= i < j < |batch| ==> batch[i] != batch[j] && Earlier(rows, batch[i], batch[j]))
    && (forall j, k :: j in batch && Expired(rows, now, k) && k !in batch ==> Earlier(rows, j, k))
  }

  lemma {:induction false} BatchIsFirst(rows: Rows, now: int, limit: nat)
    ensures IsFirstBatch(rows, now, limit, SelectExpired(rows, now, limit))
    decreases limit
  {
    if AnyExpired(rows, now) {
      if limit > 0 {
        var first := FirstExpired(rows, now);
        var rest := rows - {first};
        BatchIsFirst(rest, now, limit - 1);
        PrependFirst(rows, now, limit, first, SelectExpired(rest, now, limit - 1));
      }
    } else {
      assert ExpiredSet(rows, now) == {};
    }
  }

  /** The same in the columns: the batch is ordered by expiry and then by sequence, holds only expired rows, and every
      expired row it leaves out comes after all of it. */
  lemma BatchIsOldest(rows: Rows, now: int, limit: nat)
    ensures
      var batch := SelectExpired(rows, now, limit);
      && |batch| == Min(limit, |set k | k in rows && rows[k].expiresNs <= now|)
      && (forall k :: k in batch ==> k in rows && rows[k].expiresNs <= now)
      && (forall i, j :: 0 <= i < j < |batch| ==>
            || rows[batch[i]].expiresNs < rows[batch[j]].expiresNs
            || (rows[batch[i]].expiresNs == rows[batch[j]].expiresNs && batch[i] < batch[j]))
      && (forall j, k :: j in batch && k in rows && rows[k].expiresNs <= now && k !in batch ==>
            rows[j].expiresNs < rows[k].expiresNs || (rows[j].expiresNs == rows[k].expiresNs && j < k))
  {
    var batch := SelectExpired(rows, now, limit);
    BatchIsFirst(rows, now, limit);
    hide SelectExpired;
    assert ExpiredSet(rows, now) == set k | k in rows && rows[k].expiresNs <= now;
    assert forall k :: k in rows && rows[k].expiresNs <= now ==> Expired(rows, now, k);
    assert forall k :: k in batch ==> Expired(rows, now, k);
    forall i | 0 <= i < |batch| ensures batch[i] in rows { assert batch[i] in batch && Expired(rows, now, batch[i]); }
    forall i, j | 0 <= i < j < |batch|
      ensures || rows[batch[i]].expiresNs < rows[batch[j]].expiresNs
              || (rows[batch[i]].expiresNs == rows[batch[j]].expiresNs && batch[i] < batch[j])
    {
      assert batch[i] in batch && batch[j] in batch && Earlier(rows, batch[i], batch[j]);
    }
    forall j, k | j in batch && k in rows && rows[k].expiresNs <= now && k !in batch
      ensures rows[j].expiresNs < rows[k].expiresNs || (rows[j].expiresNs == rows[k].expiresNs && j < k)
    {
      assert Earlier(rows, j, k);
    }
  }

  lemma PrependFirst(rows: Rows, now: int, limit: nat, first: nat, tail: seq<nat>)
    requires limit > 0 && IsFirstExpired(rows, now, first)
    requires IsFirstBatch(rows - {first}, now, limit - 1, tail)
    ensures IsFirstBatch(rows, now, limit, [first] + tail)
  {
    assert ExpiredSet(rows, now) == ExpiredSet(rows - {first}, now) + {first};
    PrependedIsEarlier(rows, now, limit, first, tail);
    PrependedAscends(rows, now, limit, first, tail);
    hide Earlier, Expired, ExpiredSet;
  }

  lemma PrependedAscends(rows: Rows, now: int, limit: nat, first: nat, tail: seq<nat>)
    requires limit > 0 && IsFirstExpired(rows, now, first)
    requires IsFirstBatch(rows - {first}, now, limit - 1, tail)
    ensures
      var batch := [first] + tail;
      && (forall k :: k in batch ==> Expired(rows, now, k))
      && forall i, j :: 0 <= i < j < |batch| ==> batch[i] != batch[j] && Earlier(rows, batch[i], batch[j])
  {
    var rest, batch := rows - {first}, [first] + tail;
    forall k | k in batch ensures Expired(rows, now, k) { assert k == first || Expired(rest, now, k); }
    forall i, j | 0 <= i < j < |batch| ensures batch[i] != batch[j] && Earlier(rows, batch[i], batch[j]) {
      assert batch[j] == tail[j - 1] && Expired(rest, now, tail[j - 1]);
      if i > 0 { assert batch[i] == tail[i - 1] && Earlier(rest, tail[i - 1], tail[j - 1]); }
    }
  }

  lemma PrependedIsEarlier(rows: Rows, now: int, limit: nat, first: nat, tail: seq<nat>)
    requires limit > 0 && IsFirstExpired(rows, now, first)
    requires IsFirstBatch(rows - {first}, now, limit - 1, tail)
    ensures
      forall j, k :: j in [first] + tail && Expired(rows, now, k) && k !in [first] + tail ==> Earlier(rows, j, k)
  {
    var rest, batch := rows - {first}, [first] + tail;
    forall j, k | j in batch && Expired(rows, now, k) && k !in batch ensures Earlier(rows, j, k) {
      assert k != batch[0];
      if j != first { assert Expired(rest, now, k) && Earlier(rest, j, k); }
    }
  }

  ghost predicate Distinct(sequences: seq<nat>) {
    forall i, j :: 0 <= i < j < |sequences| ==> sequences[i] != sequences[j]
  }

  lemma TailStays(rows: Rows, sequences: seq<nat>)
    requires sequences != [] && forall k :: k in sequences ==> k in rows
    requires Distinct(sequences)
    ensures forall j :: j in sequences[1..] ==> j in rows - {sequences[0]}
    ensures DeleteIn(rows, sequences) == DeleteIn(rows - {sequences[0]}, sequences[1..])
    ensures |rows - {sequences[0]}| == |rows| - 1
    ensures Distinct(sequences[1..])
    ensures Positive(rows) ==> Positive(rows - {sequences[0]})
  {
    var k, tail := sequences[0], sequences[1..];
    assert sequences == [k] + tail;
    forall j | j in tail ensures j in rows - {k} {
      var i :| 0 <= i < |tail| && tail[i] == j;
      assert sequences[0] != sequences[i + 1];
    }
    assert rows.Keys == (rows - {k}).Keys + {k};
  }

  /** Both counters fall by exactly what the deleted rows hold. */
  ghost predicate Deducts(rows: Rows, sequences: seq<nat>)
    requires forall k :: k in sequences ==> k in rows
  {
    && |DeleteIn(rows, sequences)| == |rows| - |sequences|
    && TotalBytes(DeleteIn(rows, sequences)) == TotalBytes(rows) - BatchBytes(rows, sequences)
    && |sequences| <= |rows| && |sequences| <= BatchBytes(rows, sequences) <= TotalBytes(rows)
  }

  lemma DeductOneMore(rows: Rows, sequences: seq<nat>)
    requires sequences != [] && Positive(rows) && Distinct(sequences)
    requires (forall k :: k in sequences ==> k in rows)
    requires (forall j :: j in sequences[1..] ==> j in rows - {sequences[0]})
    requires Deducts(rows - {sequences[0]}, sequences[1..])
    ensures Deducts(rows, sequences)
  {
    TailStays(rows, sequences);
    BatchBytesWithout(rows, sequences[0], sequences[1..]);
    TotalWithout(rows, sequences[0]);
  }

  lemma DeleteNone(rows: Rows)
    requires Positive(rows)
    ensures Deducts(rows, [])
  {
    assert Members([]) == {};
    assert DeleteIn(rows, []) == rows;
    TotalIsBounded(rows);
  }

  /** Deleting distinct rows keeps the counters true. */
  lemma {:induction false} DeleteBatch(rows: Rows, sequences: seq<nat>)
    requires forall k :: k in sequences ==> k in rows
    requires Distinct(sequences)
    requires Positive(rows)
    ensures Deducts(rows, sequences)
    decreases |sequences|
  {
    if sequences == [] {
      DeleteNone(rows);
    } else {
      TailStays(rows, sequences);
      DeleteBatch(rows - {sequences[0]}, sequences[1..]);
      DeductOneMore(rows, sequences);
    }
  }

  lemma {:induction false} BatchBytesWithout(rows: Rows, k: nat, sequences: seq<nat>)
    requires k in rows && forall j :: j in sequences ==> j in rows - {k}
    ensures forall j :: j in sequences ==> j in rows
    ensures BatchBytes(rows, sequences) == BatchBytes(rows - {k}, sequences)
  {
    if sequences != [] {
      BatchBytesWithout(rows, k, sequences[1..]);
    }
  }

  /** A first batch can be deleted, and is counted out exactly. */
  lemma FirstBatchDeducts(rows: Rows, now: int, limit: nat, batch: seq<nat>)
    requires IsFirstBatch(rows, now, limit, batch) && Positive(rows)
    ensures Distinct(batch) && (forall k :: k in batch ==> k in rows) && Deducts(rows, batch)
  {
    DeleteBatch(rows, batch);
  }

  // ---- SELECT ... ORDER BY store_sequence DESC ----------------------------

  predicate IsNewest(rows: Rows, k: nat) { k in rows && forall j :: j in rows ==> j <= k }

  lemma {:induction false} NewestExists(rows: Rows)
    requires |rows| != 0
    ensures exists k: nat :: IsNewest(rows, k)
    decreases |rows|
  {
    var x := Any(rows);
    var rest := rows - {x};
    if |rest| == 0 {
      forall j: nat | j in rows ensures j == x { assert j == x || j in rest; }
      assert IsNewest(rows, x);
    } else {
      NewestExists(rest);
      var m: nat :| IsNewest(rest, m);
      var best: nat := if x < m then m else x;
      forall j: nat | j in rows ensures j <= best { assert j == x || j in rest; }
      assert IsNewest(rows, best);
    }
  }

  function Newest(rows: Rows): (k: nat)
    requires |rows| != 0
    ensures IsNewest(rows, k)
  {
    NewestExists(rows);
    var k: nat :| k in rows && IsNewest(rows, k);
    k
  }

  /** All sequences, newest first. */
  function NewestFirst(rows: Rows): seq<nat>
    decreases |rows|
  {
    if |rows| == 0 then [] else [Newest(rows)] + NewestFirst(rows - {Newest(rows)})
  }

  ghost predicate Descending(s: seq<nat>) { forall i, j :: 0 <= i < j < |s| ==> s[i] > s[j] }

  lemma DescendingCons(head: nat, tail: seq<nat>)
    requires Descending(tail) && forall k :: k in tail ==> head > k
    ensures Descending([head] + tail)
  {
    var s := [head] + tail;
    forall i, j | 0 <= i < j < |s| ensures s[i] > s[j] {
      assert s[j] == tail[j - 1] && tail[j - 1] in tail;
      if i > 0 { assert s[i] == tail[i - 1]; }
    }
  }

  lemma DescendingTail(s: seq<nat>)
    requires Descending(s) && s != []
    ensures Descending(s[1..]) && forall k :: k in s[1..] ==> s[0] > k
  {
    forall k | k in s[1..] ensures s[0] > k {
      var i :| 0 <= i < |s[1..]| && s[1..][i] == k;
      assert s[0] > s[i + 1];
    }
  }

  lemma {:induction false} NewestFirstIsOrder(rows: Rows)
    ensures forall k: nat :: k in NewestFirst(rows) <==> k in rows
    ensures Descending(NewestFirst(rows))
    decreases |rows|
  {
    if |rows| != 0 {
      var top := Newest(rows);
      var rest := rows - {top};
      NewestFirstIsOrder(rest);
      var tail := NewestFirst(rest);
      assert NewestFirst(rows) == [top] + tail;
      DescendingCons(top, tail);
    }
  }
}
