/** The bounded in-memory store. */
module MemoryStore {
  import opened Common
  import opened Observations
  import opened SqliteStore
  import opened Utf8

  datatype MemoryReason =
    | MemoryClosed | MemoryDuplicate | MemoryConflict | MemoryNotSerializable | MemoryObservationTooLarge
    | MemoryCountLimit | MemoryByteLimit

  datatype MemoryReceipt =
    MemoryReceipt(status: Status, reason: Option<MemoryReason>, sequence: Option<nat>, bytesAccepted: nat)

  /** The fields of a memory store as one value. */
  datatype Memory = Memory(
    observations: seq<Observation>, sequencesByKey: map<string, nat>, observationsByKey: map<string, Observation>,
    bytesUsed: nat, closed: bool)

  const EMPTY_MEMORY := Memory([], map[], map[], 0, false)

  function Decline(status: Status, reason: MemoryReason): MemoryReceipt { MemoryReceipt(status, Some(reason), None, 0) }

  /** A key stands for the observation at its position plus one. */
  ghost predicate Names(m: Memory, key: string) {
    && key in m.sequencesByKey && key in m.observationsByKey
    && 1 <= m.sequencesByKey[key] <= |m.observations|
    && m.observationsByKey[key] == m.observations[m.sequencesByKey[key] - 1]
    && m.observationsByKey[key].idempotencyKey == key
  }

  ghost predicate NamedAt(m: Memory, i: nat) {
    i < |m.observations| ==>
      && m.observations[i].idempotencyKey in m.sequencesByKey
      && m.sequencesByKey[m.observations[i].idempotencyKey] == i + 1
  }

  /** The tables by key describe the list. */
  ghost predicate Indexed(m: Memory) {
    && (forall key :: key in m.sequencesByKey || key in m.observationsByKey ==> Names(m, key))
    && (forall i: nat :: NamedAt(m, i))
  }

  /** Whether two observations count as the same. Python's `==` may hold of different documents: it equates 1, 1.0
      and True. */
  type Equality = (Observation, Observation) -> bool

  function SameDocument(a: Observation, b: Observation): bool { a == b }

  /** What `put` does on an observation of the size given, None if measuring it raises. */
  function MemoryPut(
    maxObservations: nat, maxBytes: nat, same: Equality, m: Memory, o: Observation, size: Option<nat>):
      (Memory, MemoryReceipt)
  {
    var key := o.idempotencyKey;
    if m.closed then (m, Decline(Failed, MemoryClosed))
    else if key in m.observationsByKey && key in m.sequencesByKey then
      if same(m.observationsByKey[key], o) then
        (m, MemoryReceipt(Coalesced, Some(MemoryDuplicate), Some(m.sequencesByKey[key]), 0))
      else (m, MemoryReceipt(Rejected, Some(MemoryConflict), Some(m.sequencesByKey[key]), 0))
    else if size.None? then (m, Decline(Rejected, MemoryNotSerializable))
    else if size.value > maxBytes then (m, Decline(Rejected, MemoryObservationTooLarge))
    else if |m.observations| >= maxObservations then (m, Decline(Rejected, MemoryCountLimit))
    else if m.bytesUsed + size.value > maxBytes then (m, Decline(Rejected, MemoryByteLimit))
    else (Remember(m, o, size.value), MemoryReceipt(Accepted, None, Some(|m.observations| + 1), size.value))
  }

  /** The observation appended and entered in both tables. */
  function Remember(m: Memory, o: Observation, size: nat): Memory {
    var key := o.idempotencyKey;
    Memory(m.observations + [o], m.sequencesByKey[key := |m.observations| + 1], m.observationsByKey[key := o],
           m.bytesUsed + size, m.closed)
  }

  lemma RememberKeepsIndex(m: Memory, o: Observation, size: nat)
    requires Indexed(m) && o.idempotencyKey !in m.observationsByKey
    ensures Indexed(Remember(m, o, size))
  {
    var m' := Remember(m, o, size);
    assert o.idempotencyKey in m.sequencesByKey ==> Names(m, o.idempotencyKey);
    forall key | key in m'.sequencesByKey || key in m'.observationsByKey ensures Names(m', key) {
      if key != o.idempotencyKey { assert Names(m, key); }
    }
    forall i: nat ensures NamedAt(m', i) {
      assert NamedAt(m, i);
      if i < |m.observations| { assert m'.observations[i] == m.observations[i]; }
    }
  }

  // ---- what a put comes to, in terms of the list ------------------------------------------

  predicate KeyAt(observations: seq<Observation>, i: nat, key: string) {
    i < |observations| && observations[i].idempotencyKey == key
  }

  /** The answer to an observation whose key is that of the one at an index. */
  predicate AnswersFor(m: Memory, i: nat, same: Equality, o: Observation, r: MemoryReceipt)
    requires i < |m.observations|
  {
    r == if same(m.observations[i], o) then MemoryReceipt(Coalesced, Some(MemoryDuplicate), Some(i + 1), 0)
         else MemoryReceipt(Rejected, Some(MemoryConflict), Some(i + 1), 0)
  }

  /** Every answer, by the list of observations, the two limits and the size. */
  ghost predicate MemoryDecides(
    maxObservations: nat, maxBytes: nat, same: Equality, m: Memory, o: Observation, size: Option<nat>, m': Memory,
    r: MemoryReceipt)
  {
    var isNew := !m.closed && forall i: nat :: !KeyAt(m.observations, i, o.idempotencyKey);
    && (r == Decline(Failed, MemoryClosed) <==> m.closed)
    && (forall i: nat :: !m.closed && KeyAt(m.observations, i, o.idempotencyKey) ==> AnswersFor(m, i, same, o, r))
    && (r == Decline(Rejected, MemoryNotSerializable) <==> isNew && size.None?)
    && (r == Decline(Rejected, MemoryObservationTooLarge) <==> isNew && size.Some? && size.value > maxBytes)
    && (r == Decline(Rejected, MemoryCountLimit) <==>
          isNew && size.Some? && size.value <= maxBytes && |m.observations| >= maxObservations)
    && (r == Decline(Rejected, MemoryByteLimit) <==>
          && isNew && size.Some? && size.value <= maxBytes && |m.observations| < maxObservations
          && m.bytesUsed + size.value > maxBytes)
    && (r.status == Accepted <==>
          && isNew && size.Some? && |m.observations| + 1 <= maxObservations && m.bytesUsed + size.value <= maxBytes)
    && (r.status == Accepted ==>
          && m'.observations == m.observations + [o] && m'.bytesUsed == m.bytesUsed + size.value && !m'.closed
          && r == MemoryReceipt(Accepted, None, Some(|m'.observations|), size.value))
    && (r.status != Accepted ==> m' == m)
  }

  lemma KeyIsIndexed(m: Memory, key: string)
    requires Indexed(m)
    ensures key in m.observationsByKey <==> key in m.sequencesByKey
    ensures key in m.observationsByKey <==> exists i: nat :: KeyAt(m.observations, i, key)
    ensures forall i: nat :: KeyAt(m.observations, i, key) ==>
              && key in m.sequencesByKey && m.sequencesByKey[key] == i + 1
              && key in m.observationsByKey && m.observationsByKey[key] == m.observations[i]
  {
    if key in m.observationsByKey || key in m.sequencesByKey {
      assert Names(m, key);
      assert KeyAt(m.observations, m.sequencesByKey[key] - 1, key);
    }
    forall i: nat | KeyAt(m.observations, i, key)
      ensures
        && key in m.sequencesByKey && m.sequencesByKey[key] == i + 1
        && key in m.observationsByKey && m.observationsByKey[key] == m.observations[i]
    {
      assert NamedAt(m, i);
      assert Names(m, key);
    }
  }

  lemma MemoryPutDecides(
    maxObservations: nat, maxBytes: nat, same: Equality, m: Memory, o: Observation, size: Option<nat>)
    requires Indexed(m)
    ensures
      var (m', r) := MemoryPut(maxObservations, maxBytes, same, m, o, size);
      MemoryDecides(maxObservations, maxBytes, same, m, o, size, m', r)
  {
    KeyIsIndexed(m, o.idempotencyKey);
    hide Indexed;
  }

  class MemoryStore {
    const maxObservations: nat
    const maxBytes: nat
    const same: Equality
    const measure: Observation -> Option<nat>
    var observations: seq<Observation>
    var sequencesByKey: map<string, nat>
    var observationsByKey: map<string, Observation>
    var bytesUsed: nat
    var closed: bool

    ghost function State(): Memory
      reads this
    {
      Memory(observations, sequencesByKey, observationsByKey, bytesUsed, closed)
    }

    constructor (maxObservations: nat, maxBytes: nat, same: Equality, measure: Observation -> Option<nat>)
      requires maxObservations > 0 && maxBytes > 0
      ensures State() == EMPTY_MEMORY && Indexed(State())
      ensures this.maxObservations == maxObservations && this.maxBytes == maxBytes
      ensures this.same == same && this.measure == measure
    {
      this.maxObservations, this.maxBytes, this.same, this.measure := maxObservations, maxBytes, same, measure;
      observations, sequencesByKey, observationsByKey := [], map[], map[];
      bytesUsed, closed := 0, false;
    }

    method Put(o: Observation) returns (r: MemoryReceipt)
      requires Indexed(State())
      modifies this
      ensures Indexed(State())
      ensures (State(), r) == MemoryPut(maxObservations, maxBytes, same, old(State()), o, measure(o))
      ensures MemoryDecides(maxObservations, maxBytes, same, old(State()), o, measure(o), State(), r)
    {
      MemoryPutDecides(maxObservations, maxBytes, same, State(), o, measure(o));
      hide MemoryDecides;
      if closed { return Decline(Failed, MemoryClosed); }
      var key := o.idempotencyKey;
      if key in observationsByKey {
        assert Names(State(), key);
        var sequence := sequencesByKey[key];
        if same(observationsByKey[key], o) {
          return MemoryReceipt(Coalesced, Some(MemoryDuplicate), Some(sequence), 0);
        }
        return MemoryReceipt(Rejected, Some(MemoryConflict), Some(sequence), 0);
      }
      var measured := measure(o);
      if measured.None? { return Decline(Rejected, MemoryNotSerializable); }
      var size := measured.value;
      if size > maxBytes { return Decline(Rejected, MemoryObservationTooLarge); }
      if |observations| >= maxObservations { return Decline(Rejected, MemoryCountLimit); }
      if bytesUsed + size > maxBytes { return Decline(Rejected, MemoryByteLimit); }
      ghost var before := State();
      RememberKeepsIndex(before, o, size);
      r := Append(o, size);
    }

    method Append(o: Observation, size: nat) returns (r: MemoryReceipt)
      modifies this
      ensures State() == Remember(old(State()), o, size)
      ensures r == MemoryReceipt(Accepted, None, Some(|old(observations)| + 1), size)
    {
      observations := observations + [o];
      var sequence := |observations|;
      sequencesByKey := sequencesByKey[o.idempotencyKey := sequence];
      observationsByKey := observationsByKey[o.idempotencyKey := o];
      bytesUsed := bytesUsed + size;
      r := MemoryReceipt(Accepted, None, Some(sequence), size);
    }

    method Clear()
      modifies this
      ensures State() == EMPTY_MEMORY.(closed := old(closed)) && Indexed(State())
    {
      observations, sequencesByKey, observationsByKey, bytesUsed := [], map[], map[], 0;
    }

    method Close()
      modifies this
      ensures if old(closed) then State() == old(State()) else State() == EMPTY_MEMORY.(closed := true)
    {
      if closed { return; }
      Clear();
      closed := true;
    }
  }
}
