/** Snapshot calls against one consent ledger, with grants and revocations, in any interleaving. */
module SnapshotConsent {
  import opened Common
  import opened Consent
  import opened ConsentLedgers

  /** A call holds a reservation; then the provider has been asked for the picture; then the call has returned. */
  datatype Stage = Waiting | Captured | Returned

  datatype Call = Call(reserved: ConsentState, stage: Stage)

  /** A picture handed out, with the state that was re-read for it. */
  datatype Delivery = Delivery(reserved: ConsentState, current: ConsentState, sensitivity: Sensitivity, now: int)

  /** The state on file, every grant ever made by its identifier, and the calls that got a reservation. */
  datatype World = World(
    file: Option<ConsentState>, issued: map<string, Grant>, calls: seq<Call>, delivered: seq<Delivery>)

  const NEW_WORLD := World(None, map[], [], [])

  datatype Event =
    | GrantEvent(state: ConsentState, replaced: bool)
    | RevokeEvent(removed: bool)
    | ReserveEvent(sensitivity: Sensitivity, now: int, fate: Fate)
    | CaptureEvent(call: nat)
    | ReturnEvent(call: nat, sensitivity: Sensitivity, now: int)

  /** A grant starts with no attempts and an identifier never used before. */
  predicate IsFreshGrant(w: World, s: ConsentState) {
    ValidState(s) && s.attempts == 0 && s.grant.publicId !in w.issued
  }

  function Reserve(w: World, sensitivity: Sensitivity, now: int, fate: Fate): World {
    if w.file.None? || fate.Untouched? then w
    else
      var s := w.file.value;
      if !EvaluateGrant(Some(s.grant), SnapshotRead, sensitivity, now, s.attempts).Allowed? then w
      else
        w.(file := Some(Advanced(s)),
           calls := w.calls + if fate.Done? then [Call(Advanced(s), Waiting)] else [])
  }

  /** The check before delivery: the same grant must still be on file and cover the picture, attempts aside. */
  predicate Reauthorized(reserved: ConsentState, current: Option<ConsentState>, sensitivity: Sensitivity, now: int) {
    && current.Some? && current.value.grant.publicId == reserved.grant.publicId
    && EvaluateGrant(Some(current.value.grant), SnapshotRead, sensitivity, now, 0).Allowed?
  }

  function Return(w: World, i: nat, sensitivity: Sensitivity, now: int): World
    requires i < |w.calls|
  {
    var c := w.calls[i];
    var done := w.(calls := w.calls[i := c.(stage := Returned)]);
    if Reauthorized(c.reserved, w.file, sensitivity, now) then
      done.(delivered := w.delivered + [Delivery(c.reserved, w.file.value, sensitivity, now)])
    else done
  }

  function Step(w: World, e: Event): World {
    match e
    case GrantEvent(s, replaced) =>
      if !IsFreshGrant(w, s) then w
      else w.(issued := w.issued[s.grant.publicId := s.grant], file := if replaced then Some(s) else w.file)
    case RevokeEvent(removed) => if removed then w.(file := None) else w
    case ReserveEvent(sensitivity, now, fate) => Reserve(w, sensitivity, now, fate)
    case CaptureEvent(i) =>
      if i < |w.calls| && w.calls[i].stage.Waiting? then w.(calls := w.calls[i := w.calls[i].(stage := Captured)]) else w
    case ReturnEvent(i, sensitivity, now) =>
      if i < |w.calls| && w.calls[i].stage.Captured? then Return(w, i, sensitivity, now) else w
  }

  function Run(w: World, events: seq<Event>): World
    decreases |events|
  {
    if events == [] then w else Run(Step(w, events[0]), events[1..])
  }

  // ---- counting ------------------------------------------------------------------

  /** The reservations made under a grant. */
  function Reservations(calls: seq<Call>, id: string): nat {
    if calls == [] then 0
    else Reservations(calls[..|calls| - 1], id) + if calls[|calls| - 1].reserved.grant.publicId == id then 1 else 0
  }

  /** The captures the provider was asked for under a grant. */
  function Captures(calls: seq<Call>, id: string): nat {
    if calls == [] then 0
    else
      var c := calls[|calls| - 1];
      Captures(calls[..|calls| - 1], id) + if c.reserved.grant.publicId == id && !c.stage.Waiting? then 1 else 0
  }

  lemma {:induction false} CapturesWereReserved(calls: seq<Call>, id: string)
    ensures Captures(calls, id) <= Reservations(calls, id)
    decreases |calls|
  {
    if calls != [] { CapturesWereReserved(calls[..|calls| - 1], id); }
  }

  lemma {:induction false} StageDoesNotCount(calls: seq<Call>, i: nat, stage: Stage, id: string)
    requires i < |calls|
    ensures Reservations(calls[i := calls[i].(stage := stage)], id) == Reservations(calls, id)
    decreases |calls|
  {
    var n := |calls| - 1;
    var changed := calls[i := calls[i].(stage := stage)];
    if i < n {
      assert changed[..n] == calls[..n][i := calls[i].(stage := stage)];
      StageDoesNotCount(calls[..n], i, stage, id);
    } else {
      assert changed[..n] == calls[..n];
    }
  }

  // ---- the invariant ----------------------------------------------------------------

  predicate WithinQuota(w: World, id: string)
    requires id in w.issued
  {
    Reservations(w.calls, id) <= w.issued[id].quota
  }

  /** A reservation's grant is the one issued under its identifier. */
  predicate KnownCalls(w: World) {
    forall i :: 0 <= i < |w.calls| ==>
      w.calls[i].reserved.grant.publicId in w.issued
      && w.issued[w.calls[i].reserved.grant.publicId] == w.calls[i].reserved.grant
  }

  predicate FileSound(w: World) {
    w.file.Some? ==>
      var s := w.file.value;
      && ValidState(s) && s.grant.publicId in w.issued && w.issued[s.grant.publicId] == s.grant
      && Reservations(w.calls, s.grant.publicId) <= s.attempts
  }

  /** A picture was delivered under the very grant it was reserved under, unexpired and in scope. */
  predicate Honoured(x: Delivery) {
    x.current.grant == x.reserved.grant && Covers(x.current.grant, SnapshotRead, x.sensitivity, x.now)
  }

  ghost predicate Inv(w: World) {
    && (forall id :: id in w.issued ==> WithinQuota(w, id) && 0 <= w.issued[id].quota)
    && (forall id :: id !in w.issued ==> Reservations(w.calls, id) == 0)
    && KnownCalls(w) && FileSound(w)
    && (forall i :: 0 <= i < |w.delivered| ==> Honoured(w.delivered[i]))
  }

  lemma ReservationsAppend(calls: seq<Call>, c: Call, id: string)
    ensures Reservations(calls + [c], id) ==
            Reservations(calls, id) + if c.reserved.grant.publicId == id then 1 else 0
  {
    assert (calls + [c])[..|calls|] == calls;
  }

  lemma GrantKeeps(w: World, s: ConsentState, replaced: bool)
    requires Inv(w)
    ensures Inv(Step(w, GrantEvent(s, replaced)))
  {
    hide ValidGrant, Reservations;
  }

  lemma AdvanceKeeps(w: World, calls: seq<Call>)
    requires Inv(w) && w.file.Some? && w.file.value.attempts < w.file.value.grant.quota
    requires calls == w.calls || calls == w.calls + [Call(Advanced(w.file.value), Waiting)]
    ensures Inv(w.(file := Some(Advanced(w.file.value)), calls := calls))
  {
    var s := w.file.value;
    var id := s.grant.publicId;
    AdvancedIsValid(s);
    forall other
      ensures Reservations(calls, other) <= Reservations(w.calls, other) + (if other == id then 1 else 0)
    {
      ReservationsAppend(w.calls, Call(Advanced(s), Waiting), other);
    }
    var n := w.(file := Some(Advanced(s)), calls := calls);
    hide Reservations, ValidGrant, ValidState;
    assert Reservations(calls, id) <= s.attempts + 1;
    forall other | other in n.issued ensures WithinQuota(n, other) {
      assert WithinQuota(w, other);
    }
  }

  lemma ReserveKeeps(w: World, sensitivity: Sensitivity, now: int, fate: Fate)
    requires Inv(w)
    ensures Inv(Reserve(w, sensitivity, now, fate))
  {
    var n := Reserve(w, sensitivity, now, fate);
    if w.file.Some? && w.file.value.attempts < w.file.value.grant.quota {
      AdvanceKeeps(w, w.calls);
      AdvanceKeeps(w, w.calls + [Call(Advanced(w.file.value), Waiting)]);
      assert w.calls + [] == w.calls;
    }
    hide Inv;
  }

  lemma StageKeeps(w: World, i: nat, stage: Stage)
    requires Inv(w) && i < |w.calls|
    ensures Inv(w.(calls := w.calls[i := w.calls[i].(stage := stage)]))
  {
    forall id ensures Reservations(w.calls[i := w.calls[i].(stage := stage)], id) == Reservations(w.calls, id) {
      StageDoesNotCount(w.calls, i, stage, id);
    }
    hide Reservations, ValidState;
    assert forall id :: id in w.issued ==> WithinQuota(w, id);
  }

  lemma DeliveryHonours(w: World, i: nat, sensitivity: Sensitivity, now: int)
    requires Inv(w) && i < |w.calls| && Reauthorized(w.calls[i].reserved, w.file, sensitivity, now)
    ensures Honoured(Delivery(w.calls[i].reserved, w.file.value, sensitivity, now))
  {
    AllowedMeansCovered(Some(w.file.value.grant), SnapshotRead, sensitivity, now, 0);
  }

  lemma ReturnKeeps(w: World, i: nat, sensitivity: Sensitivity, now: int)
    requires Inv(w) && i < |w.calls|
    ensures Inv(Return(w, i, sensitivity, now))
  {
    StageKeeps(w, i, Returned);
    if Reauthorized(w.calls[i].reserved, w.file, sensitivity, now) {
      DeliveryHonours(w, i, sensitivity, now);
    }
    hide Reservations, ValidState, Reauthorized, Honoured;
  }

  lemma StepKeeps(w: World, e: Event)
    requires Inv(w)
    ensures Inv(Step(w, e))
  {
    match e
    case GrantEvent(s, replaced) => GrantKeeps(w, s, replaced);
    case RevokeEvent(removed) =>
    case ReserveEvent(sensitivity, now, fate) => ReserveKeeps(w, sensitivity, now, fate);
    case CaptureEvent(i) => if i < |w.calls| { StageKeeps(w, i, Captured); }
    case ReturnEvent(i, sensitivity, now) => if i < |w.calls| { ReturnKeeps(w, i, sensitivity, now); }
  }

  lemma {:induction false} RunKeeps(w: World, events: seq<Event>)
    requires Inv(w)
    ensures Inv(Run(w, events))
    decreases |events|
  {
    hide Step, Inv;
    if events != [] {
      StepKeeps(w, events[0]);
      RunKeeps(Step(w, events[0]), events[1..]);
    }
  }

  /** Under any interleaving, with identifiers never reused: the provider is asked for at most the quota under any
      grant ever made; the state on file always counts its attempts in its generation; and every delivered picture
      was re-authorized, after it was taken, against the very grant it was reserved under, unexpired and in scope. */
  lemma EveryRunRespectsConsent(events: seq<Event>, id: string)
    ensures
      var w := Run(NEW_WORLD, events);
      && (id in w.issued ==> Captures(w.calls, id) <= w.issued[id].quota)
      && (w.file.Some? ==> w.file.value.generation == w.file.value.attempts + 1)
      && (forall i :: 0 <= i < |w.delivered| ==> Honoured(w.delivered[i]))
  {
    hide Run, Captures, Reservations, Honoured;
    assert Inv(NEW_WORLD) by { NewWorldIsSound(NEW_WORLD); }
    RunKeeps(NEW_WORLD, events);
    var w := Run(NEW_WORLD, events);
    CapturesWereReserved(w.calls, id);
    if id in w.issued { assert WithinQuota(w, id); }
  }

  lemma NewWorldIsSound(w: World)
    requires w == NEW_WORLD
    ensures Inv(w)
  {
  }
}
