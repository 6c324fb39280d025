/** The same calls against the bytes of the consent file: every run of them is one of the runs over states. */
module ConsentFileRuns {
  import opened Common
  import opened Utf8
  import opened Consent
  import opened ConsentSize
  import opened ConsentLedgers
  import opened SnapshotConsent

  /** The bytes on file, and the same history as in a `World`. */
  datatype Disk = Disk(
    file: Option<Bytes>, issued: map<string, Grant>, calls: seq<Call>, delivered: seq<Delivery>)

  const NEW_DISK := Disk(None, map[], [], [])

  /** Calls of the ledger's methods, with their arguments and how they end, and the two later stages of a call. */
  datatype LedgerCall =
    | GrantCall(id: string, scopes: set<Scope>, seconds: int, quota: int, ceiling: Sensitivity, now: int, a: Access,
                fate: Fate)
    | RevokeCall(a: Access, fate: Fate)
    | ReserveCall(sensitivity: Sensitivity, now: int, a: Access, fate: Fate)
    | CaptureCall(call: nat)
    | ReturnCall(call: nat, sensitivity: Sensitivity, now: int)

  predicate GrantHappens(e: LedgerCall)
    requires e.GrantCall?
  {
    Grantable(e.seconds, e.quota, e.ceiling, e.now) && e.a.lock
  }

  /** The identifier of a grant is never blank, never too long, and never one used before. */
  predicate FreshId(d: Disk, id: string) { Nonblank(id) && |id| <= MAX_PUBLIC_ID_CHARS && id !in d.issued }

  function DiskGrant(d: Disk, e: LedgerCall): Disk
    requires e.GrantCall?
  {
    var s := NewState(e.id, e.scopes, e.seconds, e.quota, e.ceiling, e.now);
    if !FreshId(d, e.id) then d
    else
      d.(file := GrantFile(d.file, e.id, e.scopes, e.seconds, e.quota, e.ceiling, e.now, e.a, e.fate),
         issued := if GrantHappens(e) then d.issued[e.id := s.grant] else d.issued)
  }

  function DiskReserve(d: Disk, sensitivity: Sensitivity, now: int, a: Access, fate: Fate): Disk {
    d.(file := ReserveFile(d.file, sensitivity, now, a, fate),
       calls := d.calls + if Advances(d.file, sensitivity, now, a) && fate.Done? && a.releases
                          then [Call(Advanced(Stored(d.file).value), Waiting)] else [])
  }

  function DiskReturn(d: Disk, i: nat, sensitivity: Sensitivity, now: int): Disk
    requires i < |d.calls|
  {
    var c := d.calls[i];
    var done := d.(calls := d.calls[i := c.(stage := Returned)]);
    if Reauthorized(c.reserved, Stored(d.file), sensitivity, now) then
      done.(delivered := d.delivered + [Delivery(c.reserved, Stored(d.file).value, sensitivity, now)])
    else done
  }

  function DiskStep(d: Disk, e: LedgerCall): Disk {
    match e
    case GrantCall(_, _, _, _, _, _, _, _) => DiskGrant(d, e)
    case RevokeCall(a, fate) => d.(file := RevokeFile(d.file, a, fate))
    case ReserveCall(sensitivity, now, a, fate) => DiskReserve(d, sensitivity, now, a, fate)
    case CaptureCall(i) =>
      if i < |d.calls| && d.calls[i].stage.Waiting? then d.(calls := d.calls[i := d.calls[i].(stage := Captured)]) else d
    case ReturnCall(i, sensitivity, now) =>
      if i < |d.calls| && d.calls[i].stage.Captured? then DiskReturn(d, i, sensitivity, now) else d
  }

  function DiskRun(d: Disk, events: seq<LedgerCall>): Disk
    decreases |events|
  {
    if events == [] then d else DiskRun(DiskStep(d, events[0]), events[1..])
  }

  // ---- refinement -----------------------------------------------------------------

  const NOTHING := RevokeEvent(false)

  /** The step over states that a call on bytes makes. */
  function StepOf(e: LedgerCall): Event {
    match e
    case GrantCall(id, scopes, seconds, quota, ceiling, now, _, fate) =>
      if GrantHappens(e) then GrantEvent(NewState(id, scopes, seconds, quota, ceiling, now), !fate.Untouched?)
      else NOTHING
    case RevokeCall(a, fate) => RevokeEvent(a.lock && a.readable && !fate.Untouched?)
    case ReserveCall(sensitivity, now, a, fate) =>
      if a.lock && a.readable && 0 <= now <= MAX_INT64 then
        // A lock that cannot be given back takes the reservation from the caller, not from the file.
        ReserveEvent(sensitivity, now, if fate.Done? && !a.releases then ReplacedThenFailed else fate)
      else NOTHING
    case CaptureCall(i) => CaptureEvent(i)
    case ReturnCall(i, sensitivity, now) => ReturnEvent(i, sensitivity, now)
  }

  /** The file can be read, and what it holds is the state of the world. */
  predicate Tracks(d: Disk, w: World) {
    && Readable(d.file) && Stored(d.file) == w.file
    && d.issued == w.issued && d.calls == w.calls && d.delivered == w.delivered
  }

  lemma WriteIsStored(file: Option<Bytes>, s: ConsentState, fate: Fate)
    requires ValidState(s) && Readable(file)
    ensures Readable(WriteFile(file, s, fate))
    ensures Stored(WriteFile(file, s, fate)) == if fate.Untouched? then Stored(file) else Some(s)
  {
    WrittenStateIsReadBack(s);
    hide ValidState, DecodeFile, FileBytes;
  }

  lemma GrantTracks(d: Disk, w: World, e: LedgerCall)
    requires Tracks(d, w) && e.GrantCall?
    ensures Tracks(DiskGrant(d, e), if FreshId(d, e.id) then Step(w, StepOf(e)) else w)
  {
    var s := NewState(e.id, e.scopes, e.seconds, e.quota, e.ceiling, e.now);
    if FreshId(d, e.id) && GrantHappens(e) {
      NewStateIsValid(e.id, e.scopes, e.seconds, e.quota, e.ceiling, e.now);
      WriteIsStored(d.file, s, e.fate);
    }
    hide ValidState, DecodeFile, FileBytes, Readable, Stored, WriteFile, Nonblank;
  }

  lemma UsedIdDoesNothing(d: Disk, w: World, e: LedgerCall)
    requires Tracks(d, w) && e.GrantCall? && !FreshId(d, e.id)
    ensures Step(w, StepOf(e)) == w
  {
    hide DecodeFile, Stored, Readable;
  }

  /** The step over states of a reservation that gets as far as the replacement. */
  lemma AdvanceTracks(d: Disk, w: World, sensitivity: Sensitivity, now: int, a: Access, fate: Fate)
    requires Tracks(d, w) && Advances(d.file, sensitivity, now, a)
    ensures Tracks(DiskReserve(d, sensitivity, now, a, fate), Step(w, StepOf(ReserveCall(sensitivity, now, a, fate))))
  {
    hide ValidState, DecodeFile, FileBytes, Readable, Stored, WriteFile, EvaluateGrant;
    AllowedAdvances(Stored(d.file).value, sensitivity, now);
    WriteIsStored(d.file, Advanced(Stored(d.file).value), fate);
    assert d.calls + [] == d.calls;
  }

  lemma RefusalTracks(d: Disk, w: World, sensitivity: Sensitivity, now: int, a: Access, fate: Fate)
    requires Tracks(d, w) && !Advances(d.file, sensitivity, now, a)
    ensures DiskReserve(d, sensitivity, now, a, fate) == d
    ensures Step(w, StepOf(ReserveCall(sensitivity, now, a, fate))) == w
  {
    hide ValidState, DecodeFile, FileBytes, Readable, Stored, WriteFile, EvaluateGrant;
    assert d.calls + [] == d.calls;
  }

  lemma ReserveTracks(d: Disk, w: World, sensitivity: Sensitivity, now: int, a: Access, fate: Fate)
    requires Tracks(d, w)
    ensures Tracks(DiskReserve(d, sensitivity, now, a, fate), Step(w, StepOf(ReserveCall(sensitivity, now, a, fate))))
  {
    hide DecodeFile, Stored, EvaluateGrant, DiskReserve, Step, StepOf, Tracks;
    if Advances(d.file, sensitivity, now, a) {
      AdvanceTracks(d, w, sensitivity, now, a, fate);
    } else {
      RefusalTracks(d, w, sensitivity, now, a, fate);
    }
  }

  /** Every call on the bytes is a step over the states. */
  lemma StepTracks(d: Disk, w: World, e: LedgerCall)
    requires Tracks(d, w)
    ensures Tracks(DiskStep(d, e), Step(w, StepOf(e)))
  {
    hide DecodeFile, FileBytes, Stored, EvaluateGrant, DiskGrant, DiskReserve, WriteFile;
    match e
    case GrantCall(id, _, _, _, _, _, _, _) =>
      GrantTracks(d, w, e);
      if !FreshId(d, id) { UsedIdDoesNothing(d, w, e); }
    case ReserveCall(sensitivity, now, a, fate) => ReserveTracks(d, w, sensitivity, now, a, fate);
    case RevokeCall(a, fate) => RevokeTracks(d, w, a, fate);
    case _ =>
  }

  lemma RevokeTracks(d: Disk, w: World, a: Access, fate: Fate)
    requires Tracks(d, w)
    ensures Tracks(d.(file := RevokeFile(d.file, a, fate)), Step(w, RevokeEvent(a.lock && a.readable && !fate.Untouched?)))
  {
    hide DecodeFile;
  }

  function StepsOf(events: seq<LedgerCall>): seq<Event>
    decreases |events|
  {
    if events == [] then [] else [StepOf(events[0])] + StepsOf(events[1..])
  }

  lemma {:induction false} RunTracks(d: Disk, w: World, events: seq<LedgerCall>)
    requires Tracks(d, w)
    ensures Tracks(DiskRun(d, events), Run(w, StepsOf(events)))
    decreases |events|
  {
    hide Tracks, DiskStep, Step, StepOf;
    if events != [] {
      StepTracks(d, w, events[0]);
      RunTracks(DiskStep(d, events[0]), Step(w, StepOf(events[0])), events[1..]);
      assert StepsOf(events)[1..] == StepsOf(events[1..]);
    }
  }

  /** Over every interleaving of calls that start from no file: the file can always be read, and what is in it counts
      the attempts in its generation; the provider is asked for at most the quota under any grant ever made; and
      every delivered picture was re-authorized against the very grant it was reserved under. */
  lemma EveryFileRunRespectsConsent(events: seq<LedgerCall>, id: string)
    ensures
      var d := DiskRun(NEW_DISK, events);
      && Readable(d.file)
      && (Stored(d.file).Some? ==> Stored(d.file).value.generation == Stored(d.file).value.attempts + 1)
      && (id in d.issued ==> Captures(d.calls, id) <= d.issued[id].quota)
      && (forall i :: 0 <= i < |d.delivered| ==> Honoured(d.delivered[i]))
  {
    hide DiskRun, Run, Stored, DecodeFile, Honoured, Captures;
    NewDiskTracks(NEW_DISK, NEW_WORLD);
    RunTracks(NEW_DISK, NEW_WORLD, events);
    EveryRunRespectsConsent(StepsOf(events), id);
  }

  lemma NewDiskTracks(d: Disk, w: World)
    requires d == NEW_DISK && w == NEW_WORLD
    ensures Tracks(d, w)
  {
  }
}
