/** Any number of controllers and snapshot providers on one device, in any number of processes, each with its own
    lease on the device's lock file. */
module DeviceOwnership {
  import opened Common
  import opened CameraPolicy
  import C = ControllerMachine
  import K = ControllerProofs
  import S = SnapshotProvider

  datatype Owner = ControllerOwner(policy: Policy, c: C.Controller) | ProviderOwner(interval: nat, v: S.Provider)

  /** A lease: its lock file is not open; or locked but not yet in the process registry; or held; or still open
      because closing it failed; or closed but still in the registry. */
  datatype Lease = Free | Locked | Held | Unsure | Unlocked

  /** The lock file's holder, and for every process the owner its registry names. */
  datatype Device = Device(owners: seq<Owner>, process: seq<nat>, leases: seq<Lease>, lock: Option<nat>,
    registry: map<nat, nat>, factoryCalls: nat)

  datatype OwnerEvent = OfController(ce: C.Event) | OfProvider(pe: S.Event)

  // ---- owners ------------------------------------------------------------------

  predicate IsLeaseEvent(e: OwnerEvent) {
    match e
    case OfController(ce) => ce.Acquire? || ce.GiveUp? || ce.Release?
    case OfProvider(pe) => pe.Acquired? || pe.Released?
  }

  predicate CanStep(o: Owner, e: OwnerEvent) {
    match o
    case ControllerOwner(_, c) => e.OfController? && C.Enabled(c, e.ce)
    case ProviderOwner(_, v) => e.OfProvider? && S.Enabled(v, e.pe)
  }

  function OwnerStep(o: Owner, e: OwnerEvent): Owner
    requires CanStep(o, e)
  {
    match o
    case ControllerOwner(p, c) => ControllerOwner(p, C.Step(p, c, e.ce))
    case ProviderOwner(i, v) => ProviderOwner(i, S.Step(i, v, e.pe))
  }

  predicate CallsFactory(e: OwnerEvent) { if e.OfController? then e.ce.Factory? else e.pe.Created? }

  predicate Holding(o: Owner) { if o.ControllerOwner? then o.c.leaseHeld else o.v.leaseHeld }

  predicate Retained(o: Owner) { if o.ControllerOwner? then o.c.retained else o.v.retained }

  /** Inside `lease.acquire`. */
  predicate Wants(o: Owner) { if o.ControllerOwner? then o.c.place.AtAcquire? else o.v.stage.Acquiring? }

  /** Inside `lease.release`. */
  predicate Gives(o: Owner) {
    if o.ControllerOwner? then o.c.place.AtGiveUp? || o.c.place.AtRelease? else o.v.stage.Releasing?
  }

  /** The backends an owner has created whose close has not been confirmed. */
  function Unclosed(o: Owner): int {
    if o.ControllerOwner? then o.c.history.created - o.c.history.confirmed else o.v.created - o.v.confirmed
  }

  /** An active or a retained backend. */
  predicate Unconfirmed(o: Owner) {
    || Retained(o)
    || (if o.ControllerOwner? then C.HasBackend(o.c.place) else o.v.stage.Using?)
  }

  /** May call the factory or has an active backend. */
  predicate Needs(o: Owner) {
    if o.ControllerOwner? then K.Entitled(o.c.place) && !Gives(o) else o.v.stage.Creating? || o.v.stage.Using?
  }

  predicate OwnerSound(o: Owner) { if o.ControllerOwner? then K.Owning(o.c) && K.Counted(o.c) else S.Owning(o.v) }

  function Granted(o: Owner, granted: bool): Owner
    requires Wants(o)
  {
    match o
    case ControllerOwner(p, c) => ControllerOwner(p, C.OnAcquire(c, granted))
    case ProviderOwner(i, v) => ProviderOwner(i, S.OnAcquired(v, granted))
  }

  function Released(o: Owner, released: bool): Owner
    requires Gives(o)
  {
    match o
    case ControllerOwner(p, c) =>
      ControllerOwner(p, if c.place.AtGiveUp? then C.OnGiveUp(c, released) else C.OnRelease(c, released))
    case ProviderOwner(i, v) => ProviderOwner(i, S.OnReleased(v, released))
  }

  // ---- the device -----------------------------------------------------------------

  datatype Event =
    | Own(e: OwnerEvent)
    | Lock(refused: bool)               // open and lock the file; refused when an OS call fails
    | Register                          // look into the process registry
    | CloseFile(ok: bool, lost: bool)   // close the file; a failed close may or may not drop the lock
    | Unregister

  function Put(d: Device, i: nat, o: Owner, l: Lease): Device
    requires i < |d.owners| && i < |d.leases|
  {
    d.(owners := d.owners[i := o], leases := d.leases[i := l])
  }

  /** Owner i moves; an event that is not possible changes nothing. */
  function Step(d: Device, i: nat, e: Event): Device
    requires i < |d.owners| == |d.leases| == |d.process|
  {
    var o, l := d.owners[i], d.leases[i];
    match e
    case Own(oe) =>
      if !CanStep(o, oe) || IsLeaseEvent(oe) then d
      else Put(d, i, OwnerStep(o, oe), l).(factoryCalls := d.factoryCalls + if CallsFactory(oe) then 1 else 0)
    case Lock(refused) =>
      if !Wants(o) || !l.Free? then d
      else if refused || d.lock.Some? then Put(d, i, Granted(o, false), Free)
      else Put(d, i, o, Locked).(lock := Some(i))
    case Register =>
      if !Wants(o) || !l.Locked? then d
      else if d.process[i] in d.registry then Put(d, i, Granted(o, false), Free).(lock := None)
      else Put(d, i, Granted(o, true), Held).(registry := d.registry[d.process[i] := i])
    case CloseFile(ok, lost) =>
      if !Gives(o) || !(l.Held? || l.Unsure?) then d
      else if ok then Put(d, i, o, Unlocked).(lock := if d.lock == Some(i) then None else d.lock)
      else Put(d, i, Released(o, false), Unsure).(lock := if lost && d.lock == Some(i) then None else d.lock)
    case Unregister =>
      if !Gives(o) || !l.Unlocked? then d
      else
        var p := d.process[i];
        Put(d, i, Released(o, true), Free).(
          registry := if p in d.registry && d.registry[p] == i then d.registry - {p} else d.registry)
  }

  datatype Move = Move(owner: nat, event: Event)

  function Run(d: Device, moves: seq<Move>): Device
    requires |d.owners| == |d.leases| == |d.process|
    decreases |moves|
  {
    if moves == [] then d
    else if moves[0].owner >= |d.owners| then Run(d, moves[1..])
    else
      var next := Step(d, moves[0].owner, moves[0].event);
      Run(next, moves[1..])
  }

  // ---- what a lease and its owner agree on ------------------------------------------

  predicate Agree(o: Owner, l: Lease) {
    && OwnerSound(o)
    && (Holding(o) <==> l.Held? || l.Unsure? || l.Unlocked?)
    && (l.Locked? ==> Wants(o))
    && (l.Unlocked? ==> Gives(o))
    && (Needs(o) || Retained(o) ==> l.Held?)
  }

  predicate Excludes(d: Device, i: nat)
    requires i < |d.leases|
  {
    d.leases[i].Locked? || d.leases[i].Held? ==> d.lock == Some(i)
  }

  predicate Inv(d: Device) {
    && |d.owners| == |d.leases| == |d.process|
    && (forall i: nat :: i < |d.owners| ==> Agree(d.owners[i], d.leases[i]))
    && (forall i: nat :: i < |d.owners| ==> Excludes(d, i))
  }

  /** What any step of an owner that is not a lease operation does to its part in the agreement. */
  predicate Follows(o: Owner, n: Owner) {
    && OwnerSound(n) && (Holding(n) <==> Holding(o))
    && (Wants(o) ==> Wants(n)) && (Gives(o) ==> Gives(n))
    && (Needs(n) ==> Needs(o)) && (Retained(n) ==> Retained(o) || Needs(o)) && (Retained(o) ==> Retained(n))
  }

  lemma ControllerFollows(p: Policy, c: C.Controller, e: C.Event)
    requires C.Enabled(c, e) && K.Owning(c) && K.Counted(c) && !IsLeaseEvent(OfController(e))
    ensures Follows(ControllerOwner(p, c), ControllerOwner(p, C.Step(p, c, e)))
  {
    K.StepOwns(p, c, e);
    if K.Streams(e) {
      StreamFollows(p, c, e);
    } else if K.Recovers(e) {
      RecoveryFollows(p, c, e);
    } else {
      OtherFollows(p, c, e);
    }
  }

  predicate Kept(c: C.Controller, d: C.Controller) {
    && d.leaseHeld == c.leaseHeld && (d.retained ==> c.retained || C.HasBackend(c.place)) && (c.retained ==> d.retained)
    && (c.place.AtAcquire? ==> d.place.AtAcquire?)
    && (c.place.AtGiveUp? || c.place.AtRelease? ==> d.place == c.place)
    && (K.Entitled(d.place) && !d.place.AtGiveUp? && !d.place.AtRelease? ==>
          K.Entitled(c.place) && !c.place.AtGiveUp? && !c.place.AtRelease?)
  }

  lemma StreamFollows(p: Policy, c: C.Controller, e: C.Event)
    requires C.Enabled(c, e) && K.Streams(e)
    ensures Kept(c, C.Step(p, c, e))
  {
    hide C.Tick, C.IsStable, C.OnOpenReturns, C.OnReadReturns, C.OnHandle;
    match e
    case OpenReturns(result, now) => OpenFollows(p, c, result, now);
    case ReadReturns(read, now) => ReadFollows(p, c, read, now);
    case Handle => HandleFollows(p, c);
    case _ =>
  }

  lemma OpenFollows(p: Policy, c: C.Controller, outcome: C.OpenOutcome, now: nat)
    requires c.place.InOpen?
    ensures Kept(c, C.OnOpenReturns(p, c, outcome, now))
  {
    hide C.Tick;
  }

  lemma ReadFollows(p: Policy, c: C.Controller, outcome: C.ReadOutcome, now: nat)
    requires c.place.InRead?
    ensures Kept(c, C.OnReadReturns(p, c, outcome, now))
  {
    hide C.Tick, C.IsStable;
  }

  lemma HandleFollows(p: Policy, c: C.Controller)
    requires c.place.AtHandle?
    ensures Kept(c, C.OnHandle(p, c))
  {
    hide C.IsStable;
  }

  lemma RecoveryFollows(p: Policy, c: C.Controller, e: C.Event)
    requires C.Enabled(c, e) && K.Recovers(e) && !e.GiveUp?
    ensures Kept(c, C.Step(p, c, e))
  {
  }

  lemma OtherFollows(p: Policy, c: C.Controller, e: C.Event)
    requires C.Enabled(c, e) && !K.Streams(e) && !K.Recovers(e) && !e.Acquire? && !e.Release?
    ensures Kept(c, C.Step(p, c, e))
  {
    hide C.Step, Kept;
    if K.Leads(e) { LeadFollows(p, c, e); } else { TailFollows(p, c, e); }
  }

  lemma LeadFollows(p: Policy, c: C.Controller, e: C.Event)
    requires C.Enabled(c, e) && K.Leads(e) && !e.Acquire?
    ensures Kept(c, C.Step(p, c, e))
  {
    hide C.OnOpenReturns, C.OnReadReturns, C.OnHandle, C.OnPauseEnds, C.OnResume, C.OnFactory, C.OnClose, C.OnRetry;
    hide C.OnOffer;
  }

  lemma TailFollows(p: Policy, c: C.Controller, e: C.Event)
    requires C.Enabled(c, e) && !K.Streams(e) && !K.Recovers(e) && !K.Leads(e) && !e.Release?
    ensures Kept(c, C.Step(p, c, e))
  {
    hide C.OnOpenReturns, C.OnReadReturns, C.OnHandle, C.OnPauseEnds, C.OnResume, C.OnClose, C.OnRetry, C.OnOffer;
  }

  lemma ProviderFollows(i: nat, v: S.Provider, e: S.Event)
    requires S.Enabled(v, e) && S.Owning(v) && !IsLeaseEvent(OfProvider(e))
    ensures Follows(ProviderOwner(i, v), ProviderOwner(i, S.Step(i, v, e)))
  {
  }

  lemma PutKeeps(d: Device, i: nat, o: Owner, l: Lease, n: Device)
    requires Inv(d) && i < |d.owners| && Agree(o, l)
    requires n.owners == d.owners[i := o] && n.leases == d.leases[i := l] && n.process == d.process
    requires n.lock == d.lock || d.lock.None? || d.lock == Some(i)
    requires l.Locked? || l.Held? ==> n.lock == Some(i)
    ensures Inv(n)
  {
    hide Agree;
    forall j: nat | j < |n.owners| ensures Agree(n.owners[j], n.leases[j]) && Excludes(n, j) {
      assert Agree(d.owners[j], d.leases[j]) && Excludes(d, j);
    }
  }

  lemma FollowAgrees(o: Owner, n: Owner, l: Lease)
    requires Agree(o, l) && Follows(o, n)
    ensures Agree(n, l)
  {
    hide OwnerSound, Holding, Wants, Gives, Needs, Retained;
  }

  lemma OwnerFollows(o: Owner, e: OwnerEvent)
    requires CanStep(o, e) && !IsLeaseEvent(e) && OwnerSound(o)
    ensures Follows(o, OwnerStep(o, e))
  {
    hide Follows;
    match o
    case ControllerOwner(p, c) => ControllerFollows(p, c, e.ce);
    case ProviderOwner(i, v) => ProviderFollows(i, v, e.pe);
  }

  lemma GrantAgrees(o: Owner, granted: bool)
    requires OwnerSound(o) && Wants(o)
    ensures Agree(Granted(o, granted), if granted then Held else Free)
  {
  }

  lemma ReleaseAgrees(o: Owner, released: bool)
    requires OwnerSound(o) && Gives(o)
    ensures Agree(Released(o, released), if released then Free else Unsure)
  {
  }

  lemma GiverAgrees(o: Owner, l: Lease)
    requires Agree(o, l) && Gives(o)
    ensures Agree(o, Unlocked)
  {
  }

  lemma WanterAgrees(o: Owner)
    requires Agree(o, Free) && Wants(o)
    ensures Agree(o, Locked)
  {
  }

  lemma StepKeeps(d: Device, i: nat, e: Event)
    requires Inv(d) && i < |d.owners|
    ensures Inv(Step(d, i, e)) && |Step(d, i, e).owners| == |d.owners|
  {
    hide Agree, Holding, Wants, Gives, Needs, Retained, Granted, Released, OwnerStep;
    var o, l := d.owners[i], d.leases[i];
    assert Agree(o, l) && Excludes(d, i);
    assert OwnerSound(o) by { AgreesSoundly(o, l); }
    hide OwnerSound, Inv;
    var n := Step(d, i, e);
    match e
    case Own(oe) =>
      if CanStep(o, oe) && !IsLeaseEvent(oe) {
        OwnerFollows(o, oe);
        FollowAgrees(o, OwnerStep(o, oe), l);
        PutKeeps(d, i, OwnerStep(o, oe), l, n);
      }
    case Lock(refused) =>
      if Wants(o) && l.Free? {
        if refused || d.lock.Some? {
          GrantAgrees(o, false);
          PutKeeps(d, i, Granted(o, false), Free, n);
        } else {
          WanterAgrees(o);
          PutKeeps(d, i, o, Locked, n);
        }
      }
    case Register =>
      if Wants(o) && l.Locked? {
        GrantAgrees(o, false);
        GrantAgrees(o, true);
        if d.process[i] in d.registry {
          PutKeeps(d, i, Granted(o, false), Free, n);
        } else {
          PutKeeps(d, i, Granted(o, true), Held, n);
        }
      }
    case CloseFile(ok, lost) =>
      if Gives(o) && (l.Held? || l.Unsure?) {
        if ok {
          GiverAgrees(o, l);
          PutKeeps(d, i, o, Unlocked, n);
        } else {
          ReleaseAgrees(o, false);
          PutKeeps(d, i, Released(o, false), Unsure, n);
        }
      }
    case Unregister =>
      if Gives(o) && l.Unlocked? {
        ReleaseAgrees(o, true);
        PutKeeps(d, i, Released(o, true), Free, n);
      }
  }

  lemma AgreesSoundly(o: Owner, l: Lease)
    requires Agree(o, l)
    ensures OwnerSound(o)
  {
  }

  lemma {:induction false} RunKeeps(d: Device, moves: seq<Move>)
    requires Inv(d)
    ensures Inv(Run(d, moves)) && |Run(d, moves).owners| == |d.owners|
    decreases |moves|
  {
    hide Step, Agree, Excludes;
    if moves != [] {
      if moves[0].owner >= |d.owners| {
        RunKeeps(d, moves[1..]);
      } else {
        StepKeeps(d, moves[0].owner, moves[0].event);
        RunKeeps(Step(d, moves[0].owner, moves[0].event), moves[1..]);
      }
    }
  }

  // ---- the theorems -----------------------------------------------------------------

  /** Controllers and providers that have not started yet, and no lock file open. */
  predicate Fresh(d: Device) {
    && |d.owners| == |d.leases| == |d.process| && d.lock.None?
    && (forall i: nat :: i < |d.owners| ==> IsNew(d.owners[i]) && d.leases[i].Free?)
  }

  predicate IsNew(o: Owner) { if o.ControllerOwner? then o.c == C.NEW_CONTROLLER else o.v == S.NEW_PROVIDER }

  lemma NewAgrees(o: Owner)
    requires IsNew(o)
    ensures Agree(o, Free)
  {
  }

  lemma FreshIsSound(d: Device)
    requires Fresh(d)
    ensures Inv(d)
  {
    hide Agree, IsNew;
    forall i: nat | i < |d.owners| ensures Agree(d.owners[i], d.leases[i]) && Excludes(d, i) {
      NewAgrees(d.owners[i]);
    }
  }

  lemma UnconfirmedHoldsLock(d: Device, i: nat)
    requires Inv(d) && i < |d.owners| && (Unconfirmed(d.owners[i]) || Needs(d.owners[i]))
    ensures d.leases[i].Held? && d.lock == Some(i)
  {
    assert Agree(d.owners[i], d.leases[i]) && Excludes(d, i);
  }

  lemma UnclosedIsUnconfirmed(o: Owner)
    requires OwnerSound(o)
    ensures Unclosed(o) == if Unconfirmed(o) then 1 else 0
  {
  }

  /** The backends not confirmed closed, over all owners. */
  function TotalUnclosed(owners: seq<Owner>): int {
    if owners == [] then 0 else TotalUnclosed(owners[..|owners| - 1]) + Unclosed(owners[|owners| - 1])
  }

  /** Only the owner with the lock has a backend not confirmed closed, and it has at most one. */
  lemma UnclosedHoldsLock(d: Device, i: nat)
    requires Inv(d) && i < |d.owners|
    ensures 0 <= Unclosed(d.owners[i]) <= if d.lock == Some(i) then 1 else 0
  {
    hide Unconfirmed, Unclosed;
    assert Agree(d.owners[i], d.leases[i]);
    UnclosedIsUnconfirmed(d.owners[i]);
    if Unconfirmed(d.owners[i]) { UnconfirmedHoldsLock(d, i); }
  }

  lemma {:induction false} TotalIsOneHolders(d: Device, n: nat)
    requires Inv(d) && n <= |d.owners|
    ensures 0 <= TotalUnclosed(d.owners[..n]) <= if d.lock.Some? && d.lock.value < n then 1 else 0
  {
    hide Inv, Unclosed;
    if n > 0 {
      TotalIsOneHolders(d, n - 1);
      assert d.owners[..n][..n - 1] == d.owners[..n - 1];
      UnclosedHoldsLock(d, n - 1);
    }
  }

  /** Over every interleaving of any number of owners, at most one backend of all those created, by whichever
      owner, has not had its close confirmed; no owner closes more than it created. */
  lemma OneBackendAtATime(d: Device, moves: seq<Move>)
    requires Fresh(d)
    ensures
      var n := Run(d, moves);
      && |n.owners| == |d.owners|
      && (forall i :: 0 <= i < |n.owners| ==> 0 <= Unclosed(n.owners[i]))
      && TotalUnclosed(n.owners) <= 1
  {
    hide Unclosed, Run, Step, Agree, Excludes, IsNew;
    FreshIsSound(d);
    RunKeeps(d, moves);
    var n := Run(d, moves);
    forall i | 0 <= i < |n.owners| ensures 0 <= Unclosed(n.owners[i]) {
      UnclosedHoldsLock(n, i);
    }
    TotalIsOneHolders(n, |n.owners|);
    assert n.owners[..|n.owners|] == n.owners;
  }

  /** Every way a close can fail leaves the backend retained, and so do all later steps. */
  lemma FailedCloseRetains(o: Owner, e: OwnerEvent)
    requires CanStep(o, e) && OwnerSound(o)
    requires if e.OfController? then e.ce.Close? && !e.ce.closed.CloseDone? else e.pe.Closed? && !e.pe.confirmed
    ensures Retained(OwnerStep(o, e)) && Holding(OwnerStep(o, e))
  {
  }

  lemma FactoryNeedsLease(o: Owner, e: OwnerEvent)
    requires CanStep(o, e) && CallsFactory(e) && OwnerSound(o)
    ensures Needs(o) && !Retained(o)
  {
  }

  lemma StepKeepsRetained(d: Device, i: nat, m: Move)
    requires Inv(d) && i < |d.owners| && Retained(d.owners[i]) && m.owner < |d.owners|
    ensures |Step(d, m.owner, m.event).owners| == |d.owners|
    ensures Retained(Step(d, m.owner, m.event).owners[i])
    ensures Step(d, m.owner, m.event).factoryCalls == d.factoryCalls
  {
    var o := d.owners[m.owner];
    assert Agree(o, d.leases[m.owner]) && Agree(d.owners[i], d.leases[i]);
    UnconfirmedHoldsLock(d, i);
    if Needs(o) { UnconfirmedHoldsLock(d, m.owner); }
    assert m.owner != i ==> !Needs(o);
    assert m.owner == i ==> !Wants(o) && !Gives(o);
    if m.event.Own? && CanStep(o, m.event.e) && !IsLeaseEvent(m.event.e) {
      OwnerFollows(o, m.event.e);
      if CallsFactory(m.event.e) { FactoryNeedsLease(o, m.event.e); }
    }
    hide Inv, Agree, OwnerSound, Holding, Wants, Gives, Needs, Retained, Granted, Released, OwnerStep, CanStep;
    hide IsLeaseEvent;
  }

  /** Once an owner retains a backend, it keeps it and the lock for ever, and no owner calls a factory again. */
  lemma {:induction false} RetainedStopsFactories(d: Device, i: nat, moves: seq<Move>)
    requires Inv(d) && i < |d.owners| && Retained(d.owners[i])
    ensures Inv(Run(d, moves)) && |Run(d, moves).owners| == |d.owners|
    ensures Retained(Run(d, moves).owners[i]) && Run(d, moves).lock == Some(i)
    ensures Run(d, moves).factoryCalls == d.factoryCalls
    decreases |moves|
  {
    hide Step, Agree, Excludes, Retained, Needs;
    if moves == [] {
      UnconfirmedHoldsLock(d, i);
    } else if moves[0].owner >= |d.owners| {
      RetainedStopsFactories(d, i, moves[1..]);
    } else {
      StepKeeps(d, moves[0].owner, moves[0].event);
      StepKeepsRetained(d, i, moves[0]);
      RetainedStopsFactories(Step(d, moves[0].owner, moves[0].event), i, moves[1..]);
    }
  }

  // ---- who gets the device ----------------------------------------------------------------------

  lemma RunOfOne(d: Device, m: Move)
    requires m.owner < |d.owners| == |d.leases| == |d.process|
    ensures Run(d, [m]) == Step(d, m.owner, m.event)
  {
    hide Step;
    assert [m][1..] == [];
  }

  lemma RunOfTwo(d: Device, i: nat, a: Event, b: Event)
    requires i < |d.owners| == |d.leases| == |d.process|
    requires var z := Step(d, i, a); |z.owners| == |z.leases| == |z.process| == |d.owners|
    ensures Run(d, [Move(i, a), Move(i, b)]) == Step(Step(d, i, a), i, b)
  {
    hide Step;
    var z := Step(d, i, a);
    RunOfOne(z, Move(i, b));
    assert [Move(i, a), Move(i, b)][1..] == [Move(i, b)];
    assert Run(d, [Move(i, a), Move(i, b)]) == Run(z, [Move(i, b)]);
  }

  lemma GrantDecides(o: Owner, granted: bool)
    requires Wants(o)
    ensures Holding(Granted(o, granted)) <==> granted || Holding(o)
  {
  }

  /** An owner that asks for a device nobody holds gets it, unless the file cannot be opened. */
  lemma FreeDeviceIsGranted(d: Device, i: nat)
    requires i < |d.owners| == |d.leases| == |d.process|
    requires Wants(d.owners[i]) && d.leases[i].Free? && d.lock.None? && d.process[i] !in d.registry
    ensures
      var z := Run(d, [Move(i, Lock(false)), Move(i, Register)]);
      && z.owners == d.owners[i := Granted(d.owners[i], true)] && Holding(z.owners[i])
      && z.leases == d.leases[i := Held] && z.lock == Some(i) && z.registry == d.registry[d.process[i] := i]
  {
    var o := d.owners[i];
    GrantDecides(o, true);
    hide Granted, Wants, Holding, CanStep, OwnerStep;
    RunOfTwo(d, i, Lock(false), Register);
    assert d.leases[i := Locked][i := Held] == d.leases[i := Held];
    assert d.owners[i := o] == d.owners;
  }

  /** One that asks while another has the lock, or another lease of its process the registry, does not, and leaves
      both to them. */
  lemma TakenDeviceIsRefused(d: Device, i: nat)
    requires i < |d.owners| == |d.leases| == |d.process|
    requires Wants(d.owners[i]) && d.leases[i].Free?
    requires d.lock.Some? || d.process[i] in d.registry
    ensures
      var z := Run(d, [Move(i, Lock(false)), Move(i, Register)]);
      && z.owners == d.owners[i := Granted(d.owners[i], false)] && (Holding(z.owners[i]) <==> Holding(d.owners[i]))
      && z.leases == d.leases && z.lock == d.lock && z.registry == d.registry
  {
    var o := d.owners[i];
    GrantDecides(o, false);
    GrantedWantsNoMore(o);
    hide Granted, Wants, Holding, CanStep, OwnerStep;
    RunOfTwo(d, i, Lock(false), Register);
    assert d.leases[i := Free] == d.leases && d.leases[i := Locked][i := Free] == d.leases;
    assert d.owners[i := o] == d.owners;
  }

  lemma GrantedWantsNoMore(o: Owner)
    requires Wants(o)
    ensures !Wants(Granted(o, false))
  {
  }

  /** A lease that closes frees the device for the next owner that asks, in its own process or another. */
  lemma ReleasedDeviceIsFree(d: Device, i: nat)
    requires i < |d.owners| == |d.leases| == |d.process|
    requires Gives(d.owners[i]) && d.leases[i].Held? && d.lock == Some(i)
    requires d.process[i] in d.registry && d.registry[d.process[i]] == i
    ensures
      var z := Run(d, [Move(i, CloseFile(true, false)), Move(i, Unregister)]);
      && z.owners == d.owners[i := Released(d.owners[i], true)] && !Holding(z.owners[i])
      && z.leases == d.leases[i := Free] && z.lock.None? && z.registry == d.registry - {d.process[i]}
  {
    ReleaseDecides(d.owners[i]);
    FileCloses(d, i);
    var z := Step(d, i, CloseFile(true, false));
    EntryGoes(z, i);
    RunOfTwo(d, i, CloseFile(true, false), Unregister);
    hide *;
    assert d.leases[i := Unlocked][i := Free] == d.leases[i := Free];
  }

  lemma FileCloses(d: Device, i: nat)
    requires i < |d.owners| == |d.leases| == |d.process|
    requires Gives(d.owners[i]) && d.leases[i].Held? && d.lock == Some(i)
    ensures Step(d, i, CloseFile(true, false)) == d.(leases := d.leases[i := Unlocked], lock := None)
  {
    assert d.owners[i := d.owners[i]] == d.owners;
    hide Gives, Released;
  }

  lemma EntryGoes(d: Device, i: nat)
    requires i < |d.owners| == |d.leases| == |d.process|
    requires Gives(d.owners[i]) && d.leases[i].Unlocked?
    requires d.process[i] in d.registry && d.registry[d.process[i]] == i
    ensures
      Step(d, i, Unregister) ==
      d.(owners := d.owners[i := Released(d.owners[i], true)], leases := d.leases[i := Free],
         registry := d.registry - {d.process[i]})
  {
    hide Gives, Released;
  }

  lemma ReleaseDecides(o: Owner)
    requires Gives(o)
    ensures !Holding(Released(o, true))
    ensures Holding(o) ==> Holding(Released(o, false))
  {
  }
}
