/** The one-shot snapshot provider: one capture at a time under its operation lock, one lease per capture. */
module SnapshotProvider {
  import opened CameraPolicy
  import opened Common
  import R = SnapshotReads

  datatype Stage = Idle | Acquiring(openStarted: nat) | Creating | Using | Releasing

  /** The provider's fields; and, for the proofs, when captures opened and what became of their backends. */
  datatype Provider = Provider(
    stage: Stage, leaseHeld: bool, closeStuck: bool, retained: bool, lastOpen: Option<nat>,
    opens: seq<nat>, created: nat, confirmed: nat)

  const NEW_PROVIDER := Provider(Idle, false, false, false, None, [], 0, 0)

  /** The minimum interval between two opens; a clock that went back counts as too soon. */
  predicate Throttled(interval: nat, v: Provider, now: nat) {
    v.lastOpen.Some? && interval != 0 && (now < v.lastOpen.value || now - v.lastOpen.value < interval)
  }

  /** A capture up to the call of `lease.acquire`: two clock readings around the resource gate. */
  function OnCapture(interval: nat, v: Provider, started: nat, admitted: bool, openStarted: nat, deadline: nat): Provider
    requires v.stage.Idle?
  {
    if v.closeStuck then v
    else if v.leaseHeld then v.(stage := Releasing)
    else if Throttled(interval, v, started) || !admitted then v
    else if openStarted < started || openStarted >= deadline || Throttled(interval, v, openStarted) then v
    else v.(stage := Acquiring(openStarted))
  }

  function OnAcquired(v: Provider, granted: bool): Provider
    requires v.stage.Acquiring?
  {
    if !granted then v.(stage := Idle)
    else
      v.(stage := Creating, leaseHeld := true, lastOpen := Some(v.stage.openStarted),
         opens := v.opens + [v.stage.openStarted])
  }

  function OnCreated(v: Provider, isBackend: bool): Provider
    requires v.stage.Creating?
  {
    if isBackend then v.(created := v.created + 1, stage := Using) else v.(stage := Releasing)
  }

  /** The backend has been used and `close` has returned: confirmed, or raised, or left a worker behind. */
  function OnClosed(v: Provider, confirmed: bool): Provider
    requires v.stage.Using?
  {
    if confirmed then v.(stage := Releasing, confirmed := v.confirmed + 1)
    else v.(stage := Idle, closeStuck := true, retained := true)
  }

  function OnReleased(v: Provider, released: bool): Provider
    requires v.stage.Releasing?
  {
    v.(stage := Idle, leaseHeld := !released)
  }

  datatype Event =
    | Capture(started: nat, admitted: bool, openStarted: nat, deadline: nat)
    | Acquired(granted: bool) | Created(isBackend: bool) | Closed(confirmed: bool) | Released(released: bool)

  predicate Enabled(v: Provider, e: Event) {
    match e
    case Capture(_, _, _, _) => v.stage.Idle?
    case Acquired(_) => v.stage.Acquiring?
    case Created(_) => v.stage.Creating?
    case Closed(_) => v.stage.Using?
    case Released(_) => v.stage.Releasing?
  }

  function Step(interval: nat, v: Provider, e: Event): Provider
    requires Enabled(v, e)
  {
    match e
    case Capture(started, admitted, openStarted, deadline) =>
      OnCapture(interval, v, started, admitted, openStarted, deadline)
    case Acquired(granted) => OnAcquired(v, granted)
    case Created(isBackend) => OnCreated(v, isBackend)
    case Closed(confirmed) => OnClosed(v, confirmed)
    case Released(released) => OnReleased(v, released)
  }

  function Run(interval: nat, v: Provider, events: seq<Event>): Provider
    decreases |events|
  {
    if events == [] then v
    else Run(interval, if Enabled(v, events[0]) then Step(interval, v, events[0]) else v, events[1..])
  }

  /** The lease is held wherever a backend may exist, and a backend that did not close is latched for good. */
  predicate Owning(v: Provider) {
    && (v.stage.Creating? || v.stage.Using? || v.stage.Releasing? ==> v.leaseHeld && !v.retained)
    && (v.stage.Acquiring? ==> !v.leaseHeld && !v.retained)
    && (v.retained ==> v.leaseHeld)
    && v.closeStuck == v.retained
    && v.created == v.confirmed + (if v.stage.Using? || v.retained then 1 else 0)
  }

  predicate Paced(interval: nat, v: Provider) {
    && v.lastOpen == (if v.opens == [] then None else Some(v.opens[|v.opens| - 1]))
    && (interval > 0 ==> Spaced(v.opens, interval))
    && (v.stage.Acquiring? ==> !Throttled(interval, v, v.stage.openStarted))
  }

  lemma StepKeeps(interval: nat, v: Provider, e: Event)
    requires Enabled(v, e) && Owning(v) && Paced(interval, v)
    ensures Owning(Step(interval, v, e)) && Paced(interval, Step(interval, v, e))
  {
    if e.Acquired? && e.granted && interval > 0 {
      var opens, next := v.opens, v.opens + [v.stage.openStarted];
      forall i, j | 0 <= i < j < |next| ensures next[i] + interval <= next[j] {
        if j == |opens| && i < |opens| - 1 {
          assert opens[i] + interval <= opens[|opens| - 1];
        }
      }
    }
  }

  /** Over every run any two opens start at least the interval apart, whatever the clock does, unless the
      interval is 0. */
  lemma {:induction false} OpensAreSpaced(interval: nat, v: Provider, events: seq<Event>)
    requires Owning(v) && Paced(interval, v) && interval > 0
    ensures Spaced(Run(interval, v, events).opens, interval)
    decreases |events|
  {
    if events != [] {
      var next := if Enabled(v, events[0]) then Step(interval, v, events[0]) else v;
      if Enabled(v, events[0]) { StepKeeps(interval, v, events[0]); }
      hide Step, Owning, Paced;
      OpensAreSpaced(interval, next, events[1..]);
    }
  }

  // ---- the provider's object ------------------------------------------------------

  /** What one call of `capture` meets; None for a clock reading that raises. */
  datatype CaptureWorld = CaptureWorld(
    started: Option<nat>, admitted: bool, openStarted: Option<nat>, granted: bool, isBackend: bool, use: R.Use,
    confirmed: bool, released: bool)

  datatype CaptureOutcome =
    | TimedOut | CaptureFailed | CaptureThrottled | CaptureDenied | LeaseBusy | CloseFailed | ReleaseFailed
    | Used(result: R.UseResult)

  /** The steps of one call, in order; those that do not apply are skipped. */
  function CaptureEvents(w: CaptureWorld, duration: nat): seq<Event> {
    var clocks := w.started.Some? && w.openStarted.Some?;
    [Capture(if w.started.Some? then w.started.value else 0, w.admitted && clocks,
       if w.openStarted.Some? then w.openStarted.value else 0,
       if w.started.Some? then Min(MAX_INT64, w.started.value + duration) else 0),
     Acquired(w.granted), Created(w.isBackend), Closed(w.confirmed), Released(w.released)]
  }

  /** One call as a run of the machine. */
  function Captured(interval: nat, v: Provider, w: CaptureWorld, duration: nat): Provider {
    Run(interval, v, CaptureEvents(w, duration))
  }

  function Then(interval: nat, v: Provider, e: Event): Provider { if Enabled(v, e) then Step(interval, v, e) else v }

  lemma RunTakes(interval: nat, v: Provider, es: seq<Event>)
    requires es != []
    ensures Run(interval, v, es) == Run(interval, Then(interval, v, es[0]), es[1..])
  {
    hide Step, Enabled;
  }

  lemma FiveSteps(interval: nat, v: Provider, es: seq<Event>)
    requires |es| == 5
    ensures Run(interval, v, es) ==
            Then(interval, Then(interval, Then(interval, Then(interval, Then(interval, v, es[0]), es[1]), es[2]), es[3]),
                 es[4])
  {
    var v1 := Then(interval, v, es[0]);
    var v2 := Then(interval, v1, es[1]);
    var v3 := Then(interval, v2, es[2]);
    var v4 := Then(interval, v3, es[3]);
    RunTakes(interval, v, es);
    RunTakes(interval, v1, es[1..]);
    RunTakes(interval, v2, es[2..]);
    RunTakes(interval, v3, es[3..]);
    RunTakes(interval, v4, es[4..]);
    hide Step, Enabled, Then;
    assert es[1..][1..] == es[2..] && es[2..][1..] == es[3..] && es[3..][1..] == es[4..] && es[4..][1..] == [];
  }

  /** The tests a capture makes before it creates a backend, in their order, and how each can fail. */
  datatype Test =
    | NotStuck | LeaseFree | StartReadable | SomeTime | NotTooSoon | Admission | OpenReadable | InTime | StillNotTooSoon
    | LeaseGranted

  const TESTS: seq<Test> := [
    NotStuck, LeaseFree, StartReadable, SomeTime, NotTooSoon, Admission, OpenReadable, InTime, StillNotTooSoon,
    LeaseGranted]

  predicate Fails(interval: nat, v: Provider, w: CaptureWorld, duration: nat, t: Test) {
    match t
    case NotStuck => v.closeStuck
    case LeaseFree => v.leaseHeld
    case StartReadable => w.started.None?
    case SomeTime => duration == 0
    case NotTooSoon => v.lastOpen.Some? && w.started.Some? && w.started.value < v.lastOpen.value + interval
                       && interval > 0
    case Admission => !w.admitted
    case OpenReadable => w.openStarted.None? || (w.started.Some? && w.openStarted.value < w.started.value)
    case InTime =>
      w.started.Some? && w.openStarted.Some? && w.openStarted.value >= Min(MAX_INT64, w.started.value + duration)
    case StillNotTooSoon => v.lastOpen.Some? && w.openStarted.Some? && w.openStarted.value < v.lastOpen.value + interval
                            && interval > 0
    case LeaseGranted => !w.granted
  }

  /** What a capture reports when the test is the first to fail. */
  function Refusal(t: Test): CaptureOutcome {
    match t
    case SomeTime => TimedOut
    case InTime => TimedOut
    case NotTooSoon => CaptureThrottled
    case StillNotTooSoon => CaptureThrottled
    case Admission => CaptureDenied
    case LeaseGranted => LeaseBusy
    case _ => CaptureFailed
  }

  /** The first n tests pass. */
  predicate PassesBefore(interval: nat, v: Provider, w: CaptureWorld, duration: nat, n: nat)
    requires n <= |TESTS|
  {
    forall j :: 0 <= j < n ==> !Fails(interval, v, w, duration, TESTS[j])
  }

  predicate FirstFailure(interval: nat, v: Provider, w: CaptureWorld, duration: nat, i: nat)
    requires i < |TESTS|
  {
    PassesBefore(interval, v, w, duration, i) && Fails(interval, v, w, duration, TESTS[i])
  }

  /** There is one first failure. */
  lemma FirstFailureIsUnique(interval: nat, v: Provider, w: CaptureWorld, duration: nat, k: nat)
    requires k < |TESTS| && FirstFailure(interval, v, w, duration, k)
    ensures !PassesBefore(interval, v, w, duration, |TESTS|)
    ensures forall i: nat :: i < |TESTS| && FirstFailure(interval, v, w, duration, i) ==> i == k
  {
    hide Fails;
  }

  lemma NoFailure(interval: nat, v: Provider, w: CaptureWorld, duration: nat)
    requires PassesBefore(interval, v, w, duration, |TESTS|)
    ensures forall i: nat :: i < |TESTS| ==> !FirstFailure(interval, v, w, duration, i)
  {
    hide Fails;
  }

  /** A refused capture only gives back a lease an earlier one could not. */
  lemma RefusedStays(interval: nat, v: Provider, w: CaptureWorld, duration: nat, t: Test)
    requires v.stage.Idle? && Owning(v) && Fails(interval, v, w, duration, t)
    ensures Captured(interval, v, w, duration) == v.(leaseHeld := v.leaseHeld && (v.closeStuck || !w.released))
  {
    FiveSteps(interval, v, CaptureEvents(w, duration));
    hide Run;
  }

  lemma PassedRuns(interval: nat, v: Provider, w: CaptureWorld, duration: nat)
    requires v.stage.Idle? && Owning(v) && PassesBefore(interval, v, w, duration, |TESTS|)
    ensures w.openStarted.Some? && !v.leaseHeld && !v.closeStuck && !v.retained
    ensures
      var closed := w.isBackend && w.confirmed;
      var stuck := w.isBackend && !w.confirmed;
      Captured(interval, v, w, duration) ==
        v.(leaseHeld := stuck || !w.released, closeStuck := stuck, retained := stuck, lastOpen := w.openStarted,
           opens := v.opens + [w.openStarted.value], created := v.created + (if w.isBackend then 1 else 0),
           confirmed := v.confirmed + (if closed then 1 else 0))
  {
    AllTestsPass(interval, v, w, duration);
    FiveSteps(interval, v, CaptureEvents(w, duration));
    hide Run, PassesBefore;
  }

  lemma AllTestsPass(interval: nat, v: Provider, w: CaptureWorld, duration: nat)
    requires PassesBefore(interval, v, w, duration, |TESTS|)
    ensures
      && !Fails(interval, v, w, duration, NotStuck) && !Fails(interval, v, w, duration, LeaseFree)
      && !Fails(interval, v, w, duration, StartReadable) && !Fails(interval, v, w, duration, SomeTime)
      && !Fails(interval, v, w, duration, NotTooSoon) && !Fails(interval, v, w, duration, Admission)
      && !Fails(interval, v, w, duration, OpenReadable) && !Fails(interval, v, w, duration, InTime)
      && !Fails(interval, v, w, duration, StillNotTooSoon) && !Fails(interval, v, w, duration, LeaseGranted)
  {
    assert forall j :: 0 <= j < |TESTS| ==> !Fails(interval, v, w, duration, TESTS[j]);
    hide Fails;
    assert TESTS[0] == NotStuck && TESTS[1] == LeaseFree && TESTS[2] == StartReadable && TESTS[3] == SomeTime;
    assert TESTS[4] == NotTooSoon && TESTS[5] == Admission && TESTS[6] == OpenReadable && TESTS[7] == InTime;
    assert TESTS[8] == StillNotTooSoon && TESTS[9] == LeaseGranted;
  }

  class CameraSnapshotProvider {
    const interval: nat
    const warmupFrames: nat
    const maxAttempts: nat
    var leaseHeld: bool
    var closeStuck: bool
    var retained: bool
    var lastOpen: Option<nat>
    ghost var opens: seq<nat>
    ghost var created: nat
    ghost var confirmed: nat

    /** The provider between two captures. */
    ghost function State(): Provider
      reads this
    {
      Provider(Idle, leaseHeld, closeStuck, retained, lastOpen, opens, created, confirmed)
    }

    constructor (minimumInterval: nat, warmup: nat, attempts: nat)
      ensures interval == minimumInterval && warmupFrames == warmup && maxAttempts == attempts
      ensures State() == NEW_PROVIDER
    {
      interval, warmupFrames, maxAttempts := minimumInterval, warmup, attempts;
      leaseHeld, closeStuck, retained, lastOpen := false, false, false, None;
      opens, created, confirmed := [], 0, 0;
    }

    predicate OpenIsThrottled(now: nat)
      reads this
      ensures OpenIsThrottled(now) == Throttled(interval, State(), now)
    {
      if lastOpen.None? || interval == 0 then false
      else if now < lastOpen.value then true
      else now - lastOpen.value < interval
    }

    /** The tests of a capture, in their order; None when all of them pass. (The second look at the interval comes
        later than the first, which passed, so it never refuses.) */
    method RunTests(w: CaptureWorld, duration: nat) returns (refusal: Option<CaptureOutcome>, ghost failed: int)
      ensures refusal.None? ==> PassesBefore(interval, State(), w, duration, |TESTS|)
      ensures refusal.Some? ==> 0 <= failed < |TESTS| && FirstFailure(interval, State(), w, duration, failed)
      ensures refusal.Some? ==> refusal.value == Refusal(TESTS[failed])
    {
      if closeStuck {
        return Some(CaptureFailed), 0;
      }
      if leaseHeld {
        return Some(CaptureFailed), 1;
      }
      if w.started.None? {
        return Some(CaptureFailed), 2;
      }
      var started := w.started.value;
      if duration == 0 {
        return Some(TimedOut), 3;
      }
      var deadline := Min(MAX_INT64, started + duration);
      if OpenIsThrottled(started) {
        return Some(CaptureThrottled), 4;
      }
      if !w.admitted {
        return Some(CaptureDenied), 5;
      }
      if w.openStarted.None? || w.openStarted.value < started {
        return Some(CaptureFailed), 6;
      }
      var openStarted := w.openStarted.value;
      if openStarted >= deadline {
        return Some(TimedOut), 7;
      }
      if OpenIsThrottled(openStarted) {
        return Some(CaptureThrottled), 8;
      }
      if !w.granted {
        return Some(LeaseBusy), 9;
      }
      return None, 0;
    }

    /** The call inside the operation lock. The first test that fails decides the refusal; when none fails, a backend
        is created, used, closed and the lease given back, as far as that goes. */
    method Capture(w: CaptureWorld, duration: nat) returns (outcome: CaptureOutcome)
      requires Owning(State()) && maxAttempts > 0 && |w.use.answers| == warmupFrames + maxAttempts
      modifies this
      ensures State() == Captured(interval, old(State()), w, duration) && Owning(State())
      ensures old(closeStuck) ==> outcome.CaptureFailed? && State() == old(State())
      ensures forall i: nat :: i < |TESTS| && FirstFailure(interval, old(State()), w, duration, i) ==>
                outcome == Refusal(TESTS[i]) && created == old(created)
      ensures PassesBefore(interval, old(State()), w, duration, |TESTS|) ==>
                if !w.isBackend then outcome == (if w.released then CaptureFailed else ReleaseFailed)
                else if !w.confirmed then outcome.CloseFailed?
                else if !w.released then outcome.ReleaseFailed?
                else outcome.Used?
      ensures outcome.Used? ==> !leaseHeld && created == old(created) + 1 && confirmed == old(confirmed) + 1
      ensures outcome.Used? && outcome.result.Delivered? ==>
                w.use.encodes && R.TakesFrame(warmupFrames, maxAttempts, w.use.answers, outcome.result.sequence)
      ensures created == old(created) + 1 && w.confirmed && w.released ==>
                outcome.Used? && (outcome.result.Delivered? <==> R.Delivers(warmupFrames, maxAttempts, w.use))
    {
      ghost var v := State();
      var refusal, failed := RunTests(w, duration);
      if refusal.Some? {
        FirstFailureIsUnique(interval, v, w, duration, failed);
        assert closeStuck ==> FirstFailure(interval, v, w, duration, 0);
        RefusedStays(interval, v, w, duration, TESTS[failed]);
        hide Captured, Fails, PassesBefore, FirstFailure;
        if leaseHeld && !closeStuck {
          var raised := ReleaseLease(w.released);
        }
        return refusal.value;
      }
      PassedRuns(interval, v, w, duration);
      hide Captured, Fails, PassesBefore;
      assert forall i: nat :: i < |TESTS| ==> !FirstFailure(interval, v, w, duration, i) by {
        NoFailure(interval, v, w, duration);
      }
      hide FirstFailure;
      outcome := CreateUseAndClose(w);
    }

    /** From the acquired lease on: create, use and close the backend, and give the lease back. */
    method CreateUseAndClose(w: CaptureWorld) returns (outcome: CaptureOutcome)
      requires !leaseHeld && !closeStuck && !retained && w.openStarted.Some?
      requires maxAttempts > 0 && |w.use.answers| == warmupFrames + maxAttempts
      modifies this
      ensures lastOpen == w.openStarted && opens == old(opens) + [w.openStarted.value]
      ensures created == old(created) + (if w.isBackend then 1 else 0)
      ensures confirmed == old(confirmed) + (if w.isBackend && w.confirmed then 1 else 0)
      ensures closeStuck == retained == (w.isBackend && !w.confirmed)
      ensures leaseHeld == (closeStuck || !w.released)
      ensures if !w.isBackend then outcome == (if w.released then CaptureFailed else ReleaseFailed)
              else if !w.confirmed then outcome.CloseFailed?
              else if !w.released then outcome.ReleaseFailed?
              else outcome.Used?
      ensures outcome.Used? && outcome.result.Delivered? ==>
                w.use.encodes && R.TakesFrame(warmupFrames, maxAttempts, w.use.answers, outcome.result.sequence)
      ensures outcome.Used? ==> (outcome.result.Delivered? <==> R.Delivers(warmupFrames, maxAttempts, w.use))
    {
      leaseHeld, lastOpen := true, w.openStarted;
      opens := opens + [w.openStarted.value];
      if !w.isBackend {
        var raised := ReleaseLease(w.released);
        return if raised then ReleaseFailed else CaptureFailed;
      }
      created := created + 1;
      var result := R.UseBackend(warmupFrames, maxAttempts, w.use);
      if !w.confirmed {
        retained, closeStuck := true, true;
        return CloseFailed;
      }
      confirmed := confirmed + 1;
      var raised := ReleaseLease(w.released);
      outcome := if raised then ReleaseFailed else Used(result);
    }

    method ReleaseLease(released: bool) returns (raised: bool)
      requires leaseHeld
      modifies this`leaseHeld
      ensures leaseHeld == !released && raised == !released
    {
      if released {
        leaseHeld := false;
      }
      raised := !released;
    }
  }
}
