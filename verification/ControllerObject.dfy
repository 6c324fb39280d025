/** The controller's object: each method is one stretch of its worker between two external calls, or one region of a
    stop caller, proved to make the machine's step. */
module ControllerObject {
  import opened CameraPolicy
  import opened Common
  import opened ControllerMachine
  import D = ControllerDecisions

  class CameraController {
    const policy: Policy
    var state: CameraState
    var stopRequested: bool
    var leaseHeld: bool
    var retained: bool
    // Locals of the worker: its place, retry bookkeeping and the open stream.
    var place: Place
    var failedAttempts: nat
    var nextEpoch: nat
    var lastOpen: Option<nat>
    var stream: Stream
    ghost var history: History
    // Stop callers between their last test of the worker and the write that follows it.
    ghost var overdue: nat

    ghost function State(): Controller
      reads this
    {
      Controller(place, state, stopRequested, overdue, leaseHeld, retained, failedAttempts, nextEpoch, lastOpen, stream,
                 history)
    }

    constructor (p: Policy)
      ensures policy == p && State() == NEW_CONTROLLER
    {
      policy, state, place := p, Closed, Unborn;
      stopRequested, leaseHeld, retained := false, false, false;
      failedAttempts, nextEpoch, lastOpen, stream := 0, 0, None, Stream(0, 0, 0, 0, 0);
      history, overdue := History(0, 0, 0, 0, [], [], 0, true, Heard(0, None), []), 0;
    }

    /** `stop` up to its join: the answer, or None when it goes on to join the worker. */
    method BeginStop() returns (done: Option<bool>)
      modifies this`stopRequested, this`state
      ensures
        var asked := OnStopRequested(old(State()));
        State() == if WorkerAlive(place) then OnStopMarks(asked) else asked
      ensures done == Some(true) <==> place.Unborn?
      ensures done == Some(false) <==> old(state).Stuck? && WorkerAlive(place)
    {
      stopRequested := true;
      if place.Unborn? {
        return Some(true);
      }
      var alive := !place.Gone?;
      if state == Stuck && alive {
        return Some(false);
      }
      if alive && state != CameraState.Failed && state != Stuck {
        state := Stopping;
      }
      done := None;
    }

    /** `stop` after its join, up to its answer if the worker has ended. */
    method TestAfterJoin() returns (alive: bool)
      requires stopRequested && !place.Unborn?
      modifies this`overdue
      ensures alive <==> WorkerAlive(place)
      ensures State() == if alive then OnStopOverdue(old(State())) else old(State())
    {
      alive := !place.Gone?;
      if alive { overdue := overdue + 1; }
    }

    /** The last region of a `stop` that found the worker alive, which may have ended meanwhile. */
    method ExpireStop()
      requires overdue > 0
      modifies this`state, this`overdue
      ensures State() == OnStopExpires(old(State()))
    {
      state := Stuck;
      overdue := overdue - 1;
    }

    /** `_set_state`: STUCK refuses every other state. */
    method SetState(next: CameraState)
      modifies this`state
      ensures State() == old(State()).(state := if old(state).Stuck? then Stuck else next)
    {
      if state == Stuck && next != Stuck {
        return;
      }
      state := next;
    }

    /** `_create_backend` and the tests after it. */
    method FactoryReturned(outcome: FactoryOutcome)
      requires place.AtCreate?
      modifies this`state, this`place, this`failedAttempts, this`history
      ensures State() == OnFactory(old(State()), outcome)
    {
      history := history.(factoryCalls := history.factoryCalls + 1);
      match outcome
      case FactoryRaises =>
        if stopRequested {
          place := AtLeave;
        } else {
          failedAttempts := failedAttempts + 1;
          place := AtRetry;
        }
      case NotABackend =>
        SetState(CameraState.Failed);
        place := AtLeave;
      case UnsafeBackend =>
        history := history.(created := history.created + 1);
        SetState(CameraState.Failed);
        place := AtClose(ToLeave);
      case ReadyBackend =>
        history := history.(created := history.created + 1);
        place := if stopRequested then AtClose(ToLeave) else AtOpen;
    }

    /** What follows a backend's `open`. */
    method OpenReturned(outcome: OpenOutcome, now: nat)
      requires place.InOpen?
      modifies this`state, this`place, this`nextEpoch, this`stream, this`history
      ensures State() == OnOpenReturns(policy, old(State()), outcome, now)
    {
      var started := place.started;
      var deadline := Min(started + policy.openTimeout, MAX_INT64);
      history := Tick(history, now);
      if now < started {
        SetState(CameraState.Failed);
        place := AtClose(ToLeave);
        return;
      }
      if now > deadline && !outcome.OpenDeadlineExceeded? {
        SetState(Stuck);
        place := AtClose(ToLeave);
        return;
      }
      if !outcome.Opened? {
        place := AtClose(ToRetry);
        return;
      }
      if !outcome.streamValid {
        SetState(CameraState.Failed);
        place := AtClose(ToLeave);
        return;
      }
      var epoch := nextEpoch;
      nextEpoch := nextEpoch + 1;
      stream := Stream(epoch, policy.warmupFrames, 0, now, now);
      history := history.(heard := Heard(0, None));
      SetState(if policy.warmupFrames > 0 then Warming else Streaming);
      place := AtRead;
    }

    /** The handling of a read's result, once the stop event has been tested. */
    method HandleRead()
      requires place.AtHandle?
      modifies this`state, this`place, this`stream
      ensures State() == OnHandle(policy, old(State())) && D.HandlesRead(policy, old(State()), State())
    {
      D.HandleDecides(policy, State());
      hide D.HandlesRead;
      var result, now, deadline := place.outcome, place.finished, place.deadline;
      var stable := now - stream.openedAt >= policy.stableResetAfter;
      if result.ReadFrame? {
        if !result.matches {
          place := AtClose(FromStream(EndFatal, stable));
          return;
        }
        stream := stream.(progressAt := now);
        if stream.warmupRemaining > 0 {
          stream := stream.(warmupRemaining := stream.warmupRemaining - 1);
          if stream.warmupRemaining == 0 {
            SetState(Streaming);
          }
          place := AtRead;
          return;
        }
        place := AtOffer(stable);
      } else if result.ReadTimeout? {
        SetState(Degraded);
        place := AtPause(now, deadline > now);
      } else if result.ReadDisconnected? || result.ReadRecoverable? {
        SetState(Degraded);
        place := AtClose(FromStream(EndRetry, stable));
      } else {
        place := AtClose(FromStream(EndFatal, stable));
      }
    }

    /** `_offer_frame` and its caller's bookkeeping. */
    method FrameOffered(slotClosed: bool)
      requires place.AtOffer?
      modifies this`state, this`place, this`stopRequested, this`stream, this`history
      ensures State() == OnOffer(old(State()), slotClosed)
    {
      var stable := place.stable;
      if stream.sequence > MAX_INT64 {
        place := AtClose(FromStream(EndFatal, stable));
        return;
      }
      if slotClosed {
        stopRequested := true;
        place := AtClose(FromStream(EndSlotClosed, stable));
        return;
      }
      history := history.(
        offered := history.offered + [Offered(stream.epoch, stream.sequence, history.heard)]);
      stream := stream.(sequence := stream.sequence + 1);
      SetState(Streaming);
      place := AtRead;
    }

    /** `_close_or_retain_backend` and the branch its caller takes. */
    method BackendClosed(outcome: CloseOutcome)
      requires place.AtClose?
      modifies this`state, this`place, this`retained, this`failedAttempts, this`history
      ensures State() == OnClose(old(State()), outcome)
    {
      hide AfterStream;
      if outcome.CloseRaises? || outcome.CloseOverruns? {
        SetState(if outcome.CloseRaises? then CameraState.Failed else Stuck);
        retained := true;
        place := AtLeave;
        return;
      }
      history := history.(confirmed := history.confirmed + 1);
      match place.next
      case ToLeave => place := AtLeave;
      case ToRetry =>
        failedAttempts := failedAttempts + 1;
        place := AtRetry;
      case FromStream(end, stable) => AfterReading(end, stable);
    }

    method AfterReading(end: StreamEnd, stable: bool)
      modifies this`state, this`place, this`failedAttempts, this`history
      ensures State() == AfterStream(old(State()), end, stable)
    {
      if end.EndStopped? || end.EndSlotClosed? {
        place := AtLeave;
        return;
      }
      if end.EndStuck? {
        SetState(Stuck);
        place := AtLeave;
        return;
      }
      if end.EndFatal? {
        SetState(CameraState.Failed);
        place := AtLeave;
        return;
      }
      if stable {
        failedAttempts := 0;
        history := history.(stableStreams := history.stableStreams + 1);
      }
      failedAttempts := failedAttempts + 1;
      place := AtRetry;
    }

    /** `_release_lease_if_safe`. */
    method ReleaseLeaseIfSafe(released: bool) returns (ok: bool)
      modifies this`state, this`leaseHeld
      ensures ok == (old(leaseHeld) && !old(retained) && released)
      ensures leaseHeld == (old(leaseHeld) && !ok)
      ensures state == if old(leaseHeld) && !old(retained) && !released then Stuck else old(state)
    {
      if !leaseHeld || retained {
        return false;
      }
      if !released {
        SetState(Stuck);
        return false;
      }
      leaseHeld := false;
      ok := true;
    }

    /** `_schedule_retry` up to its wait; `released` answers the release it may have to make. */
    method ScheduleRetry(now: nat, released: bool) returns (waits: bool)
      requires place.AtRetry?
      modifies this`state, this`place, this`leaseHeld, this`history
      ensures
        var c := OnRetry(policy, old(State()), now);
        State() == if c.place.AtGiveUp? then OnGiveUp(c, released) else c
      ensures waits == place.AtCooldown?
    {
      hide CameraPolicy.Cooldown, CooldownDomain, RetryDelay;
      if failedAttempts > policy.maxReopenAttempts {
        var ok := ReleaseLeaseIfSafe(released);
        SetState(CameraState.Failed);
        place := AtLeave;
        return false;
      }
      if !CooldownDomain(failedAttempts) {
        SetState(CameraState.Failed);
        place := AtLeave;
        return false;
      }
      StartCooldown(now);
      waits := true;
    }

    /** The delay before the next turn of the loop. */
    method StartCooldown(now: nat)
      requires place.AtRetry? && failedAttempts <= policy.maxReopenAttempts && CooldownDomain(failedAttempts)
      modifies this`state, this`place, this`history
      ensures State() == OnRetry(policy, old(State()), now) && place.AtCooldown?
    {
      hide CameraPolicy.Cooldown, CooldownDomain;
      var delay := CameraPolicy.Cooldown(policy, failedAttempts);
      if lastOpen.Some? {
        var elapsed := Max(0, now - lastOpen.value);
        delay := Max(delay, Max(0, policy.minimumReopenInterval - elapsed));
        history := Sleep(Tick(history, now), now + delay);
      }
      history := history.(delays := history.delays + [delay]);
      SetState(CameraState.Cooldown);
      place := AtCooldown;
    }

    method FinishRun()
      requires place.AtFinish?
      modifies this`state, this`place
      ensures State() == OnFinish(old(State()))
    {
      if state != CameraState.Failed && state != Stuck {
        state := Closed;
      }
      place := Dying;
    }
  }
}
