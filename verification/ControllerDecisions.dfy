/** Which way the controller goes after a read, an open or a failure, and that a camera that works is read. */
module ControllerDecisions {
  import opened CameraPolicy
  import opened Common
  import opened ControllerMachine

  // ---- one step, by what the backend answered ---------------------------------------------

  /** STUCK stays; any other state becomes the one written. */
  function Shown(was: CameraState, next: CameraState): CameraState { if was.Stuck? then Stuck else next }

  /** What the worker does with the result of a read, by the result alone. */
  ghost predicate HandlesRead(p: Policy, c: Controller, d: Controller)
    requires c.place.AtHandle?
  {
    var now, stable := c.place.finished, c.place.finished >= c.stream.openedAt + p.stableResetAfter;
    var left := c.stream.warmupRemaining;
    match c.place.outcome
    case ReadFrame(true) =>
      if left > 0 then
        d == c.(place := AtRead, stream := c.stream.(progressAt := now, warmupRemaining := left - 1),
                state := if left == 1 then Shown(c.state, Streaming) else c.state)
      else d == c.(place := AtOffer(stable), stream := c.stream.(progressAt := now))
    case ReadFrame(false) => d == c.(place := AtClose(FromStream(EndFatal, stable)))
    case ReadTimeout(_) =>
      d == c.(place := AtPause(now, now < c.place.deadline), state := Shown(c.state, Degraded))
    case ReadDisconnected =>
      d == c.(place := AtClose(FromStream(EndRetry, stable)), state := Shown(c.state, Degraded))
    case ReadRecoverable =>
      d == c.(place := AtClose(FromStream(EndRetry, stable)), state := Shown(c.state, Degraded))
    case ReadFatal => d == c.(place := AtClose(FromStream(EndFatal, stable)))
    case ReadInvalid => d == c.(place := AtClose(FromStream(EndFatal, stable)))
    case ReadRaises => d == c.(place := AtClose(FromStream(EndFatal, stable)))
  }

  lemma HandleDecides(p: Policy, c: Controller)
    requires c.place.AtHandle?
    ensures HandlesRead(p, c, OnHandle(p, c))
  {
  }

  /** A read is handled if and only if it did not raise, the clock did not go back, it kept its deadline or said that it
      had not, and no stop was requested meanwhile. */
  lemma ReadIsHandled(p: Policy, c: Controller, outcome: ReadOutcome, now: nat)
    requires c.place.InRead? && c.place.started <= MAX_INT64
    ensures
      var d, started := OnReadReturns(p, c, outcome, now), c.place.started;
      var late := now > MAX_INT64 || now > started + p.readTimeout;
      && (d.place.AtHandle? <==>
            !outcome.ReadRaises? && started <= now && (!late || outcome == ReadTimeout(true)) && !c.stopRequested)
      && (d.place.AtHandle? ==> d.place.outcome == outcome && d.place.finished == now && d.state == c.state)
      && (d.place == AtClose(FromStream(EndRetry, now >= c.stream.openedAt + p.stableResetAfter)) <==>
            outcome.ReadRaises?)
      && (d.place == AtClose(FromStream(EndFatal, false)) <==> !outcome.ReadRaises? && now < started)
      && (d.place == AtClose(FromStream(EndStuck, false)) <==>
            !outcome.ReadRaises? && started <= now && late && outcome != ReadTimeout(true))
      && (d.place == AtClose(FromStream(EndStopped, now >= c.stream.openedAt + p.stableResetAfter)) <==>
            && !outcome.ReadRaises? && started <= now && (!late || outcome == ReadTimeout(true))
            && c.stopRequested)
      && d.state == if d.place == AtClose(FromStream(EndStuck, false)) then Stuck else c.state
  {
  }

  /** A stream begins if and only if the backend opened with a valid one, the clock did not go back, and it kept its
      deadline; a failed open in time is tried again, and one that is late without saying so is STUCK. */
  lemma OpenDecides(p: Policy, c: Controller, outcome: OpenOutcome, now: nat)
    requires c.place.InOpen? && c.place.started <= MAX_INT64
    ensures
      var d, started := OnOpenReturns(p, c, outcome, now), c.place.started;
      var late := now > MAX_INT64 || now > started + p.openTimeout;
      && (d.place.AtRead? <==> outcome == Opened(true) && started <= now && !late)
      && (d.place == AtClose(ToRetry) <==>
            started <= now && (outcome.OpenDeadlineExceeded? || (outcome.OpenRaises? && !late)))
      && (d.state.Stuck? && !c.state.Stuck? <==>
            !c.state.Stuck? && started <= now && late && !outcome.OpenDeadlineExceeded?)
      && (d.place.AtRead? ==>
            && d.stream == Stream(c.nextEpoch, p.warmupFrames, 0, now, now) && d.nextEpoch == c.nextEpoch + 1
            && d.state == Shown(c.state, if p.warmupFrames == 0 then Streaming else Warming))
      && (!d.place.AtRead? && d.place != AtClose(ToRetry) ==> d.place == AtClose(ToLeave))
  {
  }

  /** What a factory gave: a safe backend is opened unless a stop was requested, anything created is closed first, and a
      factory that raises counts as a failure unless a stop was requested. */
  lemma FactoryDecides(c: Controller, outcome: FactoryOutcome)
    requires c.place.AtCreate?
    ensures
      var d := OnFactory(c, outcome);
      && (d.place.AtOpen? <==> outcome.ReadyBackend? && !c.stopRequested)
      && (d.place == AtClose(ToLeave) <==> outcome.UnsafeBackend? || (outcome.ReadyBackend? && c.stopRequested))
      && (d.place.AtRetry? <==> outcome.FactoryRaises? && !c.stopRequested)
      && (d.place.AtLeave? <==> outcome.NotABackend? || (outcome.FactoryRaises? && c.stopRequested))
      && d.failedAttempts == c.failedAttempts + (if d.place.AtRetry? then 1 else 0)
      && d.state == (if outcome.NotABackend? || outcome.UnsafeBackend? then Shown(c.state, CameraState.Failed)
                     else c.state)
      && d.history.factoryCalls == c.history.factoryCalls + 1
      && d.history.created == c.history.created + if outcome.UnsafeBackend? || outcome.ReadyBackend? then 1 else 0
  {
  }

  /** A stop ends the wait after a timed-out read, if there is one. */
  lemma PauseDecides(p: Policy, c: Controller)
    requires c.place.AtPause?
    ensures
      var stable := c.place.finished >= c.stream.openedAt + p.stableResetAfter;
      OnPauseEnds(p, c) ==
        if c.place.waits && c.stopRequested then c.(place := AtClose(FromStream(EndStopped, stable)))
        else c.(place := AtResume)
  {
  }

  /** An open slot takes the frame under the stream's number; a closed one makes the controller stop. */
  lemma OfferDecides(c: Controller, slotClosed: bool)
    requires c.place.AtOffer? && c.stream.sequence <= MAX_INT64
    ensures
      var d := OnOffer(c, slotClosed);
      if slotClosed then d == c.(place := AtClose(FromStream(EndSlotClosed, c.place.stable)), stopRequested := true)
      else
        && d.place.AtRead? && d.stream == c.stream.(sequence := c.stream.sequence + 1)
        && d.state == Shown(c.state, Streaming)
        && d.history.offered == c.history.offered + [Offered(c.stream.epoch, c.stream.sequence, c.history.heard)]
  {
  }

  /** The lease is given back exactly when releasing it does not raise, and kept by a STUCK controller otherwise. */
  lemma ReleaseDecides(c: Controller, released: bool)
    ensures
      c.place.AtRelease? ==>
        OnRelease(c, released) ==
          c.(place := AtFinish, leaseHeld := c.leaseHeld && !released, state := if released then c.state else Stuck)
    ensures
      c.place.AtGiveUp? ==>
        OnGiveUp(c, released) ==
          c.(place := AtLeave, leaseHeld := c.leaseHeld && !released,
             state := if released then Shown(c.state, CameraState.Failed) else Stuck)
  {
  }

  /** After a timed-out read, a stream is given up if and only if no frame has come for the stale time. */
  lemma ResumeDecides(p: Policy, c: Controller, now: nat)
    requires c.place.AtResume?
    ensures
      var d := OnResume(p, c, now);
      && (d.place.AtRead? <==> now < c.stream.progressAt + p.staleAfter)
      && (d.place.AtRead? ==>
            d.stream == c.stream && d.state == Shown(c.state, if c.stream.warmupRemaining > 0 then Warming else Streaming))
      && (!d.place.AtRead? ==>
            d.place == AtClose(FromStream(EndRetry, now >= c.stream.openedAt + p.stableResetAfter)))
  {
  }

  /** A failed attempt is tried again if and only if the policy's attempts are not used up. */
  lemma RetryDecides(p: Policy, c: Controller, now: nat)
    requires ValidPolicy(p) && c.place.AtRetry? && c.failedAttempts >= 1
    ensures
      var d := OnRetry(p, c, now);
      && (d.place.AtCooldown? <==> c.failedAttempts <= p.maxReopenAttempts)
      && (d.place.AtCooldown? ==>
            && d.history.delays == c.history.delays + [RetryDelay(p, c.failedAttempts, c.lastOpen, now)]
            && d.state == Shown(c.state, Cooldown))
      && (d.place.AtGiveUp? <==> c.failedAttempts > p.maxReopenAttempts && c.leaseHeld && !c.retained)
      && (!d.place.AtCooldown? && !d.place.AtGiveUp? ==>
            d.place.AtLeave? && d.state == Shown(c.state, CameraState.Failed))
  {
    hide RetryDelay;
  }

  /** What follows a confirmed close: a retry after every failed open and every stream that ended for one, counted from
      one after a stable stream; an end of the worker otherwise. */
  lemma CloseDecides(c: Controller)
    requires c.place.AtClose?
    ensures
      var d, next := OnClose(c, CloseDone), c.place.next;
      var again := next.ToRetry? || (next.FromStream? && next.end.EndRetry?);
      && (d.place.AtRetry? <==> again) && (d.place.AtLeave? <==> !again)
      && (again ==>
            d.failedAttempts == if next.FromStream? && next.stable then 1 else c.failedAttempts + 1)
      && (d.state.Failed? && !c.state.Failed? <==>
            next.FromStream? && next.end.EndFatal? && !c.state.Failed? && !c.state.Stuck?)
      && !d.retained == !c.retained && d.leaseHeld == c.leaseHeld
  {
  }

  // ---- a camera that works is read ----------------------------------------------------------------

  /** A read of a frame, from its start to its end. */
  datatype Reading = Reading(starts: nat, ends: nat)

  /** It keeps its deadline. */
  predicate Timely(p: Policy, r: Reading) { r.starts <= r.ends <= r.starts + p.readTimeout && r.ends <= MAX_INT64 }

  /** The events of reading one frame of the negotiated shape, and of offering it if the warm-up is over. */
  function FrameEvents(r: Reading, offers: bool): seq<Event> {
    [ReadStarts(r.starts), ReadReturns(ReadFrame(true), r.ends), Handle] + if offers then [Offer(false)] else []
  }

  /** The same for a sequence of frames, the first of which only warm the camera up. */
  function ReadingEvents(rs: seq<Reading>, warmup: nat): seq<Event>
    decreases |rs|
  {
    if rs == [] then [] else FrameEvents(rs[0], warmup == 0) + ReadingEvents(rs[1..], if warmup == 0 then 0 else warmup - 1)
  }

  function Then(p: Policy, c: Controller, e: Event): Controller { if Enabled(c, e) then Step(p, c, e) else c }

  lemma RunTakes(p: Policy, c: Controller, e: Event, more: seq<Event>)
    ensures Run(p, c, [e] + more) == Run(p, Then(p, c, e), more)
  {
    hide Step, Enabled;
    assert ([e] + more)[0] == e && ([e] + more)[1..] == more;
  }

  lemma {:induction false} RunJoins(p: Policy, c: Controller, a: seq<Event>, b: seq<Event>)
    ensures Run(p, c, a + b) == Run(p, Run(p, c, a), b)
    decreases |a|
  {
    hide Step, Enabled;
    if a == [] {
      assert a + b == b;
    } else {
      assert (a + b)[0] == a[0] && (a + b)[1..] == a[1..] + b;
      RunJoins(p, if Enabled(c, a[0]) then Step(p, c, a[0]) else c, a[1..], b);
    }
  }

  /** Ready to read, with no stop in the way. */
  predicate Ready(c: Controller) { c.place.AtRead? && !c.stopRequested }

  /** One frame read in time either takes the warm-up one further or is offered. */
  ghost predicate TakesFrame(c: Controller, d: Controller) {
    && Ready(d) && d.stream.epoch == c.stream.epoch
    && if c.stream.warmupRemaining > 0 then
         && d.stream.warmupRemaining == c.stream.warmupRemaining - 1 && d.stream.sequence == c.stream.sequence
         && d.history.offered == c.history.offered
       else
         && d.stream.warmupRemaining == 0 && d.stream.sequence == c.stream.sequence + 1
         && |d.history.offered| == |c.history.offered| + 1 && c.history.offered <= d.history.offered
         && d.history.offered[|c.history.offered|].epoch == c.stream.epoch
         && d.history.offered[|c.history.offered|].sequence == c.stream.sequence
  }

  lemma FrameRun(p: Policy, c: Controller, r: Reading, offers: bool)
    ensures
      var handled := Then(p, Then(p, Then(p, c, ReadStarts(r.starts)), ReadReturns(ReadFrame(true), r.ends)), Handle);
      Run(p, c, FrameEvents(r, offers)) == if offers then Then(p, handled, Offer(false)) else handled
  {
    var rest := if offers then [Offer(false)] + [] else [];
    assert FrameEvents(r, offers) == [ReadStarts(r.starts)] + ([ReadReturns(ReadFrame(true), r.ends)] + ([Handle] + rest));
    var started := Then(p, c, ReadStarts(r.starts));
    var returned := Then(p, started, ReadReturns(ReadFrame(true), r.ends));
    RunTakes(p, c, ReadStarts(r.starts), [ReadReturns(ReadFrame(true), r.ends)] + ([Handle] + rest));
    RunTakes(p, started, ReadReturns(ReadFrame(true), r.ends), [Handle] + rest);
    RunTakes(p, returned, Handle, rest);
    RunTakes(p, Then(p, returned, Handle), Offer(false), []);
    hide Then, Step, Enabled, FrameEvents;
  }

  lemma FrameIsTaken(p: Policy, c: Controller, r: Reading)
    requires Ready(c) && Timely(p, r) && c.stream.sequence <= MAX_INT64
    ensures TakesFrame(c, Run(p, c, FrameEvents(r, c.stream.warmupRemaining == 0)))
  {
    FrameRun(p, c, r, c.stream.warmupRemaining == 0);
    ReadingReturns(p, c, r);
    hide Run, FrameEvents, Timely;
    var returned := Then(p, Then(p, c, ReadStarts(r.starts)), ReadReturns(ReadFrame(true), r.ends));
    HandlingTakes(p, returned);
    hide Then, Step, Enabled;
  }

  lemma HandlingTakes(p: Policy, c: Controller)
    requires c.place.AtHandle? && c.place.outcome == ReadFrame(true) && !c.stopRequested
    requires c.stream.sequence <= MAX_INT64
    ensures
      var handled := Then(p, c, Handle);
      TakesFrame(c, if c.stream.warmupRemaining == 0 then Then(p, handled, Offer(false)) else handled)
  {
    HandleDecides(p, c);
    assert Then(p, c, Handle) == OnHandle(p, c);
    hide OnHandle;
  }

  lemma ReadingReturns(p: Policy, c: Controller, r: Reading)
    requires Ready(c) && Timely(p, r)
    ensures
      var d := Then(p, Then(p, c, ReadStarts(r.starts)), ReadReturns(ReadFrame(true), r.ends));
      d.place.AtHandle? && d.place.outcome == ReadFrame(true) && d == c.(place := d.place, history := d.history)
      && d.history.offered == c.history.offered
  {
  }

  /** From wherever a stream is read, with no stop and an open slot, every frame of the negotiated shape that is read in
      time and that the warm-up does not need is offered and accepted. */
  lemma {:induction false} FramesAreTaken(p: Policy, c: Controller, rs: seq<Reading>)
    requires Ready(c) && c.stream.sequence + |rs| <= MAX_INT64 && forall i :: 0 <= i < |rs| ==> Timely(p, rs[i])
    ensures
      var d := Run(p, c, ReadingEvents(rs, c.stream.warmupRemaining));
      && Ready(d) && d.stream.epoch == c.stream.epoch && c.history.offered <= d.history.offered
      && |d.history.offered| == |c.history.offered| + Max(0, |rs| - c.stream.warmupRemaining)
    decreases |rs|
  {
    hide Step, Enabled, FrameEvents, Timely;
    if rs != [] {
      var warmup := c.stream.warmupRemaining;
      var first, rest := FrameEvents(rs[0], warmup == 0), ReadingEvents(rs[1..], if warmup == 0 then 0 else warmup - 1);
      FrameIsTaken(p, c, rs[0]);
      var next := Run(p, c, first);
      RunJoins(p, c, first, rest);
      FramesAreTaken(p, next, rs[1..]);
      hide Run;
    }
  }

  /** The events of one turn of the loop in which the backend opens. */
  function OpenEvents(starts: nat, ends: nat): seq<Event> {
    [Head, Mark, Factory(ReadyBackend), OpenStarts(starts), OpenReturns(Opened(true), ends)]
  }

  predicate OpensInTime(p: Policy, starts: nat, ends: nat) {
    starts <= ends <= starts + p.openTimeout && ends <= MAX_INT64
  }

  lemma FiveRun(p: Policy, c: Controller, es: seq<Event>)
    requires |es| == 5
    ensures Run(p, c, es) == Then(p, Then(p, Then(p, Then(p, Then(p, c, es[0]), es[1]), es[2]), es[3]), es[4])
  {
    assert es == [es[0]] + ([es[1]] + ([es[2]] + ([es[3]] + ([es[4]] + []))));
    var c1 := Then(p, c, es[0]);
    var c2 := Then(p, c1, es[1]);
    var c3 := Then(p, c2, es[2]);
    var c4 := Then(p, c3, es[3]);
    RunTakes(p, c, es[0], [es[1]] + ([es[2]] + ([es[3]] + ([es[4]] + []))));
    RunTakes(p, c1, es[1], [es[2]] + ([es[3]] + ([es[4]] + [])));
    RunTakes(p, c2, es[2], [es[3]] + ([es[4]] + []));
    RunTakes(p, c3, es[3], [es[4]] + []);
    RunTakes(p, c4, es[4], []);
    hide Then, Step, Enabled;
  }

  /** Whatever has happened before, a turn of the loop in which the backend opens in time begins the next stream. */
  lemma StreamBegins(p: Policy, c: Controller, starts: nat, ends: nat)
    requires c.place.AtHead? && !c.stopRequested && c.nextEpoch <= MAX_INT64 && OpensInTime(p, starts, ends)
    ensures
      var d := Run(p, c, OpenEvents(starts, ends));
      && Ready(d) && d.stream == Stream(c.nextEpoch, p.warmupFrames, 0, ends, ends)
      && d.nextEpoch == c.nextEpoch + 1 && d.failedAttempts == c.failedAttempts
      && d.history.offered == c.history.offered
  {
    FiveRun(p, c, OpenEvents(starts, ends));
    hide Run;
    var created := Then(p, Then(p, Then(p, c, Head), Mark), Factory(ReadyBackend));
    assert created.place.AtOpen? && !created.stopRequested && created.nextEpoch == c.nextEpoch
           && created.failedAttempts == c.failedAttempts && created.history.offered == c.history.offered;
    hide OnHead, OnMark, OnFactory;
  }

  /** A session with a camera that works. */
  function SessionEvents(p: Policy, starts: nat, ends: nat, rs: seq<Reading>): seq<Event> {
    [Start(true), Begin, Admit(true), Acquire(true)] + (OpenEvents(starts, ends) + ReadingEvents(rs, p.warmupFrames))
  }

  /** From its start on, such a session offers every frame it reads but those that warm the camera up. */
  lemma WorkingCameraDelivers(p: Policy, starts: nat, ends: nat, rs: seq<Reading>)
    requires OpensInTime(p, starts, ends) && |rs| <= MAX_INT64 && forall i :: 0 <= i < |rs| ==> Timely(p, rs[i])
    ensures
      var d := Run(p, NEW_CONTROLLER, SessionEvents(p, starts, ends, rs));
      Ready(d) && |d.history.offered| == Max(0, |rs| - p.warmupFrames)
  {
    var lead := [Start(true), Begin, Admit(true), Acquire(true)];
    var begun := Run(p, NEW_CONTROLLER, lead);
    SessionStarts(p);
    RunJoins(p, NEW_CONTROLLER, lead, OpenEvents(starts, ends) + ReadingEvents(rs, p.warmupFrames));
    RunJoins(p, begun, OpenEvents(starts, ends), ReadingEvents(rs, p.warmupFrames));
    hide Run, Step, Enabled, ReadingEvents, OpenEvents, Timely;
    StreamBegins(p, begun, starts, ends);
    FramesAreTaken(p, Run(p, begun, OpenEvents(starts, ends)), rs);
  }

  lemma SessionStarts(p: Policy)
    ensures
      var d := Run(p, NEW_CONTROLLER, [Start(true), Begin, Admit(true), Acquire(true)]);
      d.place.AtHead? && !d.stopRequested && d.nextEpoch == 0 && d.history.offered == []
  {
    var es := [Start(true), Begin, Admit(true), Acquire(true)];
    assert es == [Start(true)] + ([Begin] + ([Admit(true)] + ([Acquire(true)] + [])));
    var c1 := Then(p, NEW_CONTROLLER, Start(true));
    var c2 := Then(p, c1, Begin);
    var c3 := Then(p, c2, Admit(true));
    RunTakes(p, NEW_CONTROLLER, Start(true), [Begin] + ([Admit(true)] + ([Acquire(true)] + [])));
    RunTakes(p, c1, Begin, [Admit(true)] + ([Acquire(true)] + []));
    RunTakes(p, c2, Admit(true), [Acquire(true)] + []);
    RunTakes(p, c3, Acquire(true), []);
  }

  /** A stream that is disconnected, and the wait before it is opened again. */
  function LossEvents(starts: nat, ends: nat, retry: nat): seq<Event> {
    [ReadStarts(starts), ReadReturns(ReadDisconnected, ends), Handle, Close(CloseDone), Retry(retry)]
  }

  /** After a disconnect a camera comes back with the next epoch while attempts are left, the count of failures starting
      again if the stream was stable. */
  lemma LostCameraComesBack(p: Policy, c: Controller, r: Reading, retry: nat, starts: nat, ends: nat)
    requires ValidPolicy(p) && Ready(c) && Timely(p, r) && OpensInTime(p, starts, ends) && c.nextEpoch <= MAX_INT64
    requires
      var attempts := if r.ends >= c.stream.openedAt + p.stableResetAfter then 1 else c.failedAttempts + 1;
      attempts <= p.maxReopenAttempts
    ensures
      var d := Run(p, c, LossEvents(r.starts, r.ends, retry) + ([CooldownEnds] + OpenEvents(starts, ends)));
      && Ready(d) && d.stream == Stream(c.nextEpoch, p.warmupFrames, 0, ends, ends)
      && d.failedAttempts == (if r.ends >= c.stream.openedAt + p.stableResetAfter then 1 else c.failedAttempts + 1)
      && d.history.offered == c.history.offered
  {
    var loss := LossEvents(r.starts, r.ends, retry);
    var lost := Run(p, c, loss);
    StreamIsLost(p, c, r, retry);
    RunJoins(p, c, loss, [CooldownEnds] + OpenEvents(starts, ends));
    RunTakes(p, lost, CooldownEnds, OpenEvents(starts, ends));
    hide Run, OpenEvents, LossEvents, Timely, RetryDelay;
    StreamBegins(p, Then(p, lost, CooldownEnds), starts, ends);
  }

  lemma StreamIsLost(p: Policy, c: Controller, r: Reading, retry: nat)
    requires ValidPolicy(p) && Ready(c) && Timely(p, r)
    requires
      var attempts := if r.ends >= c.stream.openedAt + p.stableResetAfter then 1 else c.failedAttempts + 1;
      attempts <= p.maxReopenAttempts
    ensures
      var d := Run(p, c, LossEvents(r.starts, r.ends, retry));
      && d.place.AtCooldown? && !d.stopRequested && d.nextEpoch == c.nextEpoch
      && d.failedAttempts == (if r.ends >= c.stream.openedAt + p.stableResetAfter then 1 else c.failedAttempts + 1)
      && d.history.offered == c.history.offered
  {
    FiveRun(p, c, LossEvents(r.starts, r.ends, retry));
    LossIsHandled(p, c, r);
    var handled := Then(p, Then(p, Then(p, c, ReadStarts(r.starts)), ReadReturns(ReadDisconnected, r.ends)), Handle);
    LossIsRetried(p, handled, retry);
    hide Run, Then, Timely;
  }

  lemma LossIsRetried(p: Policy, c: Controller, retry: nat)
    requires ValidPolicy(p) && c.place.AtClose? && c.place.next.FromStream? && c.place.next.end.EndRetry?
    requires (if c.place.next.stable then 1 else c.failedAttempts + 1) <= p.maxReopenAttempts
    ensures
      var d := Then(p, Then(p, c, Close(CloseDone)), Retry(retry));
      && d.place.AtCooldown? && d.stopRequested == c.stopRequested && d.nextEpoch == c.nextEpoch
      && d.failedAttempts == (if c.place.next.stable then 1 else c.failedAttempts + 1)
      && d.history.offered == c.history.offered
  {
    assert Then(p, c, Close(CloseDone)) == AfterStream(CountClose(c), EndRetry, c.place.next.stable);
    var closed := AfterStream(CountClose(c), EndRetry, c.place.next.stable);
    RetryDecides(p, closed, retry);
    assert Then(p, closed, Retry(retry)) == OnRetry(p, closed, retry);
    hide RetryDelay, Step, Then, Enabled;
  }

  lemma LossIsHandled(p: Policy, c: Controller, r: Reading)
    requires Ready(c) && Timely(p, r)
    ensures
      var d := Then(p, Then(p, Then(p, c, ReadStarts(r.starts)), ReadReturns(ReadDisconnected, r.ends)), Handle);
      && d.place == AtClose(FromStream(EndRetry, r.ends >= c.stream.openedAt + p.stableResetAfter))
      && d == c.(place := d.place, state := d.state, history := d.history) && d.history.offered == c.history.offered
  {
  }

  /** A stop of a camera that is being read, and the worker's way to its end. */
  function StopEvents(now: nat): seq<Event> {
    [StopRequested, StreamStops(now), Close(CloseDone), Leave, Release(true)] + [Finish, Die]
  }

  /** A stopped camera is closed, its lease is given back, and the controller shows CLOSED. */
  lemma StoppedCameraEnds(p: Policy, c: Controller, now: nat)
    requires c.place.AtRead? && c.leaseHeld && !c.retained && !c.state.Failed? && !c.state.Stuck?
    ensures
      var d := Run(p, c, StopEvents(now));
      && d.place.Gone? && d.state.Closed? && !d.leaseHeld && !d.retained && d.stopRequested
      && d.history.confirmed == c.history.confirmed + 1 && d.history.offered == c.history.offered
  {
    var first := [StopRequested, StreamStops(now), Close(CloseDone), Leave, Release(true)];
    RunJoins(p, c, first, [Finish, Die]);
    FiveRun(p, c, first);
    StopLeaves(p, c, now);
    var left := Run(p, c, first);
    assert [Finish, Die] == [Finish] + ([Die] + []);
    RunTakes(p, left, Finish, [Die] + []);
    RunTakes(p, Then(p, left, Finish), Die, []);
    RunEnds(p, Then(p, Then(p, left, Finish), Die));
    WorkerEnds(p, left);
    hide *;
  }

  lemma RunEnds(p: Policy, c: Controller)
    ensures Run(p, c, []) == c
  {
  }

  lemma WorkerEnds(p: Policy, c: Controller)
    requires c.place.AtFinish? && !c.state.Failed? && !c.state.Stuck?
    ensures Then(p, Then(p, c, Finish), Die) == c.(place := Gone, state := Closed)
  {
  }

  lemma StopLeaves(p: Policy, c: Controller, now: nat)
    requires c.place.AtRead? && c.leaseHeld && !c.retained && !c.state.Failed? && !c.state.Stuck?
    ensures
      var stopping := Then(p, Then(p, Then(p, c, StopRequested), StreamStops(now)), Close(CloseDone));
      var d := Then(p, Then(p, stopping, Leave), Release(true));
      && d.place.AtFinish? && d.state == c.state && !d.leaseHeld && !d.retained && d.stopRequested
      && d.history.confirmed == c.history.confirmed + 1 && d.history.offered == c.history.offered
  {
    var closing := Then(p, Then(p, c, StopRequested), StreamStops(now));
    assert closing.place.AtClose? && closing.place.next.FromStream? && closing.place.next.end.EndStopped?
           && closing.state == c.state && closing.leaseHeld && !closing.retained && closing.stopRequested
           && closing.history.confirmed == c.history.confirmed && closing.history.offered == c.history.offered;
    hide OnStopRequested, OnStreamStops, IsStable;
  }
}
