/** What every run of the camera controller keeps. */
module ControllerProofs {
  import opened Common
  import opened CameraPolicy
  import opened ControllerMachine

  // ---- the lease and the backend --------------------------------------------------

  /** Places from which the worker may call the factory, use a backend or give the lease back. */
  predicate Entitled(place: Place) {
    || HasBackend(place) || place.AtHead? || place.AtMark? || place.AtCreate? || place.AtRetry? || place.AtGiveUp?
    || place.AtCooldown? || place.AtRelease?
  }

  predicate BeforeLease(place: Place) { place.Unborn? || place.AtBegin? || place.AtAdmit? || place.AtAcquire? }

  predicate Departing(place: Place) { place.AtLeave? || place.AtFinish? || place.Dying? || place.Gone? }

  predicate Owning(c: Controller) {
    && (Entitled(c.place) ==> c.leaseHeld && !c.retained)
    && (c.retained ==> c.leaseHeld && Departing(c.place))
    && (BeforeLease(c.place) ==> !c.leaseHeld)
  }

  /** Every backend created has had its close confirmed, but for the active or the retained one. */
  predicate Counted(c: Controller) {
    c.history.created == c.history.confirmed + (if HasBackend(c.place) || c.retained then 1 else 0)
  }

  // ---- failure is permanent ----------------------------------------------------------

  predicate Broken(c: Controller) { c.state.Failed? || c.state.Stuck? }

  /** A worker that has published FAILED is on its way out. */
  predicate FailsLast(c: Controller) {
    && (c.state.Failed? ==> Departing(c.place) || c.place.AtRelease? || c.place == AtClose(ToLeave))
    && (c.place.Unborn? ==> c.state.Closed? && c.overdue == 0)
  }

  // ---- retries are bounded -------------------------------------------------------------

  function Allowance(attempts: nat, streams: nat): nat {
    if streams == 0 then 0 else attempts + Allowance(attempts, streams - 1)
  }

  predicate BetweenCalls(place: Place) {
    place.AtHead? || place.AtMark? || place.AtCreate? || place.AtCooldown?
  }

  /** Factory calls against the failed attempts of the current round and the rounds stable streams ended. */
  predicate Budgeted(p: Policy, c: Controller) {
    var calls := c.history.factoryCalls;
    var earlier := Allowance(p.maxReopenAttempts, c.history.stableStreams);
    && (BeforeLease(c.place) ==> calls == 0 && c.failedAttempts == 0)
    && (BetweenCalls(c.place) ==> c.failedAttempts <= p.maxReopenAttempts && calls <= earlier + c.failedAttempts)
    && (c.place.AtRetry? ==> 1 <= c.failedAttempts <= p.maxReopenAttempts + 1 && calls <= earlier + c.failedAttempts)
    && (HasBackend(c.place) ==> c.failedAttempts <= p.maxReopenAttempts && calls <= earlier + c.failedAttempts + 1)
    && calls <= earlier + p.maxReopenAttempts + 1
  }

  // ---- pacing ----------------------------------------------------------------------------

  predicate DelaysBounded(p: Policy, delays: seq<nat>) {
    forall i :: 0 <= i < |delays| ==> p.initialCooldown <= delays[i] <= p.maximumCooldown
  }

  predicate Rested(place: Place) { BetweenCalls(place) || place.AtOpen? }

  predicate Paced(p: Policy, c: Controller) {
    var h := c.history;
    && DelaysBounded(p, h.delays)
    && (BeforeLease(c.place) ==> c.lastOpen.None?)
    && c.lastOpen == (if h.opens == [] then None else Some(h.opens[|h.opens| - 1]))
    && (c.lastOpen.Some? ==> c.lastOpen.value <= h.floor)
    && (h.honest ==> Spaced(h.opens, p.minimumReopenInterval))
    && (h.honest && c.lastOpen.Some? && Rested(c.place) ==> c.lastOpen.value + p.minimumReopenInterval <= h.floor)
  }

  // ---- the order of frames ----------------------------------------------------------------

  /** The next frame of the same epoch, or the first frame of a later one. */
  predicate Follows(a: Offered, b: Offered) {
    || (b.epoch == a.epoch && b.sequence == a.sequence + 1)
    || (a.epoch < b.epoch && b.sequence == 0)
  }

  predicate Chained(p: Policy, offered: seq<Offered>, nextEpoch: nat) {
    && (offered != [] ==> offered[0].sequence == 0)
    && (forall i :: 0 < i < |offered| ==> Follows(offered[i - 1], offered[i]))
    && (forall i :: 0 <= i < |offered| ==> RightlyRead(p, offered[i]) && offered[i].epoch < nextEpoch)
  }

  /** Frame number k of an epoch is the (warm-up + k + 1)-th frame of the negotiated shape that was read in it, and
      nothing was read since. */
  predicate RightlyRead(p: Policy, x: Offered) {
    x.heard == Heard(p.warmupFrames + x.sequence + 1, Some(ReadFrame(true)))
  }

  /** A frame of the negotiated shape has been read, and is neither discarded nor offered yet. */
  predicate HoldsFrame(place: Place) { place.AtOffer? || (place.AtHandle? && place.outcome == ReadFrame(true)) }

  /** The frame about to be offered in a stream continues the chain. */
  predicate Continues(s: Stream, offered: seq<Offered>) {
    if s.sequence == 0 then offered == [] || offered[|offered| - 1].epoch < s.epoch
    else
      && offered != []
      && offered[|offered| - 1].epoch == s.epoch && offered[|offered| - 1].sequence + 1 == s.sequence
  }

  predicate Ordered(p: Policy, c: Controller) {
    var h := c.history;
    && Chained(p, h.offered, c.nextEpoch)
    && (InStream(c.place) ==>
          && c.stream.epoch + 1 == c.nextEpoch
          && h.heard.matching + c.stream.warmupRemaining ==
               p.warmupFrames + c.stream.sequence + (if HoldsFrame(c.place) then 1 else 0)
          && (c.stream.sequence > 0 ==> c.stream.warmupRemaining == 0)
          && Continues(c.stream, h.offered))
    && (c.place.AtHandle? ==> h.heard.last == Some(c.place.outcome))
    && (c.place.AtOffer? ==> c.stream.warmupRemaining == 0 && h.heard.last == Some(ReadFrame(true)))
  }

  // ---- every step keeps them ------------------------------------------------------------------

  predicate Streams(e: Event) {
    || e.OpenStarts? || e.OpenReturns? || e.StreamStops? || e.ReadStarts? || e.ReadReturns? || e.Handle?
    || e.PauseEnds? || e.Resume? || e.Offer?
  }

  predicate Recovers(e: Event) { e.Close? || e.Retry? || e.GiveUp? || e.CooldownEnds? || e.Raise? }

  lemma StreamOwns(p: Policy, c: Controller, e: Event)
    requires Enabled(c, e) && Streams(e) && Owning(c)
    ensures Owning(Step(p, c, e))
  {
    hide Tick, IsStable, OnOpenReturns, OnReadReturns, OnHandle;
    match e
    case OpenReturns(result, now) => OpenOwns(p, c, result, now);
    case ReadReturns(read, now) => ReadOwns(p, c, read, now);
    case Handle => HandleOwns(p, c);
    case _ =>
  }

  lemma OpenOwns(p: Policy, c: Controller, outcome: OpenOutcome, now: nat)
    requires c.place.InOpen? && Owning(c)
    ensures Owning(OnOpenReturns(p, c, outcome, now))
  {
    hide Tick;
  }

  lemma ReadOwns(p: Policy, c: Controller, outcome: ReadOutcome, now: nat)
    requires c.place.InRead? && Owning(c)
    ensures Owning(OnReadReturns(p, c, outcome, now))
  {
    hide Tick, IsStable;
  }

  lemma HandleOwns(p: Policy, c: Controller)
    requires c.place.AtHandle? && Owning(c)
    ensures Owning(OnHandle(p, c))
  {
    hide IsStable;
  }

  lemma RecoveryOwns(p: Policy, c: Controller, e: Event)
    requires Enabled(c, e) && Recovers(e) && Owning(c)
    ensures Owning(Step(p, c, e))
  {
  }

  lemma OtherOwns(p: Policy, c: Controller, e: Event)
    requires Enabled(c, e) && !Streams(e) && !Recovers(e) && Owning(c)
    ensures Owning(Step(p, c, e))
  {
    hide OnOpenReturns, OnReadReturns, OnHandle, OnPauseEnds, OnResume, OnClose, OnRetry, OnOffer;
    if e.Factory? { FactoryOwns(c, e.made); }
    hide OnFactory;
  }

  lemma FactoryOwns(c: Controller, outcome: FactoryOutcome)
    requires c.place.AtCreate? && Owning(c)
    ensures Owning(OnFactory(c, outcome))
  {
  }

  lemma OpenFailsLast(p: Policy, c: Controller, outcome: OpenOutcome, now: nat)
    requires c.place.InOpen? && FailsLast(c)
    ensures FailsLast(OnOpenReturns(p, c, outcome, now))
  {
  }

  lemma ReadFailsLast(p: Policy, c: Controller, outcome: ReadOutcome, now: nat)
    requires c.place.InRead? && FailsLast(c)
    ensures FailsLast(OnReadReturns(p, c, outcome, now))
  {
  }

  lemma HandleFailsLast(p: Policy, c: Controller)
    requires c.place.AtHandle? && FailsLast(c)
    ensures FailsLast(OnHandle(p, c))
  {
    hide IsStable;
  }

  lemma StreamFailsLast(p: Policy, c: Controller, e: Event)
    requires Enabled(c, e) && Streams(e) && FailsLast(c)
    ensures FailsLast(Step(p, c, e))
  {
    hide OnOpenReturns, OnReadReturns, OnHandle, Tick, IsStable;
    if e.OpenReturns? {
      OpenFailsLast(p, c, e.result, e.now);
    } else if e.ReadReturns? {
      ReadFailsLast(p, c, e.read, e.now);
    } else if e.Handle? {
      HandleFailsLast(p, c);
    }
  }

  lemma RecoveryFailsLast(p: Policy, c: Controller, e: Event)
    requires Enabled(c, e) && Recovers(e) && FailsLast(c)
    ensures FailsLast(Step(p, c, e))
  {
  }

  lemma OtherFailsLast(p: Policy, c: Controller, e: Event)
    requires Enabled(c, e) && !Streams(e) && !Recovers(e) && FailsLast(c)
    ensures FailsLast(Step(p, c, e))
  {
  }

  /** Events that change nothing the retry budget counts. */
  predicate BudgetFrame(c: Controller, d: Controller) {
    && d.history.factoryCalls == c.history.factoryCalls && d.history.stableStreams == c.history.stableStreams
    && d.failedAttempts == c.failedAttempts
    && (BeforeLease(d.place) ==> BeforeLease(c.place)) && (d.place.AtRetry? ==> c.place.AtRetry?)
    && (BetweenCalls(d.place) ==> BetweenCalls(c.place) || BeforeLease(c.place))
    && (HasBackend(d.place) ==> HasBackend(c.place))
  }

  /** Events that neither open, nor ask for a delay, nor come back to the loop. */
  predicate PaceFrame(c: Controller, d: Controller) {
    && d.lastOpen == c.lastOpen && d.history.opens == c.history.opens && d.history.delays == c.history.delays
    && c.history.floor <= d.history.floor && (d.history.honest ==> c.history.honest)
    && (Rested(d.place) ==> Rested(c.place) || BeforeLease(c.place)) && (BeforeLease(d.place) ==> BeforeLease(c.place))
  }

  predicate Calm(c: Controller, d: Controller) { BudgetFrame(c, d) && PaceFrame(c, d) }

  lemma TickIsCalm(c: Controller, now: nat)
    ensures Calm(c, c.(history := Tick(c.history, now)))
  {
  }

  /** Between places that hold a backend only the state, the stream and its frames change. */
  predicate WithBackend(c: Controller, d: Controller, z: Controller) {
    && HasBackend(c.place) && HasBackend(z.place) && !z.place.AtOpen?
    && z == d.(place := z.place, state := z.state, stopRequested := z.stopRequested, nextEpoch := z.nextEpoch,
               stream := z.stream,
               history := d.history.(heard := z.history.heard, offered := z.history.offered))
  }

  lemma WithBackendIsCalm(c: Controller, d: Controller, z: Controller)
    requires Calm(c, d) && WithBackend(c, d, z)
    ensures Calm(c, z)
  {
  }

  lemma OpenIsCalm(p: Policy, c: Controller, outcome: OpenOutcome, now: nat)
    requires c.place.InOpen?
    ensures Calm(c, OnOpenReturns(p, c, outcome, now))
  {
    TickIsCalm(c, now);
    hide Calm, Tick;
    WithBackendIsCalm(c, c.(history := Tick(c.history, now)), OnOpenReturns(p, c, outcome, now));
  }

  lemma ReadIsCalm(p: Policy, c: Controller, outcome: ReadOutcome, now: nat)
    requires c.place.InRead?
    ensures Calm(c, OnReadReturns(p, c, outcome, now))
  {
    TickIsCalm(c, now);
    hide Calm, Tick, IsStable;
    WithBackendIsCalm(c, c.(history := Tick(c.history, now)), OnReadReturns(p, c, outcome, now));
  }

  lemma HandleIsCalm(p: Policy, c: Controller)
    requires c.place.AtHandle?
    ensures Calm(c, OnHandle(p, c))
  {
    NothingIsCalm(c);
    hide Calm, IsStable;
    WithBackendIsCalm(c, c, OnHandle(p, c));
  }

  lemma NothingIsCalm(c: Controller)
    ensures Calm(c, c)
  {
  }

  lemma OfferIsCalm(c: Controller, slotClosed: bool)
    requires c.place.AtOffer?
    ensures Calm(c, OnOffer(c, slotClosed))
  {
    NothingIsCalm(c);
    hide Calm;
    WithBackendIsCalm(c, c, OnOffer(c, slotClosed));
  }

  lemma ResumeIsCalm(p: Policy, c: Controller, now: nat)
    requires c.place.AtResume?
    ensures Calm(c, OnResume(p, c, now))
  {
    TickIsCalm(c, now);
    hide Calm, Tick, IsStable;
    WithBackendIsCalm(c, c.(history := Tick(c.history, now)), OnResume(p, c, now));
  }

  lemma StreamIsCalm(p: Policy, c: Controller, e: Event)
    requires Enabled(c, e) && Streams(e) && !e.OpenStarts?
    ensures Calm(c, Step(p, c, e))
  {
    hide OnOpenReturns, OnReadReturns, OnHandle, OnPauseEnds, OnResume, OnOffer, BudgetFrame, PaceFrame, Calm;
    match e
    case OpenReturns(result, now) => OpenIsCalm(p, c, result, now);
    case ReadReturns(read, now) => ReadIsCalm(p, c, read, now);
    case Handle => HandleIsCalm(p, c);
    case Resume(now) => ResumeIsCalm(p, c, now);
    case Offer(slotClosed) => OfferIsCalm(c, slotClosed);
    case _ => BoundaryIsCalm(p, c, e);
  }

  lemma BoundaryIsCalm(p: Policy, c: Controller, e: Event)
    requires Enabled(c, e) && (e.StreamStops? || e.ReadStarts? || e.PauseEnds?)
    ensures Calm(c, Step(p, c, e))
  {
    hide OnOpenReturns, OnReadReturns, OnHandle, OnResume, OnOffer;
  }

  predicate Leads(e: Event) {
    e.Start? || e.Begin? || e.Admit? || e.Acquire? || e.Head? || e.Mark? || e.CooldownEnds?
  }

  lemma LeadIsCalm(p: Policy, c: Controller, e: Event)
    requires Enabled(c, e) && Leads(e)
    ensures Calm(c, Step(p, c, e))
  {
    hide OnOpenReturns, OnReadReturns, OnHandle, OnPauseEnds, OnResume, OnFactory, OnClose, OnRetry, OnOffer;
  }

  lemma RaiseIsCalm(c: Controller)
    requires c.place.AtHead? || c.place.AtRetry? || (HasBackend(c.place) && !c.place.AtClose?)
    ensures Calm(c, OnRaise(c))
  {
  }

  lemma StopIsCalm(p: Policy, c: Controller, e: Event)
    requires Enabled(c, e) && (e.StopRequested? || e.StopMarks? || e.StopOverdue? || e.StopExpires?)
    ensures Calm(c, Step(p, c, e))
  {
    hide OnOpenReturns, OnReadReturns, OnHandle, OnPauseEnds, OnResume, OnFactory, OnClose, OnRetry, OnOffer;
  }

  lemma LeaveIsCalm(p: Policy, c: Controller, e: Event)
    requires Enabled(c, e) && (e.GiveUp? || e.Leave? || e.Release? || e.Finish? || e.Die?)
    ensures Calm(c, Step(p, c, e))
  {
    hide OnRaise, OnStopRequested, OnStopMarks, OnStopOverdue, OnStopExpires;
    hide OnOpenReturns, OnReadReturns, OnHandle, OnPauseEnds, OnResume, OnFactory, OnClose, OnRetry, OnOffer;
  }

  lemma OtherIsCalm(p: Policy, c: Controller, e: Event)
    requires Enabled(c, e) && !Streams(e) && !e.Factory? && !e.Close? && !e.Retry?
    ensures Calm(c, Step(p, c, e))
  {
    hide Calm;
    if Leads(e) {
      LeadIsCalm(p, c, e);
    } else if e.Raise? {
      RaiseIsCalm(c);
    } else if e.StopRequested? || e.StopMarks? || e.StopOverdue? || e.StopExpires? {
      StopIsCalm(p, c, e);
    } else {
      LeaveIsCalm(p, c, e);
    }
    hide OnRaise, OnStopRequested, OnStopMarks, OnStopOverdue, OnStopExpires;
    hide OnOpenReturns, OnReadReturns, OnHandle, OnPauseEnds, OnResume, OnFactory, OnClose, OnRetry, OnOffer;
  }

  lemma FactoryLeavesPace(c: Controller, outcome: FactoryOutcome)
    requires c.place.AtCreate?
    ensures PaceFrame(c, OnFactory(c, outcome))
  {
  }

  lemma AfterStreamLeavesPace(c: Controller, end: StreamEnd, stable: bool)
    ensures PaceFrame(c, AfterStream(c, end, stable))
  {
  }

  lemma CloseLeavesPace(c: Controller, outcome: CloseOutcome)
    requires c.place.AtClose?
    ensures PaceFrame(c, OnClose(c, outcome))
  {
    hide AfterStream;
    if c.place.next.FromStream? {
      AfterStreamLeavesPace(CountClose(c), c.place.next.end, c.place.next.stable);
    }
  }

  lemma FactoryBudgets(p: Policy, c: Controller, outcome: FactoryOutcome)
    requires c.place.AtCreate? && Budgeted(p, c)
    ensures Budgeted(p, OnFactory(c, outcome))
  {
    hide Allowance;
  }

  lemma AfterStreamBudgets(p: Policy, c: Controller, end: StreamEnd, stable: bool)
    requires c.place.AtClose? && Budgeted(p, c)
    ensures Budgeted(p, AfterStream(c, end, stable))
  {
    assert Allowance(p.maxReopenAttempts, c.history.stableStreams + 1)
        == p.maxReopenAttempts + Allowance(p.maxReopenAttempts, c.history.stableStreams);
    hide Allowance;
  }

  lemma CloseBudgets(p: Policy, c: Controller, outcome: CloseOutcome)
    requires c.place.AtClose? && Budgeted(p, c)
    ensures Budgeted(p, OnClose(c, outcome))
  {
    hide Allowance, AfterStream;
    if c.place.next.FromStream? {
      AfterStreamBudgets(p, CountClose(c), c.place.next.end, c.place.next.stable);
    }
  }

  lemma RetryBudgets(p: Policy, c: Controller, now: nat)
    requires c.place.AtRetry? && Budgeted(p, c)
    ensures Budgeted(p, OnRetry(p, c, now))
  {
    hide Allowance, RetryDelay;
  }

  lemma StepBudgets(p: Policy, c: Controller, e: Event)
    requires Enabled(c, e) && Budgeted(p, c)
    ensures Budgeted(p, Step(p, c, e))
  {
    hide Allowance;
    if e.Factory? {
      FactoryBudgets(p, c, e.made);
    } else if e.Close? {
      CloseBudgets(p, c, e.closed);
    } else if e.Retry? {
      RetryBudgets(p, c, e.now);
    } else {
      BudgetFrameKeeps(p, c, e);
    }
  }

  lemma OpenStartsBudgets(p: Policy, c: Controller, now: nat)
    requires c.place.AtOpen? && Budgeted(p, c)
    ensures Budgeted(p, OnOpenStarts(c, now))
  {
    hide Allowance;
  }

  lemma BudgetFrameKeeps(p: Policy, c: Controller, e: Event)
    requires Enabled(c, e) && Budgeted(p, c) && !e.Factory? && !e.Close? && !e.Retry?
    ensures Budgeted(p, Step(p, c, e))
  {
    hide Allowance, OnOpenReturns, OnReadReturns, OnHandle, OnPauseEnds, OnResume, OnFactory, OnClose, OnRetry, OnOffer;
    if e.OpenStarts? {
      OpenStartsBudgets(p, c, e.now);
    } else {
      CalmBudgets(p, c, e);
    }
  }

  lemma CalmBudgets(p: Policy, c: Controller, e: Event)
    requires Enabled(c, e) && Budgeted(p, c) && !e.Factory? && !e.Close? && !e.Retry? && !e.OpenStarts?
    ensures Budgeted(p, Step(p, c, e))
  {
    hide Allowance, Step, PaceFrame;
    if Streams(e) { StreamIsCalm(p, c, e); } else { OtherIsCalm(p, c, e); }
  }

  lemma OpenPaces(p: Policy, c: Controller, now: nat)
    requires c.place.AtOpen? && Paced(p, c)
    ensures Paced(p, OnOpenStarts(c, now))
  {
    var opens := c.history.opens;
    var h := OnOpenStarts(c, now).history;
    if h.honest {
      forall i, j | 0 <= i < j < |h.opens| ensures h.opens[i] + p.minimumReopenInterval <= h.opens[j] {
        if j == |opens| && i < |opens| - 1 {
          assert opens[i] + p.minimumReopenInterval <= opens[|opens| - 1];
        }
      }
    }
  }

  lemma RetryPaces(p: Policy, c: Controller, now: nat)
    requires ValidPolicy(p) && c.place.AtRetry? && Budgeted(p, c) && Paced(p, c)
    ensures Paced(p, OnRetry(p, c, now))
  {
    hide Allowance, RetryDelay, Spaced;
    assert c.failedAttempts <= p.maxReopenAttempts ==> CooldownDomain(c.failedAttempts);
    if c.failedAttempts <= p.maxReopenAttempts {
      RetryDelayIsBounded(p, c.failedAttempts, c.lastOpen, now);
    }
  }

  lemma StepPaces(p: Policy, c: Controller, e: Event)
    requires Enabled(c, e) && ValidPolicy(p) && Budgeted(p, c) && Paced(p, c)
    ensures Paced(p, Step(p, c, e))
  {
    hide Allowance, Budgeted;
    if e.OpenStarts? {
      OpenPaces(p, c, e.now);
    } else if e.Retry? {
      RetryPaces(p, c, e.now);
    } else {
      PaceFrameKeeps(p, c, e);
    }
  }

  lemma StepLeavesPace(p: Policy, c: Controller, e: Event)
    requires Enabled(c, e) && !e.OpenStarts? && !e.Retry?
    ensures PaceFrame(c, Step(p, c, e))
  {
    hide PaceFrame, BudgetFrame, OnOpenReturns, OnReadReturns, OnHandle, OnPauseEnds, OnResume, OnFactory, OnClose, OnOffer;
    if e.Factory? {
      FactoryLeavesPace(c, e.made);
    } else if e.Close? {
      CloseLeavesPace(c, e.closed);
    } else if Streams(e) {
      StreamIsCalm(p, c, e);
    } else {
      OtherIsCalm(p, c, e);
    }
  }

  lemma PaceFrameKeeps(p: Policy, c: Controller, e: Event)
    requires Enabled(c, e) && Paced(p, c) && !e.OpenStarts? && !e.Retry?
    ensures Paced(p, Step(p, c, e))
  {
    hide Step, Spaced, DelaysBounded;
    StepLeavesPace(p, c, e);
  }

  /** Events that neither begin a stream nor take a frame. */
  predicate OrderFrame(c: Controller, d: Controller) {
    && d.nextEpoch == c.nextEpoch && d.history.offered == c.history.offered
    && (InStream(d.place) ==>
          && InStream(c.place) && d.stream == c.stream && d.history.heard == c.history.heard
          && (HoldsFrame(d.place) <==> HoldsFrame(c.place)))
    && (d.place.AtHandle? || d.place.AtOffer? ==> d.place == c.place)
  }

  predicate Frames(e: Event) { e.OpenReturns? || e.ReadReturns? || e.Handle? || e.Offer? }

  lemma StreamLeavesOrder(p: Policy, c: Controller, e: Event)
    requires Enabled(c, e) && Streams(e) && !Frames(e)
    ensures OrderFrame(c, Step(p, c, e))
  {
    hide OnOpenReturns, OnReadReturns, OnHandle, OnOffer;
  }

  lemma OtherLeavesOrder(p: Policy, c: Controller, e: Event)
    requires Enabled(c, e) && !Streams(e) && !Recovers(e)
    ensures OrderFrame(c, Step(p, c, e))
  {
    hide Step, OrderFrame;
    if Leads(e) { LeadLeavesOrder(p, c, e); } else { TailLeavesOrder(p, c, e); }
  }

  lemma LeadLeavesOrder(p: Policy, c: Controller, e: Event)
    requires Enabled(c, e) && Leads(e)
    ensures OrderFrame(c, Step(p, c, e))
  {
    hide OnOpenReturns, OnReadReturns, OnHandle, OnOffer, OnPauseEnds, OnResume, OnClose, OnRetry, OnFactory;
  }

  lemma TailLeavesOrder(p: Policy, c: Controller, e: Event)
    requires Enabled(c, e) && !Streams(e) && !Recovers(e) && !Leads(e)
    ensures OrderFrame(c, Step(p, c, e))
  {
    hide OnOpenReturns, OnReadReturns, OnHandle, OnOffer, OnPauseEnds, OnResume, OnClose, OnRetry;
  }

  lemma AfterStreamLeavesOrder(c: Controller, end: StreamEnd, stable: bool)
    ensures OrderFrame(c, AfterStream(c, end, stable))
  {
  }

  lemma CloseLeavesOrder(c: Controller, outcome: CloseOutcome)
    requires c.place.AtClose?
    ensures OrderFrame(c, OnClose(c, outcome))
  {
    hide AfterStream;
    if c.place.next.FromStream? {
      AfterStreamLeavesOrder(CountClose(c), c.place.next.end, c.place.next.stable);
    }
  }

  lemma RecoveryLeavesOrder(p: Policy, c: Controller, e: Event)
    requires Enabled(c, e) && Recovers(e)
    ensures OrderFrame(c, Step(p, c, e))
  {
    hide OnOpenReturns, OnReadReturns, OnHandle, OnOffer, OnPauseEnds, OnResume, OnFactory, RetryDelay, OnClose;
    if e.Close? {
      CloseLeavesOrder(c, e.closed);
    }
  }

  lemma QuietLeavesOrder(p: Policy, c: Controller, e: Event)
    requires Enabled(c, e) && !Frames(e)
    ensures OrderFrame(c, Step(p, c, e))
  {
    hide Step, OrderFrame;
    if Streams(e) {
      StreamLeavesOrder(p, c, e);
    } else if Recovers(e) {
      RecoveryLeavesOrder(p, c, e);
    } else {
      OtherLeavesOrder(p, c, e);
    }
  }

  lemma OpenOrders(p: Policy, c: Controller, outcome: OpenOutcome, now: nat)
    requires c.place.InOpen? && Ordered(p, c)
    ensures Ordered(p, OnOpenReturns(p, c, outcome, now))
  {
    var d := OnOpenReturns(p, c, outcome, now);
    assert Chained(p, d.history.offered, d.nextEpoch);
    hide Chained;
  }

  lemma ClosingOrders(p: Policy, c: Controller, d: Controller)
    requires Ordered(p, c) && d.place.AtClose? && d.nextEpoch == c.nextEpoch && d.history.offered == c.history.offered
    ensures Ordered(p, d)
  {
    hide Chained, Continues;
  }

  lemma HandingOrders(p: Policy, c: Controller, outcome: ReadOutcome, now: nat, deadline: nat)
    requires c.place.InRead? && Ordered(p, c)
    ensures Ordered(p, c.(history := Hear(Tick(c.history, now), outcome), place := AtHandle(outcome, now, deadline)))
  {
    hide Chained, Continues;
  }

  lemma ReadOrders(p: Policy, c: Controller, outcome: ReadOutcome, now: nat)
    requires c.place.InRead? && Ordered(p, c)
    ensures Ordered(p, OnReadReturns(p, c, outcome, now))
  {
    var d := OnReadReturns(p, c, outcome, now);
    var deadline := Min(c.place.started + p.readTimeout, MAX_INT64);
    assert
      || d.place.AtClose?
      || d == c.(history := Hear(Tick(c.history, now), outcome), place := AtHandle(outcome, now, deadline));
    assert d.nextEpoch == c.nextEpoch && d.history.offered == c.history.offered;
    hide *;
    if d.place.AtClose? { ClosingOrders(p, c, d); } else { HandingOrders(p, c, outcome, now, deadline); }
  }

  lemma HandleOrders(p: Policy, c: Controller)
    requires c.place.AtHandle? && Ordered(p, c)
    ensures Ordered(p, OnHandle(p, c))
  {
    var d := OnHandle(p, c);
    assert d.nextEpoch == c.nextEpoch && d.history == c.history;
    if d.place.AtClose? {
      ClosingOrders(p, c, d);
      hide *;
    } else {
      hide Chained, Continues, IsStable;
    }
  }

  lemma OfferOrders(p: Policy, c: Controller, slotClosed: bool)
    requires c.place.AtOffer? && Ordered(p, c)
    ensures Ordered(p, OnOffer(c, slotClosed))
  {
    var d := OnOffer(c, slotClosed);
    if c.stream.sequence <= MAX_INT64 && !slotClosed {
      OfferChains(p, c.history.offered, Offered(c.stream.epoch, c.stream.sequence, c.history.heard), c.stream, c.nextEpoch);
    }
    hide Chained, Continues;
  }

  lemma OfferChains(p: Policy, offered: seq<Offered>, x: Offered, s: Stream, nextEpoch: nat)
    requires Chained(p, offered, nextEpoch) && Continues(s, offered) && RightlyRead(p, x)
    requires x.epoch == s.epoch < nextEpoch && x.sequence == s.sequence
    ensures Chained(p, offered + [x], nextEpoch) && Continues(s.(sequence := s.sequence + 1), offered + [x])
  {
    hide RightlyRead;
  }

  lemma StepOrders(p: Policy, c: Controller, e: Event)
    requires Enabled(c, e) && Ordered(p, c)
    ensures Ordered(p, Step(p, c, e))
  {
    if e.OpenReturns? {
      OpenOrders(p, c, e.result, e.now);
    } else if e.ReadReturns? {
      ReadOrders(p, c, e.read, e.now);
    } else if e.Handle? {
      HandleOrders(p, c);
    } else if e.Offer? {
      OfferOrders(p, c, e.slotClosed);
    } else {
      OrderFrameKeeps(p, c, e);
    }
  }

  lemma OrderFrameKeeps(p: Policy, c: Controller, e: Event)
    requires Enabled(c, e) && Ordered(p, c) && !Frames(e)
    ensures Ordered(p, Step(p, c, e))
  {
    hide Step, Chained, Continues;
    QuietLeavesOrder(p, c, e);
  }

  lemma StreamCounts(p: Policy, c: Controller, e: Event)
    requires Enabled(c, e) && Streams(e) && Owning(c) && Counted(c)
    ensures Counted(Step(p, c, e))
  {
    hide IsStable;
    if Frames(e) {
      hide OnOpenStarts, OnStreamStops, OnReadStarts, OnPauseEnds, OnResume;
    } else {
      hide OnOpenReturns, OnReadReturns, OnHandle, OnOffer;
    }
  }

  lemma RecoveryCounts(p: Policy, c: Controller, e: Event)
    requires Enabled(c, e) && Recovers(e) && Owning(c) && Counted(c)
    ensures Counted(Step(p, c, e))
  {
    hide OnClose, Tick, IsStable, RetryDelay, CooldownDomain;
    if e.Close? { CloseCounts(c, e.closed); }
    if e.Retry? { RetryCounts(p, c, e.now); }
    hide OnRetry;
  }

  lemma CloseCounts(c: Controller, outcome: CloseOutcome)
    requires c.place.AtClose? && Owning(c) && Counted(c)
    ensures Counted(OnClose(c, outcome))
  {
  }

  lemma RetryCounts(p: Policy, c: Controller, now: nat)
    requires c.place.AtRetry? && Owning(c) && Counted(c)
    ensures Counted(OnRetry(p, c, now))
  {
    hide RetryDelay, CooldownDomain;
  }

  lemma OtherCounts(p: Policy, c: Controller, e: Event)
    requires Enabled(c, e) && !Streams(e) && !Recovers(e) && Owning(c) && Counted(c)
    ensures Counted(Step(p, c, e))
  {
    hide OnOpenReturns, OnReadReturns, OnHandle, OnOffer, OnPauseEnds, OnResume, OnClose, OnRetry;
    if e.Factory? { FactoryCounts(c, e.made); }
    hide OnFactory;
  }

  lemma FactoryCounts(c: Controller, outcome: FactoryOutcome)
    requires c.place.AtCreate? && Owning(c) && Counted(c)
    ensures Counted(OnFactory(c, outcome))
  {
  }

  lemma StreamStaysBroken(p: Policy, c: Controller, e: Event)
    requires Enabled(c, e) && Streams(e) && FailsLast(c) && Broken(c)
    ensures Broken(Step(p, c, e))
  {
    hide OnFactory, OnClose, OnRetry, OnRaise, OnStopRequested, OnStopMarks, OnStopOverdue, OnStopExpires;
  }

  lemma RecoveryStaysBroken(p: Policy, c: Controller, e: Event)
    requires Enabled(c, e) && Recovers(e) && FailsLast(c) && Broken(c)
    ensures Broken(Step(p, c, e))
  {
  }

  lemma OtherStaysBroken(p: Policy, c: Controller, e: Event)
    requires Enabled(c, e) && !Streams(e) && !Recovers(e) && FailsLast(c) && Broken(c)
    ensures Broken(Step(p, c, e))
  {
  }

  lemma StepOwns(p: Policy, c: Controller, e: Event)
    requires Enabled(c, e) && Owning(c) && Counted(c)
    ensures Owning(Step(p, c, e)) && Counted(Step(p, c, e))
  {
    hide Step, Counted;
    if Streams(e) {
      StreamOwns(p, c, e);
      StreamCounts(p, c, e);
    } else if Recovers(e) {
      RecoveryOwns(p, c, e);
      RecoveryCounts(p, c, e);
    } else {
      OtherOwns(p, c, e);
      OtherCounts(p, c, e);
    }
  }

  lemma StepFailsLast(p: Policy, c: Controller, e: Event)
    requires Enabled(c, e) && FailsLast(c)
    ensures FailsLast(Step(p, c, e)) && (Broken(c) ==> Broken(Step(p, c, e)))
  {
    hide Step, FailsLast;
    if Streams(e) {
      StreamFailsLast(p, c, e);
      if Broken(c) { StreamStaysBroken(p, c, e); }
    } else if Recovers(e) {
      RecoveryFailsLast(p, c, e);
      if Broken(c) { RecoveryStaysBroken(p, c, e); }
    } else {
      OtherFailsLast(p, c, e);
      if Broken(c) { OtherStaysBroken(p, c, e); }
    }
  }

  // ---- whole runs ---------------------------------------------------------------------------------

  predicate Sound(p: Policy, c: Controller) {
    Owning(c) && Counted(c) && FailsLast(c) && Budgeted(p, c) && Paced(p, c) && Ordered(p, c)
  }

  lemma StepKeepsSound(p: Policy, c: Controller, e: Event)
    requires ValidPolicy(p) && Enabled(c, e) && Sound(p, c)
    ensures Sound(p, Step(p, c, e))
  {
    hide Step, Owning, Counted, FailsLast, Budgeted, Paced, Ordered;
    StepOwns(p, c, e);
    StepFailsLast(p, c, e);
    StepBudgets(p, c, e);
    StepPaces(p, c, e);
    StepOrders(p, c, e);
  }

  lemma {:induction false} RunKeepsSound(p: Policy, c: Controller, events: seq<Event>)
    requires ValidPolicy(p) && Sound(p, c)
    ensures Sound(p, Run(p, c, events))
    decreases |events|
  {
    hide Step, Sound, Enabled;
    if events != [] {
      if Enabled(c, events[0]) { StepKeepsSound(p, c, events[0]); }
      RunKeepsSound(p, if Enabled(c, events[0]) then Step(p, c, events[0]) else c, events[1..]);
    }
  }

  lemma NewControllerIsSound(p: Policy, c: Controller)
    requires c == NEW_CONTROLLER
    ensures Sound(p, c)
  {
  }

  lemma {:induction false} AllowanceIsProduct(attempts: nat, streams: nat)
    ensures Allowance(attempts, streams) == attempts * streams
  {
    if streams > 0 { AllowanceIsProduct(attempts, streams - 1); }
  }

  /** Over every run: the factory is called at most M * (S + 1) + 1 times, where M is the reopen limit and S the
      number of streams that were stable before they had to be reopened; the cooldown is only ever asked for
      within its domain; every delay lies between the two cooldowns; and under an honest clock any two opens start
      at least the reopen interval apart. */
  lemma RetriesAreBounded(p: Policy, events: seq<Event>)
    requires ValidPolicy(p)
    ensures
      var c := Run(p, NEW_CONTROLLER, events);
      var h := c.history;
      && h.factoryCalls <= p.maxReopenAttempts * (h.stableStreams + 1) + 1
      && (c.place.AtRetry? ==> CooldownDomain(c.failedAttempts))
      && DelaysBounded(p, h.delays)
      && (h.honest ==> Spaced(h.opens, p.minimumReopenInterval))
  {
    hide Run, Owning, FailsLast, Ordered, Allowance, DelaysBounded, Spaced;
    NewControllerIsSound(p, NEW_CONTROLLER);
    RunKeepsSound(p, NEW_CONTROLLER, events);
    var h := Run(p, NEW_CONTROLLER, events).history;
    AllowanceIsProduct(p.maxReopenAttempts, h.stableStreams);
    assert p.maxReopenAttempts * (h.stableStreams + 1)
        == p.maxReopenAttempts * h.stableStreams + p.maxReopenAttempts;
  }

  /** Over every run the frames the slot accepted form a chain: within an epoch 0, 1, 2 and so on, epochs only
      grow, and each frame comes after exactly the policy's number of discarded frames of its epoch. */
  lemma OfferedFramesChain(p: Policy, events: seq<Event>)
    requires ValidPolicy(p)
    ensures Chained(p, Run(p, NEW_CONTROLLER, events).history.offered, Run(p, NEW_CONTROLLER, events).nextEpoch)
  {
    hide Run, Owning, FailsLast, Budgeted, Paced, Chained;
    NewControllerIsSound(p, NEW_CONTROLLER);
    RunKeepsSound(p, NEW_CONTROLLER, events);
  }

  /** Lexicographic order on (epoch, sequence). */
  predicate Before(a: Offered, b: Offered) { a.epoch < b.epoch || (a.epoch == b.epoch && a.sequence < b.sequence) }

  lemma {:induction false} ChainAscends(p: Policy, offered: seq<Offered>, nextEpoch: nat, i: nat, j: nat)
    requires Chained(p, offered, nextEpoch) && i < j < |offered|
    ensures Before(offered[i], offered[j])
    decreases j
  {
    assert Follows(offered[j - 1], offered[j]);
    if i < j - 1 { ChainAscends(p, offered, nextEpoch, i, j - 1); }
  }

  /** No gaps: the k frames before the frame numbered k are those of its epoch, numbered 0 to k - 1. */
  lemma {:induction false} ChainHasNoGaps(p: Policy, offered: seq<Offered>, nextEpoch: nat, j: nat, k: nat)
    requires Chained(p, offered, nextEpoch) && j < |offered| && k <= offered[j].sequence
    ensures k <= j
    ensures offered[j - k].epoch == offered[j].epoch && offered[j - k].sequence == offered[j].sequence - k
    decreases k
  {
    if k > 0 {
      if j == 0 {
        assert false;
      } else {
        assert Follows(offered[j - 1], offered[j]);
        ChainHasNoGaps(p, offered, nextEpoch, j - 1, k - 1);
      }
    }
  }

  /** FAILED and STUCK together are never left. */
  lemma {:induction false} BrokenForever(p: Policy, c: Controller, events: seq<Event>)
    requires ValidPolicy(p) && Sound(p, c) && Broken(c)
    ensures Broken(Run(p, c, events))
    decreases |events|
  {
    hide Step, Broken, Enabled, FailsLast, Owning, Budgeted, Paced, Ordered;
    if events != [] {
      var d := if Enabled(c, events[0]) then Step(p, c, events[0]) else c;
      if Enabled(c, events[0]) {
        StepKeepsSound(p, c, events[0]);
        StepFailsLast(p, c, events[0]);
      }
      BrokenForever(p, d, events[1..]);
    }
  }

  lemma StepKeepsRetained(p: Policy, c: Controller, e: Event)
    requires Enabled(c, e) && Owning(c) && c.retained
    ensures Step(p, c, e).retained && Step(p, c, e).history.factoryCalls == c.history.factoryCalls
  {
    hide OnOpenReturns, OnReadReturns, OnHandle, OnPauseEnds, OnResume, OnClose, OnRetry, OnOffer, OnFactory, RetryDelay;
  }

  /** Once a close has failed, the backend stays retained and the lease held, and no factory is called again. */
  lemma {:induction false} RetainedForever(p: Policy, c: Controller, events: seq<Event>)
    requires ValidPolicy(p) && Sound(p, c) && c.retained
    ensures Run(p, c, events).retained && Run(p, c, events).leaseHeld
    ensures Run(p, c, events).history.factoryCalls == c.history.factoryCalls
    decreases |events|
  {
    hide Step, Enabled, FailsLast, Budgeted, Paced, Ordered;
    if events != [] {
      var d := if Enabled(c, events[0]) then Step(p, c, events[0]) else c;
      if Enabled(c, events[0]) {
        StepKeepsSound(p, c, events[0]);
        StepKeepsRetained(p, c, events[0]);
      }
      RetainedForever(p, d, events[1..]);
    }
  }
}
