/** The scheduler's worker: one frame at a time from the slot to at most one published observation. */
module LiveScheduler {
  import opened Common
  import opened LatestSlot

  datatype Policy = Policy(maxFrameAge: nat, maxResultAge: nat, maxObservationBytes: nat)

  /** The session and producer every observation must name. */
  datatype Identity = Identity(session: nat, producer: nat, producerVersion: nat)

  /** What the scheduler looks at in an observation. */
  datatype Result = Result(
    session: nat, source: nat, epoch: nat, sequence: nat, producer: nat, producerVersion: nat, prohibited: bool,
    size: nat)

  datatype EpochReading = NoEpoch | EpochIs(epoch: nat) | EpochInvalid

  datatype GateAnswer = GateRaises | GateDecides(allow: bool) | GateReturnsGarbage

  datatype ProcessorAnswer = ProcessorRaises | NotAnObservation | Observed(result: Result)

  /** What the world answers while one frame is processed; None for a clock reading that raises. */
  datatype World = World(
    now: Option<nat>, epochBefore: EpochReading, gate: GateAnswer, processor: ProcessorAnswer,
    identityReadable: bool, epochAfter: EpochReading, finished: Option<nat>, measurable: bool)

  /** How the life of a taken frame ends. */
  datatype Outcome =
    | Future | Expired | EpochRejected | GateFailed | BudgetRejected | ProcessorFailed
    | IdentityRejected | Prohibited | ResultEpochRejected | Late | Oversized | Discarded
    | Published | ClosedOut

  datatype Verdict = Drop(outcome: Outcome) | Escape | Candidate(result: Result)

  predicate EpochAdmits(reading: EpochReading, frame: Frame) {
    reading.NoEpoch? || reading == EpochIs(frame.epoch)
  }

  predicate FrameMatches(id: Identity, frame: Frame, r: Result) {
    r.session == id.session && r.source == frame.source && r.epoch == frame.epoch && r.sequence == frame.sequence
  }

  predicate IdentityMatches(id: Identity, frame: Frame, r: Result) {
    && FrameMatches(id, frame, r)
    && r.producer == id.producer && r.producerVersion == id.producerVersion
  }

  /** `_process` up to the result lock; `stopped` is the stop event as read after the processor returned. */
  function Judge(p: Policy, id: Identity, frame: Frame, w: World, stopped: bool): Verdict {
    if w.now.None? then Escape
    else if frame.received > w.now.value then Drop(Future)
    else if w.now.value - frame.received > p.maxFrameAge then Drop(Expired)
    else if !EpochAdmits(w.epochBefore, frame) then Drop(EpochRejected)
    else if w.gate.GateRaises? then Drop(GateFailed)
    else if w.gate.GateReturnsGarbage? then Escape
    else if !w.gate.allow then Drop(BudgetRejected)
    else if w.processor.ProcessorRaises? then Drop(ProcessorFailed)
    else if stopped then Drop(Discarded)
    else if w.processor.NotAnObservation? then Drop(IdentityRejected)
    else JudgeResult(p, id, frame, w, w.processor.result)
  }

  /** Reading the producer's identity may itself raise, when everything before it matched. */
  function JudgeResult(p: Policy, id: Identity, frame: Frame, w: World, r: Result): Verdict {
    if !FrameMatches(id, frame, r) then Drop(IdentityRejected)
    else if !w.identityReadable then Escape
    else if !IdentityMatches(id, frame, r) then Drop(IdentityRejected)
    else if r.prohibited then Drop(Prohibited)
    else if !EpochAdmits(w.epochAfter, frame) then Drop(ResultEpochRejected)
    else if w.finished.None? then Escape
    else if w.finished.value < frame.received || w.finished.value - frame.received > p.maxResultAge then Drop(Late)
    else if !w.measurable then Escape
    else if r.size > p.maxObservationBytes then Drop(Oversized)
    else Candidate(r)
  }

  /** An observation that was published, with the frame and the world it came from. */
  datatype Publication = Publication(frame: Frame, result: Result, world: World)

  /** What the design promises of every published observation. */
  predicate Honours(p: Policy, id: Identity, x: Publication) {
    && IdentityMatches(id, x.frame, x.result) && !x.result.prohibited && x.result.size <= p.maxObservationBytes
    && EpochAdmits(x.world.epochBefore, x.frame) && EpochAdmits(x.world.epochAfter, x.frame)
    && x.world.now.Some? && x.frame.received <= x.world.now.value <= x.frame.received + p.maxFrameAge
    && x.world.finished.Some? && x.frame.received <= x.world.finished.value <= x.frame.received + p.maxResultAge
    && x.world.gate == GateDecides(true)
  }

  lemma CandidateHonours(p: Policy, id: Identity, frame: Frame, w: World, stopped: bool)
    ensures
      var v := Judge(p, id, frame, w, stopped);
      v.Candidate? ==> !stopped && Honours(p, id, Publication(frame, v.result, w))
  {
  }

  // ---- the worker ----------------------------------------------------------------

  datatype Stage =
    | Looping | Taking | Judging(frame: Frame) | Locking(x: Publication) | Offering(x: Publication) | Persisting | Ended

  /** The frames taken and how each one ended; what was published, and how much of it after the stop event. */
  datatype Scheduler = Scheduler(
    stage: Stage, stopRequested: bool, taken: seq<Frame>, outcomes: seq<Outcome>, escaped: bool,
    published: seq<Publication>, publishedAfterStop: nat)

  const NEW_SCHEDULER := Scheduler(Looping, false, [], [], false, [], 0)

  function EndFrame(s: Scheduler, outcome: Outcome): Scheduler {
    s.(stage := Looping, outcomes := s.outcomes + [outcome])
  }

  /** The test of the stop event at the loop head. */
  function OnLoop(s: Scheduler): Scheduler
    requires s.stage.Looping?
  {
    s.(stage := if s.stopRequested then Ended else Taking)
  }

  /** `take` returns the pending frame, or nothing: the loop ends if the slot is closed, else it goes on. */
  function OnTake(s: Scheduler, slot: Slot): Scheduler
    requires s.stage.Taking?
  {
    if slot.pending.Some? then
      s.(stage := Judging(slot.pending.value), taken := s.taken + [slot.pending.value])
    else s.(stage := if slot.closed then Ended else Looping)
  }

  function OnJudge(p: Policy, id: Identity, s: Scheduler, w: World): Scheduler
    requires s.stage.Judging?
  {
    match Judge(p, id, s.stage.frame, w, s.stopRequested)
    case Drop(outcome) => EndFrame(s, outcome)
    case Escape => s.(stage := Ended, escaped := true)
    case Candidate(r) => s.(stage := Locking(Publication(s.stage.frame, r, w)))
  }

  /** The test of the stop event under the result lock. */
  function OnLock(s: Scheduler): Scheduler
    requires s.stage.Locking?
  {
    if s.stopRequested then EndFrame(s, Discarded) else s.(stage := Offering(s.stage.x))
  }

  function OnPublish(s: Scheduler, slotClosed: bool): Scheduler
    requires s.stage.Offering?
  {
    if slotClosed then EndFrame(s, ClosedOut)
    else
      EndFrame(s, Published).(
        stage := Persisting, published := s.published + [s.stage.x],
        publishedAfterStop := s.publishedAfterStop + if s.stopRequested then 1 else 0)
  }

  /** Persistence handles its own failures and comes back to the loop, unless a gate answers garbage. */
  function OnPersist(s: Scheduler, escapes: bool): Scheduler
    requires s.stage.Persisting?
  {
    s.(stage := if escapes then Ended else Looping)
  }

  /** The frame in the worker's hands whose end is still open. */
  function InHand(s: Scheduler): seq<Frame> {
    match s.stage
    case Judging(frame) => [frame]
    case Locking(x) => [x.frame]
    case Offering(x) => [x.frame]
    case _ => []
  }

  /** The published frames, in order. */
  function PublishedFrames(published: seq<Publication>): (frames: seq<Frame>)
    ensures |frames| == |published|
    ensures forall i :: 0 <= i < |frames| ==> frames[i] == published[i].frame
  {
    seq(|published|, i requires 0 <= i < |published| => published[i].frame)
  }

  /** The frames whose outcome is Published, in the order in which they were taken. */
  function Delivered(taken: seq<Frame>, outcomes: seq<Outcome>): seq<Frame>
    requires |outcomes| <= |taken|
  {
    if outcomes == [] then []
    else
      var n := |outcomes| - 1;
      Delivered(taken, outcomes[..n]) + if outcomes[n].Published? then [taken[n]] else []
  }

  /** Every taken frame has one outcome, in order, but for the one in hand or lost to an escaped exception. */
  predicate Accounted(s: Scheduler) {
    && |s.taken| == |s.outcomes| + |InHand(s)| + (if s.escaped then 1 else 0)
    && (s.escaped ==> s.stage.Ended?)
    && (InHand(s) != [] ==> s.taken[|s.taken| - 1] == InHand(s)[0])
    && PublishedFrames(s.published) == Delivered(s.taken, s.outcomes)
  }

  predicate PublishesHonestly(p: Policy, id: Identity, s: Scheduler) {
    && (forall i :: 0 <= i < |s.published| ==> Honours(p, id, s.published[i]))
    && (s.stage.Locking? ==> Honours(p, id, s.stage.x))
    && (s.stage.Offering? ==> Honours(p, id, s.stage.x))
  }

  predicate StopsPromptly(s: Scheduler) {
    && s.publishedAfterStop <= 1
    && (s.publishedAfterStop == 1 ==> s.stopRequested && (s.stage.Persisting? || s.stage.Looping? || s.stage.Ended?))
  }

  lemma DeliveredGrows(taken: seq<Frame>, more: seq<Frame>, outcomes: seq<Outcome>)
    requires |outcomes| <= |taken|
    ensures Delivered(taken + more, outcomes) == Delivered(taken, outcomes)
  {
    if outcomes != [] {
      DeliveredGrows(taken, more, outcomes[..|outcomes| - 1]);
    }
  }

  lemma EndFrameAccounts(s: Scheduler, outcome: Outcome, n: Scheduler)
    requires Accounted(s) && InHand(s) != [] && !n.stage.Judging? && !n.stage.Locking? && !n.stage.Offering?
    requires n.taken == s.taken && n.outcomes == s.outcomes + [outcome] && n.escaped == s.escaped
    requires n.published == s.published && !outcome.Published?
    ensures Accounted(n)
  {
    assert n.outcomes[..|n.outcomes| - 1] == s.outcomes;
  }

  lemma PublishAccounts(s: Scheduler, x: Publication, n: Scheduler)
    requires Accounted(s) && InHand(s) == [x.frame] && !n.stage.Judging? && !n.stage.Locking? && !n.stage.Offering?
    requires n.taken == s.taken && n.outcomes == s.outcomes + [Published] && n.escaped == s.escaped
    requires n.published == s.published + [x]
    ensures Accounted(n)
  {
    assert n.outcomes[..|n.outcomes| - 1] == s.outcomes;
    assert PublishedFrames(n.published) == PublishedFrames(s.published) + [x.frame];
    assert s.taken[|s.outcomes|] == x.frame;
  }

  predicate Sound(p: Policy, id: Identity, s: Scheduler) {
    Accounted(s) && PublishesHonestly(p, id, s) && StopsPromptly(s)
  }

  lemma LoopKeeps(p: Policy, id: Identity, s: Scheduler)
    requires s.stage.Looping? && Sound(p, id, s)
    ensures Sound(p, id, OnLoop(s))
  {
  }

  lemma TakeKeeps(p: Policy, id: Identity, s: Scheduler, slot: Slot)
    requires s.stage.Taking? && Sound(p, id, s)
    ensures Sound(p, id, OnTake(s, slot))
  {
    if slot.pending.Some? {
      DeliveredGrows(s.taken, [slot.pending.value], s.outcomes);
    }
  }

  lemma JudgeKeeps(p: Policy, id: Identity, s: Scheduler, w: World)
    requires s.stage.Judging? && Sound(p, id, s)
    ensures Sound(p, id, OnJudge(p, id, s, w))
  {
    var v := Judge(p, id, s.stage.frame, w, s.stopRequested);
    CandidateHonours(p, id, s.stage.frame, w, s.stopRequested);
    JudgeNeverPublishes(p, id, s.stage.frame, w, s.stopRequested);
    hide Judge, Honours;
    if v.Drop? {
      EndFrameAccounts(s, v.outcome, EndFrame(s, v.outcome));
    }
  }

  lemma JudgeNeverPublishes(p: Policy, id: Identity, frame: Frame, w: World, stopped: bool)
    ensures Judge(p, id, frame, w, stopped) != Drop(Published)
  {
  }

  lemma LockKeeps(p: Policy, id: Identity, s: Scheduler)
    requires s.stage.Locking? && Sound(p, id, s)
    ensures Sound(p, id, OnLock(s))
  {
    hide Honours;
    if s.stopRequested {
      EndFrameAccounts(s, Discarded, OnLock(s));
    }
  }

  lemma PublishKeeps(p: Policy, id: Identity, s: Scheduler, slotClosed: bool)
    requires s.stage.Offering? && Sound(p, id, s)
    ensures Sound(p, id, OnPublish(s, slotClosed))
  {
    hide Honours;
    if slotClosed {
      EndFrameAccounts(s, ClosedOut, OnPublish(s, slotClosed));
    } else {
      PublishAccounts(s, s.stage.x, OnPublish(s, slotClosed));
    }
  }

  lemma PersistKeeps(p: Policy, id: Identity, s: Scheduler, escapes: bool)
    requires s.stage.Persisting? && Sound(p, id, s)
    ensures Sound(p, id, OnPersist(s, escapes))
  {
  }
}
