/** The scheduler's object: `_process` and its counters. */
module SchedulerObject {
  import opened Common
  import opened LatestSlot
  import opened L = LiveScheduler

  datatype Counters = Counters(
    framesTaken: nat, framesFuture: nat, framesExpired: nat, framesEpochRejected: nat, admissionFailures: nat,
    processingBudgetRejected: nat, processorFailures: nat, resultsDiscarded: nat, resultsIdentityRejected: nat,
    resultsProhibited: nat, resultsEpochRejected: nat, resultsLate: nat, resultsOversized: nat,
    persistenceRejected: nat, observationsPublished: nat, observationsReplaced: nat, observationsClosed: nat)

  const NO_COUNTS := Counters(0, 0, 0, 0, 0, 0, 0, 0, 0, 0, 0, 0, 0, 0, 0, 0, 0)

  /** The answer of the observation slot. */
  datatype SlotAnswer = SlotAccepted | SlotReplaced | SlotClosed

  /** The end of one frame; None if an exception escapes. */
  function EndOf(
    p: Policy, id: Identity, frame: Frame, w: World, stopped: bool, stoppedAtLock: bool, slot: SlotAnswer): Option<Outcome>
  {
    match Judge(p, id, frame, w, stopped)
    case Escape => None
    case Drop(outcome) => Some(outcome)
    case Candidate(_) => Some(if stoppedAtLock then Discarded else if slot.SlotClosed? then ClosedOut else Published)
  }

  // ---- which end, in terms of what the world answered ------------------------------------

  predicate InTime(p: Policy, frame: Frame, w: World) {
    w.now.Some? && frame.received <= w.now.value <= frame.received + p.maxFrameAge
  }

  predicate SameEpoch(reading: EpochReading, frame: Frame) {
    match reading
    case NoEpoch => true
    case EpochIs(epoch) => epoch == frame.epoch
    case EpochInvalid => false
  }

  predicate Admitted(p: Policy, frame: Frame, w: World) {
    InTime(p, frame, w) && SameEpoch(w.epochBefore, frame) && w.gate == GateDecides(true)
  }

  /** The processor has given an observation, and no stop was seen after it. */
  predicate Answered(p: Policy, frame: Frame, w: World, stopped: bool) {
    Admitted(p, frame, w) && w.processor.Observed? && !stopped
  }

  predicate NamesFrame(id: Identity, frame: Frame, r: Result) {
    r.session == id.session && r.source == frame.source && r.epoch == frame.epoch && r.sequence == frame.sequence
  }

  predicate NamesProducer(id: Identity, r: Result) {
    r.producer == id.producer && r.producerVersion == id.producerVersion
  }

  predicate Owned(id: Identity, frame: Frame, w: World, r: Result) {
    w.identityReadable && NamesFrame(id, frame, r) && NamesProducer(id, r)
  }

  predicate Allowed(id: Identity, frame: Frame, w: World, r: Result) {
    Owned(id, frame, w, r) && !r.prohibited && SameEpoch(w.epochAfter, frame)
  }

  predicate Prompt(p: Policy, id: Identity, frame: Frame, w: World, r: Result) {
    && Allowed(id, frame, w, r)
    && w.finished.Some? && frame.received <= w.finished.value <= frame.received + p.maxResultAge
  }

  /** Nothing but a stop or a closed slot keeps the result from being published. */
  predicate Publishable(p: Policy, id: Identity, frame: Frame, w: World, r: Result) {
    Prompt(p, id, frame, w, r) && w.measurable && r.size <= p.maxObservationBytes
  }

  /** Which end comes before a result is looked at. */
  ghost predicate EndsEarly(p: Policy, frame: Frame, w: World, stopped: bool, end: Option<Outcome>) {
    var asked := InTime(p, frame, w) && SameEpoch(w.epochBefore, frame);
    && (end == Some(Future) <==> w.now.Some? && w.now.value < frame.received)
    && (end == Some(Expired) <==> w.now.Some? && w.now.value > frame.received + p.maxFrameAge)
    && (end == Some(EpochRejected) <==> InTime(p, frame, w) && !SameEpoch(w.epochBefore, frame))
    && (end == Some(GateFailed) <==> asked && w.gate.GateRaises?)
    && (end == Some(BudgetRejected) <==> asked && w.gate == GateDecides(false))
    && (end == Some(ProcessorFailed) <==> Admitted(p, frame, w) && w.processor.ProcessorRaises?)
    && (end == Some(Discarded) <==> Admitted(p, frame, w) && !w.processor.ProcessorRaises? && stopped)
    && (end == Some(IdentityRejected) <==> Admitted(p, frame, w) && w.processor.NotAnObservation? && !stopped)
    && (end == None <==> w.now.None? || (asked && w.gate.GateReturnsGarbage?))
  }

  /** Which end a result comes to. */
  ghost predicate ResultEnds(
    p: Policy, id: Identity, frame: Frame, w: World, r: Result, stoppedAtLock: bool, slot: SlotAnswer,
    end: Option<Outcome>)
  {
    && (end == Some(IdentityRejected) <==>
          !NamesFrame(id, frame, r) || (w.identityReadable && !NamesProducer(id, r)))
    && (end == Some(Prohibited) <==> Owned(id, frame, w, r) && r.prohibited)
    && (end == Some(ResultEpochRejected) <==>
          Owned(id, frame, w, r) && !r.prohibited && !SameEpoch(w.epochAfter, frame))
    && (end == Some(Late) <==> Allowed(id, frame, w, r) && w.finished.Some? && !Prompt(p, id, frame, w, r))
    && (end == Some(Oversized) <==> Prompt(p, id, frame, w, r) && w.measurable && r.size > p.maxObservationBytes)
    && (end == Some(Discarded) <==> Publishable(p, id, frame, w, r) && stoppedAtLock)
    && (end == Some(ClosedOut) <==> Publishable(p, id, frame, w, r) && !stoppedAtLock && slot.SlotClosed?)
    && (end == Some(Published) <==> Publishable(p, id, frame, w, r) && !stoppedAtLock && !slot.SlotClosed?)
    && (end == None <==>
          || (NamesFrame(id, frame, r) && !w.identityReadable)
          || (Allowed(id, frame, w, r) && w.finished.None?)
          || (Prompt(p, id, frame, w, r) && !w.measurable))
  }

  /** Every end of a frame is decided by the frame, the limits and what the world answered. */
  ghost predicate EndsAs(
    p: Policy, id: Identity, frame: Frame, w: World, stopped: bool, stoppedAtLock: bool, slot: SlotAnswer,
    end: Option<Outcome>)
  {
    if Answered(p, frame, w, stopped) then ResultEnds(p, id, frame, w, w.processor.result, stoppedAtLock, slot, end)
    else EndsEarly(p, frame, w, stopped, end)
  }

  lemma ResultIsDecided(
    p: Policy, id: Identity, frame: Frame, w: World, r: Result, stoppedAtLock: bool, slot: SlotAnswer)
    ensures
      var end := match JudgeResult(p, id, frame, w, r)
                 case Escape => None
                 case Drop(outcome) => Some(outcome)
                 case Candidate(_) =>
                   Some(if stoppedAtLock then Discarded else if slot.SlotClosed? then ClosedOut else Published);
      ResultEnds(p, id, frame, w, r, stoppedAtLock, slot, end)
  {
  }

  lemma EndIsDecided(
    p: Policy, id: Identity, frame: Frame, w: World, stopped: bool, stoppedAtLock: bool, slot: SlotAnswer)
    ensures EndsAs(p, id, frame, w, stopped, stoppedAtLock, slot, EndOf(p, id, frame, w, stopped, stoppedAtLock, slot))
  {
    if Answered(p, frame, w, stopped) { ResultIsDecided(p, id, frame, w, w.processor.result, stoppedAtLock, slot); }
    hide JudgeResult, ResultEnds;
  }

  /** A frame is published if and only if its publication would honour everything the design promises, the world
      answers all it is asked, no stop comes in between and the slot is open. */
  lemma PublishedExactly(
    p: Policy, id: Identity, frame: Frame, w: World, stopped: bool, stoppedAtLock: bool, slot: SlotAnswer)
    ensures
      EndOf(p, id, frame, w, stopped, stoppedAtLock, slot) == Some(Published) <==>
        && w.processor.Observed? && Honours(p, id, Publication(frame, w.processor.result, w))
        && w.identityReadable && w.measurable && !stopped && !stoppedAtLock && !slot.SlotClosed?
  {
    EndIsDecided(p, id, frame, w, stopped, stoppedAtLock, slot);
    hide Judge, EndOf;
  }

  /** The worker leaves its loop only for a stop, a closed and empty slot, or an exception; an empty slot makes it look
      again. */
  lemma WorkerGoesOn(s: Scheduler, slot: Slot)
    ensures s.stage.Looping? ==> OnLoop(s) == s.(stage := if s.stopRequested then Ended else Taking)
    ensures s.stage.Taking? && slot.pending.None? ==> OnTake(s, slot) == s.(stage := if slot.closed then Ended else Looping)
    ensures s.stage.Persisting? ==> OnPersist(s, true) == s.(stage := Ended) && OnPersist(s, false) == s.(stage := Looping)
  {
  }

  /** A pending frame that meets a good world is published, and the worker comes back for the next. */
  lemma GoodFrameIsPublished(p: Policy, id: Identity, s: Scheduler, slot: Slot, w: World)
    requires s.stage.Looping? && !s.stopRequested && slot.pending.Some?
    requires w.processor.Observed? && Honours(p, id, Publication(slot.pending.value, w.processor.result, w))
    requires w.identityReadable && w.measurable
    ensures
      var frame := slot.pending.value;
      var judged := OnJudge(p, id, OnTake(OnLoop(s), slot), w);
      && judged.stage.Locking? && OnLock(judged).stage.Offering?
      && OnPublish(OnLock(judged), false).stage.Persisting?
      && OnPersist(OnPublish(OnLock(judged), false), false) ==
           s.(taken := s.taken + [frame], outcomes := s.outcomes + [Published],
              published := s.published + [Publication(frame, w.processor.result, w)])
  {
    PublishedExactly(p, id, slot.pending.value, w, false, false, SlotAccepted);
    hide Honours, JudgeResult;
  }

  /** The counter that one outcome raises; a gate that raises shares its counter with unreadable epochs. */
  function CounterOf(c: Counters, outcome: Outcome): nat {
    match outcome
    case Future => c.framesFuture
    case Expired => c.framesExpired
    case EpochRejected => c.framesEpochRejected
    case GateFailed => c.admissionFailures
    case BudgetRejected => c.processingBudgetRejected
    case ProcessorFailed => c.processorFailures
    case IdentityRejected => c.resultsIdentityRejected
    case Prohibited => c.resultsProhibited
    case ResultEpochRejected => c.resultsEpochRejected
    case Late => c.resultsLate
    case Oversized => c.resultsOversized
    case Discarded => c.resultsDiscarded
    case Published => c.observationsPublished
    case ClosedOut => c.observationsClosed
  }

  function Raised(c: Counters, outcome: Outcome): Counters {
    match outcome
    case Future => c.(framesFuture := c.framesFuture + 1)
    case Expired => c.(framesExpired := c.framesExpired + 1)
    case EpochRejected => c.(framesEpochRejected := c.framesEpochRejected + 1)
    case GateFailed => c.(admissionFailures := c.admissionFailures + 1)
    case BudgetRejected => c.(processingBudgetRejected := c.processingBudgetRejected + 1)
    case ProcessorFailed => c.(processorFailures := c.processorFailures + 1)
    case IdentityRejected => c.(resultsIdentityRejected := c.resultsIdentityRejected + 1)
    case Prohibited => c.(resultsProhibited := c.resultsProhibited + 1)
    case ResultEpochRejected => c.(resultsEpochRejected := c.resultsEpochRejected + 1)
    case Late => c.(resultsLate := c.resultsLate + 1)
    case Oversized => c.(resultsOversized := c.resultsOversized + 1)
    case Discarded => c.(resultsDiscarded := c.resultsDiscarded + 1)
    case Published => c.(observationsPublished := c.observationsPublished + 1)
    case ClosedOut => c.(observationsClosed := c.observationsClosed + 1)
  }

  /** The counters after a frame during which some epochs could not be read. */
  function Settled(c: Counters, unreadable: nat, end: Option<Outcome>, slot: SlotAnswer): Counters {
    var d := c.(admissionFailures := c.admissionFailures + unreadable);
    if end.None? then d
    else if end.value.Oversized? then Raised(d, Oversized).(persistenceRejected := d.persistenceRejected + 1)
    else if end.value.Published? && slot.SlotReplaced? then
      Raised(d, Published).(observationsReplaced := d.observationsReplaced + 1)
    else Raised(d, end.value)
  }

  lemma RaisingCounts(c: Counters, outcome: Outcome, o: Outcome)
    ensures
      var d := Raised(c, outcome);
      && CounterOf(d, o) == CounterOf(c, o) + (if outcome == o then 1 else 0) && d.framesTaken == c.framesTaken
      && d.observationsReplaced == c.observationsReplaced && d.persistenceRejected == c.persistenceRejected
  {
  }

  /** The end of a frame raises the counter that names it, and no other but the two that tell more about it. */
  lemma SettlingCountsOnce(c: Counters, unreadable: nat, end: Option<Outcome>, slot: SlotAnswer, o: Outcome)
    ensures
      var d := Settled(c, unreadable, end, slot);
      && CounterOf(d, o) == CounterOf(c, o) + (if end == Some(o) then 1 else 0) + (if o.GateFailed? then unreadable else 0)
      && d.framesTaken == c.framesTaken
      && d.observationsReplaced == c.observationsReplaced + (if end == Some(Published) && slot.SlotReplaced? then 1 else 0)
      && d.persistenceRejected == c.persistenceRejected + (if end == Some(Oversized) then 1 else 0)
  {
    if end.Some? { RaisingCounts(c.(admissionFailures := c.admissionFailures + unreadable), end.value, o); }
    hide Raised;
  }

  lemma SettledPlainly(c: Counters, outcome: Outcome, slot: SlotAnswer)
    requires !outcome.Oversized? && !outcome.Published?
    ensures Settled(c, 0, None, slot) == c && Settled(c, 0, Some(outcome), slot) == Raised(c, outcome)
  {
    hide Raised;
    assert c.(admissionFailures := c.admissionFailures + 0) == c;
  }

  lemma SettledAfterReading(c: Counters, unreadable: nat, slot: SlotAnswer, end: Option<Outcome>)
    ensures Settled(c.(admissionFailures := c.admissionFailures + 1), unreadable, end, slot)
            == Settled(c, unreadable + 1, end, slot)
  {
    hide Raised;
  }

  /** How many of the epochs that are read while a result is judged cannot be. */
  function UnreadableAfter(id: Identity, frame: Frame, w: World, r: Result): nat {
    if Owned(id, frame, w, r) && !r.prohibited && w.epochAfter.EpochInvalid? then 1 else 0
  }

  function Unreadable(p: Policy, id: Identity, frame: Frame, w: World, stopped: bool): nat {
    if !InTime(p, frame, w) then 0
    else if w.epochBefore.EpochInvalid? then 1
    else if Answered(p, frame, w, stopped) then UnreadableAfter(id, frame, w, w.processor.result)
    else 0
  }

  /** The ends before the resource gate is asked. */
  lemma EndsBeforeWork(
    p: Policy, id: Identity, frame: Frame, w: World, stopped: bool, stoppedAtLock: bool, slot: SlotAnswer)
    ensures
      var end := EndOf(p, id, frame, w, stopped, stoppedAtLock, slot);
      var unreadable := Unreadable(p, id, frame, w, stopped);
      if w.now.None? then end == None && unreadable == 0
      else if frame.received > w.now.value then end == Some(Future) && unreadable == 0
      else if w.now.value - frame.received > p.maxFrameAge then end == Some(Expired) && unreadable == 0
      else if !EpochAdmits(w.epochBefore, frame) then
        end == Some(EpochRejected) && unreadable == if w.epochBefore.EpochInvalid? then 1 else 0
      else
        && !w.epochBefore.EpochInvalid?
        && unreadable ==
             if Answered(p, frame, w, stopped) then UnreadableAfter(id, frame, w, w.processor.result) else 0
  {
    hide JudgeResult, UnreadableAfter;
  }

  class LiveScheduler {
    const policy: Policy
    const identity: Identity
    var counters: Counters

    constructor (p: Policy, id: Identity)
      ensures policy == p && identity == id && counters == NO_COUNTS
    {
      policy, identity, counters := p, id, NO_COUNTS;
    }

    method ReadEpoch(reading: EpochReading, frame: Frame) returns (admits: bool)
      modifies this`counters
      ensures admits == EpochAdmits(reading, frame)
      ensures counters == old(counters).(
                admissionFailures := old(counters.admissionFailures) + if reading.EpochInvalid? then 1 else 0)
    {
      if reading.EpochInvalid? {
        counters := counters.(admissionFailures := counters.admissionFailures + 1);
        return false;
      }
      admits := reading.NoEpoch? || reading.epoch == frame.epoch;
    }

    method Increment(outcome: Outcome)
      modifies this`counters
      ensures counters == Raised(old(counters), outcome)
    {
      match outcome
      case Future => counters := counters.(framesFuture := counters.framesFuture + 1);
      case Expired => counters := counters.(framesExpired := counters.framesExpired + 1);
      case EpochRejected => counters := counters.(framesEpochRejected := counters.framesEpochRejected + 1);
      case BudgetRejected => counters := counters.(processingBudgetRejected := counters.processingBudgetRejected + 1);
      case ProcessorFailed => counters := counters.(processorFailures := counters.processorFailures + 1);
      case IdentityRejected => counters := counters.(resultsIdentityRejected := counters.resultsIdentityRejected + 1);
      case Prohibited => counters := counters.(resultsProhibited := counters.resultsProhibited + 1);
      case ResultEpochRejected => counters := counters.(resultsEpochRejected := counters.resultsEpochRejected + 1);
      case Late => counters := counters.(resultsLate := counters.resultsLate + 1);
      case Discarded => counters := counters.(resultsDiscarded := counters.resultsDiscarded + 1);
      case GateFailed => counters := counters.(admissionFailures := counters.admissionFailures + 1);
      case Oversized => counters := counters.(resultsOversized := counters.resultsOversized + 1);
      case Published => counters := counters.(observationsPublished := counters.observationsPublished + 1);
      case ClosedOut => counters := counters.(observationsClosed := counters.observationsClosed + 1);
    }

    /** `_process`: a frame that does not escape raises exactly the one counter that names its end. */
    method Process(frame: Frame, w: World, stopped: bool, stoppedAtLock: bool, slot: SlotAnswer)
      returns (end: Option<Outcome>)
      modifies this`counters
      ensures end == EndOf(policy, identity, frame, w, stopped, stoppedAtLock, slot)
      ensures EndsAs(policy, identity, frame, w, stopped, stoppedAtLock, slot, end)
      ensures counters == Settled(old(counters), Unreadable(policy, identity, frame, w, stopped), end, slot)
    {
      EndIsDecided(policy, identity, frame, w, stopped, stoppedAtLock, slot);
      EndsBeforeWork(policy, identity, frame, w, stopped, stoppedAtLock, slot);
      hide *;
      SettledPlainly(counters, Future, slot);
      if w.now.None? {
        return None;
      }
      if frame.received > w.now.value {
        Increment(Future);
        return Some(Future);
      }
      if w.now.value - frame.received > policy.maxFrameAge {
        SettledPlainly(counters, Expired, slot);
        Increment(Expired);
        return Some(Expired);
      }
      ghost var before := counters;
      var admits := ReadEpoch(w.epochBefore, frame);
      if !admits {
        SettledPlainly(counters, EpochRejected, slot);
        SettledAfterReading(before, 0, slot, Some(EpochRejected));
        Increment(EpochRejected);
        return Some(EpochRejected);
      }
      end := Work(frame, w, stopped, stoppedAtLock, slot);
    }

    /** From the resource gate to the end. */
    method Work(frame: Frame, w: World, stopped: bool, stoppedAtLock: bool, slot: SlotAnswer)
      returns (end: Option<Outcome>)
      requires w.now.Some? && frame.received <= w.now.value <= frame.received + policy.maxFrameAge
      requires EpochAdmits(w.epochBefore, frame)
      modifies this`counters
      ensures end == EndOf(policy, identity, frame, w, stopped, stoppedAtLock, slot)
      ensures counters ==
              Settled(old(counters),
                      if Answered(policy, frame, w, stopped)
                      then UnreadableAfter(identity, frame, w, w.processor.result) else 0, end, slot)
    {
      hide JudgeResult;
      if w.gate.GateRaises? {
        Increment(GateFailed);
        return Some(GateFailed);
      }
      if w.gate.GateReturnsGarbage? {
        return None;
      }
      if !w.gate.allow {
        Increment(BudgetRejected);
        return Some(BudgetRejected);
      }
      if w.processor.ProcessorRaises? {
        Increment(ProcessorFailed);
        return Some(ProcessorFailed);
      }
      if stopped {
        Increment(Discarded);
        return Some(Discarded);
      }
      if w.processor.NotAnObservation? {
        Increment(IdentityRejected);
        return Some(IdentityRejected);
      }
      end := Accept(frame, w, w.processor.result, stoppedAtLock, slot);
    }

    /** The second half of `_process`, from the identity check to the publication. */
    method Accept(frame: Frame, w: World, r: Result, stoppedAtLock: bool, slot: SlotAnswer)
      returns (end: Option<Outcome>)
      modifies this`counters
      ensures end == match JudgeResult(policy, identity, frame, w, r)
                     case Escape => None
                     case Drop(outcome) => Some(outcome)
                     case Candidate(_) =>
                       Some(if stoppedAtLock then Discarded else if slot.SlotClosed? then ClosedOut else Published)
      ensures ResultEnds(policy, identity, frame, w, r, stoppedAtLock, slot, end)
      ensures counters == Settled(old(counters), UnreadableAfter(identity, frame, w, r), end, slot)
    {
      ResultIsDecided(policy, identity, frame, w, r, stoppedAtLock, slot);
      hide ResultEnds;
      if !FrameMatches(identity, frame, r) {
        Increment(IdentityRejected);
        return Some(IdentityRejected);
      }
      if !w.identityReadable {
        return None;
      }
      if r.producer != identity.producer || r.producerVersion != identity.producerVersion {
        Increment(IdentityRejected);
        return Some(IdentityRejected);
      }
      if r.prohibited {
        Increment(Prohibited);
        return Some(Prohibited);
      }
      var admits := ReadEpoch(w.epochAfter, frame);
      if !admits {
        Increment(ResultEpochRejected);
        return Some(ResultEpochRejected);
      }
      if w.finished.None? {
        return None;
      }
      if w.finished.value < frame.received || w.finished.value - frame.received > policy.maxResultAge {
        Increment(Late);
        return Some(Late);
      }
      if !w.measurable {
        return None;
      }
      if r.size > policy.maxObservationBytes {
        Increment(Oversized);
        counters := counters.(persistenceRejected := counters.persistenceRejected + 1);
        return Some(Oversized);
      }
      if stoppedAtLock {
        Increment(Discarded);
        return Some(Discarded);
      }
      if slot.SlotClosed? {
        Increment(ClosedOut);
        return Some(ClosedOut);
      }
      Increment(Published);
      if slot.SlotReplaced? {
        counters := counters.(observationsReplaced := counters.observationsReplaced + 1);
      }
      end := Some(Published);
    }
  }
}
