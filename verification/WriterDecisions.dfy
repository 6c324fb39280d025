/** What a writer gets done: a store that works is drained, and one that may still be in use is never let go. */
module WriterDecisions {
  import opened Common
  import opened WriterMachine

  // ---- the store is kept until it is closed -----------------------------------------------

  /** The worker has the published store in its hands. */
  predicate HasStore(worker: Worker) {
    worker.Idle? || worker.Putting? || (worker.Closing? && worker.store) || (worker.Finishing? && worker.store)
  }

  /** A published store is in the worker's hands; while it is, the worker has not let go of it. */
  predicate Serving(w: Writer) {
    && (w.activeStore ==> HasStore(w.worker))
    && (w.worker.Idle? || w.worker.Putting? ==> w.activeStore)
    && (w.worker.Finishing? && w.worker.store ==> w.closes != [])
  }

  /** What callers leave to the worker. */
  predicate StoreFrame(w: Writer, d: Writer) {
    && d.activeStore == w.activeStore && d.closes == w.closes && (w.retainedStore ==> d.retainedStore)
    && (d.worker == w.worker || (w.worker.Unborn? && d.worker.Creating?))
  }

  lemma StartFrames(w: Writer)
    ensures StoreFrame(w, Start(w)) && StoreFrame(w, StartTimedOut(w))
  {
  }

  lemma SubmitFrames(l: Limits, w: Writer, envelope: nat, size: Option<nat>)
    ensures StoreFrame(w, Submit(l, w, envelope, size))
  {
    hide Enqueue, Answer;
  }

  lemma StopAtOnceFrames(w: Writer)
    ensures StoreFrame(w, StopAtOnce(w))
  {
  }

  lemma StopAndJoinFrames(w: Writer, drain: bool)
    ensures StoreFrame(w, StopAndJoin(w, drain))
  {
    hide DiscardPending;
  }

  lemma StopEndFrames(w: Writer)
    requires w.joining.Some?
    ensures StoreFrame(w, StopEnd(w))
  {
    hide Alive;
  }

  lemma StopFrames(w: Writer, drain: bool)
    ensures StoreFrame(w, StopBegin(w, drain)) && (w.joining.Some? ==> StoreFrame(w, StopEnd(w)))
  {
    StopAtOnceFrames(w);
    StopAndJoinFrames(w, drain);
    if w.joining.Some? { StopEndFrames(w); }
    hide StoreFrame, StopAtOnce, StopAndJoin, StopEnd;
  }

  lemma NothingFrames(w: Writer)
    ensures StoreFrame(w, w)
  {
  }

  lemma CallerFrames(l: Limits, w: Writer, e: Event)
    requires FromCaller(e)
    ensures StoreFrame(w, Step(l, w, e))
  {
    NothingFrames(w);
    hide StoreFrame, Start, StartTimedOut, Submit, StopBegin, StopEnd;
    match e
    case StartEvent => StartFrames(w);
    case StartTimeoutEvent => StartFrames(w);
    case SubmitEvent(envelope, size) => SubmitFrames(l, w, envelope, size);
    case StopBeginEvent(drain) => StopFrames(w, drain);
    case StopEndEvent => StopFrames(w, true);
  }

  lemma CallerServes(l: Limits, w: Writer, e: Event)
    requires Serving(w) && FromCaller(e)
    ensures Serving(Step(l, w, e))
  {
    CallerFrames(l, w, e);
    hide Step;
  }

  lemma WorkerServes(l: Limits, w: Writer, e: Event)
    requires Serving(w) && !FromCaller(e)
    ensures Serving(Step(l, w, e))
  {
    hide DiscardPending, Handle, Dequeue, Submit, StopBegin, StopEnd, StartTimedOut, Start;
    if e.TakeEvent? || e.PutReturnsEvent? || e.PutRaisesEvent? {
      hide FactoryFails, Publish, CloseStore, Finish, Die;
    } else {
      hide Take, PutReturns, PutRaises;
    }
  }

  lemma StepServes(l: Limits, w: Writer, e: Event)
    requires Serving(w)
    ensures Serving(Step(l, w, e))
  {
    hide Serving, Step;
    if FromCaller(e) { CallerServes(l, w, e); } else { WorkerServes(l, w, e); }
  }

  /** Over every run: whenever a published store ceases to be the active one, it has been closed; and while it is the
      active one, a stop whose join times out retains it, says so and leaves the writer STUCK. */
  lemma {:induction false} EveryRunServes(l: Limits, w: Writer, events: seq<Event>)
    requires Serving(w)
    ensures Serving(Run(l, w, events))
    decreases |events|
  {
    hide Serving, Step;
    if events != [] {
      StepServes(l, w, events[0]);
      EveryRunServes(l, Step(l, w, events[0]), events[1..]);
    }
  }

  lemma ActiveStoreIsKept(l: Limits, events: seq<Event>, e: Event)
    ensures
      var w := Run(l, NEW_WRITER, events);
      var d := Step(l, w, e);
      && (w.activeStore && !d.activeStore ==>
            d.closes != [] && (w.state.Stuck? ==> d.state.Stuck? && d.retainedStore))
      && (w.retainedStore ==> d.retainedStore)
      && (e.StopEndEvent? && w.joining.Some? && (w.worker.Idle? || w.worker.Putting?) ==>
            d.state.Stuck? && d.failure == Some(StopTimeout) && d.retainedStore && d.activeStore)
  {
    EveryRunServes(l, NEW_WRITER, events);
    var w := Run(l, NEW_WRITER, events);
    hide Run;
    if FromCaller(e) { CallerKeepsStore(l, w, e); } else { WorkerKeepsStore(l, w, e); }
    hide Step, Serving;
  }

  lemma CallerKeepsStore(l: Limits, w: Writer, e: Event)
    requires Serving(w) && FromCaller(e)
    ensures
      var d := Step(l, w, e);
      && d.activeStore == w.activeStore && (w.retainedStore ==> d.retainedStore)
      && (e.StopEndEvent? && w.joining.Some? && (w.worker.Idle? || w.worker.Putting?) ==>
            d.state.Stuck? && d.failure == Some(StopTimeout) && d.retainedStore && d.activeStore)
  {
    CallerFrames(l, w, e);
    if e.StopEndEvent? && w.joining.Some? { assert Step(l, w, e) == StopEnd(w); }
    hide Step;
  }

  lemma WorkerKeepsStore(l: Limits, w: Writer, e: Event)
    requires Serving(w) && !FromCaller(e)
    ensures
      var d := Step(l, w, e);
      && (w.activeStore && !d.activeStore ==>
            d.closes != [] && (w.state.Stuck? ==> d.state.Stuck? && d.retainedStore))
      && (w.retainedStore ==> d.retainedStore)
  {
    hide DiscardPending, Handle, Dequeue, Submit, StopBegin, StopEnd, StartTimedOut, Start;
  }

  // ---- what a stop reports ------------------------------------------------------------------

  /** A stop that reports at once does so cleanly if and only if the writer had stopped or never started; one that
      joins the worker will report what it discarded: nothing if it drains, else all that was queued. */
  lemma StopBeginDecides(w: Writer, drain: bool)
    ensures
      var d := StopBegin(w, drain);
      && (w.state.Stopped? || w.worker.Unborn? ==>
            && d.flow == w.flow && d.joining == w.joining
            && d.state == ReportAtOnce(w).state
            && ReportAtOnce(w) ==
                 (if w.state.Stopped? || w.state.New? then StopReport(Stopped, true, 0)
                  else StopReport(w.state, false, 0)))
      && (!w.state.Stopped? && !w.worker.Unborn? ==>
            && d.joining == Some(d.flow.discarded - w.flow.discarded)
            && d.flow.queue == (if w.state.Running? && !drain then [] else w.flow.queue)
            && (!w.state.Draining? ==> d.stopRequested && d.drainRequested == drain)
            && d.state == if w.state.Running? then Draining else w.state)
  {
  }

  /** A stop reports after its join what is then the state, cleanly if and only if the worker ended STOPPED. */
  lemma StopEndDecides(w: Writer)
    requires w.joining.Some?
    ensures
      var d, r := StopEnd(w), ReportAfterJoin(w);
      && r.discarded == w.joining.value && r.state == d.state
      && (r.clean <==> w.worker in {Unborn, Gone} && w.state.Stopped?)
      && (w.worker !in {Unborn, Gone} ==> d.state.Stuck?) && (w.worker in {Unborn, Gone} ==> d.state == w.state)
  {
  }

  // ---- a store that works is drained --------------------------------------------------------------

  lemma {:induction false} RunJoins(l: Limits, w: Writer, a: seq<Event>, b: seq<Event>)
    ensures Run(l, w, a + b) == Run(l, Run(l, w, a), b)
    decreases |a|
  {
    hide Step;
    if a == [] {
      assert a + b == b;
    } else {
      assert (a + b)[0] == a[0] && (a + b)[1..] == a[1..] + b;
      RunJoins(l, Step(l, w, a[0]), a[1..], b);
    }
  }

  lemma RunTakes(l: Limits, w: Writer, e: Event, more: seq<Event>)
    ensures Run(l, w, [e] + more) == Run(l, Step(l, w, e), more)
  {
    hide Step;
    assert ([e] + more)[0] == e && ([e] + more)[1..] == more;
  }

  /** Submissions of envelopes that can be measured. */
  function SubmitEvents(items: seq<Pending>): seq<Event>
    decreases |items|
  {
    if items == [] then []
    else [SubmitEvent(items[0].envelope, Some(items[0].canonicalBytes))] + SubmitEvents(items[1..])
  }

  /** The store takes as many items as there are statuses. */
  function PutEvents(statuses: seq<Status>): seq<Event>
    decreases |statuses|
  {
    if statuses == [] then [] else [TakeEvent, PutReturnsEvent(statuses[0])] + PutEvents(statuses[1..])
  }

  /** A running writer queues whatever fits in its limits. */
  lemma {:induction false} FittingItemsAreQueued(l: Limits, w: Writer, items: seq<Pending>)
    requires w.state.Running? && |w.flow.queue| + |items| <= l.maxPendingCount
    requires w.flow.pendingBytes + Bytes(items) <= l.maxPendingBytes
    ensures
      var d := Run(l, w, SubmitEvents(items));
      d == w.(flow := d.flow) && d.flow.queue == w.flow.queue + items
      && d.flow.hand == w.flow.hand && d.flow.handled == w.flow.handled && d.flow.answers == w.flow.answers
      && d.flow.dropped == w.flow.dropped && d.flow.discarded == w.flow.discarded
      && d.flow.pendingBytes == w.flow.pendingBytes + Bytes(items)
    decreases |items|
  {
    if items == [] {
      assert w.flow.queue + [] == w.flow.queue;
    } else {
      var e := SubmitEvent(items[0].envelope, Some(items[0].canonicalBytes));
      assert Pending(items[0].envelope, items[0].canonicalBytes) == items[0];
      var next := Step(l, w, e);
      assert next == w.(flow := Enqueue(w.flow, items[0]));
      RunTakes(l, w, e, SubmitEvents(items[1..]));
      FittingItemsAreQueued(l, next, items[1..]);
      assert (w.flow.queue + [items[0]]) + items[1..] == w.flow.queue + items;
      hide Step, Run;
    }
  }

  /** A draining writer whose store returns puts its queue in order, one by one. */
  lemma {:induction false} QueueIsPut(l: Limits, w: Writer, statuses: seq<Status>)
    requires w.worker.Idle? && |w.flow.queue| == |statuses| && w.drainRequested && !w.inFlight && w.flow.hand == []
    ensures
      var d := Run(l, w, PutEvents(statuses));
      && d == w.(flow := d.flow) && d.flow.queue == [] && d.flow.hand == []
      && d.flow.handled == w.flow.handled + w.flow.queue && d.flow.answers == w.flow.answers + statuses
      && d.flow.dropped == w.flow.dropped && d.flow.discarded == w.flow.discarded
    decreases |statuses|
  {
    if statuses == [] {
      assert w.flow.handled + [] == w.flow.handled && w.flow.answers + [] == w.flow.answers;
    } else {
      var rest := PutEvents(statuses[1..]);
      assert PutEvents(statuses) == [TakeEvent] + ([PutReturnsEvent(statuses[0])] + rest);
      RunTakes(l, w, TakeEvent, [PutReturnsEvent(statuses[0])] + rest);
      var taken := Step(l, w, TakeEvent);
      RunTakes(l, taken, PutReturnsEvent(statuses[0]), rest);
      var next := Step(l, taken, PutReturnsEvent(statuses[0]));
      OneIsPut(l, w, statuses[0]);
      hide Step, Run;
      QueueIsPut(l, next, statuses[1..]);
      assert w.flow.handled + [w.flow.queue[0]] + w.flow.queue[1..] == w.flow.handled + w.flow.queue;
      assert w.flow.answers + [statuses[0]] + statuses[1..] == w.flow.answers + statuses;
    }
  }

  lemma OneIsPut(l: Limits, w: Writer, status: Status)
    requires w.worker.Idle? && w.flow.queue != [] && w.drainRequested && !w.inFlight && w.flow.hand == []
    ensures
      var d := Step(l, Step(l, w, TakeEvent), PutReturnsEvent(status));
      && d == w.(flow := d.flow) && d.flow.queue == w.flow.queue[1..] && d.flow.hand == []
      && d.flow.handled == w.flow.handled + [w.flow.queue[0]] && d.flow.answers == w.flow.answers + [status]
      && d.flow.dropped == w.flow.dropped && d.flow.discarded == w.flow.discarded
  {
  }

  /** The worker leaves its loop, closes its store and ends. */
  const ENDING: seq<Event> := [TakeEvent, CloseEvent(false), FinishEvent, DieEvent]

  lemma FinishEnds(w: Writer)
    requires w.worker == Finishing(true, false)
    ensures Finish(w) == w.(
              inFlight := false, activeStore := false, ready := true, worker := Exiting,
              retainedStore := w.retainedStore || w.state.Stuck?,
              state := if w.state.Stuck? || w.state.Failing? then w.state else Stopped)
  {
  }

  lemma EndingRuns(l: Limits, w: Writer)
    ensures Run(l, w, ENDING) ==
            Step(l, Step(l, Step(l, Step(l, w, TakeEvent), CloseEvent(false)), FinishEvent), DieEvent)
  {
    assert ENDING == [TakeEvent] + ([CloseEvent(false)] + ([FinishEvent] + ([DieEvent] + [])));
    var c1 := Step(l, w, TakeEvent);
    var c2 := Step(l, c1, CloseEvent(false));
    var c3 := Step(l, c2, FinishEvent);
    RunTakes(l, w, TakeEvent, [CloseEvent(false)] + ([FinishEvent] + ([DieEvent] + [])));
    RunTakes(l, c1, CloseEvent(false), [FinishEvent] + ([DieEvent] + []));
    RunTakes(l, c2, FinishEvent, [DieEvent] + []);
    RunTakes(l, c3, DieEvent, []);
    hide Step;
  }

  lemma WorkerEnds(l: Limits, w: Writer)
    requires w.worker.Idle? && w.flow.queue == [] && w.stopRequested
    ensures
      var d := Run(l, w, ENDING);
      && d.worker.Gone? && d.flow == w.flow && d.joining == w.joining && d.failure == w.failure
      && d.closes == w.closes + [CloseCall(false, |w.flow.handled|)] && !d.activeStore
      && d.state == (if w.state.Stuck? || w.state.Failing? then w.state else Stopped)
      && (w.state.Stuck? ==> d.retainedStore)
  {
    EndingRuns(l, w);
    var c1 := w.(worker := Closing(true));
    var c2 := c1.(worker := Finishing(true, false), closes := w.closes + [CloseCall(false, |w.flow.handled|)]);
    assert Step(l, w, TakeEvent) == c1;
    assert Step(l, c1, CloseEvent(false)) == c2;
    assert Step(l, c2, FinishEvent) == Finish(c2);
    FinishEnds(c2);
    assert Step(l, Finish(c2), DieEvent) == Finish(c2).(worker := Gone);
    hide *;
  }

  /** A session: a start, submissions that fit, a stop, and the worker's way to its end. */
  function SessionEvents(items: seq<Pending>, drain: bool, statuses: seq<Status>): seq<Event> {
    [StartEvent, PublishEvent] + (SubmitEvents(items) + ([StopBeginEvent(drain)] + (PutEvents(statuses) + ENDING)))
  }

  lemma SessionSubmits(l: Limits, items: seq<Pending>, more: seq<Event>)
    requires |items| <= l.maxPendingCount && Bytes(items) <= l.maxPendingBytes
    ensures
      var begun := Step(l, Step(l, NEW_WRITER, StartEvent), PublishEvent);
      var d := Run(l, begun, SubmitEvents(items));
      && Run(l, NEW_WRITER, [StartEvent, PublishEvent] + (SubmitEvents(items) + more)) == Run(l, d, more)
      && d == begun.(flow := d.flow) && d.flow.queue == items && d.flow.hand == [] && d.flow.handled == []
      && d.flow.answers == [] && d.flow.dropped == [] && d.flow.discarded == 0
      && begun.state.Running? && begun.worker.Idle? && begun.activeStore && begun.joining.None? && begun.closes == []
      && !begun.inFlight && !begun.stopRequested
  {
    var begun := Step(l, Step(l, NEW_WRITER, StartEvent), PublishEvent);
    var rest := SubmitEvents(items) + more;
    assert [StartEvent, PublishEvent] + rest == [StartEvent] + ([PublishEvent] + rest);
    RunTakes(l, NEW_WRITER, StartEvent, [PublishEvent] + rest);
    RunTakes(l, Step(l, NEW_WRITER, StartEvent), PublishEvent, rest);
    assert begun.state.Running? && begun.flow == NO_FLOW;
    FittingItemsAreQueued(l, begun, items);
    RunJoins(l, begun, SubmitEvents(items), more);
    hide Run;
    assert [] + items == items;
  }

  /** A stop that drains leaves a store that works with everything submitted, in order, closed once after the last put,
      and reports cleanly that nothing was discarded. */
  lemma WorkingStoreIsDrained(l: Limits, items: seq<Pending>, statuses: seq<Status>)
    requires |items| <= l.maxPendingCount && Bytes(items) <= l.maxPendingBytes && |statuses| == |items|
    ensures
      var w := Run(l, NEW_WRITER, SessionEvents(items, true, statuses));
      && w.flow.handled == items && w.flow.answers == statuses && w.flow.discarded == 0
      && w.closes == [CloseCall(false, |items|)]
      && w.joining.Some? && ReportAfterJoin(w) == StopReport(Stopped, true, 0)
  {
    var more := PutEvents(statuses) + ENDING;
    SessionSubmits(l, items, [StopBeginEvent(true)] + more);
    var begun := Step(l, Step(l, NEW_WRITER, StartEvent), PublishEvent);
    var filled := Run(l, begun, SubmitEvents(items));
    RunTakes(l, filled, StopBeginEvent(true), more);
    var stopping := Step(l, filled, StopBeginEvent(true));
    assert stopping == filled.(state := Draining, stopRequested := true, drainRequested := true,
                                firstStop := Some(true), joining := Some(0));
    RunJoins(l, stopping, PutEvents(statuses), ENDING);
    hide Run, Step;
    QueueIsPut(l, stopping, statuses);
    assert [] + items == items && [] + statuses == statuses;
    WorkerEnds(l, Run(l, stopping, PutEvents(statuses)));
    assert [] + [CloseCall(false, |items|)] == [CloseCall(false, |items|)];
  }

  /** A stop that does not drain discards everything queued and says how much. */
  lemma WorkingStoreIsCutOff(l: Limits, items: seq<Pending>)
    requires |items| <= l.maxPendingCount && Bytes(items) <= l.maxPendingBytes
    ensures
      var w := Run(l, NEW_WRITER, SessionEvents(items, false, []));
      && w.flow.handled == [] && w.flow.dropped == items && w.flow.discarded == |items|
      && w.closes == [CloseCall(false, 0)]
      && w.joining.Some? && ReportAfterJoin(w) == StopReport(Stopped, true, |items|)
  {
    assert PutEvents([]) + ENDING == ENDING;
    SessionSubmits(l, items, [StopBeginEvent(false)] + ENDING);
    var begun := Step(l, Step(l, NEW_WRITER, StartEvent), PublishEvent);
    var filled := Run(l, begun, SubmitEvents(items));
    RunTakes(l, filled, StopBeginEvent(false), ENDING);
    var stopping := Step(l, filled, StopBeginEvent(false));
    assert stopping == filled.(state := Draining, stopRequested := true, drainRequested := false,
                                firstStop := Some(false), joining := Some(|items|), flow := DiscardPending(filled.flow));
    assert items + [] == items;
    hide Run, Step;
    WorkerEnds(l, stopping);
    assert [] + [CloseCall(false, 0)] == [CloseCall(false, 0)];
  }

  /** A start that times out leaves a writer that accepts nothing; if its store appears after all, the worker closes it
      and the writer keeps hold of it, STUCK. */
  lemma LateStoreIsClosed(l: Limits, w: Writer)
    requires w.worker.Creating? && !w.ready && w.flow.queue == []
    ensures
      var d := Run(l, w, [StartTimeoutEvent, PublishEvent] + ENDING);
      && d.state.Stuck? && d.failure == Some(FactoryReadyTimeout) && d.worker.Gone? && d.retainedStore
      && d.closes == w.closes + [CloseCall(false, |w.flow.handled|)] && d.flow == w.flow
  {
    var c1 := Step(l, w, StartTimeoutEvent);
    var c2 := Step(l, c1, PublishEvent);
    assert [StartTimeoutEvent, PublishEvent] + ENDING == [StartTimeoutEvent] + ([PublishEvent] + ENDING);
    RunTakes(l, w, StartTimeoutEvent, [PublishEvent] + ENDING);
    RunTakes(l, c1, PublishEvent, ENDING);
    assert c2.worker.Idle? && c2.state.Stuck? && c2.stopRequested && c2.flow == w.flow && c2.closes == w.closes;
    WorkerEnds(l, c2);
    hide Run, Step;
  }
}
