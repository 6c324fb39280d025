/** The single-owner writer as a machine: one step is one region under its condition, or one store call. */
module WriterMachine {
  import opened Common

  datatype WriterState = New | Running | Draining | Stopped | Failing | Stuck

  /** A queued envelope, which the writer never looks into, and its canonical size. */
  datatype Pending = Pending(envelope: nat, canonicalBytes: nat)

  datatype FailureReason =
    | FactoryReadyTimeout | StoreFactoryFailed | StorePutFailed | StoreCloseFailed | StopTimeout

  /** Where the worker thread is. After its last locked region it is still alive for a while. */
  datatype Worker =
    | Unborn
    | Creating
    | Idle
    | Putting(item: Pending)
    | Closing(store: bool)
    | Finishing(store: bool, closeFailed: bool)
    | Exiting
    | Gone

  /** A call of `close` that has returned, and how many items had been put by then. */
  datatype CloseCall = CloseCall(raised: bool, after: nat)

  datatype SubmissionStatus = Queued | Refused | ClosedForSubmission

  datatype Limits = Limits(maxPendingCount: nat, maxPendingBytes: nat)

  /** The items on their way: the queue with its byte count, the item in the worker's hands, the counters, and
      the history of what was queued, what was put and how each put ended, whether one raised, and what was
      discarded. */
  datatype Flow = Flow(
    queue: seq<Pending>, pendingBytes: int, hand: seq<Pending>,
    queued: nat, accepted: nat, coalesced: nat, putRejected: nat, putFailed: nat, discarded: nat,
    submitted: seq<Pending>, handled: seq<Pending>, answers: seq<Status>, raised: bool, dropped: seq<Pending>)

  const NO_FLOW := Flow([], 0, [], 0, 0, 0, 0, 0, 0, [], [], [], false, [])

  /** The writer's fields, its worker's position, the stop call that waits in `join`, the closes of its store,
      and whether the stop that left RUNNING asked to drain. */
  datatype Writer = Writer(
    state: WriterState, failure: Option<FailureReason>,
    stopRequested: bool, drainRequested: bool, ready: bool, inFlight: bool, rejected: nat,
    activeStore: bool, retainedStore: bool,
    worker: Worker, joining: Option<nat>, flow: Flow, closes: seq<CloseCall>, firstStop: Option<bool>)

  const NEW_WRITER := Writer(
    New, None, false, false, false, false, 0, false, false, Unborn, None, NO_FLOW, [], None)

  function Bytes(items: seq<Pending>): nat {
    if items == [] then 0 else items[0].canonicalBytes + Bytes(items[1..])
  }

  // ---- items --------------------------------------------------------------

  function Enqueue(f: Flow, item: Pending): Flow {
    f.(queue := f.queue + [item], pendingBytes := f.pendingBytes + item.canonicalBytes, queued := f.queued + 1,
       submitted := f.submitted + [item])
  }

  function Dequeue(f: Flow): Flow
    requires f.queue != []
  {
    f.(queue := f.queue[1..], pendingBytes := f.pendingBytes - f.queue[0].canonicalBytes, hand := [f.queue[0]])
  }

  function Count(f: Flow, status: Status): Flow {
    match status
    case Accepted => f.(accepted := f.accepted + 1)
    case Coalesced => f.(coalesced := f.coalesced + 1)
    case Rejected => f.(putRejected := f.putRejected + 1)
    case Failed => f.(putFailed := f.putFailed + 1)
  }

  /** The item in hand has been put. */
  function Handle(f: Flow, status: Status): Flow {
    Count(f, status).(handled := f.handled + f.hand, answers := f.answers + [status], hand := [])
  }

  function DiscardPending(f: Flow): Flow {
    f.(discarded := f.discarded + |f.queue|, dropped := f.queue + f.dropped, queue := [], pendingBytes := 0)
  }

  predicate Alive(w: Writer) { !w.worker.Unborn? && !w.worker.Gone? }

  // ---- callers ------------------------------------------------------------

  /** `start`, up to `thread.start()`; refused once started or no longer new. */
  function Start(w: Writer): Writer {
    if !w.worker.Unborn? || !w.state.New? then w else w.(worker := Creating)
  }

  /** The ready wait of `start` has timed out. */
  function StartTimedOut(w: Writer): Writer {
    if w.ready then w else w.(state := Stuck, failure := Some(FactoryReadyTimeout), stopRequested := true)
  }

  /** The answer of `submit` for an envelope of the given canonical size, or None if it cannot be measured
      within the pending-byte limit. */
  function Answer(l: Limits, w: Writer, size: Option<nat>): SubmissionStatus {
    if size.None? then Refused
    else if !w.state.Running? then ClosedForSubmission
    else if |w.flow.queue| >= l.maxPendingCount then Refused
    else if w.flow.pendingBytes + size.value > l.maxPendingBytes then Refused
    else Queued
  }

  function Submit(l: Limits, w: Writer, envelope: nat, size: Option<nat>): Writer {
    if Answer(l, w, size).Queued? then w.(flow := Enqueue(w.flow, Pending(envelope, size.value)))
    else w.(rejected := w.rejected + 1)
  }

  datatype StopReport = StopReport(state: WriterState, clean: bool, discarded: nat)

  /** A stop that reports from its first region, without joining the worker. */
  predicate StopsAtOnce(w: Writer) { w.state.Stopped? || w.worker.Unborn? }

  function StopAtOnce(w: Writer): Writer {
    if w.state.New? then w.(state := Stopped) else w
  }

  function ReportAtOnce(w: Writer): StopReport {
    if w.state.Stopped? || w.state.New? then StopReport(Stopped, true, 0) else StopReport(w.state, false, 0)
  }

  /** The first region of a stop that goes on to join the worker. */
  function StopAndJoin(w: Writer, drain: bool): Writer {
    if w.state.Running? then
      w.(state := Draining, stopRequested := true, drainRequested := drain, firstStop := Some(drain),
         flow := if drain then w.flow else DiscardPending(w.flow),
         joining := Some(if drain then 0 else |w.flow.queue|))
    else if w.state.Draining? then w.(joining := Some(0))
    else w.(stopRequested := true, drainRequested := drain, joining := Some(0))
  }

  function StopBegin(w: Writer, drain: bool): Writer {
    if StopsAtOnce(w) then StopAtOnce(w) else StopAndJoin(w, drain)
  }

  /** The last region of a stop, once `join` has returned: by the thread's death or by its timeout. */
  function StopEnd(w: Writer): Writer
    requires w.joining.Some?
  {
    if Alive(w) then
      w.(joining := None, state := Stuck, failure := Some(StopTimeout),
         retainedStore := w.retainedStore || w.activeStore)
    else w.(joining := None)
  }

  function ReportAfterJoin(w: Writer): StopReport
    requires w.joining.Some?
  {
    if Alive(w) then StopReport(Stuck, false, w.joining.value)
    else StopReport(w.state, w.state.Stopped?, w.joining.value)
  }

  // ---- the worker ---------------------------------------------------------

  /** The factory raised, or returned something that is not a store. */
  function FactoryFails(w: Writer, returnedObject: bool): Writer
    requires w.worker.Creating?
  {
    w.(flow := DiscardPending(w.flow), state := Failing, failure := Some(StoreFactoryFailed), ready := true,
       worker := Closing(returnedObject))
  }

  function Publish(w: Writer): Writer
    requires w.worker.Creating?
  {
    var state := if w.state.Stuck? then Stuck else if w.stopRequested then Draining else Running;
    w.(activeStore := true, state := state, ready := true, worker := Idle)
  }

  /** The loop head; the worker waits while the queue is empty and nobody asked it to stop. */
  function Take(w: Writer): Writer
    requires w.worker.Idle?
  {
    if w.flow.queue != [] then
      w.(flow := Dequeue(w.flow), inFlight := true, worker := Putting(w.flow.queue[0]))
    else if w.stopRequested then w.(worker := Closing(true))
    else w
  }

  function PutReturns(w: Writer, status: Status): Writer
    requires w.worker.Putting?
  {
    w.(inFlight := false, flow := Handle(w.flow, status),
       worker := if w.stopRequested && !w.drainRequested then Closing(true) else Idle)
  }

  /** The store raised, or returned something that is not a receipt. */
  function PutRaises(w: Writer): Writer
    requires w.worker.Putting?
  {
    w.(inFlight := false, flow := DiscardPending(Handle(w.flow, Failed).(raised := true)),
       state := Failing, failure := Some(StorePutFailed), worker := Closing(true))
  }

  function CloseStore(w: Writer, raises: bool): Writer
    requires w.worker.Closing?
  {
    if !w.worker.store then w.(worker := Finishing(false, false))
    else w.(worker := Finishing(true, raises), closes := w.closes + [CloseCall(raises, |w.flow.handled|)])
  }

  /** The last region of the worker. */
  function Finish(w: Writer): Writer
    requires w.worker.Finishing?
  {
    var v := w.(inFlight := false, activeStore := false, ready := true, worker := Exiting);
    if w.state.Stuck? then v.(retainedStore := w.retainedStore || w.worker.store)
    else if w.worker.closeFailed then v.(state := Failing, failure := Some(StoreCloseFailed))
    else if !w.state.Failing? then v.(state := Stopped)
    else v
  }

  function Die(w: Writer): Writer
    requires w.worker.Exiting?
  {
    w.(worker := Gone)
  }

  // ---- runs ---------------------------------------------------------------

  datatype Event =
    | StartEvent | StartTimeoutEvent
    | SubmitEvent(envelope: nat, size: Option<nat>)
    | StopBeginEvent(drain: bool) | StopEndEvent
    | FactoryFailsEvent(returnedObject: bool) | PublishEvent
    | TakeEvent | PutReturnsEvent(status: Status) | PutRaisesEvent
    | CloseEvent(raises: bool) | FinishEvent | DieEvent

  /** Any caller or the worker moves; stops are serialised, and an event that is not enabled changes nothing. */
  function Step(l: Limits, w: Writer, e: Event): Writer {
    match e
    case StartEvent => Start(w)
    case StartTimeoutEvent => if w.worker.Unborn? then w else StartTimedOut(w)
    case SubmitEvent(envelope, size) => Submit(l, w, envelope, size)
    case StopBeginEvent(drain) => if w.joining.None? then StopBegin(w, drain) else w
    case StopEndEvent => if w.joining.Some? then StopEnd(w) else w
    case FactoryFailsEvent(returnedObject) => if w.worker.Creating? then FactoryFails(w, returnedObject) else w
    case PublishEvent => if w.worker.Creating? then Publish(w) else w
    case TakeEvent => if w.worker.Idle? then Take(w) else w
    case PutReturnsEvent(status) => if w.worker.Putting? then PutReturns(w, status) else w
    case PutRaisesEvent => if w.worker.Putting? then PutRaises(w) else w
    case CloseEvent(raises) => if w.worker.Closing? then CloseStore(w, raises) else w
    case FinishEvent => if w.worker.Finishing? then Finish(w) else w
    case DieEvent => if w.worker.Exiting? then Die(w) else w
  }

  function Run(l: Limits, w: Writer, events: seq<Event>): Writer
    decreases |events|
  {
    if events == [] then w else Run(l, Step(l, w, events[0]), events[1..])
  }

  // ---- the invariant --------------------------------------------------------

  /** How many puts ended in a status. */
  function Tally(answers: seq<Status>, status: Status): nat {
    if answers == [] then 0
    else Tally(answers[..|answers| - 1], status) + if answers[|answers| - 1] == status then 1 else 0
  }

  lemma TallyGrows(answers: seq<Status>, last: Status, status: Status)
    ensures Tally(answers + [last], status) == Tally(answers, status) + if last == status then 1 else 0
  {
    assert (answers + [last])[..|answers|] == answers;
  }

  lemma {:induction false} TalliesAddUp(answers: seq<Status>)
    ensures Tally(answers, Accepted) + Tally(answers, Coalesced) + Tally(answers, Rejected) + Tally(answers, Failed)
            == |answers|
    decreases |answers|
  {
    if answers != [] { TalliesAddUp(answers[..|answers| - 1]); }
  }

  /** Nothing is lost, repeated or reordered: what was submitted is, in order, what was put, what is being
      put, what is queued and what was discarded; and every counter counts its part. */
  predicate Conserved(f: Flow) {
    && f.submitted == f.handled + (f.hand + (f.queue + f.dropped))
    && f.queued == |f.submitted| && |f.hand| <= 1
    && |f.answers| == |f.handled| && f.accepted == Tally(f.answers, Accepted)
    && f.coalesced == Tally(f.answers, Coalesced) && f.putRejected == Tally(f.answers, Rejected)
    && f.putFailed == Tally(f.answers, Failed)
    && f.discarded == |f.dropped|
  }

  predicate Bounded(l: Limits, f: Flow) {
    f.pendingBytes == Bytes(f.queue) && |f.queue| <= l.maxPendingCount && f.pendingBytes <= l.maxPendingBytes
  }

  /** The worker has left its loop. */
  predicate PastLoop(w: Writer) { w.worker.Closing? || w.worker.Finishing? || w.worker.Exiting? || w.worker.Gone? }

  predicate BeforeLoop(w: Writer) { w.worker.Unborn? || w.worker.Creating? }

  /** Which states go with which positions of the worker. */
  predicate Coherent(w: Writer) {
    && (BeforeLoop(w) ==> w.state.New? || w.state.Stopped? || w.state.Stuck?)
    && (w.state.New? ==> BeforeLoop(w))
    && (w.worker.Unborn? ==> w.state.New? || w.state.Stopped?)
    && (w.worker.Creating? ==> !w.state.Stopped?)
    && (BeforeLoop(w) ==> !w.activeStore)
    && (w.state.Running? ==> !w.stopRequested && (w.worker.Idle? || w.worker.Putting?))
    && (w.state.Draining? ==> w.stopRequested && !w.worker.Exiting? && !w.worker.Gone?)
    && (w.state.Stopped? ==> w.worker.Unborn? || w.worker.Exiting? || w.worker.Gone?)
    && (w.worker.Exiting? || w.worker.Gone? ==> w.state.Stopped? || w.state.Failing? || w.state.Stuck?)
    && (!BeforeLoop(w) ==> w.ready)
    && (w.inFlight <==> w.worker.Putting?)
    && (w.joining.Some? ==> !w.worker.Unborn?)
  }

  /** Where items may be. */
  predicate Placed(w: Writer) {
    && (BeforeLoop(w) ==> w.flow == NO_FLOW)
    && w.flow.hand == (if w.worker.Putting? then [w.worker.item] else [])
    && (w.flow.dropped != [] ==> w.flow.queue == [] && !w.state.Running?)
    && (w.state.Draining? && !w.drainRequested ==> w.flow.queue == [])
    && (PastLoop(w) && (w.state.Draining? || w.state.Stopped?) ==> w.flow.queue == [])
    && ((w.state.Draining? || w.state.Stopped?) && w.flow.dropped != [] ==> w.firstStop == Some(false))
    && (w.flow.raised ==> w.state.Failing? || w.state.Stuck?)
  }

  /** The store is closed at most once, by the worker, after everything it put. */
  predicate ClosedLast(w: Writer) {
    && |w.closes| <= 1
    && (w.closes != [] ==> w.closes[0].after == |w.flow.handled|)
    && (w.closes != [] ==> w.worker.Finishing? || w.worker.Exiting? || w.worker.Gone?)
    && (w.worker.Finishing? ==> (w.worker.store <==> w.closes != []))
    && (w.worker.Finishing? ==> (w.worker.closeFailed <==> w.closes != [] && w.closes[0].raised))
    && (w.state.Stopped? && !w.worker.Unborn? ==> w.closes != [] && !w.closes[0].raised)
    && (w.state.Draining? && (w.worker.Closing? || w.worker.Finishing?) ==> w.worker.store)
  }

  predicate Shaped(w: Writer) { Coherent(w) && Placed(w) && ClosedLast(w) }

  predicate Inv(l: Limits, w: Writer) { Conserved(w.flow) && Bounded(l, w.flow) && Shaped(w) }

  lemma {:induction false} BytesAppend(items: seq<Pending>, item: Pending)
    ensures Bytes(items + [item]) == Bytes(items) + item.canonicalBytes
    decreases |items|
  {
    if items != [] {
      assert (items + [item])[1..] == items[1..] + [item];
      BytesAppend(items[1..], item);
    }
  }

  lemma EnqueueConserves(l: Limits, f: Flow, item: Pending)
    requires Conserved(f) && Bounded(l, f) && f.dropped == []
    requires |f.queue| < l.maxPendingCount && f.pendingBytes + item.canonicalBytes <= l.maxPendingBytes
    ensures Conserved(Enqueue(f, item)) && Bounded(l, Enqueue(f, item))
  {
    BytesAppend(f.queue, item);
    var g := Enqueue(f, item);
    assert g.queue + g.dropped == (f.queue + f.dropped) + [item];
    assert g.submitted == g.handled + (g.hand + (g.queue + g.dropped));
  }

  lemma DequeueConserves(l: Limits, f: Flow)
    requires Conserved(f) && Bounded(l, f) && f.queue != [] && f.hand == []
    ensures Conserved(Dequeue(f)) && Bounded(l, Dequeue(f))
  {
    var g := Dequeue(f);
    assert g.hand + (g.queue + g.dropped) == f.hand + (f.queue + f.dropped);
  }

  lemma HandleConserves(l: Limits, f: Flow, status: Status)
    requires Conserved(f) && Bounded(l, f) && |f.hand| == 1
    ensures Conserved(Handle(f, status)) && Bounded(l, Handle(f, status))
    ensures Conserved(Handle(f, status).(raised := true))
  {
    var g := Handle(f, status);
    forall other: Status ensures Tally(g.answers, other) == Tally(f.answers, other) + if status == other then 1 else 0 {
      TallyGrows(f.answers, status, other);
    }
    hide Tally;
    assert g.handled + (g.hand + (g.queue + g.dropped)) == f.handled + (f.hand + (f.queue + f.dropped));
  }

  lemma DiscardConserves(l: Limits, f: Flow)
    requires Conserved(f)
    ensures Conserved(DiscardPending(f)) && Bounded(l, DiscardPending(f))
  {
    var g := DiscardPending(f);
    assert g.queue + g.dropped == f.queue + f.dropped;
  }

  lemma SubmitConserves(l: Limits, w: Writer, envelope: nat, size: Option<nat>)
    requires Inv(l, w)
    ensures Conserved(Submit(l, w, envelope, size).flow) && Bounded(l, Submit(l, w, envelope, size).flow)
  {
    hide Bytes, Conserved, Coherent, ClosedLast;
    if Answer(l, w, size).Queued? {
      EnqueueConserves(l, w.flow, Pending(envelope, size.value));
    } else {
      assert Submit(l, w, envelope, size).flow == w.flow;
    }
  }

  lemma PutConserves(l: Limits, w: Writer, status: Status)
    requires Inv(l, w) && w.worker.Putting?
    ensures Conserved(PutReturns(w, status).flow) && Bounded(l, PutReturns(w, status).flow)
    ensures Conserved(PutRaises(w).flow) && Bounded(l, PutRaises(w).flow)
  {
    hide Bytes, Conserved, Bounded, Coherent, ClosedLast, Handle, DiscardPending;
    HandleConserves(l, w.flow, status);
    HandleConserves(l, w.flow, Failed);
    DiscardConserves(l, Handle(w.flow, Failed).(raised := true));
  }

  lemma StopConserves(l: Limits, w: Writer, drain: bool)
    requires Inv(l, w)
    ensures Conserved(StopBegin(w, drain).flow) && Bounded(l, StopBegin(w, drain).flow)
  {
    StopKeepsOrDiscards(w, drain);
    hide Bytes, Conserved, Bounded, Coherent, Placed, ClosedLast, StopBegin, DiscardPending;
    DiscardConserves(l, w.flow);
  }

  lemma StopKeepsOrDiscards(w: Writer, drain: bool)
    ensures StopBegin(w, drain).flow == w.flow || StopBegin(w, drain).flow == DiscardPending(w.flow)
  {
    hide DiscardPending;
    if StopsAtOnce(w) {
      assert StopAtOnce(w).flow == w.flow;
    } else {
      assert StopAndJoin(w, drain).flow == if w.state.Running? && !drain then DiscardPending(w.flow) else w.flow;
      hide StopAndJoin;
    }
  }

  predicate FromCaller(e: Event) {
    e.StartEvent? || e.StartTimeoutEvent? || e.SubmitEvent? || e.StopBeginEvent? || e.StopEndEvent?
  }

  lemma CallerConserves(l: Limits, w: Writer, e: Event)
    requires Inv(l, w) && FromCaller(e)
    ensures Conserved(Step(l, w, e).flow) && Bounded(l, Step(l, w, e).flow)
  {
    hide Bytes, Conserved, Bounded, Coherent, Placed, ClosedLast, Submit, StopBegin, DiscardPending;
    if e.SubmitEvent? {
      SubmitConserves(l, w, e.envelope, e.size);
    } else if e.StopBeginEvent? {
      StopConserves(l, w, e.drain);
    } else {
      assert Step(l, w, e).flow == w.flow;
    }
  }

  lemma TakeConserves(l: Limits, w: Writer)
    requires Inv(l, w) && w.worker.Idle?
    ensures Conserved(Take(w).flow) && Bounded(l, Take(w).flow)
  {
    hide Bytes, Conserved, Bounded, Coherent, ClosedLast;
    if w.flow.queue != [] {
      DequeueConserves(l, w.flow);
    }
  }

  lemma WorkerConserves(l: Limits, w: Writer, e: Event)
    requires Inv(l, w) && !FromCaller(e)
    ensures Conserved(Step(l, w, e).flow) && Bounded(l, Step(l, w, e).flow)
  {
    hide Bytes, Conserved, Bounded, Coherent, Placed, ClosedLast, Take, PutReturns, PutRaises, DiscardPending;
    if e.FactoryFailsEvent? {
      DiscardConserves(l, w.flow);
    } else if e.TakeEvent? && w.worker.Idle? {
      TakeConserves(l, w);
    } else if e.PutReturnsEvent? && w.worker.Putting? {
      PutConserves(l, w, e.status);
    } else if e.PutRaisesEvent? && w.worker.Putting? {
      PutConserves(l, w, Failed);
    } else {
      assert Step(l, w, e).flow == w.flow;
    }
  }

  lemma StartKeeps(w: Writer)
    requires Shaped(w)
    ensures Shaped(Start(w))
  {
    hide Bytes;
    var v := Start(w);
    assert Coherent(v) by { hide ClosedLast, Placed; }
    assert Placed(v) by { hide ClosedLast; }
    assert ClosedLast(v) by { hide Placed; }
  }

  lemma StartTimedOutKeeps(w: Writer)
    requires Shaped(w) && !w.worker.Unborn?
    ensures Shaped(StartTimedOut(w))
  {
    hide Bytes;
    var v := StartTimedOut(w);
    assert Coherent(v) by { hide ClosedLast, Placed; }
    assert Placed(v) by { hide ClosedLast; }
    assert ClosedLast(v) by { hide Placed; }
  }

  lemma SubmitKeeps(l: Limits, w: Writer, envelope: nat, size: Option<nat>)
    requires Shaped(w)
    ensures Shaped(Submit(l, w, envelope, size))
  {
    hide Bytes;
    var v := Submit(l, w, envelope, size);
    assert Coherent(v) by { hide ClosedLast, Placed; }
    assert Placed(v) by { hide ClosedLast; }
    assert ClosedLast(v) by { hide Placed; }
  }

  lemma StopAtOnceKeeps(w: Writer)
    requires Shaped(w) && StopsAtOnce(w)
    ensures Shaped(StopAtOnce(w))
  {
    hide Bytes;
    var v := StopAtOnce(w);
    assert Coherent(v) by { hide ClosedLast, Placed; }
    assert Placed(v) by { hide ClosedLast; }
    assert ClosedLast(v) by { hide Placed; }
  }

  lemma StopAndJoinKeeps(w: Writer, drain: bool)
    requires Shaped(w) && !StopsAtOnce(w)
    ensures Shaped(StopAndJoin(w, drain))
  {
    hide Bytes;
    var v := StopAndJoin(w, drain);
    assert Coherent(v) by { hide ClosedLast, Placed; }
    assert Placed(v) by { hide ClosedLast; }
    assert ClosedLast(v) by { hide Placed; }
  }

  lemma StopEndKeeps(w: Writer)
    requires Shaped(w) && w.joining.Some?
    ensures Shaped(StopEnd(w))
  {
    hide Bytes;
    var v := StopEnd(w);
    assert Coherent(v) by { hide ClosedLast, Placed; }
    assert Placed(v) by { hide ClosedLast; }
    assert ClosedLast(v) by { hide Placed; }
  }

  lemma FactoryFailsKeeps(w: Writer, returnedObject: bool)
    requires Shaped(w) && w.worker.Creating?
    ensures Shaped(FactoryFails(w, returnedObject))
  {
    hide Bytes;
    var v := FactoryFails(w, returnedObject);
    assert Coherent(v) by { hide ClosedLast, Placed; }
    assert Placed(v) by { hide ClosedLast; }
    assert ClosedLast(v) by { hide Placed; }
  }

  lemma PublishKeeps(w: Writer)
    requires Shaped(w) && w.worker.Creating?
    ensures Shaped(Publish(w))
  {
    hide Bytes;
    var v := Publish(w);
    assert Coherent(v) by { hide ClosedLast, Placed; }
    assert Placed(v) by { hide ClosedLast; }
    assert ClosedLast(v) by { hide Placed; }
  }

  lemma TakeKeeps(w: Writer)
    requires Shaped(w) && w.worker.Idle?
    ensures Shaped(Take(w))
  {
    hide Bytes;
    var v := Take(w);
    assert Coherent(v) by { hide ClosedLast, Placed; }
    assert Placed(v) by { hide ClosedLast; }
    assert ClosedLast(v) by { hide Placed; }
  }

  lemma PutReturnsKeeps(w: Writer, status: Status)
    requires Shaped(w) && w.worker.Putting?
    ensures Shaped(PutReturns(w, status))
  {
    hide Bytes;
    var v := PutReturns(w, status);
    assert Coherent(v) by { hide ClosedLast, Placed; }
    assert Placed(v) by { hide ClosedLast; }
    assert ClosedLast(v) by { hide Placed; }
  }

  lemma PutRaisesKeeps(w: Writer)
    requires Shaped(w) && w.worker.Putting?
    ensures Shaped(PutRaises(w))
  {
    hide Bytes;
    var v := PutRaises(w);
    assert Coherent(v) by { hide ClosedLast, Placed; }
    assert Placed(v) by { hide ClosedLast; }
    assert ClosedLast(v) by { hide Placed; }
  }

  lemma CloseStoreKeeps(w: Writer, raises: bool)
    requires Shaped(w) && w.worker.Closing?
    ensures Shaped(CloseStore(w, raises))
  {
    hide Bytes;
    var v := CloseStore(w, raises);
    assert Coherent(v) by { hide ClosedLast, Placed; }
    assert Placed(v) by { hide ClosedLast; }
    assert ClosedLast(v) by { hide Placed; }
  }

  lemma FinishKeeps(w: Writer)
    requires Shaped(w) && w.worker.Finishing?
    ensures Shaped(Finish(w))
  {
    hide Bytes;
    var v := Finish(w);
    assert Coherent(v) by { hide ClosedLast, Placed; }
    assert Placed(v) by { hide ClosedLast; }
    assert ClosedLast(v) by { hide Placed; }
  }

  lemma DieKeeps(w: Writer)
    requires Shaped(w) && w.worker.Exiting?
    ensures Shaped(Die(w))
  {
    hide Bytes;
    var v := Die(w);
    assert Coherent(v) by { hide ClosedLast, Placed; }
    assert Placed(v) by { hide ClosedLast; }
    assert ClosedLast(v) by { hide Placed; }
  }

  lemma CallerKeeps(l: Limits, w: Writer, e: Event)
    requires Shaped(w) && FromCaller(e)
    ensures Shaped(Step(l, w, e))
  {
    hide Shaped, Start, StartTimedOut, Submit, StopAtOnce, StopAndJoin, StopEnd;
    match e
    case StartEvent => StartKeeps(w);
    case StartTimeoutEvent => if !w.worker.Unborn? { StartTimedOutKeeps(w); }
    case SubmitEvent(envelope, size) => SubmitKeeps(l, w, envelope, size);
    case StopBeginEvent(drain) =>
      if w.joining.None? {
        if StopsAtOnce(w) { StopAtOnceKeeps(w); } else { StopAndJoinKeeps(w, drain); }
      }
    case StopEndEvent => if w.joining.Some? { StopEndKeeps(w); }
  }

  lemma WorkerKeeps(l: Limits, w: Writer, e: Event)
    requires Shaped(w) && !FromCaller(e)
    ensures Shaped(Step(l, w, e))
  {
    hide Shaped, FactoryFails, Publish, Take, PutReturns, PutRaises, CloseStore, Finish, Die;
    match e
    case FactoryFailsEvent(returnedObject) => if w.worker.Creating? { FactoryFailsKeeps(w, returnedObject); }
    case PublishEvent => if w.worker.Creating? { PublishKeeps(w); }
    case TakeEvent => if w.worker.Idle? { TakeKeeps(w); }
    case PutReturnsEvent(status) => if w.worker.Putting? { PutReturnsKeeps(w, status); }
    case PutRaisesEvent => if w.worker.Putting? { PutRaisesKeeps(w); }
    case CloseEvent(raises) => if w.worker.Closing? { CloseStoreKeeps(w, raises); }
    case FinishEvent => if w.worker.Finishing? { FinishKeeps(w); }
    case DieEvent => if w.worker.Exiting? { DieKeeps(w); }
  }

  lemma StepKeeps(l: Limits, w: Writer, e: Event)
    requires Inv(l, w)
    ensures Inv(l, Step(l, w, e))
  {
    hide Step, Conserved, Bounded, Shaped;
    if FromCaller(e) {
      CallerConserves(l, w, e);
      CallerKeeps(l, w, e);
    } else {
      WorkerConserves(l, w, e);
      WorkerKeeps(l, w, e);
    }
  }

  /** Every reachable writer conserves its items, respects both limits and closes its store last. */
  lemma {:induction false} ReachableIsSound(l: Limits, w: Writer, events: seq<Event>)
    requires Inv(l, w)
    ensures Inv(l, Run(l, w, events))
    decreases |events|
  {
    hide Step, Inv;
    if events != [] {
      var next := Step(l, w, events[0]);
      StepKeeps(l, w, events[0]);
      assert Run(l, w, events) == Run(l, next, events[1..]);
      ReachableIsSound(l, next, events[1..]);
    }
  }

  lemma EmptyFlowConserves(f: Flow)
    requires f == NO_FLOW
    ensures Conserved(f)
  {
    hide Bytes;
    assert f.queue == [];
  }

  lemma EmptyFlowIsBounded(l: Limits, f: Flow)
    requires f == NO_FLOW
    ensures Bounded(l, f)
  {
    assert f.queue == [];
  }

  lemma NewWriterIsSound(l: Limits, w: Writer)
    requires w == NEW_WRITER
    ensures Inv(l, w)
  {
    hide Bytes, Conserved, Bounded;
    EmptyFlowConserves(w.flow);
    EmptyFlowIsBounded(l, w.flow);
  }

  lemma HandledThenQueued(f: Flow)
    requires Conserved(f)
    ensures f.handled + f.hand + f.queue <= f.submitted
    ensures f.dropped == [] ==> f.handled + f.hand + f.queue == f.submitted
    ensures f.queued == f.accepted + f.coalesced + f.putRejected + f.putFailed + f.discarded + |f.queue| + |f.hand|
    ensures f.discarded == |f.dropped|
  {
    TalliesAddUp(f.answers);
    hide Bytes, Tally;
    assert f.submitted == f.handled + f.hand + f.queue + f.dropped;
  }

  /** Over every run: the byte count is the sum over the queue, both limits hold, every queued item is counted
      exactly once, each put under the status it ended in, and the items put, in hand and queued are, in this order,
      the first ones submitted. */
  lemma EveryRunConserves(l: Limits, events: seq<Event>)
    ensures
      var f := Run(l, NEW_WRITER, events).flow;
      && f.pendingBytes == Bytes(f.queue) && |f.queue| <= l.maxPendingCount && f.pendingBytes <= l.maxPendingBytes
      && f.queued == f.accepted + f.coalesced + f.putRejected + f.putFailed + f.discarded + |f.queue| + |f.hand|
      && |f.answers| == |f.handled|
      && f.accepted == Tally(f.answers, Accepted) && f.coalesced == Tally(f.answers, Coalesced)
      && f.putRejected == Tally(f.answers, Rejected) && f.putFailed == Tally(f.answers, Failed)
      && f.handled + f.hand + f.queue <= f.submitted
      && (f.discarded == 0 ==> f.handled + f.hand + f.queue == f.submitted)
  {
    hide Run, Shaped, Bytes, Tally;
    NewWriterIsSound(l, NEW_WRITER);
    ReachableIsSound(l, NEW_WRITER, events);
    HandledThenQueued(Run(l, NEW_WRITER, events).flow);
  }

  // ---- what a clean stop means ---------------------------------------------

  /** Nothing queued, nothing in the worker's hands; a store that was created has been closed once, without
      error, after the last put; and unless the stop that left RUNNING asked to discard, everything submitted
      was put, once and in order. */
  ghost predicate Settled(w: Writer) {
    && w.state.Stopped? && !w.inFlight
    && w.flow.queue == [] && w.flow.hand == [] && w.flow.pendingBytes == 0
    && w.closes == (if w.worker.Unborn? then [] else [CloseCall(false, |w.flow.handled|)])
    && (w.firstStop != Some(false) ==> w.flow.dropped == [] && w.flow.handled == w.flow.submitted)
    && w.flow.handled <= w.flow.submitted
  }

  lemma StoppedFlowIsSettled(f: Flow)
    requires Conserved(f) && f.queue == [] && f.hand == []
    ensures f.handled <= f.submitted
    ensures f.dropped == [] ==> f.handled == f.submitted
  {
    hide Bytes;
    assert f.submitted == f.handled + f.dropped;
  }

  lemma StoppedIsSettled(l: Limits, w: Writer)
    requires Inv(l, w) && w.state.Stopped?
    ensures Settled(w)
  {
    hide Conserved;
    if w.worker.Unborn? {
      assert w.flow == NO_FLOW;
    }
    assert w.flow.queue == [];
    StoppedFlowIsSettled(w.flow);
    if !w.worker.Unborn? {
      assert w.closes == [w.closes[0]];
    }
  }

  /** Every clean report of a stop, at once or after the join, is given by a settled writer. */
  lemma CleanStopIsSettled(l: Limits, events: seq<Event>)
    ensures
      var w := Run(l, NEW_WRITER, events);
      && (w.joining.None? && StopsAtOnce(w) && ReportAtOnce(w).clean ==> Settled(StopAtOnce(w)))
      && (w.joining.Some? && ReportAfterJoin(w).clean ==> Settled(StopEnd(w)))
  {
    hide Conserved, Bounded, Coherent, Placed, ClosedLast, Settled, Bytes, Run;
    var w := Run(l, NEW_WRITER, events);
    NewWriterIsSound(l, NEW_WRITER);
    ReachableIsSound(l, NEW_WRITER, events);
    if w.joining.None? && StopsAtOnce(w) && ReportAtOnce(w).clean {
      StepKeeps(l, w, StopBeginEvent(true));
      StoppedIsSettled(l, StopAtOnce(w));
    }
    if w.joining.Some? && ReportAfterJoin(w).clean {
      StepKeeps(l, w, StopEndEvent);
      StoppedIsSettled(l, StopEnd(w));
    }
  }

  // ---- failure is permanent ---------------------------------------------------

  predicate Broken(w: Writer) { w.state.Failing? || w.state.Stuck? }

  lemma BrokenPut(w: Writer, status: Status)
    requires Broken(w) && w.worker.Putting?
    ensures Broken(PutReturns(w, status)) && Broken(PutRaises(w))
    ensures PutReturns(w, status).flow.submitted == w.flow.submitted && !PutReturns(w, status).worker.Unborn?
    ensures PutRaises(w).flow.submitted == w.flow.submitted && !PutRaises(w).worker.Unborn?
  {
    hide Bytes;
  }

  lemma BrokenStop(w: Writer, drain: bool)
    requires Broken(w) && !w.worker.Unborn?
    ensures Broken(StopBegin(w, drain)) && !StopBegin(w, drain).worker.Unborn?
    ensures StopBegin(w, drain).flow.submitted == w.flow.submitted
  {
    hide Bytes, DiscardPending;
  }

  lemma BrokenCaller(l: Limits, w: Writer, e: Event)
    requires Broken(w) && !w.worker.Unborn? && FromCaller(e)
    ensures Broken(Step(l, w, e)) && !Step(l, w, e).worker.Unborn?
    ensures Step(l, w, e).flow.submitted == w.flow.submitted
  {
    hide Bytes, Enqueue, DiscardPending, StopBegin, StopEnd;
    if e.StopBeginEvent? {
      BrokenStop(w, e.drain);
    }
    if e.StopEndEvent? && w.joining.Some? {
      BrokenStopEnd(w);
    }
  }

  lemma BrokenStopEnd(w: Writer)
    requires Broken(w) && !w.worker.Unborn? && w.joining.Some?
    ensures Broken(StopEnd(w)) && !StopEnd(w).worker.Unborn? && StopEnd(w).flow == w.flow
  {
  }

  lemma BrokenWorker(l: Limits, w: Writer, e: Event)
    requires Coherent(w) && Broken(w) && !w.worker.Unborn? && !FromCaller(e)
    ensures Broken(Step(l, w, e)) && !Step(l, w, e).worker.Unborn?
    ensures Step(l, w, e).flow.submitted == w.flow.submitted
  {
    hide Bytes, Submit, StopBegin, StopEnd, Start, StartTimedOut, PutReturns, PutRaises, Handle;
    if w.worker.Putting? {
      BrokenPut(w, if e.PutReturnsEvent? then e.status else Failed);
    }
  }

  lemma BrokenStep(l: Limits, w: Writer, e: Event)
    requires Coherent(w) && Broken(w) && !w.worker.Unborn?
    ensures Broken(Step(l, w, e)) && !Step(l, w, e).worker.Unborn?
    ensures Step(l, w, e).flow.submitted == w.flow.submitted
  {
    hide Step;
    if FromCaller(e) { BrokenCaller(l, w, e); } else { BrokenWorker(l, w, e); }
  }

  lemma InvCoheres(l: Limits, w: Writer)
    requires Inv(l, w)
    ensures Coherent(w)
  {
  }

  /** A failed or stuck writer never leaves those two states, and accepts nothing more. */
  lemma {:induction false} BrokenForever(l: Limits, w: Writer, events: seq<Event>)
    requires Inv(l, w) && Broken(w) && !w.worker.Unborn?
    ensures Broken(Run(l, w, events)) && Run(l, w, events).flow.submitted == w.flow.submitted
    decreases |events|
  {
    hide Step, Broken, Inv;
    if events != [] {
      StepKeeps(l, w, events[0]);
      assert Coherent(w) by { InvCoheres(l, w); }
      BrokenStep(l, w, events[0]);
      BrokenForever(l, Step(l, w, events[0]), events[1..]);
    }
  }
}
