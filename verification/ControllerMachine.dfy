/** The camera controller as a machine: its worker and its stop callers move one locked region or one external
    call at a time. A test of the stop event belongs to a step that writes no state after it. */
module ControllerMachine {
  import opened Common
  import opened CameraPolicy

  datatype CameraState =
    | Closed | Opening | Warming | Streaming | Degraded | Cooldown | Stopping | Failed | Stuck

  datatype StreamEnd = EndStopped | EndRetry | EndFatal | EndStuck | EndSlotClosed

  /** What the worker does once the backend is closed. */
  datatype Next = ToLeave | ToRetry | FromStream(end: StreamEnd, stable: bool)

  /** The worker's position. `AtOpen` to `AtClose` hold the active backend. */
  datatype Place =
    | Unborn | AtBegin | AtAdmit | AtAcquire | AtHead | AtMark | AtCreate
    | AtOpen | InOpen(started: nat) | AtRead | InRead(started: nat)
    | AtHandle(outcome: ReadOutcome, finished: nat, deadline: nat) | AtPause(finished: nat, waits: bool) | AtResume
    | AtOffer(stable: bool) | AtClose(next: Next)
    | AtRetry | AtGiveUp | AtCooldown | AtLeave | AtRelease | AtFinish | Dying | Gone

  datatype Stream = Stream(epoch: nat, warmupRemaining: nat, sequence: nat, openedAt: nat, progressAt: nat)

  /** What the reads of an epoch have brought: how many frames of the negotiated shape, and what the last one did. */
  datatype Heard = Heard(matching: nat, last: Option<ReadOutcome>)

  /** A frame the slot accepted, and what its epoch's reads had brought by then. */
  datatype Offered = Offered(epoch: nat, sequence: nat, heard: Heard)

  /** What has happened so far: among it the backends created and the closes that were confirmed. `floor` is the least
      reading of a clock that never goes back and sleeps in full; `honest` holds while every reading respects it. */
  datatype History = History(
    factoryCalls: nat, created: nat, confirmed: nat, stableStreams: nat, opens: seq<nat>, delays: seq<nat>, floor: nat,
    honest: bool, heard: Heard, offered: seq<Offered>)

  /** `overdue` counts the stop callers that found the worker alive after their join and have yet to say so. */
  datatype Controller = Controller(
    place: Place, state: CameraState, stopRequested: bool, overdue: nat, leaseHeld: bool, retained: bool,
    failedAttempts: nat, nextEpoch: nat, lastOpen: Option<nat>, stream: Stream, history: History)

  const NEW_CONTROLLER := Controller(
    Unborn, Closed, false, 0, false, false, 0, 0, None, Stream(0, 0, 0, 0, 0),
    History(0, 0, 0, 0, [], [], 0, true, Heard(0, None), []))

  predicate HasBackend(place: Place) {
    place.AtOpen? || place.InOpen? || InStream(place) || place.AtClose?
  }

  predicate InStream(place: Place) {
    || place.AtRead? || place.InRead? || place.AtHandle? || place.AtPause? || place.AtResume? || place.AtOffer?
  }

  predicate WorkerAlive(place: Place) { !place.Unborn? && !place.Gone? }

  /** A worker's write of the state, which STUCK refuses. */
  function Marked(c: Controller, state: CameraState): Controller {
    if c.state.Stuck? then c else c.(state := state)
  }

  function Move(c: Controller, place: Place): Controller { c.(place := place) }

  function Fail(c: Controller, place: Place): Controller { Move(Marked(c, CameraState.Failed), place) }

  /** A reading of the clock. */
  function Tick(h: History, reading: nat): History {
    h.(honest := h.honest && h.floor <= reading, floor := Max(h.floor, reading))
  }

  predicate IsStable(p: Policy, c: Controller, now: nat) { now - c.stream.openedAt >= p.stableResetAfter }

  function EndStream(c: Controller, end: StreamEnd, stable: bool): Controller {
    Move(c, AtClose(FromStream(end, stable)))
  }

  // ---- before the loop --------------------------------------------------------

  function OnStart(c: Controller, threadStarts: bool): Controller
    requires c.place.Unborn?
  {
    if threadStarts then c.(place := AtBegin, state := Opening) else c.(place := Gone, state := CameraState.Failed)
  }

  function OnBegin(c: Controller): Controller
    requires c.place.AtBegin?
  {
    Move(c, if c.stopRequested then AtLeave else AtAdmit)
  }

  function OnAdmit(c: Controller, admitted: bool): Controller
    requires c.place.AtAdmit?
  {
    if !admitted then Fail(c, AtLeave)
    else Move(c, if c.stopRequested then AtLeave else AtAcquire)
  }

  /** The lease was acquired; or it is busy, or acquiring it raised. */
  function OnAcquire(c: Controller, granted: bool): Controller
    requires c.place.AtAcquire?
  {
    if granted then Move(c, AtHead).(leaseHeld := true) else Fail(c, AtLeave)
  }

  // ---- one turn of the loop -----------------------------------------------------

  function OnHead(c: Controller): Controller
    requires c.place.AtHead?
  {
    if c.stopRequested then Move(c, AtLeave)
    else if c.nextEpoch > MAX_INT64 then Fail(c, AtLeave)
    else Move(c, AtMark)
  }

  /** A stop caller's STOPPING may just have been written; it is overwritten. */
  function OnMark(c: Controller): Controller
    requires c.place.AtMark?
  {
    Move(Marked(c, Opening), AtCreate)
  }

  datatype FactoryOutcome = FactoryRaises | NotABackend | UnsafeBackend | ReadyBackend

  function CountCall(c: Controller): Controller {
    c.(history := c.history.(factoryCalls := c.history.factoryCalls + 1))
  }

  /** A factory call that returned a backend. */
  function CountBackend(c: Controller): Controller {
    var d := CountCall(c);
    d.(history := d.history.(created := c.history.created + 1))
  }

  function OnFactory(c: Controller, outcome: FactoryOutcome): Controller
    requires c.place.AtCreate?
  {
    match outcome
    case FactoryRaises =>
      if c.stopRequested then Move(CountCall(c), AtLeave)
      else Move(CountCall(c), AtRetry).(failedAttempts := c.failedAttempts + 1)
    case NotABackend => Fail(CountCall(c), AtLeave)
    case UnsafeBackend => Fail(CountBackend(c), AtClose(ToLeave))
    case ReadyBackend => Move(CountBackend(c), if c.stopRequested then AtClose(ToLeave) else AtOpen)
  }

  function OnOpenStarts(c: Controller, now: nat): Controller
    requires c.place.AtOpen?
  {
    Move(c, InOpen(now)).(
      lastOpen := Some(now), history := Tick(c.history, now).(opens := c.history.opens + [now]))
  }

  datatype OpenOutcome = Opened(streamValid: bool) | OpenDeadlineExceeded | OpenRaises

  function OnOpenReturns(p: Policy, c: Controller, outcome: OpenOutcome, now: nat): Controller
    requires c.place.InOpen?
  {
    var d := c.(history := Tick(c.history, now));
    if now < c.place.started then Fail(d, AtClose(ToLeave))
    else if now > Min(c.place.started + p.openTimeout, MAX_INT64) && !outcome.OpenDeadlineExceeded? then
      Move(d.(state := Stuck), AtClose(ToLeave))
    else if !outcome.Opened? then Move(d, AtClose(ToRetry))
    else if !outcome.streamValid then Fail(d, AtClose(ToLeave))
    else BeginStream(p, d, now)
  }

  function BeginStream(p: Policy, c: Controller, now: nat): Controller {
    Move(Marked(c, if p.warmupFrames > 0 then Warming else Streaming), AtRead).(
      nextEpoch := c.nextEpoch + 1, stream := Stream(c.nextEpoch, p.warmupFrames, 0, now, now),
      history := c.history.(heard := Heard(0, None)))
  }

  // ---- reading ---------------------------------------------------------------

  function OnStreamStops(p: Policy, c: Controller, now: nat): Controller
    requires c.place.AtRead? && c.stopRequested
  {
    EndStream(c.(history := Tick(c.history, now)), EndStopped, IsStable(p, c, now))
  }

  function OnReadStarts(c: Controller, now: nat): Controller
    requires c.place.AtRead? && !c.stopRequested
  {
    Move(c, InRead(now)).(history := Tick(c.history, now))
  }

  datatype ReadOutcome =
    | ReadFrame(matches: bool) | ReadTimeout(raised: bool) | ReadDisconnected | ReadRecoverable | ReadFatal
    | ReadRaises | ReadInvalid

  /** A read has returned, whatever becomes of it. */
  function Hear(h: History, outcome: ReadOutcome): History {
    h.(heard := Heard(h.heard.matching + (if outcome == ReadFrame(true) then 1 else 0), Some(outcome)))
  }

  function OnReadReturns(p: Policy, c: Controller, outcome: ReadOutcome, now: nat): Controller
    requires c.place.InRead?
  {
    var d := c.(history := Hear(Tick(c.history, now), outcome));
    var deadline := Min(c.place.started + p.readTimeout, MAX_INT64);
    var stable := IsStable(p, c, now);
    if outcome.ReadRaises? then EndStream(d, EndRetry, stable)
    else if now < c.place.started then EndStream(d, EndFatal, false)
    else if now > deadline && outcome != ReadTimeout(true) then EndStream(d.(state := Stuck), EndStuck, false)
    else if c.stopRequested then EndStream(d, EndStopped, stable)
    else Move(d, AtHandle(outcome, now, deadline))
  }

  function OnHandle(p: Policy, c: Controller): Controller
    requires c.place.AtHandle?
  {
    var now := c.place.finished;
    var stable := IsStable(p, c, now);
    match c.place.outcome
    case ReadFrame(matches) => if matches then OnFrame(c, now, stable) else EndStream(c, EndFatal, stable)
    case ReadTimeout(_) => Move(Marked(c, Degraded), AtPause(now, c.place.deadline > now))
    case ReadDisconnected => EndStream(Marked(c, Degraded), EndRetry, stable)
    case ReadRecoverable => EndStream(Marked(c, Degraded), EndRetry, stable)
    case _ => EndStream(c, EndFatal, stable)
  }

  /** A frame of the right shape: discarded while warming up, else to be offered. */
  function OnFrame(c: Controller, now: nat, stable: bool): Controller {
    var s := c.stream.(progressAt := now);
    if s.warmupRemaining == 0 then Move(c, AtOffer(stable)).(stream := s)
    else
      Move(if s.warmupRemaining == 1 then Marked(c, Streaming) else c, AtRead).(
        stream := s.(warmupRemaining := s.warmupRemaining - 1))
  }

  /** The wait after a read timeout is over. */
  function OnPauseEnds(p: Policy, c: Controller): Controller
    requires c.place.AtPause?
  {
    if c.place.waits && c.stopRequested then EndStream(c, EndStopped, IsStable(p, c, c.place.finished))
    else Move(c, AtResume)
  }

  function OnResume(p: Policy, c: Controller, now: nat): Controller
    requires c.place.AtResume?
  {
    var d := c.(history := Tick(c.history, now));
    if now - c.stream.progressAt >= p.staleAfter then EndStream(d, EndRetry, IsStable(p, c, now))
    else Move(Marked(d, if c.stream.warmupRemaining > 0 then Warming else Streaming), AtRead)
  }

  /** The slot's answer to the frame. */
  function OnOffer(c: Controller, slotClosed: bool): Controller
    requires c.place.AtOffer?
  {
    if c.stream.sequence > MAX_INT64 then EndStream(c, EndFatal, c.place.stable)
    else if slotClosed then EndStream(c.(stopRequested := true), EndSlotClosed, c.place.stable)
    else
      var frame := Offered(c.stream.epoch, c.stream.sequence, c.history.heard);
      Move(Marked(c, Streaming), AtRead).(
        stream := c.stream.(sequence := c.stream.sequence + 1),
        history := c.history.(offered := c.history.offered + [frame]))
  }

  // ---- closing and retrying ----------------------------------------------------

  datatype CloseOutcome = CloseDone | CloseRaises | CloseOverruns

  function CountClose(c: Controller): Controller {
    c.(history := c.history.(confirmed := c.history.confirmed + 1))
  }

  function OnClose(c: Controller, outcome: CloseOutcome): Controller
    requires c.place.AtClose?
  {
    match outcome
    case CloseRaises => Fail(c, AtLeave).(retained := true)
    case CloseOverruns => Move(c, AtLeave).(state := Stuck, retained := true)
    case CloseDone =>
      match c.place.next
      case ToLeave => Move(CountClose(c), AtLeave)
      case ToRetry => Move(CountClose(c), AtRetry).(failedAttempts := c.failedAttempts + 1)
      case FromStream(end, stable) => AfterStream(CountClose(c), end, stable)
  }

  function AfterStream(c: Controller, end: StreamEnd, stable: bool): Controller {
    match end
    case EndStopped => Move(c, AtLeave)
    case EndSlotClosed => Move(c, AtLeave)
    case EndStuck => Move(c, AtLeave).(state := Stuck)
    case EndFatal => Fail(c, AtLeave)
    case EndRetry =>
      if stable then
        Move(c, AtRetry).(
          failedAttempts := 1, history := c.history.(stableStreams := c.history.stableStreams + 1))
      else Move(c, AtRetry).(failedAttempts := c.failedAttempts + 1)
  }

  function OnRetry(p: Policy, c: Controller, now: nat): Controller
    requires c.place.AtRetry?
  {
    if c.failedAttempts > p.maxReopenAttempts then
      if c.leaseHeld && !c.retained then Move(c, AtGiveUp) else Fail(c, AtLeave)
    else if !CooldownDomain(c.failedAttempts) then Fail(c, AtLeave)
    else
      var delay := RetryDelay(p, c.failedAttempts, c.lastOpen, now);
      var h := if c.lastOpen.Some? then Sleep(Tick(c.history, now), now + delay) else c.history;
      Move(Marked(c, Cooldown), AtCooldown).(history := h.(delays := h.delays + [delay]))
  }

  function Sleep(h: History, wakes: nat): History { h.(floor := Max(h.floor, wakes)) }

  /** The release before FAILED is published; if it raises the controller is stuck instead. */
  function OnGiveUp(c: Controller, released: bool): Controller
    requires c.place.AtGiveUp?
  {
    if released then Fail(c.(leaseHeld := false), AtLeave) else Move(c.(state := Stuck), AtLeave)
  }

  function OnCooldownEnds(c: Controller): Controller
    requires c.place.AtCooldown?
  {
    Move(c, if c.stopRequested then AtLeave else AtHead)
  }

  /** An exception no handler inside the loop expects, such as a clock that returns garbage. */
  function OnRaise(c: Controller): Controller
    requires c.place.AtHead? || c.place.AtRetry? || (HasBackend(c.place) && !c.place.AtClose?)
  {
    Fail(c, if HasBackend(c.place) then AtClose(ToLeave) else AtLeave)
  }

  // ---- leaving ------------------------------------------------------------------

  function OnLeave(c: Controller): Controller
    requires c.place.AtLeave?
  {
    Move(c, if c.leaseHeld && !c.retained then AtRelease else AtFinish)
  }

  function OnRelease(c: Controller, released: bool): Controller
    requires c.place.AtRelease?
  {
    if released then Move(c, AtFinish).(leaseHeld := false) else Move(c, AtFinish).(state := Stuck)
  }

  function OnFinish(c: Controller): Controller
    requires c.place.AtFinish?
  {
    Move(if c.state.Failed? || c.state.Stuck? then c else c.(state := Closed), Dying)
  }

  // ---- stop callers ---------------------------------------------------------------

  function OnStopRequested(c: Controller): Controller { c.(stopRequested := true) }

  function OnStopMarks(c: Controller): Controller
    requires c.stopRequested && WorkerAlive(c.place)
  {
    if c.state.Failed? || c.state.Stuck? then c else c.(state := Stopping)
  }

  function OnStopOverdue(c: Controller): Controller
    requires c.stopRequested && WorkerAlive(c.place)
  {
    c.(overdue := c.overdue + 1)
  }

  /** The worker may have ended since it was found alive. */
  function OnStopExpires(c: Controller): Controller
    requires c.overdue > 0
  {
    c.(overdue := c.overdue - 1, state := Stuck)
  }

  // ---- runs --------------------------------------------------------------------------

  datatype Event =
    | Start(threadStarts: bool) | Begin | Admit(admitted: bool) | Acquire(granted: bool)
    | Head | Mark | Factory(made: FactoryOutcome)
    | OpenStarts(now: nat) | OpenReturns(result: OpenOutcome, now: nat)
    | StreamStops(now: nat) | ReadStarts(now: nat) | ReadReturns(read: ReadOutcome, now: nat)
    | Handle | PauseEnds | Resume(now: nat) | Offer(slotClosed: bool)
    | Close(closed: CloseOutcome) | Retry(now: nat) | GiveUp(released: bool) | CooldownEnds | Raise
    | Leave | Release(released: bool) | Finish | Die
    | StopRequested | StopMarks | StopOverdue | StopExpires

  predicate Enabled(c: Controller, e: Event) {
    match e
    case Start(_) => c.place.Unborn?
    case Begin => c.place.AtBegin?
    case Admit(_) => c.place.AtAdmit?
    case Acquire(_) => c.place.AtAcquire?
    case Head => c.place.AtHead?
    case Mark => c.place.AtMark?
    case Factory(_) => c.place.AtCreate?
    case OpenStarts(_) => c.place.AtOpen?
    case OpenReturns(_, _) => c.place.InOpen?
    case StreamStops(_) => c.place.AtRead? && c.stopRequested
    case ReadStarts(_) => c.place.AtRead? && !c.stopRequested
    case ReadReturns(_, _) => c.place.InRead?
    case Handle => c.place.AtHandle?
    case PauseEnds => c.place.AtPause?
    case Resume(_) => c.place.AtResume?
    case Offer(_) => c.place.AtOffer?
    case Close(_) => c.place.AtClose?
    case Retry(_) => c.place.AtRetry?
    case GiveUp(_) => c.place.AtGiveUp?
    case CooldownEnds => c.place.AtCooldown?
    case Raise => c.place.AtHead? || c.place.AtRetry? || (HasBackend(c.place) && !c.place.AtClose?)
    case Leave => c.place.AtLeave?
    case Release(_) => c.place.AtRelease?
    case Finish => c.place.AtFinish?
    case Die => c.place.Dying?
    case StopRequested => true
    case StopMarks => c.stopRequested && WorkerAlive(c.place)
    case StopOverdue => c.stopRequested && WorkerAlive(c.place)
    case StopExpires => c.overdue > 0
  }

  function Step(p: Policy, c: Controller, e: Event): Controller
    requires Enabled(c, e)
  {
    match e
    case Start(threadStarts) => OnStart(c, threadStarts)
    case Begin => OnBegin(c)
    case Admit(admitted) => OnAdmit(c, admitted)
    case Acquire(granted) => OnAcquire(c, granted)
    case Head => OnHead(c)
    case Mark => OnMark(c)
    case Factory(made) => OnFactory(c, made)
    case OpenStarts(now) => OnOpenStarts(c, now)
    case OpenReturns(result, now) => OnOpenReturns(p, c, result, now)
    case StreamStops(now) => OnStreamStops(p, c, now)
    case ReadStarts(now) => OnReadStarts(c, now)
    case ReadReturns(read, now) => OnReadReturns(p, c, read, now)
    case Handle => OnHandle(p, c)
    case PauseEnds => OnPauseEnds(p, c)
    case Resume(now) => OnResume(p, c, now)
    case Offer(slotClosed) => OnOffer(c, slotClosed)
    case Close(closed) => OnClose(c, closed)
    case Retry(now) => OnRetry(p, c, now)
    case GiveUp(released) => OnGiveUp(c, released)
    case CooldownEnds => OnCooldownEnds(c)
    case Raise => OnRaise(c)
    case Leave => OnLeave(c)
    case Release(released) => OnRelease(c, released)
    case Finish => OnFinish(c)
    case Die => Move(c, Gone)
    case StopRequested => OnStopRequested(c)
    case StopMarks => OnStopMarks(c)
    case StopOverdue => OnStopOverdue(c)
    case StopExpires => OnStopExpires(c)
  }

  /** An event that is not enabled does not happen. */
  function Run(p: Policy, c: Controller, events: seq<Event>): Controller
    decreases |events|
  {
    if events == [] then c
    else Run(p, if Enabled(c, events[0]) then Step(p, c, events[0]) else c, events[1..])
  }
}
