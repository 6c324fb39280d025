/** The camera backend and its child process: two parties, two FIFO pipes, one command in flight. */
module WorkerProtocol {
  import opened Common

  const MAX_CAPTURE_DIMENSION: nat := 8_192
  const MAX_CAPTURE_FRAME_BYTES: nat := 33_554_432

  // ---- configuration ------------------------------------------------------------

  /** What the driver reports for a property: nothing, something that is not a finite number, or a number. */
  datatype Reading = Absent | Junk | Number(value: real)

  /** What the worker announces; a rate of 0 in the message is read as none. */
  datatype Configuration = Configuration(width: int, height: int, fps: Option<real>, stride: int)

  function Dimension(r: Reading): Option<int> {
    if !r.Number? || r.value <= 0.0 then None
    else if r.value != r.value.Floor as real || r.value.Floor > MAX_CAPTURE_DIMENSION then None
    else Some(r.value.Floor)
  }

  predicate RateReadable(r: Reading) { r.Absent? || (r.Number? && 0.0 <= r.value <= 240.0) }

  function Rate(r: Reading): Option<real> {
    if r.Number? && r.value != 0.0 then Some(r.value) else None
  }

  /** What the worker announces for the three readings, or None for a configuration error. */
  function Negotiate(width: Reading, height: Reading, fps: Reading, maxBytes: nat): Option<Configuration> {
    if Dimension(width).None? || Dimension(height).None? || !RateReadable(fps) then None
    else
      var w, h := Dimension(width).value, Dimension(height).value;
      if w <= 0 || h <= 0 || w * h * 3 > maxBytes then None
      else Some(Configuration(w, h, Rate(fps), w * 3))
  }

  /** The parent's checks of announced values, with those of the stream it builds from them. */
  predicate Accepts(c: Configuration, maxBytes: nat) {
    && 1 <= c.width <= MAX_CAPTURE_DIMENSION && 1 <= c.height <= MAX_CAPTURE_DIMENSION
    && c.stride == c.width * 3 && c.width <= c.stride
    && c.stride * c.height <= maxBytes && c.stride * c.height <= MAX_CAPTURE_FRAME_BYTES
    && (c.fps.Some? ==> 0.0 < c.fps.value <= 240.0)
  }

  lemma StrideTimesHeight(w: int, h: int)
    ensures (w * 3) * h == w * h * 3
  {
  }

  /** The parent accepts every configuration a worker announces. */
  lemma NegotiatedIsAccepted(width: Reading, height: Reading, fps: Reading, maxBytes: nat)
    requires maxBytes <= MAX_CAPTURE_FRAME_BYTES
    ensures Negotiate(width, height, fps, maxBytes).Some? ==>
              Accepts(Negotiate(width, height, fps, maxBytes).value, maxBytes)
  {
    var c := Negotiate(width, height, fps, maxBytes);
    if c.Some? {
      StrideTimesHeight(c.value.width, c.value.height);
    }
  }

  // ---- the two parties -------------------------------------------------------------

  datatype Command = Request | Read | CloseCommand

  datatype Message =
    | Started | Ready | DeviceOpened | Configured(c: Configuration) | OpenError | ConfigureError
    | FrameReply(width: int, height: int, stride: int) | Disconnected | Recoverable | FatalReply

  /** `Expecting(k)` waits in `open` for the message of phase k; `Waiting` has sent a read command and, once `timed`,
      computed how long to wait for its reply. `Stranded` holds process and pipe after `open` let an exception out;
      `Lost` has a process it could not terminate. */
  datatype Parent =
    | Idle | Expecting(phase: nat) | Requesting | Stranded | Open | Waiting(timed: bool) | Closing | Lost

  datatype Worker =
    | NoWorker | Booting | AwaitingRequest | Importing | OpeningDevice | Configuring | Serving | Fetching | Done
    | Orphan

  /** A session since its last launch: pipes, what the worker has sent and how much of it was received, and the read
      commands sent. `unanswered` counts the reads that ended in an exception with their reply still to come, and
      `silenced` tells that such a read took the worker's last reply with it. `tame` until the worker crashes, loses
      a message or falls into its last exception handler; `lossy` once it has lost one; `malformed` if `open` met an
      unexpected message. */
  datatype Session = Session(
    windows: bool, maxBytes: nat, pollLimit: nat, parent: Parent, worker: Worker, commands: seq<Command>,
    replies: seq<Message>, stream: Option<Configuration>, sent: seq<Message>, received: nat, readsSent: nat,
    unanswered: nat, silenced: bool, tame: bool, lossy: bool, malformed: bool)

  function NewSession(windows: bool, maxBytes: nat, pollLimit: nat): Session {
    Session(windows, maxBytes, pollLimit, Idle, NoWorker, [], [], None, [], 0, 0, 0, false, true, false, false)
  }

  // ---- exceptions and time ---------------------------------------------------------------

  /** The exceptions that handlers tell apart: of the pipe (`BrokenPipeError`, `EOFError`, `OSError`), of a value
      (`TypeError`, `ValueError`), and any other, such as `OverflowError` or an unpickling error. */
  datatype Fault = PipeFault | ValueFault | ForeignFault

  /** A reading of the clock, or the exception it raises instead. */
  datatype Clock = Shows(ns: int) | Raises(fault: Fault)

  datatype TimeLeft = Expired | Waits | Faults(fault: Fault)

  /** The time left until a deadline, given to `poll`, which refuses waits longer than its limit. */
  function Remaining(limit: nat, deadline: int, clock: Clock): TimeLeft {
    if !(0 <= deadline <= MAX_INT64) then Faults(ValueFault)
    else if clock.Raises? then Faults(clock.fault)
    else if !(0 <= clock.ns <= MAX_INT64) then Faults(ValueFault)
    else if deadline <= clock.ns then Expired
    else if deadline - clock.ns > limit then Faults(ForeignFault)
    else Waits
  }

  /** What a caller can see to: deadline and reading in range, and no more time left than `poll` accepts. */
  predicate Timely(limit: nat, deadline: int, clock: Clock) {
    0 <= deadline <= MAX_INT64 && clock.Shows? && 0 <= clock.ns <= MAX_INT64 && deadline - clock.ns <= limit
  }

  /** The message phase k of `open` waits for. */
  predicate IsExpected(k: nat, m: Message, maxBytes: nat) {
    if k == 0 then m.Started?
    else if k == 1 then m.Ready?
    else if k == 2 then m.DeviceOpened?
    else m.Configured? && Accepts(m.c, maxBytes)
  }

  /** The error message phase k of `open` understands. */
  predicate IsPhaseError(k: nat, m: Message) {
    if k == 1 || k == 2 then m.OpenError? else k == 3 && m.ConfigureError?
  }

  // ---- the parent ---------------------------------------------------------------------

  /** Close the pipe, then terminate and kill; `gone` if the process is known to have ended. */
  function Terminate(y: Session, gone: bool): Session {
    y.(parent := if gone then Idle else Lost, worker := if gone then NoWorker else Orphan, commands := [],
       replies := [], stream := None)
  }

  function Launch(y: Session): Session
    requires y.parent.Idle?
  {
    NewSession(y.windows, y.maxBytes, y.pollLimit).(parent := Expecting(0), worker := Booting)
  }

  /** An exception inside `open`: its handlers know those of the pipe and of a value. */
  function PhaseFault(y: Session, fault: Fault, gone: bool): Session
    requires y.parent.Expecting? || y.parent.Requesting?
  {
    if fault.ForeignFault? then y.(parent := Stranded) else Terminate(y, gone)
  }

  /** `open` computes how long to wait for a phase message. */
  function TimePhase(y: Session, deadline: int, clock: Clock, gone: bool): Session
    requires y.parent.Expecting?
  {
    match Remaining(y.pollLimit, deadline, clock)
    case Waits => y
    case Expired => Terminate(y, gone)
    case Faults(fault) => PhaseFault(y, fault, gone)
  }

  /** A phase message arrives, in time or after the deadline. */
  function ReceivePhase(y: Session, late: bool, gone: bool): Session
    requires y.parent.Expecting? && y.replies != []
  {
    var m, k := y.replies[0], y.parent.phase;
    var z := y.(replies := y.replies[1..], received := y.received + 1);
    if late then Terminate(z, gone)
    else if IsExpected(k, m, y.maxBytes) then
      if k == 0 && y.windows then z.(parent := Requesting)
      else if k < 3 then z.(parent := Expecting(k + 1))
      else if m.Configured? then z.(parent := Open, stream := Some(m.c))
      else Terminate(z, gone)
    else if IsPhaseError(k, m) then Terminate(z, gone)
    else Terminate(z.(malformed := true), gone)
  }

  function SendRequest(y: Session): Session
    requires y.parent.Requesting?
  {
    y.(parent := Expecting(1), commands := y.commands + [Request])
  }

  function PutCommand(y: Session): Session { y.(commands := y.commands + [Read], readsSent := y.readsSent + 1) }

  /** `read` up to the command; the worker may be found dead or the deadline expired instead. */
  function SendRead(y: Session, refused: bool, gone: bool): Session
    requires y.parent.Open?
  {
    if refused then Terminate(y, gone) else PutCommand(y).(parent := Waiting(false))
  }

  /** An exception while sending the command, which may have gone out: `read` handles those of the pipe only. */
  function SendFault(y: Session, fault: Fault, wentOut: bool, gone: bool): Session
    requires y.parent.Open?
  {
    if fault.PipeFault? then Terminate(y, gone)
    else if wentOut then PutCommand(y).(unanswered := y.unanswered + 1)
    else y
  }

  /** An exception after the command has gone out and before its reply is received. */
  function ReadFault(y: Session, fault: Fault, gone: bool): Session
    requires y.parent.Waiting?
  {
    if fault.PipeFault? then Terminate(y, gone) else y.(parent := Open, unanswered := y.unanswered + 1)
  }

  /** `read` computes how long to wait for the reply. */
  function TimeRead(y: Session, deadline: int, clock: Clock, gone: bool): Session
    requires y.parent == Waiting(false)
  {
    match Remaining(y.pollLimit, deadline, clock)
    case Waits => y.(parent := Waiting(true))
    case Expired => Terminate(y, gone)
    case Faults(fault) => ReadFault(y, fault, gone)
  }

  /** An exception that takes the reply with it: from unpickling it or from handling it. */
  function ReplyFault(y: Session, fault: Fault, gone: bool): Session
    requires y.parent == Waiting(true) && y.replies != []
  {
    if fault.PipeFault? then Terminate(y, gone)
    else
      y.(parent := Open, replies := y.replies[1..], received := y.received + 1,
         silenced := y.silenced || y.replies[0].FatalReply?)
  }

  predicate FrameFits(m: Message, c: Configuration) {
    m.FrameReply? && m.width == c.width && m.height == c.height && m.stride == c.stride
  }

  function ReceiveReply(y: Session, gone: bool): Session
    requires y.parent == Waiting(true) && y.replies != []
  {
    var m := y.replies[0];
    var z := y.(replies := y.replies[1..], received := y.received + 1);
    if m.Disconnected? || m.Recoverable? || (y.stream.Some? && FrameFits(m, y.stream.value)) then z.(parent := Open)
    else Terminate(z, gone)
  }

  function BeginClose(y: Session): Session
    requires y.parent.Open? || y.parent.Stranded?
  {
    y.(parent := Closing, commands := y.commands + [CloseCommand])
  }

  // ---- the worker -----------------------------------------------------------------------

  function Send(y: Session, m: Message, next: Worker): Session {
    y.(worker := next, sent := y.sent + [m], replies := y.replies + [m])
  }

  function Boot(y: Session): Session
    requires y.worker.Booting?
  {
    Send(y, Started, if y.windows then AwaitingRequest else Importing)
  }

  function TakeRequest(y: Session): Session
    requires y.worker.AwaitingRequest? && y.commands != []
  {
    if y.commands[0].Request? then y.(worker := Importing, commands := y.commands[1..])
    else Send(y.(commands := y.commands[1..]), OpenError, Done)
  }

  /** Import OpenCV and select an API. */
  function Prepare(y: Session, ok: bool): Session
    requires y.worker.Importing?
  {
    if ok then Send(y, Ready, OpeningDevice) else Send(y, OpenError, Done)
  }

  function OpenDevice(y: Session, ok: bool): Session
    requires y.worker.OpeningDevice?
  {
    if ok then Send(y, DeviceOpened, Configuring) else Send(y, OpenError, Done)
  }

  function Configure(y: Session, width: Reading, height: Reading, fps: Reading): Session
    requires y.worker.Configuring?
  {
    var c := Negotiate(width, height, fps, y.maxBytes);
    if c.Some? then Send(y, Configured(c.value), Serving) else Send(y, ConfigureError, Done)
  }

  function TakeCommand(y: Session): Session
    requires y.worker.Serving? && y.commands != []
  {
    var z := y.(commands := y.commands[1..]);
    match y.commands[0]
    case Read => z.(worker := Fetching)
    case CloseCommand => z.(worker := Done)
    case Request => Send(z, FatalReply, Done)
  }

  predicate IsReply(m: Message) { m.FrameReply? || m.Disconnected? || m.Recoverable? || m.FatalReply? }

  function Answer(y: Session, m: Message): Session
    requires y.worker.Fetching? && IsReply(m)
  {
    Send(y, m, if m.FatalReply? then Done else Serving)
  }

  /** The last exception handler, reached while serving. */
  function FallThrough(y: Session): Session
    requires y.worker.Serving? || y.worker.Fetching?
  {
    Send(y, OpenError, Done).(tame := false)
  }

  predicate WorkerRuns(w: Worker) { !w.NoWorker? && !w.Orphan? && !w.Done? }

  function Crash(y: Session): Session
    requires WorkerRuns(y.worker)
  {
    y.(worker := Done, tame := false)
  }

  /** Sending suppresses the errors of the pipe, so a worker that lost messages carries on, wherever it gets to. */
  function Lose(y: Session, next: Worker): Session
    requires WorkerRuns(y.worker) && !next.NoWorker? && !next.Orphan?
  {
    y.(worker := next, tame := false, lossy := true)
  }

  // ---- runs ---------------------------------------------------------------------------------

  datatype Event =
    | LaunchEvent | LaunchFailsEvent(gone: bool) | ReceivePhaseEvent(late: bool, gone: bool) | SendRequestEvent
    | TimePhaseEvent(deadline: int, clock: Clock, gone: bool) | PhaseFaultEvent(fault: Fault, gone: bool)
    | GiveUpEvent(gone: bool) | SendReadEvent(refused: bool, gone: bool)
    | SendFaultEvent(fault: Fault, wentOut: bool, gone: bool)
    | TimeReadEvent(deadline: int, clock: Clock, gone: bool) | ReadFaultEvent(fault: Fault, gone: bool)
    | ReplyFaultEvent(fault: Fault, gone: bool) | ReceiveReplyEvent(gone: bool)
    | BeginCloseEvent | TerminateEvent(gone: bool)
    | BootEvent | TakeRequestEvent | PrepareEvent(ok: bool) | OpenDeviceEvent(ok: bool)
    | ConfigureEvent(width: Reading, height: Reading, fps: Reading)
    | TakeCommandEvent | AnswerEvent(m: Message) | FallThroughEvent | CrashEvent | LoseEvent(next: Worker)

  predicate Enabled(y: Session, e: Event) {
    match e
    case LaunchEvent => y.parent.Idle?
    case LaunchFailsEvent(_) => y.parent.Idle?
    case ReceivePhaseEvent(_, _) => y.parent.Expecting? && y.replies != []
    case SendRequestEvent => y.parent.Requesting?
    case TimePhaseEvent(_, _, _) => y.parent.Expecting?
    case PhaseFaultEvent(_, _) => y.parent.Expecting? || y.parent.Requesting?
    case GiveUpEvent(_) => y.parent.Expecting? || y.parent.Requesting? || y.parent == Waiting(true)
    case SendReadEvent(_, _) => y.parent.Open?
    case SendFaultEvent(_, _, _) => y.parent.Open?
    case TimeReadEvent(_, _, _) => y.parent == Waiting(false)
    case ReadFaultEvent(_, _) => y.parent.Waiting?
    case ReplyFaultEvent(_, _) => y.parent == Waiting(true) && y.replies != []
    case ReceiveReplyEvent(_) => y.parent == Waiting(true) && y.replies != []
    case BeginCloseEvent => y.parent.Open? || y.parent.Stranded?
    case TerminateEvent(_) => y.parent.Closing? || y.parent.Lost?
    case BootEvent => y.worker.Booting?
    case TakeRequestEvent => y.worker.AwaitingRequest? && y.commands != []
    case PrepareEvent(_) => y.worker.Importing?
    case OpenDeviceEvent(_) => y.worker.OpeningDevice?
    case ConfigureEvent(_, _, _) => y.worker.Configuring?
    case TakeCommandEvent => y.worker.Serving? && y.commands != []
    case AnswerEvent(m) => y.worker.Fetching? && IsReply(m)
    case FallThroughEvent => y.worker.Serving? || y.worker.Fetching?
    case CrashEvent => WorkerRuns(y.worker)
    case LoseEvent(next) => WorkerRuns(y.worker) && !next.NoWorker? && !next.Orphan?
  }

  function Step(y: Session, e: Event): Session
    requires Enabled(y, e)
  {
    match e
    case LaunchEvent => Launch(y)
    case LaunchFailsEvent(gone) => Terminate(y, gone)
    case ReceivePhaseEvent(late, gone) => ReceivePhase(y, late, gone)
    case SendRequestEvent => SendRequest(y)
    case TimePhaseEvent(deadline, clock, gone) => TimePhase(y, deadline, clock, gone)
    case PhaseFaultEvent(fault, gone) => PhaseFault(y, fault, gone)
    case GiveUpEvent(gone) => Terminate(y, gone)
    case SendReadEvent(refused, gone) => SendRead(y, refused, gone)
    case SendFaultEvent(fault, wentOut, gone) => SendFault(y, fault, wentOut, gone)
    case TimeReadEvent(deadline, clock, gone) => TimeRead(y, deadline, clock, gone)
    case ReadFaultEvent(fault, gone) => ReadFault(y, fault, gone)
    case ReplyFaultEvent(fault, gone) => ReplyFault(y, fault, gone)
    case ReceiveReplyEvent(gone) => ReceiveReply(y, gone)
    case BeginCloseEvent => BeginClose(y)
    case TerminateEvent(gone) => Terminate(y, gone)
    case BootEvent => Boot(y)
    case TakeRequestEvent => TakeRequest(y)
    case PrepareEvent(ok) => Prepare(y, ok)
    case OpenDeviceEvent(ok) => OpenDevice(y, ok)
    case ConfigureEvent(width, height, fps) => Configure(y, width, height, fps)
    case TakeCommandEvent => TakeCommand(y)
    case AnswerEvent(m) => Answer(y, m)
    case FallThroughEvent => FallThrough(y)
    case CrashEvent => Crash(y)
    case LoseEvent(next) => Lose(y, next)
  }

  function Run(y: Session, events: seq<Event>): Session
    decreases |events|
  {
    if events == [] then y else Run(if Enabled(y, events[0]) then Step(y, events[0]) else y, events[1..])
  }
}
