/** What parent and worker of the process camera keep over every run. */
module WorkerProofs {
  import opened Common
  import opened WorkerProtocol

  // ---- what every run keeps ---------------------------------------------------------------------

  /** The first four messages sent are those of the four phases, but for one error that ends the list. */
  predicate Scripted(sent: seq<Message>, maxBytes: nat) {
    forall k :: 0 <= k < |sent| && k < 4 ==>
      IsExpected(k, sent[k], maxBytes) || (IsPhaseError(k, sent[k]) && k + 1 == |sent|)
  }

  /** The first n messages are free of phase errors. */
  predicate Clean(sent: seq<Message>, n: nat, maxBytes: nat) {
    forall k :: 0 <= k < |sent| && k < n && k < 4 ==> IsExpected(k, sent[k], maxBytes)
  }

  /** How many messages a worker that still runs has sent in its phase. */
  predicate Pacing(w: Worker, n: nat) {
    match w
    case Booting => n == 0
    case AwaitingRequest => n == 1
    case Importing => n == 1
    case OpeningDevice => n == 2
    case Configuring => n == 3
    case Serving => n >= 4
    case Fetching => n >= 4
    case _ => true
  }

  predicate Connected(p: Parent) { !p.Idle? && !p.Lost? }

  /** How much the parent has received in its phase. */
  predicate Progress(p: Parent, n: nat) {
    match p
    case Expecting(k) => n == k <= 3
    case Requesting => n == 1
    case Open => n >= 4
    case Waiting(_) => n >= 4
    case _ => true
  }

  /** The pipe to the parent holds what was sent and not yet received; the worker follows the script. */
  predicate Piped(y: Session) {
    && y.received <= |y.sent| && y.replies == y.sent[y.received..]
    && Scripted(y.sent, y.maxBytes) && Pacing(y.worker, |y.sent|) && Progress(y.parent, y.received)
    && (WorkerRuns(y.worker) ==> Clean(y.sent, |y.sent|, y.maxBytes)) && Clean(y.sent, y.received, y.maxBytes)
  }

  /** A launched process is the parent's business until it is known to be gone, and only then may it reopen. */
  predicate Custody(y: Session) {
    && y.maxBytes <= MAX_CAPTURE_FRAME_BYTES
    && (y.parent.Idle? <==> y.worker.NoWorker?) && (y.parent.Lost? <==> y.worker.Orphan?)
    && (y.parent.Open? || y.parent.Waiting? ==> y.stream.Some?)
    && (y.stream.Some? ==> y.parent.Open? || y.parent.Waiting? || y.parent.Closing?)
    && (y.malformed ==> y.lossy) && (y.lossy ==> !y.tame)
  }

  predicate Orderly(y: Session) { Custody(y) && (Connected(y.parent) && !y.lossy ==> Piped(y)) }

  // ---- the worker keeps order ---------------------------------------------------------------------

  lemma SendKeepsOrder(y: Session, m: Message, next: Worker, commands: seq<Command>)
    requires Orderly(y) && WorkerRuns(y.worker) && !next.NoWorker? && !next.Orphan?
    requires !y.lossy ==> Pacing(next, |y.sent| + 1)
    requires !y.lossy && |y.sent| < 4 ==>
               IsExpected(|y.sent|, m, y.maxBytes) || (IsPhaseError(|y.sent|, m) && next.Done?)
    ensures Orderly(Send(y.(commands := commands), m, next))
  {
    var z := Send(y.(commands := commands), m, next);
    if !y.lossy { assert z.replies == z.sent[z.received..]; }
  }

  lemma MoveKeepsOrder(y: Session, next: Worker, commands: seq<Command>, tame: bool)
    requires Orderly(y) && WorkerRuns(y.worker)
    requires !next.NoWorker? && !next.Orphan? && (!y.lossy ==> Pacing(next, |y.sent|)) && (tame ==> y.tame)
    ensures Orderly(y.(worker := next, commands := commands, tame := tame))
  {
    hide Scripted, Clean;
  }

  /** Only a parent with an open connection has a worker that runs. */
  lemma RunningIsPaced(y: Session)
    requires Orderly(y) && WorkerRuns(y.worker)
    ensures Connected(y.parent) && y.maxBytes <= MAX_CAPTURE_FRAME_BYTES && (!y.lossy ==> Pacing(y.worker, |y.sent|))
  {
    hide Scripted, Clean;
  }

  lemma OpeningWorkerKeepsOrder(y: Session, e: Event)
    requires Orderly(y) && Enabled(y, e)
    requires e.BootEvent? || e.PrepareEvent? || e.OpenDeviceEvent?
    ensures Orderly(Step(y, e))
  {
    RunningIsPaced(y);
    hide Orderly;
    match e
    case BootEvent => SendKeepsOrder(y, Started, if y.windows then AwaitingRequest else Importing, y.commands);
    case PrepareEvent(ok) =>
      if ok { SendKeepsOrder(y, Ready, OpeningDevice, y.commands); }
      else { SendKeepsOrder(y, OpenError, Done, y.commands); }
    case OpenDeviceEvent(ok) =>
      if ok { SendKeepsOrder(y, DeviceOpened, Configuring, y.commands); }
      else { SendKeepsOrder(y, OpenError, Done, y.commands); }
  }

  lemma TakeRequestKeepsOrder(y: Session)
    requires Orderly(y) && y.worker.AwaitingRequest? && y.commands != []
    ensures Orderly(TakeRequest(y))
  {
    RunningIsPaced(y);
    hide Orderly;
    if y.commands[0].Request? {
      MoveKeepsOrder(y, Importing, y.commands[1..], y.tame);
    } else {
      SendKeepsOrder(y, OpenError, Done, y.commands[1..]);
    }
  }

  lemma ConfigureKeepsOrder(y: Session, width: Reading, height: Reading, fps: Reading)
    requires Orderly(y) && y.worker.Configuring?
    ensures Orderly(Configure(y, width, height, fps))
  {
    RunningIsPaced(y);
    NegotiatedIsAccepted(width, height, fps, y.maxBytes);
    var c := Negotiate(width, height, fps, y.maxBytes);
    hide Orderly, Negotiate, Accepts;
    if c.Some? {
      SendKeepsOrder(y, Configured(c.value), Serving, y.commands);
    } else {
      SendKeepsOrder(y, ConfigureError, Done, y.commands);
    }
  }

  lemma TakeCommandKeepsOrder(y: Session)
    requires Orderly(y) && y.worker.Serving? && y.commands != []
    ensures Orderly(TakeCommand(y))
  {
    RunningIsPaced(y);
    hide Orderly;
    match y.commands[0]
    case Request => SendKeepsOrder(y, FatalReply, Done, y.commands[1..]);
    case Read => MoveKeepsOrder(y, Fetching, y.commands[1..], y.tame);
    case CloseCommand => MoveKeepsOrder(y, Done, y.commands[1..], y.tame);
  }

  lemma AnswerKeepsOrder(y: Session, m: Message)
    requires Orderly(y) && y.worker.Fetching? && IsReply(m)
    ensures Orderly(Answer(y, m))
  {
    RunningIsPaced(y);
    hide Orderly;
    SendKeepsOrder(y, m, if m.FatalReply? then Done else Serving, y.commands);
  }

  lemma FallThroughKeepsOrder(y: Session)
    requires Orderly(y) && (y.worker.Serving? || y.worker.Fetching?)
    ensures Orderly(FallThrough(y))
  {
    RunningIsPaced(y);
    hide Orderly;
    SendKeepsOrder(y, OpenError, Done, y.commands);
    UntamingKeepsOrder(Send(y, OpenError, Done));
  }

  lemma UntamingKeepsOrder(y: Session)
    requires Orderly(y)
    ensures Orderly(y.(tame := false))
  {
    hide Scripted, Clean;
  }

  lemma LossKeepsOrder(y: Session, next: Worker)
    requires Orderly(y) && WorkerRuns(y.worker) && !next.NoWorker? && !next.Orphan?
    ensures Orderly(Lose(y, next))
  {
    hide Piped;
  }

  lemma WorkerKeepsOrder(y: Session, e: Event)
    requires Orderly(y) && Enabled(y, e) && !FromParent(e)
    ensures Orderly(Step(y, e))
  {
    hide Orderly, TakeRequest, Configure, TakeCommand, Answer, FallThrough, Lose;
    match e
    case TakeRequestEvent => TakeRequestKeepsOrder(y);
    case ConfigureEvent(width, height, fps) => ConfigureKeepsOrder(y, width, height, fps);
    case TakeCommandEvent => TakeCommandKeepsOrder(y);
    case AnswerEvent(m) => AnswerKeepsOrder(y, m);
    case FallThroughEvent => FallThroughKeepsOrder(y);
    case CrashEvent => MoveKeepsOrder(y, Done, y.commands, false);
    case LoseEvent(next) => LossKeepsOrder(y, next);
    case _ => OpeningWorkerKeepsOrder(y, e);
  }

  // ---- the parent keeps order ---------------------------------------------------------------------

  predicate FromReader(e: Event) {
    || e.SendReadEvent? || e.SendFaultEvent? || e.TimeReadEvent? || e.ReadFaultEvent? || e.ReplyFaultEvent?
    || e.ReceiveReplyEvent?
  }

  predicate FromParent(e: Event) {
    || e.LaunchEvent? || e.LaunchFailsEvent? || e.ReceivePhaseEvent? || e.SendRequestEvent? || e.TimePhaseEvent?
    || e.PhaseFaultEvent? || e.GiveUpEvent? || e.BeginCloseEvent? || e.TerminateEvent? || FromReader(e)
  }

  lemma ReceiveTakesNext(y: Session)
    requires Piped(y) && y.replies != []
    ensures y.replies[0] == y.sent[y.received]
    ensures y.replies[1..] == y.sent[y.received + 1..]
  {
  }

  lemma TerminateKeepsOrder(y: Session, gone: bool)
    requires Custody(y) || (Custody(y.(malformed := false)) && y.lossy)
    ensures Orderly(Terminate(y, gone))
  {
  }

  lemma OrderlyIsCustody(y: Session)
    requires Orderly(y)
    ensures Custody(y)
  {
    hide Piped;
  }

  lemma LaunchKeepsOrder(y: Session)
    requires Orderly(y) && y.parent.Idle?
    ensures Orderly(Launch(y))
  {
  }

  lemma CleanGrows(y: Session)
    requires Piped(y) && y.parent.Expecting? && y.replies != []
    requires IsExpected(y.parent.phase, y.replies[0], y.maxBytes)
    ensures y.received == y.parent.phase <= 3 && Clean(y.sent, y.received + 1, y.maxBytes)
  {
    ReceiveTakesNext(y);
    hide Scripted, Pacing;
  }

  lemma AdvancingKeepsOrder(y: Session, next: Parent, stream: Option<Configuration>)
    requires Orderly(y) && y.parent.Expecting? && y.replies != [] && Connected(next) && !next.Closing?
    requires (next.Open? || next.Waiting?) == stream.Some?
    requires !y.lossy ==> Clean(y.sent, y.received + 1, y.maxBytes) && Progress(next, y.received + 1)
    ensures Orderly(y.(parent := next, stream := stream, replies := y.replies[1..], received := y.received + 1))
  {
    if !y.lossy { ReceiveTakesNext(y); }
    hide Scripted, Clean, Pacing;
  }

  lemma PhaseAdvances(y: Session)
    requires Orderly(y) && y.parent.Expecting? && y.replies != []
    requires IsExpected(y.parent.phase, y.replies[0], y.maxBytes)
    ensures Orderly(ReceivePhase(y, false, true))
  {
    var k, m := y.parent.phase, y.replies[0];
    OrderlyIsCustody(y);
    if !y.lossy { CleanGrows(y); }
    hide Orderly, Clean, Accepts;
    if k == 0 && y.windows {
      AdvancingKeepsOrder(y, Requesting, y.stream);
    } else if k < 3 {
      AdvancingKeepsOrder(y, Expecting(k + 1), y.stream);
    } else {
      AdvancingKeepsOrder(y, Open, Some(m.c));
    }
  }

  /** What phase k receives is its message or its error, unless the worker has lost a message. */
  lemma PhaseIsScripted(y: Session)
    requires Orderly(y) && y.parent.Expecting? && y.replies != [] && !y.lossy
    ensures
      IsExpected(y.parent.phase, y.replies[0], y.maxBytes) || IsPhaseError(y.parent.phase, y.replies[0])
  {
    ReceiveTakesNext(y);
  }

  lemma ReceivePhaseKeepsOrder(y: Session, late: bool, gone: bool)
    requires Orderly(y) && y.parent.Expecting? && y.replies != []
    ensures Orderly(ReceivePhase(y, late, gone))
  {
    var k, m := y.parent.phase, y.replies[0];
    if !y.lossy { PhaseIsScripted(y); }
    OrderlyIsCustody(y);
    hide Orderly, IsPhaseError, IsExpected, Terminate;
    if !late && IsExpected(k, m, y.maxBytes) {
      PhaseAdvances(y);
    } else {
      var z := y.(replies := y.replies[1..], received := y.received + 1);
      TerminateKeepsOrder(z, gone);
      if y.lossy { TerminateKeepsOrder(z.(malformed := true), gone); }
    }
    hide Custody;
  }

  /** The parent moves without touching the pipe to it. */
  lemma MovingKeepsOrder(y: Session, z: Session)
    requires Orderly(y) && Connected(y.parent) && Connected(z.parent)
    requires z == y.(parent := z.parent, commands := z.commands, readsSent := z.readsSent, unanswered := z.unanswered)
    requires z.parent.Open? || z.parent.Waiting? ==> y.stream.Some?
    requires y.stream.Some? ==> z.parent.Open? || z.parent.Waiting? || z.parent.Closing?
    requires !y.lossy ==> Progress(z.parent, y.received)
    ensures Orderly(z)
  {
    hide Scripted, Clean, Pacing;
  }

  /** How far an orderly parent has come. */
  lemma OrderlyParent(y: Session)
    requires Orderly(y)
    ensures Custody(y)
    ensures Connected(y.parent) && !y.lossy ==> Progress(y.parent, y.received)
  {
    hide Scripted, Clean, Pacing;
  }

  lemma PhaseFaultKeepsOrder(y: Session, fault: Fault, gone: bool)
    requires Orderly(y) && (y.parent.Expecting? || y.parent.Requesting?)
    ensures Orderly(PhaseFault(y, fault, gone))
  {
    OrderlyParent(y);
    hide Orderly;
    if fault.ForeignFault? {
      MovingKeepsOrder(y, y.(parent := Stranded));
    } else {
      TerminateKeepsOrder(y, gone);
    }
  }

  lemma TimePhaseKeepsOrder(y: Session, deadline: int, clock: Clock, gone: bool)
    requires Orderly(y) && y.parent.Expecting?
    ensures Orderly(TimePhase(y, deadline, clock, gone))
  {
    OrderlyIsCustody(y);
    var left := Remaining(y.pollLimit, deadline, clock);
    if left.Expired? { TerminateKeepsOrder(y, gone); }
    if left.Faults? { PhaseFaultKeepsOrder(y, left.fault, gone); }
    hide Orderly, Custody, Remaining, PhaseFault, Terminate;
  }

  lemma SendRequestKeepsOrder(y: Session)
    requires Orderly(y) && y.parent.Requesting?
    ensures Orderly(SendRequest(y))
  {
    OrderlyParent(y);
    hide Orderly;
    MovingKeepsOrder(y, SendRequest(y));
  }

  lemma SendReadKeepsOrder(y: Session, refused: bool, gone: bool)
    requires Orderly(y) && y.parent.Open?
    ensures Orderly(SendRead(y, refused, gone))
  {
    OrderlyParent(y);
    hide Orderly;
    if refused { TerminateKeepsOrder(y, gone); } else { MovingKeepsOrder(y, SendRead(y, refused, gone)); }
  }

  lemma SendFaultKeepsOrder(y: Session, fault: Fault, wentOut: bool, gone: bool)
    requires Orderly(y) && y.parent.Open?
    ensures Orderly(SendFault(y, fault, wentOut, gone))
  {
    OrderlyParent(y);
    hide Orderly;
    if fault.PipeFault? { TerminateKeepsOrder(y, gone); }
    else { MovingKeepsOrder(y, SendFault(y, fault, wentOut, gone)); }
  }

  lemma ReadFaultKeepsOrder(y: Session, fault: Fault, gone: bool)
    requires Orderly(y) && y.parent.Waiting?
    ensures Orderly(ReadFault(y, fault, gone))
  {
    OrderlyParent(y);
    hide Orderly;
    if fault.PipeFault? { TerminateKeepsOrder(y, gone); } else { MovingKeepsOrder(y, ReadFault(y, fault, gone)); }
  }

  lemma TimeReadKeepsOrder(y: Session, deadline: int, clock: Clock, gone: bool)
    requires Orderly(y) && y.parent == Waiting(false)
    ensures Orderly(TimeRead(y, deadline, clock, gone))
  {
    OrderlyParent(y);
    var left := Remaining(y.pollLimit, deadline, clock);
    hide Orderly, Remaining, ReadFault;
    match left
    case Waits => MovingKeepsOrder(y, y.(parent := Waiting(true)));
    case Expired => TerminateKeepsOrder(y, gone);
    case Faults(fault) => ReadFaultKeepsOrder(y, fault, gone);
  }

  lemma TakingKeepsOrder(y: Session, silenced: bool)
    requires Orderly(y) && y.parent == Waiting(true) && y.replies != []
    ensures Orderly(y.(parent := Open, replies := y.replies[1..], received := y.received + 1, silenced := silenced))
  {
    if !y.lossy { ReceiveTakesNext(y); }
    hide Scripted, Pacing;
  }

  lemma ReplyFaultKeepsOrder(y: Session, fault: Fault, gone: bool)
    requires Orderly(y) && y.parent == Waiting(true) && y.replies != []
    ensures Orderly(ReplyFault(y, fault, gone))
  {
    OrderlyIsCustody(y);
    hide Orderly;
    if fault.PipeFault? {
      TerminateKeepsOrder(y, gone);
    } else {
      TakingKeepsOrder(y, y.silenced || y.replies[0].FatalReply?);
    }
  }

  /** A reply that is received keeps the stream and is not fatal, or ends the session. */
  lemma ReplyTakenOrTerminates(y: Session, gone: bool)
    requires y.parent == Waiting(true) && y.replies != []
    ensures
      var taken := y.(replies := y.replies[1..], received := y.received + 1);
      || ReceiveReply(y, gone) == Terminate(taken, gone)
      || (ReceiveReply(y, gone) == taken.(parent := Open) && !y.replies[0].FatalReply?)
  {
    hide Terminate;
  }

  lemma ReceiveReplyKeepsOrder(y: Session, gone: bool)
    requires Orderly(y) && y.parent == Waiting(true) && y.replies != []
    ensures Orderly(ReceiveReply(y, gone))
  {
    OrderlyIsCustody(y);
    ReplyTakenOrTerminates(y, gone);
    hide Orderly, Terminate, ReceiveReply;
    TerminateKeepsOrder(y.(replies := y.replies[1..], received := y.received + 1), gone);
    TakingKeepsOrder(y, y.silenced);
    hide Custody;
  }

  lemma ReaderKeepsOrder(y: Session, e: Event)
    requires Orderly(y) && Enabled(y, e) && FromReader(e)
    ensures Orderly(Step(y, e))
  {
    hide Orderly, SendRead, SendFault, TimeRead, ReadFault, ReplyFault, ReceiveReply;
    match e
    case SendReadEvent(refused, gone) => SendReadKeepsOrder(y, refused, gone);
    case SendFaultEvent(fault, wentOut, gone) => SendFaultKeepsOrder(y, fault, wentOut, gone);
    case TimeReadEvent(deadline, clock, gone) => TimeReadKeepsOrder(y, deadline, clock, gone);
    case ReadFaultEvent(fault, gone) => ReadFaultKeepsOrder(y, fault, gone);
    case ReplyFaultEvent(fault, gone) => ReplyFaultKeepsOrder(y, fault, gone);
    case ReceiveReplyEvent(gone) => ReceiveReplyKeepsOrder(y, gone);
  }

  lemma BeginCloseKeepsOrder(y: Session)
    requires Orderly(y) && (y.parent.Open? || y.parent.Stranded?)
    ensures Orderly(BeginClose(y))
  {
    hide Orderly;
    MovingKeepsOrder(y, BeginClose(y));
  }

  lemma ParentKeepsOrder(y: Session, e: Event)
    requires Orderly(y) && Enabled(y, e) && FromParent(e)
    ensures Orderly(Step(y, e))
  {
    OrderlyIsCustody(y);
    hide Orderly, Custody, Launch, ReceivePhase, SendRequest, TimePhase, PhaseFault, BeginClose, Terminate;
    match e
    case LaunchEvent => LaunchKeepsOrder(y);
    case ReceivePhaseEvent(late, gone) => ReceivePhaseKeepsOrder(y, late, gone);
    case SendRequestEvent => SendRequestKeepsOrder(y);
    case TimePhaseEvent(deadline, clock, gone) => TimePhaseKeepsOrder(y, deadline, clock, gone);
    case PhaseFaultEvent(fault, gone) => PhaseFaultKeepsOrder(y, fault, gone);
    case BeginCloseEvent => BeginCloseKeepsOrder(y);
    case LaunchFailsEvent(gone) => TerminateKeepsOrder(y, gone);
    case GiveUpEvent(gone) => TerminateKeepsOrder(y, gone);
    case TerminateEvent(gone) => TerminateKeepsOrder(y, gone);
    case _ => ReaderKeepsOrder(y, e);
  }

  // ---- replies and commands balance while the worker is tame --------------------------------------

  predicate InService(p: Parent) { p.Open? || p.Waiting? }

  predicate Opening(p: Parent) { p.Expecting? || p.Requesting? }

  /** After the script come replies to read commands; a fatal one is the last. */
  predicate Replies(sent: seq<Message>) {
    forall k :: 4 <= k < |sent| ==> IsReply(sent[k]) && (sent[k].FatalReply? ==> k + 1 == |sent|)
  }

  predicate NoFatal(sent: seq<Message>, n: nat)
    requires n <= |sent|
  {
    forall k :: 4 <= k < n ==> !sent[k].FatalReply?
  }

  predicate OnlyReads(commands: seq<Command>) { forall k :: 0 <= k < |commands| ==> commands[k].Read? }

  /** A tame worker only ends by reporting a phase error or a fatal reply. */
  predicate EndsWithReason(sent: seq<Message>) {
    && sent != []
    && (if |sent| <= 4 then IsPhaseError(|sent| - 1, sent[|sent| - 1]) else sent[|sent| - 1].FatalReply?)
  }

  predicate OpeningBalance(y: Session) {
    && y.readsSent == 0 && y.unanswered == 0 && !y.silenced && |y.sent| <= 4
    && y.commands == (if y.worker.AwaitingRequest? && y.parent.Expecting? && y.parent.phase > 0 then [Request] else [])
    && (y.windows && (y.parent.Requesting? || y.parent == Expecting(0)) ==>
          y.worker.Booting? || y.worker.AwaitingRequest?)
    && (y.parent.Requesting? ==> y.windows)
    && (y.worker.AwaitingRequest? ==> y.windows)
  }

  /** Every read command is in the pipe, in the worker's hands, answered in the other pipe, or received, but for
      the replies that reads ending in an exception left behind. */
  predicate ServiceBalance(y: Session)
    requires y.received <= |y.sent|
  {
    && OnlyReads(y.commands)
    && y.readsSent + 4 == y.received + y.unanswered + (if y.parent.Waiting? then 1 else 0)
    && (!y.silenced ==> NoFatal(y.sent, y.received))
    && (y.silenced ==> 4 < |y.sent| == y.received && y.sent[|y.sent| - 1].FatalReply?)
    && y.readsSent + 4 >= |y.sent|
  }

  predicate Balanced(y: Session)
    requires y.received <= |y.sent|
  {
    && Replies(y.sent)
    && (y.worker.Done? ==> EndsWithReason(y.sent))
    && (y.worker.Serving? || y.worker.Fetching? ==>
          && NoFatal(y.sent, |y.sent|)
          && y.readsSent + 4 == |y.commands| + (if y.worker.Fetching? then 1 else 0) + |y.sent|)
    && (Opening(y.parent) ==> OpeningBalance(y))
    && (InService(y.parent) ==> ServiceBalance(y))
  }

  /** The accounting holds until the worker misbehaves or the parent closes. */
  predicate Accounted(y: Session) { Followed(y) ==> y.received <= |y.sent| && Balanced(y) }

  predicate Followed(y: Session) { (Opening(y.parent) || InService(y.parent)) && y.tame }

  /** A tame session between its launch and its close. */
  predicate Tracked(y: Session) { Followed(y) && y.received <= |y.sent| && Piped(y) && Balanced(y) }

  lemma TrackedMeans(y: Session)
    requires Orderly(y) && Accounted(y) && Followed(y)
    ensures Tracked(y)
  {
  }

  lemma UnfollowedMeans(y: Session)
    requires !Followed(y)
    ensures Accounted(y)
  {
  }

  lemma TrackedAccounts(y: Session)
    requires Tracked(y)
    ensures Accounted(y)
  {
  }

  // ---- the parent keeps the accounts --------------------------------------------------------------

  lemma LaunchAccounts(y: Session)
    requires y.parent.Idle?
    ensures Accounted(Launch(y))
  {
  }

  lemma TerminateAccounts(y: Session, gone: bool)
    ensures Accounted(Terminate(y, gone))
  {
    hide Balanced;
  }

  lemma PhaseAdvanceAccounts(y: Session)
    requires Tracked(y) && y.parent.Expecting? && y.replies != []
    requires IsExpected(y.parent.phase, y.replies[0], y.maxBytes)
    ensures Accounted(ReceivePhase(y, false, true))
  {
    ReceiveTakesNext(y);
    hide Scripted, Clean, Accepts, Pacing;
    if y.parent.phase == 3 {
      LastPhaseAccounts(y);
    }
    hide ServiceBalance;
  }

  /** The last phase leaves the opening behind. */
  lemma LastPhaseAccounts(y: Session)
    requires Tracked(y) && y.parent == Expecting(3) && y.replies != []
    requires IsExpected(3, y.replies[0], y.maxBytes)
    ensures Accounted(ReceivePhase(y, false, true))
  {
    ReceiveTakesNext(y);
    hide Scripted, Clean, Accepts, Pacing, Replies;
  }

  lemma ReceivePhaseAccounts(y: Session, late: bool, gone: bool)
    requires Orderly(y) && Accounted(y) && y.parent.Expecting? && y.replies != []
    ensures Accounted(ReceivePhase(y, late, gone))
  {
    var z := ReceivePhase(y, late, gone);
    if y.tame { TrackedMeans(y); }
    if y.tame && !late && IsExpected(y.parent.phase, y.replies[0], y.maxBytes) {
      PhaseAdvanceAccounts(y);
    } else {
      hide Orderly, Accounted, Balanced, Tracked, Piped, IsExpected, IsPhaseError;
      UnfollowedMeans(z);
    }
    hide Orderly, Accounted, Balanced, Tracked, Piped, IsExpected, IsPhaseError;
  }

  lemma RequestAccounts(y: Session)
    requires Tracked(y) && y.parent.Requesting?
    ensures Accounted(SendRequest(y))
  {
  }

  lemma PutCommandAccounts(y: Session)
    requires Tracked(y) && y.parent.Open?
    ensures Accounted(PutCommand(y).(parent := Waiting(false)))
    ensures Accounted(PutCommand(y).(unanswered := y.unanswered + 1))
  {
  }

  lemma ReadFaultAccounts(y: Session, fault: Fault, gone: bool)
    requires Tracked(y) && y.parent.Waiting?
    ensures Accounted(ReadFault(y, fault, gone))
  {
  }

  lemma TimeReadAccounts(y: Session, deadline: int, clock: Clock, gone: bool)
    requires Tracked(y) && y.parent == Waiting(false)
    ensures Accounted(TimeRead(y, deadline, clock, gone))
  {
    var left := Remaining(y.pollLimit, deadline, clock);
    hide Remaining;
    if left.Faults? {
      ReadFaultAccounts(y, left.fault, gone);
    } else if left.Expired? {
      TerminateAccounts(y, gone);
    } else {
      TimedAccounts(y);
    }
    hide Accounted, Tracked, ReadFault, Terminate;
  }

  lemma TimedAccounts(y: Session)
    requires Tracked(y) && y.parent == Waiting(false)
    ensures Accounted(y.(parent := Waiting(true)))
  {
  }

  lemma TakingAccounts(y: Session, silenced: bool)
    requires Tracked(y) && y.parent == Waiting(true) && y.replies != []
    requires silenced == (y.silenced || y.replies[0].FatalReply?)
    ensures Accounted(y.(parent := Open, replies := y.replies[1..], received := y.received + 1, silenced := silenced))
  {
    ReceiveTakesNext(y);
  }

  lemma ReplyFaultAccounts(y: Session, fault: Fault, gone: bool)
    requires Tracked(y) && y.parent == Waiting(true) && y.replies != []
    ensures Accounted(ReplyFault(y, fault, gone))
  {
    TakingAccounts(y, y.silenced || y.replies[0].FatalReply?);
    TerminateAccounts(y, gone);
    hide Accounted, Tracked, Terminate;
  }

  lemma ReceiveReplyAccounts(y: Session, gone: bool)
    requires Tracked(y) && y.parent == Waiting(true) && y.replies != []
    ensures Accounted(ReceiveReply(y, gone))
  {
    ReplyTakenOrTerminates(y, gone);
    TerminateAccounts(y.(replies := y.replies[1..], received := y.received + 1), gone);
    hide Accounted, Terminate, ReceiveReply;
    if !y.replies[0].FatalReply? { TakingAccounts(y, y.silenced); }
    hide Tracked;
  }

  lemma SendReadAccounts(y: Session, refused: bool, gone: bool)
    requires Tracked(y) && y.parent.Open?
    ensures Accounted(SendRead(y, refused, gone))
  {
    PutCommandAccounts(y);
    TerminateAccounts(y, gone);
    hide Accounted, Tracked, Terminate;
  }

  lemma SendFaultAccounts(y: Session, fault: Fault, wentOut: bool, gone: bool)
    requires Tracked(y) && y.parent.Open?
    ensures Accounted(SendFault(y, fault, wentOut, gone))
  {
    PutCommandAccounts(y);
    TerminateAccounts(y, gone);
    TrackedAccounts(y);
    hide Accounted, Tracked, Terminate;
  }

  lemma ReaderAccounts(y: Session, e: Event)
    requires Orderly(y) && Accounted(y) && Enabled(y, e) && FromReader(e)
    ensures Accounted(Step(y, e))
  {
    if y.tame {
      TrackedMeans(y);
      TrackedReaderAccounts(y, e);
    } else {
      ReaderStaysUntame(y, e);
      UnfollowedMeans(Step(y, e));
    }
  }

  lemma TrackedReaderAccounts(y: Session, e: Event)
    requires Tracked(y) && Enabled(y, e) && FromReader(e)
    ensures Accounted(Step(y, e))
  {
    hide Tracked, Accounted, SendRead, SendFault, TimeRead, ReadFault, ReplyFault, ReceiveReply;
    match e
    case SendReadEvent(refused, gone) => SendReadAccounts(y, refused, gone);
    case SendFaultEvent(fault, wentOut, gone) => SendFaultAccounts(y, fault, wentOut, gone);
    case TimeReadEvent(deadline, clock, gone) => TimeReadAccounts(y, deadline, clock, gone);
    case ReadFaultEvent(fault, gone) => ReadFaultAccounts(y, fault, gone);
    case ReplyFaultEvent(fault, gone) => ReplyFaultAccounts(y, fault, gone);
    case ReceiveReplyEvent(gone) => ReceiveReplyAccounts(y, gone);
  }

  lemma ReaderStaysUntame(y: Session, e: Event)
    requires Enabled(y, e) && FromReader(e) && !y.tame
    ensures !Followed(Step(y, e))
  {
    if e.TimeReadEvent? { TimeReadStaysUntame(y, e.deadline, e.clock, e.gone); }
    if e.ReceiveReplyEvent? { ReplyTakenOrTerminates(y, e.gone); }
    hide TimeRead, ReceiveReply;
  }

  lemma TimeReadStaysUntame(y: Session, deadline: int, clock: Clock, gone: bool)
    requires y.parent == Waiting(false) && !y.tame
    ensures !Followed(TimeRead(y, deadline, clock, gone))
  {
    hide Remaining;
  }

  lemma ParentAccounts(y: Session, e: Event)
    requires Orderly(y) && Accounted(y) && Enabled(y, e) && FromParent(e)
    ensures Accounted(Step(y, e))
  {
    if e.SendRequestEvent? && y.tame { TrackedMeans(y); RequestAccounts(y); }
    hide Orderly, Accounted, Tracked, Launch, ReceivePhase, Terminate;
    match e
    case LaunchEvent => LaunchAccounts(y);
    case ReceivePhaseEvent(late, gone) => ReceivePhaseAccounts(y, late, gone);
    case SendRequestEvent => if !y.tame { UnfollowedMeans(SendRequest(y)); }
    case TimePhaseEvent(deadline, clock, gone) => TimePhaseAccounts(y, deadline, clock, gone);
    case PhaseFaultEvent(fault, gone) => PhaseFaultAccounts(y, fault, gone);
    case BeginCloseEvent => UnfollowedMeans(BeginClose(y));
    case LaunchFailsEvent(gone) => TerminateAccounts(y, gone);
    case GiveUpEvent(gone) => TerminateAccounts(y, gone);
    case TerminateEvent(gone) => TerminateAccounts(y, gone);
    case _ => ReaderAccounts(y, e);
  }

  lemma PhaseFaultAccounts(y: Session, fault: Fault, gone: bool)
    requires y.parent.Expecting? || y.parent.Requesting?
    ensures Accounted(PhaseFault(y, fault, gone))
  {
    hide Balanced;
  }

  lemma TimePhaseAccounts(y: Session, deadline: int, clock: Clock, gone: bool)
    requires Accounted(y) && y.parent.Expecting?
    ensures Accounted(TimePhase(y, deadline, clock, gone))
  {
    hide Balanced, Remaining;
  }

  // ---- the worker keeps the accounts --------------------------------------------------------------

  lemma BootAccounts(y: Session)
    requires Tracked(y) && y.worker.Booting?
    ensures Accounted(Boot(y))
  {
  }

  lemma TakeRequestAccounts(y: Session)
    requires Tracked(y) && y.worker.AwaitingRequest? && y.commands != []
    ensures Accounted(TakeRequest(y))
  {
  }

  lemma PrepareAccounts(y: Session, ok: bool)
    requires Tracked(y) && y.worker.Importing?
    ensures Accounted(Prepare(y, ok))
  {
  }

  lemma OpenDeviceAccounts(y: Session, ok: bool)
    requires Tracked(y) && y.worker.OpeningDevice?
    ensures Accounted(OpenDevice(y, ok))
  {
  }

  lemma ConfigureAccounts(y: Session, width: Reading, height: Reading, fps: Reading)
    requires Tracked(y) && y.worker.Configuring?
    ensures Accounted(Configure(y, width, height, fps))
  {
    hide Negotiate;
  }

  lemma TakeCommandAccounts(y: Session)
    requires Tracked(y) && y.worker.Serving? && y.commands != []
    ensures Accounted(TakeCommand(y))
  {
    assert y.commands[0].Read?;
  }

  lemma AnswerAccounts(y: Session, m: Message)
    requires Tracked(y) && y.worker.Fetching? && IsReply(m)
    ensures Accounted(Answer(y, m))
  {
  }

  lemma WorkerAccounts(y: Session, e: Event)
    requires Orderly(y) && Accounted(y) && Enabled(y, e) && !FromParent(e)
    ensures Accounted(Step(y, e))
  {
    if Followed(y) {
      TrackedMeans(y);
      TrackedWorkerAccounts(y, e);
    } else {
      UnfollowedStays(y, e);
    }
  }

  lemma TrackedWorkerAccounts(y: Session, e: Event)
    requires Tracked(y) && Enabled(y, e) && !FromParent(e)
    ensures Accounted(Step(y, e))
  {
    hide Tracked, Accounted, Boot, TakeRequest, Prepare, OpenDevice, Configure, TakeCommand, Answer;
    match e
    case BootEvent => BootAccounts(y);
    case TakeRequestEvent => TakeRequestAccounts(y);
    case PrepareEvent(ok) => PrepareAccounts(y, ok);
    case OpenDeviceEvent(ok) => OpenDeviceAccounts(y, ok);
    case ConfigureEvent(width, height, fps) => ConfigureAccounts(y, width, height, fps);
    case TakeCommandEvent => TakeCommandAccounts(y);
    case AnswerEvent(m) => AnswerAccounts(y, m);
    case FallThroughEvent => UnfollowedMeans(FallThrough(y));
    case CrashEvent => UnfollowedMeans(Crash(y));
    case LoseEvent(next) => UnfollowedMeans(Lose(y, next));
  }

  lemma UnfollowedStays(y: Session, e: Event)
    requires Enabled(y, e) && !FromParent(e) && !Followed(y)
    ensures Accounted(Step(y, e))
  {
    WorkerKeepsParent(y, e);
    hide Step, Balanced;
    UnfollowedMeans(Step(y, e));
  }

  predicate FromServing(e: Event) {
    e.TakeCommandEvent? || e.AnswerEvent? || e.FallThroughEvent? || e.CrashEvent? || e.LoseEvent?
  }

  /** What no step of the worker touches. */
  predicate SameParent(y: Session, z: Session) {
    && z.parent == y.parent && (z.tame ==> y.tame)
    && z.pollLimit == y.pollLimit && z.unanswered == y.unanswered && z.silenced == y.silenced
  }

  lemma WorkerKeepsParent(y: Session, e: Event)
    requires Enabled(y, e) && !FromParent(e)
    ensures SameParent(y, Step(y, e))
  {
    hide Step, SameParent;
    if FromServing(e) { ServingKeepsParent(y, e); } else { OpeningKeepsParent(y, e); }
  }

  lemma ServingKeepsParent(y: Session, e: Event)
    requires Enabled(y, e) && FromServing(e)
    ensures SameParent(y, Step(y, e))
  {
    hide Negotiate, IsReply;
  }

  lemma OpeningKeepsParent(y: Session, e: Event)
    requires Enabled(y, e) && !FromParent(e) && !FromServing(e)
    ensures SameParent(y, Step(y, e))
  {
    if e.ConfigureEvent? { ConfigureKeepsParent(y, e.width, e.height, e.fps); }
    if e.TakeRequestEvent? { TakeRequestKeepsParent(y); }
    hide Configure, TakeRequest;
  }

  lemma ConfigureKeepsParent(y: Session, width: Reading, height: Reading, fps: Reading)
    requires y.worker.Configuring?
    ensures SameParent(y, Configure(y, width, height, fps))
  {
    hide Negotiate;
  }

  lemma TakeRequestKeepsParent(y: Session)
    requires y.worker.AwaitingRequest? && y.commands != []
    ensures SameParent(y, TakeRequest(y))
  {
  }

  // ---- runs ---------------------------------------------------------------------------------------

  lemma StepKeeps(y: Session, e: Event)
    requires Enabled(y, e) && Orderly(y) && Accounted(y)
    ensures Orderly(Step(y, e)) && Accounted(Step(y, e))
  {
    hide Step, Orderly, Accounted;
    if FromParent(e) {
      ParentKeepsOrder(y, e);
      ParentAccounts(y, e);
    } else {
      WorkerKeepsOrder(y, e);
      WorkerAccounts(y, e);
    }
  }

  lemma {:induction false} RunKeeps(y: Session, events: seq<Event>)
    requires Orderly(y) && Accounted(y)
    ensures Orderly(Run(y, events)) && Accounted(Run(y, events))
    decreases |events|
  {
    hide Step, Orderly, Accounted, Enabled;
    if events != [] {
      if Enabled(y, events[0]) { StepKeeps(y, events[0]); }
      RunKeeps(if Enabled(y, events[0]) then Step(y, events[0]) else y, events[1..]);
    }
  }

  // ---- open means in step -------------------------------------------------------------------------

  /** Both pipes are empty and the worker waits for a command. */
  predicate InStep(y: Session) { y.commands == [] && y.replies == [] && y.worker.Serving? }

  /** No read of this session ended in an exception that left its command or its reply to a later read. */
  predicate Untroubled(y: Session) { y.unanswered == 0 && !y.silenced }

  lemma OpenMeansInStep(y: Session)
    requires Orderly(y) && Accounted(y) && y.parent.Open? && y.tame
    ensures InStep(y) <==> Untroubled(y)
  {
    assert IsExpected(3, y.sent[3], y.maxBytes);
  }

  /** Over every run, of any number of launches and reads: `open` meets a message its phase does not understand, or
      announced values it rejects, only from a worker that lost a message; the backend is open only with a stream,
      and may be reopened only when its last process is gone; and whenever the backend is open, the parties are in
      lock step if and only if no read of this session let an exception out with its reply still to come, or took
      the worker's last reply with one, provided the worker neither crashed, nor lost a message, nor fell into its
      last handler. */
  lemma EveryRunStaysInStep(windows: bool, maxBytes: nat, pollLimit: nat, events: seq<Event>)
    requires maxBytes <= MAX_CAPTURE_FRAME_BYTES
    ensures
      var y := Run(NewSession(windows, maxBytes, pollLimit), events);
      && (y.malformed ==> y.lossy)
      && (y.parent.Idle? <==> y.worker.NoWorker?)
      && (y.parent.Open? ==> y.stream.Some?)
      && (y.parent.Open? && y.tame ==> (InStep(y) <==> Untroubled(y)))
  {
    var first := NewSession(windows, maxBytes, pollLimit);
    UnfollowedMeans(first);
    assert Orderly(first);
    hide Run, Accounted, Orderly, InStep, Untroubled;
    RunKeeps(first, events);
    var y := Run(first, events);
    OrderlyIsCustody(y);
    if y.parent.Open? && y.tame { OpenMeansInStep(y); }
  }

  // ---- the guard ----------------------------------------------------------------------------------

  /** The step raises nothing that goes past the handlers of `open` and `read`. Where the clock is read, that is a
      matter of the deadline and the reading alone. */
  predicate Guarded(limit: nat, e: Event) {
    match e
    case TimePhaseEvent(deadline, clock, _) => Timely(limit, deadline, clock)
    case TimeReadEvent(deadline, clock, _) => Timely(limit, deadline, clock)
    case PhaseFaultEvent(fault, _) => !fault.ForeignFault?
    case SendFaultEvent(fault, wentOut, _) => fault.PipeFault? || !wentOut
    case ReadFaultEvent(fault, _) => fault.PipeFault?
    case ReplyFaultEvent(fault, _) => fault.PipeFault?
    case _ => true
  }

  predicate Sheltered(y: Session, limit: nat) { y.pollLimit == limit && !y.parent.Stranded? && Untroubled(y) }

  lemma WorkerStaysSheltered(y: Session, e: Event)
    requires Enabled(y, e) && !FromParent(e) && Sheltered(y, y.pollLimit)
    ensures Sheltered(Step(y, e), y.pollLimit)
  {
    WorkerKeepsParent(y, e);
    hide Step;
  }

  lemma ReaderStaysSheltered(y: Session, e: Event)
    requires Enabled(y, e) && FromReader(e) && Sheltered(y, y.pollLimit) && Guarded(y.pollLimit, e)
    ensures Sheltered(Step(y, e), y.pollLimit)
  {
    if e.TimeReadEvent? { UntimelyFaults(y.pollLimit, e.deadline, e.clock); }
    hide Remaining, FrameFits;
  }

  lemma ReceivePhaseStaysSheltered(y: Session, late: bool, gone: bool)
    requires y.parent.Expecting? && y.replies != [] && Sheltered(y, y.pollLimit)
    ensures Sheltered(ReceivePhase(y, late, gone), y.pollLimit)
  {
    var z := y.(replies := y.replies[1..], received := y.received + 1);
    TerminateIsSheltered(z, gone);
    TerminateIsSheltered(z.(malformed := true), gone);
    hide IsExpected, IsPhaseError, Terminate;
  }

  lemma TerminateIsSheltered(y: Session, gone: bool)
    requires Untroubled(y)
    ensures Sheltered(Terminate(y, gone), y.pollLimit)
  {
  }

  lemma ParentStaysSheltered(y: Session, e: Event)
    requires Enabled(y, e) && FromParent(e) && !FromReader(e)
    requires Sheltered(y, y.pollLimit) && Guarded(y.pollLimit, e)
    ensures Sheltered(Step(y, e), y.pollLimit)
  {
    if e.TimePhaseEvent? { UntimelyFaults(y.pollLimit, e.deadline, e.clock); }
    if e.ReceivePhaseEvent? { ReceivePhaseStaysSheltered(y, e.late, e.gone); }
    hide Remaining, Timely, ReceivePhase;
  }

  lemma {:induction false} RunStaysSheltered(y: Session, events: seq<Event>, limit: nat)
    requires Sheltered(y, limit) && (forall k :: 0 <= k < |events| ==> Guarded(limit, events[k]))
    ensures Sheltered(Run(y, events), limit)
    decreases |events|
  {
    hide Step, Enabled, Guarded;
    if events != [] {
      var e := events[0];
      assert Guarded(limit, e);
      if Enabled(y, e) {
        if !FromParent(e) { WorkerStaysSheltered(y, e); }
        else if FromReader(e) { ReaderStaysSheltered(y, e); }
        else { ParentStaysSheltered(y, e); }
      }
      RunStaysSheltered(if Enabled(y, e) then Step(y, e) else y, events[1..], limit);
    }
  }

  /** While every clock reading is in range and leaves no more time than `poll` accepts, and nothing else raises past
      the handlers, `open` never returns by an exception with process and pipe still held, and an open backend with
      a tame worker is always in lock step. */
  lemma GuardedRunsStayInStep(windows: bool, maxBytes: nat, pollLimit: nat, events: seq<Event>)
    requires maxBytes <= MAX_CAPTURE_FRAME_BYTES
    requires forall k :: 0 <= k < |events| ==> Guarded(pollLimit, events[k])
    ensures
      var y := Run(NewSession(windows, maxBytes, pollLimit), events);
      !y.parent.Stranded? && (y.parent.Open? && y.tame ==> InStep(y))
  {
    hide Run, InStep, Guarded;
    RunStaysSheltered(NewSession(windows, maxBytes, pollLimit), events, pollLimit);
    EveryRunStaysInStep(windows, maxBytes, pollLimit, events);
  }

  lemma UntimelyFaults(limit: nat, deadline: int, clock: Clock)
    ensures Timely(limit, deadline, clock) <==> !Remaining(limit, deadline, clock).Faults?
    ensures Remaining(limit, deadline, clock) == Faults(PipeFault) ==> clock == Raises(PipeFault)
  {
  }

  lemma TimeReadFaults(y: Session, deadline: int, clock: Clock, gone: bool)
    requires y.parent == Waiting(false) && !Timely(y.pollLimit, deadline, clock) && clock != Raises(PipeFault)
    ensures TimeRead(y, deadline, clock, gone) == y.(parent := Open, unanswered := y.unanswered + 1)
  {
    UntimelyFaults(y.pollLimit, deadline, clock);
    hide Remaining, Timely;
  }

  /** The guard is exact where `read` computes its wait: short of an exception of the pipe, the read ends with its
      command unanswered and the backend open if and only if the guard fails. */
  lemma GuardIsExact(y: Session, deadline: int, clock: Clock, gone: bool)
    requires y.parent == Waiting(false) && clock != Raises(PipeFault)
    ensures
      var z := TimeRead(y, deadline, clock, gone);
      z.parent.Open? && z.unanswered == y.unanswered + 1 <==> !Timely(y.pollLimit, deadline, clock)
  {
    UntimelyFaults(y.pollLimit, deadline, clock);
    if !Timely(y.pollLimit, deadline, clock) { TimeReadFaults(y, deadline, clock, gone); }
    hide Remaining, Timely;
  }

  /** `open` is stranded if and only if the clock raises something foreign or leaves more time than `poll` accepts. */
  lemma StrandingIsExact(y: Session, deadline: int, clock: Clock, gone: bool)
    requires y.parent.Expecting?
    ensures
      TimePhase(y, deadline, clock, gone).parent.Stranded? <==>
        && 0 <= deadline <= MAX_INT64
        && (clock == Raises(ForeignFault)
            || (clock.Shows? && 0 <= clock.ns <= MAX_INT64 && deadline - clock.ns > y.pollLimit))
  {
    ForeignFaults(y.pollLimit, deadline, clock);
    hide Remaining;
  }

  lemma ForeignFaults(limit: nat, deadline: int, clock: Clock)
    ensures
      Remaining(limit, deadline, clock) == Faults(ForeignFault) <==>
        && 0 <= deadline <= MAX_INT64
        && (clock == Raises(ForeignFault)
            || (clock.Shows? && 0 <= clock.ns <= MAX_INT64 && deadline - clock.ns > limit))
  {
  }

  // ---- runs that leave the guard ------------------------------------------------------------------

  lemma RunTakes(y: Session, events: seq<Event>, k: nat)
    requires k < |events| && Enabled(y, events[k])
    ensures Run(y, events[k..]) == Run(Step(y, events[k]), events[k + 1..])
  {
    assert events[k..][1..] == events[k + 1..];
    hide Step;
  }

  lemma RunsOut(y: Session, events: seq<Event>)
    requires events == []
    ensures Run(y, events) == y
  {
  }

  const ONE_PIXEL := Configuration(1, 1, None, 3)

  const SCRIPT: seq<Message> := [Started, Ready, DeviceOpened, Configured(ONE_PIXEL)]

  /** Launch; the worker boots, prepares, opens and configures; the parent receives the four messages and sends a
      read. (Computing how long to wait for a phase message in time changes nothing and is left out.) */
  const FIRST_READ: seq<Event> :=
    [LaunchEvent, BootEvent, PrepareEvent(true), OpenDeviceEvent(true),
     ConfigureEvent(Number(1.0), Number(1.0), Absent),
     ReceivePhaseEvent(false, true), ReceivePhaseEvent(false, true), ReceivePhaseEvent(false, true),
     ReceivePhaseEvent(false, true), SendReadEvent(false, true)]

  /** The session once the worker serves and nothing has been received. */
  function Announced(maxBytes: nat, pollLimit: nat): Session {
    Session(false, maxBytes, pollLimit, Expecting(0), Serving, [], SCRIPT, None, SCRIPT, 0, 0, 0, false, true, false,
            false)
  }

  /** The session once the first read command has gone out. */
  function Asked(maxBytes: nat, pollLimit: nat): Session {
    Session(false, maxBytes, pollLimit, Waiting(false), Serving, [Read], [], Some(ONE_PIXEL), SCRIPT, 4, 1, 0, false,
            true, false, false)
  }

  lemma WorkerAnnounces(maxBytes: nat, pollLimit: nat, es: seq<Event>)
    requires 3 <= maxBytes <= MAX_CAPTURE_FRAME_BYTES && FIRST_READ <= es
    ensures Run(NewSession(false, maxBytes, pollLimit), es) == Run(Announced(maxBytes, pollLimit), es[5..])
  {
    hide Run;
    var y0 := NewSession(false, maxBytes, pollLimit);
    assert es[0..] == es;
    RunTakes(y0, es, 0);
    var y1 := Step(y0, es[0]);
    RunTakes(y1, es, 1);
    var y2 := Step(y1, es[1]);
    RunTakes(y2, es, 2);
    var y3 := Step(y2, es[2]);
    RunTakes(y3, es, 3);
    var y4 := Step(y3, es[3]);
    assert Negotiate(Number(1.0), Number(1.0), Absent, maxBytes) == Some(ONE_PIXEL);
    RunTakes(y4, es, 4);
    assert Step(y4, es[4]).sent == SCRIPT;
  }

  /** The announced session after k phases. */
  function Progressed(maxBytes: nat, pollLimit: nat, k: nat): Session
    requires k <= 3
  {
    Announced(maxBytes, pollLimit).(parent := Expecting(k), replies := SCRIPT[k..], received := k)
  }

  lemma PhaseTaken(maxBytes: nat, pollLimit: nat, k: nat)
    requires 3 <= maxBytes <= MAX_CAPTURE_FRAME_BYTES && k <= 3
    ensures
      ReceivePhase(Progressed(maxBytes, pollLimit, k), false, true) ==
        if k < 3 then Progressed(maxBytes, pollLimit, k + 1)
        else Progressed(maxBytes, pollLimit, k).(parent := Open, replies := [], received := 4, stream := Some(ONE_PIXEL))
  {
    assert SCRIPT[k..][0] == SCRIPT[k];
    assert SCRIPT[k..][1..] == SCRIPT[k + 1..];
  }

  lemma ParentAsks(maxBytes: nat, pollLimit: nat, es: seq<Event>)
    requires 3 <= maxBytes <= MAX_CAPTURE_FRAME_BYTES && FIRST_READ <= es
    ensures Run(Announced(maxBytes, pollLimit), es[5..]) == Run(Asked(maxBytes, pollLimit), es[10..])
  {
    assert SCRIPT[0..] == SCRIPT;
    PhaseTaken(maxBytes, pollLimit, 0);
    RunTakes(Announced(maxBytes, pollLimit), es, 5);
    PhaseTaken(maxBytes, pollLimit, 1);
    RunTakes(Progressed(maxBytes, pollLimit, 1), es, 6);
    PhaseTaken(maxBytes, pollLimit, 2);
    RunTakes(Progressed(maxBytes, pollLimit, 2), es, 7);
    PhaseTaken(maxBytes, pollLimit, 3);
    RunTakes(Progressed(maxBytes, pollLimit, 3), es, 8);
    var open := ReceivePhase(Progressed(maxBytes, pollLimit, 3), false, true);
    RunTakes(open, es, 9);
    assert [] + [Read] == [Read];
    assert Step(open, es[9]) == Asked(maxBytes, pollLimit);
    hide Run, ReceivePhase;
  }

  /** The whole family is real: for every deadline and reading that the guard refuses, but for an exception of the
      pipe, there is a run that leaves the backend open with a command in the pipe. */
  lemma UnguardedReadBreaksStep(maxBytes: nat, pollLimit: nat, deadline: int, clock: Clock)
    requires 3 <= maxBytes <= MAX_CAPTURE_FRAME_BYTES
    requires !Timely(pollLimit, deadline, clock) && clock != Raises(PipeFault)
    ensures
      var y := Run(NewSession(false, maxBytes, pollLimit), FIRST_READ + [TimeReadEvent(deadline, clock, true)]);
      y.parent.Open? && y.tame && !InStep(y) && y.commands == [Read]
  {
    var es := FIRST_READ + [TimeReadEvent(deadline, clock, true)];
    WorkerAnnounces(maxBytes, pollLimit, es);
    ParentAsks(maxBytes, pollLimit, es);
    var y := Asked(maxBytes, pollLimit);
    TimeReadFaults(y, deadline, clock, true);
    RunTakes(y, es, 10);
    RunsOut(Step(y, es[10]), es[11..]);
    hide Run, TimeRead, Timely;
  }

  /** What `poll` accepts on POSIX, in nanoseconds: the milliseconds of a signed 32-bit integer. */
  const POSIX_POLL_LIMIT: nat := 2_147_483_647_000_000

  /** A valid clock is no protection: with a deadline that `read` accepts but `poll` does not, the first read of a
      backend already breaks the step. */
  lemma PollOverflowBreaksStep(maxBytes: nat, now: nat, deadline: nat)
    requires 3 <= maxBytes <= MAX_CAPTURE_FRAME_BYTES && deadline <= MAX_INT64
    requires deadline - now > POSIX_POLL_LIMIT
    ensures
      var e := TimeReadEvent(deadline, Shows(now), true);
      var y := Run(NewSession(false, maxBytes, POSIX_POLL_LIMIT), FIRST_READ + [e]);
      y.parent.Open? && y.tame && !InStep(y) && y.commands == [Read]
  {
    hide FIRST_READ;
    UnguardedReadBreaksStep(maxBytes, POSIX_POLL_LIMIT, deadline, Shows(now));
  }

  /** And so it goes with `open`: the exception leaves process and pipe held and no stream to read from. */
  lemma PollOverflowStrandsOpen(windows: bool, maxBytes: nat, now: nat, deadline: nat)
    requires deadline <= MAX_INT64 && deadline - now > POSIX_POLL_LIMIT
    ensures
      var events := [LaunchEvent, TimePhaseEvent(deadline, Shows(now), true)];
      var y := Run(NewSession(windows, maxBytes, POSIX_POLL_LIMIT), events);
      y.parent.Stranded? && !y.worker.NoWorker? && y.stream.None?
  {
    var y0 := NewSession(windows, maxBytes, POSIX_POLL_LIMIT);
    var events := [LaunchEvent, TimePhaseEvent(deadline, Shows(now), true)];
    assert events[0..] == events;
    RunTakes(y0, events, 0);
    RunTakes(Step(y0, events[0]), events, 1);
    RunsOut(Step(Step(y0, events[0]), events[1]), events[2..]);
  }
}
