/** The parent's object: its handles on the child process, and how opening, reading and closing leave them. */
module CameraBackendObject {
  import opened Common
  import opened WorkerProtocol

  /** How the launch ends: with a started process; without one, nothing being held (also when the deadline was over
      or refused before); with one that failed to start; or with one whose transport failed, on Windows. */
  datatype LaunchOutcome = ProcessRuns | NoProcess | StartFails | HalfLaunched

  /** What waiting for one message ends with: a message, the deadline, an exception that the handlers know, or one
      that they do not know, which may have taken the message with it. */
  datatype Arrival = Arrives(m: Message) | TimesOut | Breaks | Escapes(taken: bool)

  /** How one step of `open` ends: it goes on, fails, or raises something no handler knows. */
  datatype Outcome = Goes | Fails | Raised

  /** Three looks at whether the process is alive: at once, after terminating, after killing; None if unreadable. */
  datatype Looks = Looks(atOnce: Option<bool>, terminated: Option<bool>, killed: Option<bool>)

  predicate ConfirmedGone(looks: Looks) { looks.killed == Some(false) }

  datatype OpenResult = Streams(c: Configuration) | OpenFailed | StillOpen | NotTerminated | OpenEscaped

  function Awaited(a: Arrival, k: nat, maxBytes: nat): (o: Outcome)
    ensures o.Raised? <==> a.Escapes?
    ensures o.Fails? ==> !a.Escapes? && !(a.Arrives? && IsExpected(k, a.m, maxBytes))
  {
    if a.Arrives? && IsExpected(k, a.m, maxBytes) then Goes else if a.Escapes? then Raised else Fails
  }

  /** The steps of `open` after the launch, in order: the first message, the request (sent on Windows only), the
      other three, and the clock readings that follow them. */
  function Steps(windows: bool, arrivals: seq<Arrival>, request: Outcome, finish: Outcome, maxBytes: nat):
      seq<Outcome>
    requires |arrivals| == 4
  {
    [Awaited(arrivals[0], 0, maxBytes), if windows then request else Goes, Awaited(arrivals[1], 1, maxBytes),
     Awaited(arrivals[2], 2, maxBytes), Awaited(arrivals[3], 3, maxBytes), finish]
  }

  predicate AllGo(steps: seq<Outcome>, n: nat)
    requires n <= |steps|
  {
    forall k :: 0 <= k < n ==> steps[k].Goes?
  }

  /** Some step raises, and every step before it goes. */
  predicate OneRaises(steps: seq<Outcome>) {
    exists k :: 0 <= k < |steps| && steps[k].Raised? && AllGo(steps, k)
  }

  /** What `read` reports. `ReadEscaped` is an exception none of its handlers knows. */
  datatype ReadResult =
    | NotOpen | ReadEscaped | ReadTimeout | ReadDisconnected | ReadRecoverable | ReadFatal | ReadFrame
    | ReadNotTerminated

  /** What one call of `read` meets: the time left before sending, whether the process is alive (None if that
      raises), an exception of the send and whether the command had gone out, the time left after it, and how
      waiting for the reply ends. */
  datatype Encounter = Encounter(
    before: TimeLeft, alive: Option<bool>, send: Option<Fault>, wentOut: bool, after: TimeLeft, reply: Arrival)

  /** The wait for a reply, as a step of the protocol. */
  function AwaitReply(y: Session, reply: Arrival, gone: bool): Session
    requires y.parent == Waiting(true) && (reply.Arrives? || (reply.Escapes? && reply.taken) ==> y.replies != [])
  {
    match reply
    case TimesOut => Terminate(y, gone)
    case Breaks => ReadFault(y, PipeFault, gone)
    case Escapes(taken) => if taken then ReplyFault(y, ForeignFault, gone) else ReadFault(y, ForeignFault, gone)
    case Arrives(_) => ReceiveReply(y, gone)
  }

  function AfterSend(y: Session, left: TimeLeft, reply: Arrival, gone: bool): Session
    requires y.parent == Waiting(false) && (reply.Arrives? || (reply.Escapes? && reply.taken) ==> y.replies != [])
  {
    match left
    case Expired => Terminate(y, gone)
    case Faults(fault) => ReadFault(y, fault, gone)
    case Waits => AwaitReply(y.(parent := Waiting(true)), reply, gone)
  }

  /** The same call as steps of the protocol, `gone` telling whether a process it terminates is known to have ended. */
  function ReadCall(y: Session, n: Encounter, gone: bool): Session
    requires y.parent.Open? && (n.reply.Arrives? || (n.reply.Escapes? && n.reply.taken) ==> y.replies != [])
  {
    if n.before.Faults? then y
    else if n.before.Expired? then SendRead(y, true, gone)
    else if n.alive.None? then y
    else if !n.alive.value then SendRead(y, true, gone)
    else if n.send.Some? then SendFault(y, n.send.value, n.wentOut, gone)
    else AfterSend(SendRead(y, false, gone), n.after, n.reply, gone)
  }

  /** The call raises something `read` does not handle, before any of its own ways out. */
  predicate EscapesRead(n: Encounter) {
    || n.before.Faults?
    || (n.before.Waits?
        && (n.alive.None?
            || (n.alive.value
                && (if n.send.Some? then !n.send.value.PipeFault?
                    else if n.after.Faults? then !n.after.fault.PipeFault?
                    else n.after.Waits? && n.reply.Escapes?))))
  }

  /** The command goes out and its reply comes in. */
  predicate ReplyArrives(n: Encounter) {
    n.before.Waits? && n.alive == Some(true) && n.send.None? && n.after.Waits? && n.reply.Arrives?
  }

  /** And the reply keeps the stream. */
  predicate AnswersRead(n: Encounter, c: Configuration) { ReplyArrives(n) && KeepsStream(n.reply.m, c) }

  /** The deadline passes before the command goes out, or before its reply comes in. */
  predicate RunsOutOfTime(n: Encounter) {
    || n.before.Expired?
    || (n.before.Waits? && n.alive == Some(true) && n.send.None?
        && (n.after.Expired? || (n.after.Waits? && n.reply.TimesOut?)))
  }

  /** The worker is found dead, or the pipe breaks under the command or its reply. */
  predicate PipeBreaks(n: Encounter) {
    && n.before.Waits?
    && (n.alive == Some(false)
        || (n.alive == Some(true)
            && (if n.send.Some? then n.send.value.PipeFault?
                else (n.after.Faults? && n.after.fault.PipeFault?) || (n.after.Waits? && n.reply.Breaks?))))
  }

  predicate KeepsStream(m: Message, c: Configuration) { m.Disconnected? || m.Recoverable? || FrameFits(m, c) }

  lemma AwaitReplyEnds(y: Session, reply: Arrival, gone: bool)
    requires y.parent == Waiting(true) && y.stream.Some?
    requires reply.Arrives? || (reply.Escapes? && reply.taken) ==> y.replies != []
    requires reply.Arrives? ==> y.replies[0] == reply.m
    ensures
      AwaitReply(y, reply, gone).parent ==
        if reply.Escapes? || (reply.Arrives? && KeepsStream(reply.m, y.stream.value)) then Parent.Open
        else if gone then Idle else Lost
    ensures
      reply.Escapes? ==>
        var z := AwaitReply(y, reply, gone);
        z.unanswered == y.unanswered + (if reply.taken then 0 else 1)
  {
    hide FrameFits;
  }

  lemma AfterSendEnds(y: Session, left: TimeLeft, reply: Arrival, gone: bool)
    requires y.parent == Waiting(false) && y.stream.Some?
    requires reply.Arrives? || (reply.Escapes? && reply.taken) ==> y.replies != []
    requires reply.Arrives? ==> y.replies[0] == reply.m
    ensures
      AfterSend(y, left, reply, gone).parent ==
        if (left.Faults? && !left.fault.PipeFault?)
           || (left.Waits? && (reply.Escapes? || (reply.Arrives? && KeepsStream(reply.m, y.stream.value))))
        then Parent.Open else if gone then Idle else Lost
    ensures
      (left.Faults? && !left.fault.PipeFault?) || (left.Waits? && reply.Escapes?) ==>
        var z := AfterSend(y, left, reply, gone);
        z.unanswered == y.unanswered + (if left.Waits? && reply.taken then 0 else 1)
  {
    AwaitReplyEnds(y.(parent := Waiting(true)), reply, gone);
    hide AwaitReply, KeepsStream;
  }

  lemma ReadCallEnds(y: Session, n: Encounter, gone: bool)
    requires y.parent.Open? && y.stream.Some?
    requires n.reply.Arrives? || (n.reply.Escapes? && n.reply.taken) ==> y.replies != []
    requires n.reply.Arrives? ==> y.replies[0] == n.reply.m
    ensures
      ReadCall(y, n, gone).parent ==
        if EscapesRead(n) || AnswersRead(n, y.stream.value) then Parent.Open else if gone then Idle else Lost
  {
    if n.before.Waits? && n.alive == Some(true) && n.send.None? {
      AfterSendEnds(SendRead(y, false, gone), n.after, n.reply, gone);
    } else {
      UnsentCallEnds(y, n, gone);
    }
    hide AfterSend, KeepsStream, SendFault;
  }

  lemma UnsentCallEnds(y: Session, n: Encounter, gone: bool)
    requires y.parent.Open? && (n.reply.Arrives? || (n.reply.Escapes? && n.reply.taken) ==> y.replies != [])
    requires !(n.before.Waits? && n.alive == Some(true) && n.send.None?)
    ensures ReadCall(y, n, gone).parent == if EscapesRead(n) then Parent.Open else if gone then Idle else Lost
  {
    hide AfterSend;
  }

  /** An escaping call leaves its command or its reply to a later read exactly when the command went out and no reply
      was taken. */
  lemma EscapeLeavesTrouble(y: Session, n: Encounter, gone: bool)
    requires y.parent.Open? && y.stream.Some? && EscapesRead(n)
    requires n.reply.Arrives? || (n.reply.Escapes? && n.reply.taken) ==> y.replies != []
    requires n.reply.Arrives? ==> y.replies[0] == n.reply.m
    ensures
      ReadCall(y, n, gone).unanswered == y.unanswered + 1 <==>
        && n.before.Waits? && n.alive.Some?
        && (if n.send.Some? then n.wentOut else n.after.Faults? || !n.reply.taken)
  {
    AfterSendEnds(SendRead(y, false, gone), n.after, n.reply, gone);
    hide AfterSend, KeepsStream;
  }

  class OpenCVProcessCameraBackend {
    var process: bool
    var processStarted: bool
    var connection: bool
    var stream: Option<Configuration>
    var terminationFailed: bool

    /** Nothing is held; or process and pipe; or a process that could not be terminated. */
    ghost predicate Valid()
      reads this
    {
      && (connection ==> process)
      && (stream.Some? ==> connection)
      && (processStarted <==> process)
      && (terminationFailed <==> process && !connection)
    }

    predicate IsOpen()
      reads this
    {
      process && connection
    }

    predicate MayOpen()
      reads this
    {
      !process && !connection
    }

    /** The state of the protocol this object is in between two calls. */
    ghost function Standing(): Parent
      reads this
    {
      if !process then Idle else if !connection then Lost else if stream.None? then Stranded else Parent.Open
    }

    constructor ()
      ensures Valid() && MayOpen()
    {
      process, processStarted, connection, stream, terminationFailed := false, false, false, None, false;
    }

    /** The pipe is always given up; the process only once it is known to be gone. A process that was started is
        asked to terminate exactly when the first look does not find it gone, and killed exactly when the second
        does not. */
    method TerminateWorker(looks: Looks) returns (raised: bool, terminated: bool, killed: bool)
      modifies this
      ensures !connection && stream.None?
      ensures terminated <==> old(process && processStarted) && looks.atOnce != Some(false)
      ensures killed <==> old(process && processStarted) && looks.terminated != Some(false)
      ensures raised <==> old(process && processStarted) && !ConfirmedGone(looks)
      ensures raised <==> process && terminationFailed
      ensures Valid() && (MayOpen() <==> !raised)
    {
      connection, stream := false, None;
      var started := processStarted;
      terminated, killed := false, false;
      if process && started && looks.atOnce != Some(false) {
        terminated := true;
      }
      if process && started && looks.terminated != Some(false) {
        killed := true;
      }
      if process && started && looks.killed != Some(false) {
        processStarted, terminationFailed := true, true;
        return true, terminated, killed;
      }
      process, processStarted, terminationFailed := false, false, false;
      raised := false;
    }

    /** `open`: it succeeds exactly when the process starts and every step goes. It raises what it does not handle
        exactly when a step raises that before any fails, and then process and pipe stay held with no stream; in
        every other case a failure leaves the backend not open, and reopenable exactly when no process was left
        alive. */
    method Open(windows: bool, launch: LaunchOutcome, arrivals: seq<Arrival>, request: Outcome, finish: Outcome,
                maxBytes: nat, looks: Looks)
      returns (r: OpenResult)
      requires Valid() && |arrivals| == 4
      modifies this
      ensures Valid()
      ensures r.StillOpen? <==> !old(MayOpen())
      ensures !old(MayOpen()) ==> Standing() == old(Standing()) && stream == old(stream)
      ensures r.Streams? <==>
                && old(MayOpen()) && launch.ProcessRuns? && (windows ==> request.Goes?) && finish.Goes?
                && arrivals[0] == Arrives(Started) && arrivals[1] == Arrives(Ready)
                && arrivals[2] == Arrives(DeviceOpened)
                && arrivals[3].Arrives? && arrivals[3].m.Configured? && Accepts(arrivals[3].m.c, maxBytes)
      ensures r.Streams? ==> IsOpen() && stream == Some(r.c) && arrivals[3].m == Configured(r.c)
      ensures r.OpenEscaped? <==>
                old(MayOpen()) && launch.ProcessRuns? && OneRaises(Steps(windows, arrivals, request, finish, maxBytes))
      ensures r.OpenEscaped? ==> Standing() == Stranded
      ensures r.OpenFailed? ==> MayOpen()
      ensures r.NotTerminated? ==> Standing() == Lost
      ensures r.OpenFailed? || r.NotTerminated? ==>
                (MayOpen() <==> launch.NoProcess? || launch.StartFails? || ConfirmedGone(looks))
    {
      ghost var steps := Steps(windows, arrivals, request, finish, maxBytes);
      if process || connection {
        return StillOpen;
      }
      if launch.NoProcess? {
        return OpenFailed;
      }
      process, connection, terminationFailed := true, launch != HalfLaunched, false;
      processStarted := !launch.StartFails?;
      if launch.ProcessRuns? {
        var trouble := Awaited(arrivals[0], 0, maxBytes);
        ghost var at := 0;
        if trouble.Goes? && windows {
          trouble, at := request, 1;
        }
        if trouble.Goes? {
          trouble, at := Awaited(arrivals[1], 1, maxBytes), 2;
        }
        if trouble.Goes? {
          trouble, at := Awaited(arrivals[2], 2, maxBytes), 3;
        }
        if trouble.Goes? {
          trouble, at := Awaited(arrivals[3], 3, maxBytes), 4;
        }
        if trouble.Goes? {
          trouble, at := finish, 5;
        }
        FirstTroubleDecides(steps, at);
        StepsGo(windows, arrivals, request, finish, maxBytes);
        if trouble.Goes? {
          stream := Some(arrivals[3].m.c);
          return Streams(arrivals[3].m.c);
        }
        if trouble.Raised? {
          return OpenEscaped;
        }
      }
      var raised, _, _ := TerminateWorker(looks);
      r := if raised then NotTerminated else OpenFailed;
    }

    /** `read`: its call is a step of the protocol, so it ends in the protocol's state. It keeps the stream while the
        backend stays open, and what it reports tells whether it did. */
    method Read(n: Encounter, looks: Looks, ghost y: Session) returns (r: ReadResult)
      requires Valid()
      requires y.parent.Open? && y.stream == stream
      requires n.reply.Arrives? || (n.reply.Escapes? && n.reply.taken) ==> y.replies != []
      requires n.reply.Arrives? ==> y.replies[0] == n.reply.m
      modifies this
      ensures Valid()
      ensures r.NotOpen? <==> old(Standing()) != Parent.Open
      ensures r.NotOpen? ==> Standing() == old(Standing())
      ensures !r.NotOpen? ==> Standing() == ReadCall(y, n, ConfirmedGone(looks)).parent
      ensures Standing() == Parent.Open ==> stream == old(stream)
      ensures r.ReadEscaped? <==> old(Standing()) == Parent.Open && EscapesRead(n)
      ensures r.ReadFrame? <==>
                && old(Standing()) == Parent.Open && ReplyArrives(n)
                && var c := old(stream).value; n.reply.m == FrameReply(c.width, c.height, c.stride)
      ensures r.ReadRecoverable? <==> old(Standing()) == Parent.Open && ReplyArrives(n) && n.reply.m.Recoverable?
      ensures r.ReadDisconnected? <==>
                old(Standing()) == Parent.Open
                && ((PipeBreaks(n) && ConfirmedGone(looks)) || (ReplyArrives(n) && n.reply.m.Disconnected?))
      ensures r.ReadTimeout? <==> old(Standing()) == Parent.Open && RunsOutOfTime(n) && ConfirmedGone(looks)
      ensures r.ReadFatal? <==>
                old(Standing()) == Parent.Open && ReplyArrives(n) && !KeepsStream(n.reply.m, old(stream).value)
                && ConfirmedGone(looks)
      ensures r.ReadNotTerminated? <==> old(Standing()) == Parent.Open && Standing() == Lost
    {
      if !process || !connection || stream.None? {
        return NotOpen;
      }
      ReadCallEnds(y, n, ConfirmedGone(looks));
      hide ReadCall, KeepsStream;
      if n.before.Faults? {
        return ReadEscaped;
      }
      if n.before.Expired? {
        r := GiveUp(ReadTimeout, looks);
        return;
      }
      if n.alive.None? {
        return ReadEscaped;
      }
      if !n.alive.value {
        r := GiveUp(ReadDisconnected, looks);
        return;
      }
      if n.send.Some? || n.after.Faults? {
        var fault := if n.send.Some? then n.send.value else n.after.fault;
        if !fault.PipeFault? {
          return ReadEscaped;
        }
        r := GiveUp(ReadDisconnected, looks);
        return;
      }
      if n.after.Expired? || n.reply.TimesOut? {
        r := GiveUp(ReadTimeout, looks);
        return;
      }
      if n.reply.Escapes? {
        return ReadEscaped;
      }
      if n.reply.Breaks? {
        r := GiveUp(ReadDisconnected, looks);
        return;
      }
      r := JudgeReply(n.reply.m, looks);
    }

    /** What `read` makes of a reply: only one that keeps the stream keeps the backend open. */
    method JudgeReply(m: Message, looks: Looks) returns (r: ReadResult)
      requires Valid() && stream.Some?
      modifies this
      ensures Valid()
      ensures KeepsStream(m, old(stream).value) ==> Standing() == Parent.Open && stream == old(stream)
      ensures !KeepsStream(m, old(stream).value) ==> Standing() == if ConfirmedGone(looks) then Idle else Lost
      ensures r ==
              if m.Disconnected? then ReadDisconnected else if m.Recoverable? then ReadRecoverable
              else if KeepsStream(m, old(stream).value) then ReadFrame
              else if ConfirmedGone(looks) then ReadFatal else ReadNotTerminated
    {
      if m.Disconnected? {
        return ReadDisconnected;
      }
      if m.Recoverable? {
        return ReadRecoverable;
      }
      if FrameFits(m, stream.value) {
        return ReadFrame;
      }
      r := GiveUp(ReadFatal, looks);
    }

    /** Terminate the worker and report so, unless the process survives. */
    method GiveUp(report: ReadResult, looks: Looks) returns (r: ReadResult)
      requires Valid() && process && !report.ReadNotTerminated?
      modifies this
      ensures Valid() && Standing() == (if ConfirmedGone(looks) then Idle else Lost)
      ensures r == if ConfirmedGone(looks) then report else ReadNotTerminated
    {
      var raised, _, _ := TerminateWorker(looks);
      r := if raised then ReadNotTerminated else report;
    }

    /** `close`; raises exactly when the process survives it. */
    method Close(looks: Looks) returns (raised: bool)
      requires Valid()
      modifies this
      ensures Valid() && !IsOpen() && stream.None?
      ensures raised <==> !MayOpen()
      ensures raised <==> !old(MayOpen()) && !ConfirmedGone(looks)
    {
      if !process && !connection {
        return false;
      }
      var terminated, killed;
      raised, terminated, killed := TerminateWorker(looks);
    }
  }

  lemma StepsGo(windows: bool, arrivals: seq<Arrival>, request: Outcome, finish: Outcome, maxBytes: nat)
    requires |arrivals| == 4
    ensures AllGo(Steps(windows, arrivals, request, finish, maxBytes), 6) <==>
              && (windows ==> request.Goes?) && finish.Goes?
              && arrivals[0] == Arrives(Started) && arrivals[1] == Arrives(Ready)
              && arrivals[2] == Arrives(DeviceOpened)
              && arrivals[3].Arrives? && arrivals[3].m.Configured? && Accepts(arrivals[3].m.c, maxBytes)
  {
    var steps := Steps(windows, arrivals, request, finish, maxBytes);
    assert AllGo(steps, 6) <==>
      steps[0].Goes? && steps[1].Goes? && steps[2].Goes? && steps[3].Goes? && steps[4].Goes? && steps[5].Goes?;
    hide Accepts, AllGo;
  }

  /** The first step that does not go decides between failing and raising; if the last goes too, all do. */
  lemma FirstTroubleDecides(steps: seq<Outcome>, at: nat)
    requires at < |steps| && AllGo(steps, at) && (steps[at].Goes? ==> at + 1 == |steps|)
    ensures AllGo(steps, |steps|) <==> steps[at].Goes?
    ensures OneRaises(steps) <==> steps[at].Raised?
  {
  }
}
