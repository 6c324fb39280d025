/** What the camera backend and its worker decide, and that a working device is opened, read and closed. */
module WorkerDecisions {
  import opened Common
  import opened WorkerProtocol

  // ---- configurations and time ----------------------------------------------------------

  /** A worker announces c for exactly the readings that say c in whole numbers; a rate of 0 stands for none. */
  lemma NegotiationIsExact(width: Reading, height: Reading, fps: Reading, maxBytes: nat, c: Configuration)
    ensures Negotiate(width, height, fps, maxBytes) == Some(c) <==>
              && 1 <= c.width <= 8_192 && width == Number(c.width as real)
              && 1 <= c.height <= 8_192 && height == Number(c.height as real)
              && c.stride == c.width * 3 && c.width * c.height * 3 <= maxBytes
              && match c.fps
                 case None => fps.Absent? || fps == Number(0.0)
                 case Some(rate) => fps == Number(rate) && 0.0 < rate <= 240.0
  {
    assert 1 <= c.width <= 8_192 ==> Dimension(Number(c.width as real)) == Some(c.width);
    assert 1 <= c.height <= 8_192 ==> Dimension(Number(c.height as real)) == Some(c.height);
  }

  /** The parent accepts exactly what a worker can announce to it. */
  lemma AcceptedIsAnnounced(c: Configuration, maxBytes: nat)
    ensures Accepts(c, maxBytes) <==>
              Negotiate(Number(c.width as real), Number(c.height as real),
                        if c.fps.Some? then Number(c.fps.value) else Absent, Min(maxBytes, 33_554_432)) == Some(c)
  {
    StrideTimesHeight(c.width, c.height);
    NegotiationIsExact(Number(c.width as real), Number(c.height as real),
                       if c.fps.Some? then Number(c.fps.value) else Absent, Min(maxBytes, 33_554_432), c);
    hide Negotiate;
  }

  /** A wait begins exactly when deadline and reading are in range and 1 to `limit` nanoseconds lie between them. */
  lemma TimeLeftDecides(limit: nat, deadline: int, clock: Clock)
    ensures Remaining(limit, deadline, clock).Waits? <==>
              clock.Shows? && 0 <= clock.ns < deadline <= 0x7FFF_FFFF_FFFF_FFFF && deadline - clock.ns <= limit
    ensures Remaining(limit, deadline, clock).Expired? <==>
              clock.Shows? && 0 <= deadline <= clock.ns <= 0x7FFF_FFFF_FFFF_FFFF
    ensures Remaining(limit, deadline, clock) == Faults(PipeFault) <==>
              0 <= deadline <= 0x7FFF_FFFF_FFFF_FFFF && clock == Raises(PipeFault)
    ensures Remaining(limit, deadline, clock) == Faults(ForeignFault) <==>
              || (0 <= deadline <= 0x7FFF_FFFF_FFFF_FFFF && clock == Raises(ForeignFault))
              || (clock.Shows? && 0 <= clock.ns < deadline <= 0x7FFF_FFFF_FFFF_FFFF && deadline - clock.ns > limit)
  {
  }

  // ---- single steps of a run ---------------------------------------------------------------

  lemma RunOne(y: Session, e: Event)
    requires Enabled(y, e)
    ensures Run(y, [e]) == Step(y, e)
  {
    hide Step, Enabled;
    assert [e][1..] == [];
    assert Run(Step(y, e), []) == Step(y, e);
  }

  lemma RunNothing(y: Session)
    ensures Run(y, []) == y
  {
  }

  lemma {:induction false} RunsJoin(y: Session, a: seq<Event>, b: seq<Event>)
    ensures Run(y, a + b) == Run(Run(y, a), b)
    decreases |a|
  {
    hide Step, Enabled;
    if a == [] {
      assert a + b == b;
    } else {
      var z := if Enabled(y, a[0]) then Step(y, a[0]) else y;
      RunsJoin(z, a[1..], b);
      assert (a + b)[0] == a[0];
      assert (a + b)[1..] == a[1..] + b;
    }
  }

  lemma RunsOn(y: Session, before: seq<Event>, z: Session, e: Event)
    requires Run(y, before) == z && Enabled(z, e)
    ensures Run(y, before + [e]) == Step(z, e)
  {
    RunsJoin(y, before, [e]);
    RunOne(z, e);
  }

  /** A frame goes to the caller exactly when its shape is the negotiated one; a bad one ends the worker. */
  lemma ReplyDecides(y: Session, gone: bool)
    requires y.parent == Waiting(true) && y.replies != []
    ensures
      var m, z := y.replies[0], Run(y, [ReceiveReplyEvent(gone)]);
      && (z.parent.Open? <==>
            || m.Disconnected? || m.Recoverable?
            || (y.stream.Some? && m == FrameReply(y.stream.value.width, y.stream.value.height, y.stream.value.stride)))
      && (z.parent.Open? ==> z.worker == y.worker && z.stream == y.stream && z.replies == y.replies[1..])
      && (z.parent.Idle? <==> !z.parent.Open? && gone)
      && (z.parent.Lost? <==> !z.parent.Open? && !gone)
  {
    RunOne(y, ReceiveReplyEvent(gone));
  }

  /** An exception ends an opening, and leaves process and pipe behind exactly when no handler of `open` knows it. */
  lemma FaultEndsOpening(y: Session, fault: Fault, gone: bool)
    requires y.parent.Expecting? || y.parent.Requesting?
    ensures
      var z := Run(y, [PhaseFaultEvent(fault, gone)]);
      && (z.parent.Stranded? <==> fault.ForeignFault?)
      && (z.parent.Idle? <==> !fault.ForeignFault? && gone)
      && (z.parent.Lost? <==> !fault.ForeignFault? && !gone)
    ensures Run(y, [GiveUpEvent(gone)]).parent == if gone then Idle else Lost
  {
    RunOne(y, PhaseFaultEvent(fault, gone));
    RunOne(y, GiveUpEvent(gone));
  }

  /** A reply that does not come in time ends the worker. */
  lemma LateReplyEndsRead(y: Session, gone: bool)
    requires y.parent == Waiting(true)
    ensures Run(y, [GiveUpEvent(gone)]).parent == if gone then Idle else Lost
  {
    RunOne(y, GiveUpEvent(gone));
  }

  /** Whatever else goes wrong while serving ends the worker with an error message that `read` does not know. */
  lemma LastHandlerEndsWorker(y: Session)
    requires y.worker.Serving? || y.worker.Fetching?
    ensures
      var z := Run(y, [FallThroughEvent]);
      z.worker.Done? && !z.tame && z.sent == y.sent + [OpenError] && z.replies == y.replies + [OpenError]
  {
    RunOne(y, FallThroughEvent);
  }

  /** `open` reports a malformed message exactly when it meets one that is neither expected nor an error it knows. */
  lemma MalformedDecides(y: Session, gone: bool)
    requires y.parent.Expecting? && y.replies != [] && !y.malformed
    ensures
      var m, k := y.replies[0], y.parent.phase;
      Run(y, [ReceivePhaseEvent(false, gone)]).malformed <==>
        && !(k == 0 && m.Started?) && !(k == 1 && (m.Ready? || m.OpenError?))
        && !(k == 2 && (m.DeviceOpened? || m.OpenError?))
        && !(k >= 3 && m.Configured? && Accepts(m.c, y.maxBytes)) && !(k == 3 && m.ConfigureError?)
    ensures !Run(y, [ReceivePhaseEvent(true, gone)]).malformed
  {
    RunOne(y, ReceivePhaseEvent(false, gone));
    RunOne(y, ReceivePhaseEvent(true, gone));
    hide Accepts;
  }

  // ---- a working device ------------------------------------------------------------------

  /** The backend is open with an idle worker behind it, and nothing is on its way between them. */
  predicate AtRest(y: Session, c: Configuration) {
    y.parent.Open? && y.worker.Serving? && y.commands == [] && y.replies == [] && y.stream == Some(c)
  }

  /** What goes on from the launch to the import, in a worker forked from the parent or started afresh. */
  function Bootstrap(windows: bool): seq<Event> {
    if windows then
      [LaunchEvent, BootEvent, ReceivePhaseEvent(false, false), SendRequestEvent, TakeRequestEvent]
    else
      [LaunchEvent, BootEvent, ReceivePhaseEvent(false, false)]
  }

  function Negotiation(width: Reading, height: Reading, fps: Reading): seq<Event> {
    [PrepareEvent(true), ReceivePhaseEvent(false, false), OpenDeviceEvent(true), ReceivePhaseEvent(false, false),
     ConfigureEvent(width, height, fps), ReceivePhaseEvent(false, false)]
  }

  /** The worker is about to import OpenCV and the parent waits for it. */
  predicate Launched(y: Session, x: Session) {
    && y.parent == Expecting(1) && y.worker.Importing? && y.commands == [] && y.replies == []
    && y.maxBytes == x.maxBytes && y.readsSent == 0 && y.tame && !y.malformed
  }

  lemma LaunchRuns(x: Session)
    requires x.parent.Idle?
    ensures
      var y := Run(x, [LaunchEvent, BootEvent, ReceivePhaseEvent(false, false)]);
      && y.commands == [] && y.replies == [] && y.windows == x.windows && y.maxBytes == x.maxBytes
      && y.readsSent == 0 && y.tame && !y.malformed
      && y.parent == (if x.windows then Requesting else Expecting(1))
      && y.worker == (if x.windows then AwaitingRequest else Importing)
  {
    var a := Launch(x);
    var b := Boot(a);
    RunOne(x, LaunchEvent);
    RunsOn(x, [LaunchEvent], a, BootEvent);
    assert [LaunchEvent] + [BootEvent] == [LaunchEvent, BootEvent];
    RunsOn(x, [LaunchEvent, BootEvent], b, ReceivePhaseEvent(false, false));
    assert [LaunchEvent, BootEvent] + [ReceivePhaseEvent(false, false)]
        == [LaunchEvent, BootEvent, ReceivePhaseEvent(false, false)];
  }

  lemma RequestRuns(y: Session)
    requires y.parent.Requesting? && y.worker.AwaitingRequest? && y.commands == []
    ensures Run(y, [SendRequestEvent, TakeRequestEvent]) == y.(parent := Expecting(1), worker := Importing)
  {
    var a := SendRequest(y);
    RunOne(y, SendRequestEvent);
    RunsOn(y, [SendRequestEvent], a, TakeRequestEvent);
    assert [SendRequestEvent] + [TakeRequestEvent] == [SendRequestEvent, TakeRequestEvent];
    assert a.commands[1..] == y.commands;
  }

  lemma BootstrapRuns(x: Session)
    requires x.parent.Idle?
    ensures Launched(Run(x, Bootstrap(x.windows)), x)
  {
    LaunchRuns(x);
    if x.windows {
      var start := [LaunchEvent, BootEvent, ReceivePhaseEvent(false, false)];
      RunsJoin(x, start, [SendRequestEvent, TakeRequestEvent]);
      assert Bootstrap(true) == start + [SendRequestEvent, TakeRequestEvent];
      RequestRuns(Run(x, start));
    }
  }

  /** The parent takes the one message it waits for. */
  lemma PhaseIsTaken(y: Session, m: Message)
    requires y.parent.Expecting? && y.replies == [m] && !(y.parent.phase == 0 && y.windows)
    requires IsExpected(y.parent.phase, m, y.maxBytes)
    ensures Enabled(y, ReceivePhaseEvent(false, false))
    ensures
      Step(y, ReceivePhaseEvent(false, false)) ==
      y.(replies := [], received := y.received + 1,
         parent := if y.parent.phase < 3 then Expecting(y.parent.phase + 1) else Open,
         stream := if y.parent.phase < 3 then y.stream else Some(m.c))
  {
    assert y.replies[1..] == [];
    hide Accepts;
  }

  /** One phase: the worker sends its message and the parent takes it. */
  lemma PhaseRuns(y: Session, e: Event, m: Message, next: Worker)
    requires y.parent.Expecting? && y.replies == [] && !(y.parent.phase == 0 && y.windows)
    requires IsExpected(y.parent.phase, m, y.maxBytes)
    requires Enabled(y, e) && Step(y, e) == y.(worker := next, sent := y.sent + [m], replies := [m])
    ensures
      Run(y, [e, ReceivePhaseEvent(false, false)]) ==
      y.(worker := next, sent := y.sent + [m], received := y.received + 1,
         parent := if y.parent.phase < 3 then Expecting(y.parent.phase + 1) else Open,
         stream := if y.parent.phase < 3 then y.stream else Some(m.c))
  {
    hide *;
    var a := Step(y, e);
    PhaseIsTaken(a, m);
    RunOne(y, e);
    RunsOn(y, [e], a, ReceivePhaseEvent(false, false));
    assert [e] + [ReceivePhaseEvent(false, false)] == [e, ReceivePhaseEvent(false, false)];
  }

  /** The three phases after the bootstrap, each from the one before. */
  lemma PreparingRuns(y: Session, x: Session)
    requires Launched(y, x)
    ensures Run(y, [PrepareEvent(true), ReceivePhaseEvent(false, false)]) ==
            y.(worker := OpeningDevice, parent := Expecting(2), sent := y.sent + [Ready], received := y.received + 1)
  {
    hide Run;
    assert [] + [Ready] == [Ready];
    PhaseRuns(y, PrepareEvent(true), Ready, OpeningDevice);
  }

  lemma DeviceRuns(y: Session)
    requires y.parent == Expecting(2) && y.worker.OpeningDevice? && y.replies == []
    ensures
      Run(y, [OpenDeviceEvent(true), ReceivePhaseEvent(false, false)]) ==
      y.(worker := Configuring, parent := Expecting(3), sent := y.sent + [DeviceOpened], received := y.received + 1)
  {
    hide Run;
    assert [] + [DeviceOpened] == [DeviceOpened];
    PhaseRuns(y, OpenDeviceEvent(true), DeviceOpened, Configuring);
  }

  lemma ConfiguringRuns(y: Session, width: Reading, height: Reading, fps: Reading, c: Configuration)
    requires y.parent == Expecting(3) && y.worker.Configuring? && y.replies == []
    requires Negotiate(width, height, fps, y.maxBytes) == Some(c) && Accepts(c, y.maxBytes)
    ensures
      Run(y, [ConfigureEvent(width, height, fps), ReceivePhaseEvent(false, false)]) ==
      y.(worker := Serving, parent := Open, stream := Some(c), sent := y.sent + [Configured(c)],
         received := y.received + 1)
  {
    hide Negotiate, Accepts, Run;
    assert [] + [Configured(c)] == [Configured(c)];
    PhaseRuns(y, ConfigureEvent(width, height, fps), Configured(c), Serving);
  }

  lemma LaunchedMeans(y: Session, x: Session)
    requires Launched(y, x)
    ensures y.parent == Expecting(1) && y.worker.Importing? && y.commands == [] && y.replies == []
    ensures y.maxBytes == x.maxBytes && y.readsSent == 0 && y.tame && !y.malformed
  {
  }

  lemma RestIsReached(y: Session, c: Configuration)
    requires y.parent.Open? && y.worker.Serving? && y.commands == [] && y.replies == [] && y.stream == Some(c)
    ensures AtRest(y, c)
  {
  }

  lemma NegotiationIsInThree(width: Reading, height: Reading, fps: Reading)
    ensures
      var taken := ReceivePhaseEvent(false, false);
      Negotiation(width, height, fps) ==
      [PrepareEvent(true), taken] + [OpenDeviceEvent(true), taken] + [ConfigureEvent(width, height, fps), taken]
  {
  }

  lemma NegotiationRuns(y: Session, x: Session, width: Reading, height: Reading, fps: Reading, c: Configuration)
    requires Launched(y, x) && Negotiate(width, height, fps, y.maxBytes) == Some(c) && Accepts(c, y.maxBytes)
    ensures
      var z := Run(y, Negotiation(width, height, fps));
      AtRest(z, c) && z.readsSent == 0 && z.tame && !z.malformed
  {
    LaunchedMeans(y, x);
    NegotiationIsInThree(width, height, fps);
    hide *;
    var taken := ReceivePhaseEvent(false, false);
    var e1, e2, e3 := [PrepareEvent(true), taken], [OpenDeviceEvent(true), taken],
                      [ConfigureEvent(width, height, fps), taken];
    PreparingRuns(y, x);
    var a := Run(y, e1);
    DeviceRuns(a);
    var b := Run(a, e2);
    ConfiguringRuns(b, width, height, fps, c);
    RunsJoin(y, e1, e2);
    RunsJoin(y, e1 + e2, e3);
    RestIsReached(Run(b, e3), c);
  }

  /** From every session without a worker, a device that works is opened, over both bootstraps, with the stream its
      driver reports. */
  lemma WorkingDeviceOpens(x: Session, width: Reading, height: Reading, fps: Reading)
    requires x.parent.Idle? && x.maxBytes <= MAX_CAPTURE_FRAME_BYTES
    requires Negotiate(width, height, fps, x.maxBytes).Some?
    ensures
      var z := Run(x, Bootstrap(x.windows) + Negotiation(width, height, fps));
      AtRest(z, Negotiate(width, height, fps, x.maxBytes).value) && z.readsSent == 0 && z.tame && !z.malformed
  {
    var c := Negotiate(width, height, fps, x.maxBytes).value;
    NegotiatedIsAccepted(width, height, fps, x.maxBytes);
    hide *;
    BootstrapRuns(x);
    var y := Run(x, Bootstrap(x.windows));
    LaunchedMeans(y, x);
    NegotiationRuns(y, x, width, height, fps, c);
    RunsJoin(x, Bootstrap(x.windows), Negotiation(width, height, fps));
  }

  /** What leaves a backend open: a frame of the negotiated shape, or news that the device is away for now. */
  predicate Harmless(m: Message, c: Configuration) {
    m == FrameReply(c.width, c.height, c.stride) || m.Disconnected? || m.Recoverable?
  }

  function OneRead(m: Message, deadline: int, now: int): seq<Event> {
    [SendReadEvent(false, false), TimeReadEvent(deadline, Shows(now), false), TakeCommandEvent, AnswerEvent(m),
     ReceiveReplyEvent(false)]
  }

  function Reads(ms: seq<Message>, deadline: int, now: int): seq<Event> {
    if ms == [] then [] else OneRead(ms[0], deadline, now) + Reads(ms[1..], deadline, now)
  }

  lemma CommandRuns(y: Session, c: Configuration, deadline: int, now: int)
    requires AtRest(y, c) && 0 <= now < deadline <= MAX_INT64 && deadline - now <= y.pollLimit
    ensures Run(y, [SendReadEvent(false, false), TimeReadEvent(deadline, Shows(now), false), TakeCommandEvent]) ==
            y.(parent := Waiting(true), worker := Fetching, readsSent := y.readsSent + 1)
  {
    var e1, e2 := SendReadEvent(false, false), TimeReadEvent(deadline, Shows(now), false);
    var a := SendRead(y, false, false);
    var b := a.(parent := Waiting(true));
    RunOne(y, e1);
    RunsOn(y, [e1], a, e2);
    assert [e1] + [e2] == [e1, e2];
    RunsOn(y, [e1, e2], b, TakeCommandEvent);
    assert [e1, e2] + [TakeCommandEvent] == [e1, e2, TakeCommandEvent];
    assert b.commands == [Read] && b.commands[1..] == [];
  }

  lemma ReplyIsTaken(y: Session, c: Configuration, m: Message)
    requires y.parent == Waiting(true) && y.replies == [m] && y.stream == Some(c) && Harmless(m, c)
    ensures Enabled(y, ReceiveReplyEvent(false))
    ensures Step(y, ReceiveReplyEvent(false)) == y.(parent := Open, replies := [], received := y.received + 1)
  {
    assert y.replies[1..] == [];
  }

  lemma AnswerIsSent(y: Session, c: Configuration, m: Message)
    requires y.worker.Fetching? && y.replies == [] && Harmless(m, c)
    ensures Enabled(y, AnswerEvent(m))
    ensures Step(y, AnswerEvent(m)) == y.(worker := Serving, sent := y.sent + [m], replies := [m])
  {
    assert [] + [m] == [m];
  }

  lemma AnswerRuns(y: Session, c: Configuration, m: Message)
    requires y.parent == Waiting(true) && y.worker.Fetching? && y.replies == [] && y.stream == Some(c)
    requires Harmless(m, c)
    ensures Run(y, [AnswerEvent(m), ReceiveReplyEvent(false)]) ==
            y.(parent := Open, worker := Serving, sent := y.sent + [m], received := y.received + 1)
  {
    hide *;
    AnswerIsSent(y, c, m);
    var a := Step(y, AnswerEvent(m));
    ReplyIsTaken(a, c, m);
    RunOne(y, AnswerEvent(m));
    RunsOn(y, [AnswerEvent(m)], a, ReceiveReplyEvent(false));
    assert [AnswerEvent(m)] + [ReceiveReplyEvent(false)] == [AnswerEvent(m), ReceiveReplyEvent(false)];
  }

  lemma OneReadRuns(y: Session, c: Configuration, m: Message, deadline: int, now: int)
    requires AtRest(y, c) && Harmless(m, c) && 0 <= now < deadline <= MAX_INT64 && deadline - now <= y.pollLimit
    ensures Run(y, OneRead(m, deadline, now)) ==
            y.(readsSent := y.readsSent + 1, sent := y.sent + [m], received := y.received + 1)
  {
    hide Run, Harmless;
    var send := [SendReadEvent(false, false), TimeReadEvent(deadline, Shows(now), false), TakeCommandEvent];
    var answer := [AnswerEvent(m), ReceiveReplyEvent(false)];
    CommandRuns(y, c, deadline, now);
    AnswerRuns(Run(y, send), c, m);
    RunsJoin(y, send, answer);
    assert OneRead(m, deadline, now) == send + answer;
  }

  /** Every read an open backend sends in time is answered by the worker's own reply, in order, for any number of
      reads, and the backend is left as it was but for its counts. */
  lemma {:induction false} ReadsAreAnswered(y: Session, c: Configuration, ms: seq<Message>, deadline: int, now: int)
    requires AtRest(y, c) && 0 <= now < deadline <= MAX_INT64 && deadline - now <= y.pollLimit
    requires forall k :: 0 <= k < |ms| ==> Harmless(ms[k], c)
    ensures Run(y, Reads(ms, deadline, now)) ==
            y.(readsSent := y.readsSent + |ms|, sent := y.sent + ms, received := y.received + |ms|)
    decreases |ms|
  {
    hide Run, Harmless, OneRead;
    if ms == [] {
      assert y.sent + ms == y.sent;
      RunNothing(y);
    } else {
      OneReadRuns(y, c, ms[0], deadline, now);
      var z := Run(y, OneRead(ms[0], deadline, now));
      assert AtRest(z, c) && z.pollLimit == y.pollLimit;
      ReadsAreAnswered(z, c, ms[1..], deadline, now);
      RunsJoin(y, OneRead(ms[0], deadline, now), Reads(ms[1..], deadline, now));
      assert y.sent + [ms[0]] + ms[1..] == y.sent + ms by { assert ms == [ms[0]] + ms[1..]; }
    }
  }

  /** An open or stranded backend can always be closed; it can be opened again exactly when its process is gone. */
  lemma CloseEnds(y: Session, gone: bool)
    requires y.parent.Open? || y.parent.Stranded?
    ensures
      var z := Run(y, [BeginCloseEvent, TerminateEvent(gone)]);
      && z.stream == None && z.commands == [] && z.replies == []
      && z.parent == (if gone then Idle else Lost)
    ensures y.worker.Serving? && y.commands == [] ==> Run(y, [BeginCloseEvent, TakeCommandEvent]).worker.Done?
  {
    var a := BeginClose(y);
    RunOne(y, BeginCloseEvent);
    RunsOn(y, [BeginCloseEvent], a, TerminateEvent(gone));
    assert [BeginCloseEvent] + [TerminateEvent(gone)] == [BeginCloseEvent, TerminateEvent(gone)];
    if y.worker.Serving? && y.commands == [] {
      RunsOn(y, [BeginCloseEvent], a, TakeCommandEvent);
      assert [BeginCloseEvent] + [TakeCommandEvent] == [BeginCloseEvent, TakeCommandEvent];
    }
  }

  /** A process that could not be ended is tried again by the next close. */
  lemma LostIsRetried(y: Session, gone: bool)
    requires y.parent.Lost?
    ensures Run(y, [TerminateEvent(gone)]).parent == if gone then Idle else Lost
  {
    RunOne(y, TerminateEvent(gone));
  }
}
