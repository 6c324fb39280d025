/** A camera that works, in a world that answers well, has every frame published. */
module PipelineProgress {
  import opened Common
  import opened CameraPolicy
  import opened LatestSlot
  import opened Pipeline
  import C = ControllerMachine
  import D = ControllerDecisions
  import L = LiveScheduler
  import O = SchedulerObject

  /** The camera is read, the slot is open and empty, and the scheduler looks for work. */
  predicate Idle(y: System) {
    && D.Ready(y.c) && y.c.stream.warmupRemaining == 0
    && y.slot.pending.None? && !y.slot.closed && y.s.stage.Looping? && !y.s.stopRequested
  }

  /** One frame: when it is read, when it was received, and what the world answers while it is judged. */
  datatype Passage = Passage(reading: D.Reading, received: nat, world: L.World)

  function FrameOf(x: Settings, y: System, f: Passage): Frame {
    Frame(x.source, y.c.stream.epoch, y.c.stream.sequence, f.received)
  }

  /** The world answers well for a frame. */
  predicate Answers(x: Settings, frame: Frame, w: L.World) {
    && w.processor.Observed? && w.identityReadable && w.measurable
    && L.Honours(x.live, x.id, L.Publication(frame, w.processor.result, w))
  }

  /** The moves of one frame through the pipeline. */
  function Moves(f: Passage): seq<Move> {
    [Camera(C.ReadStarts(f.reading.starts), 0), Camera(C.ReadReturns(C.ReadFrame(true), f.reading.ends), 0),
     Camera(C.Handle, 0), Camera(C.Offer(false), f.received)]
    + [Loop, Take, Judge(f.world), Lock, Publish(false), Persist(false)]
  }

  function Made(x: Settings, y: System, m: Move): System { if Possible(y, m) then Step(x, y, m) else y }

  lemma RunTakes(x: Settings, y: System, m: Move, more: seq<Move>)
    ensures Run(x, y, [m] + more) == Run(x, Made(x, y, m), more)
  {
    hide Step, Possible;
    assert ([m] + more)[0] == m && ([m] + more)[1..] == more;
  }

  lemma {:induction false} RunJoins(x: Settings, y: System, a: seq<Move>, b: seq<Move>)
    ensures Run(x, y, a + b) == Run(x, Run(x, y, a), b)
    decreases |a|
  {
    hide Step, Possible;
    if a == [] {
      assert a + b == b;
    } else {
      assert (a + b)[0] == a[0] && (a + b)[1..] == a[1..] + b;
      RunJoins(x, if Possible(y, a[0]) then Step(x, y, a[0]) else y, a[1..], b);
    }
  }

  /** The camera's moves put the frame into the slot. */
  lemma FrameIsOffered(x: Settings, y: System, f: Passage)
    requires Idle(y) && D.Timely(x.camera, f.reading) && y.c.stream.sequence <= MAX_INT64
    ensures
      var c := C.Run(x.camera, y.c, D.FrameEvents(f.reading, true));
      Run(x, y, Moves(f)[..4]) == y.(c := c, slot := OfferTo(y.slot, FrameOf(x, y, f)))
  {
    var m1, m2 := Camera(C.ReadStarts(f.reading.starts), 0), Camera(C.ReadReturns(C.ReadFrame(true), f.reading.ends), 0);
    var m3, m4 := Camera(C.Handle, 0), Camera(C.Offer(false), f.received);
    assert Moves(f)[..4] == [m1] + ([m2] + ([m3] + ([m4] + [])));
    var y1 := Made(x, y, m1);
    var y2 := Made(x, y1, m2);
    var y3 := Made(x, y2, m3);
    RunTakes(x, y, m1, [m2] + ([m3] + ([m4] + [])));
    RunTakes(x, y1, m2, [m3] + ([m4] + []));
    RunTakes(x, y2, m3, [m4] + []);
    RunTakes(x, y3, m4, []);
    D.FrameRun(x.camera, y.c, f.reading, true);
    hide Run, C.Run, D.FrameEvents, Moves;
    D.ReadingReturns(x.camera, y.c, f.reading);
    ReadIsMade(x, y, f);
    HandleIsMade(x, y2);
  }

  lemma ReadIsMade(x: Settings, y: System, f: Passage)
    requires Idle(y)
    ensures
      var e1, e2 := C.ReadStarts(f.reading.starts), C.ReadReturns(C.ReadFrame(true), f.reading.ends);
      Made(x, Made(x, y, Camera(e1, 0)), Camera(e2, 0)) == y.(c := D.Then(x.camera, D.Then(x.camera, y.c, e1), e2))
  {
  }

  lemma HandleIsMade(x: Settings, y: System)
    requires y.c.place.AtHandle? && y.c.place.outcome == C.ReadFrame(true) && y.c.stream.warmupRemaining == 0
    requires !y.slot.closed && y.c.stream.sequence <= MAX_INT64
    ensures
      var handled := Made(x, y, Camera(C.Handle, 0));
      && handled == y.(c := D.Then(x.camera, y.c, C.Handle))
      && forall received: nat ::
           Made(x, handled, Camera(C.Offer(false), received)) ==
             y.(c := D.Then(x.camera, handled.c, C.Offer(false)),
                slot := OfferTo(y.slot, Frame(x.source, y.c.stream.epoch, y.c.stream.sequence, received)))
  {
  }

  /** The scheduler's moves take it out and publish it. */
  lemma FrameIsPublished(x: Settings, y: System, w: L.World)
    requires y.slot.pending.Some? && y.s.stage.Looping? && !y.s.stopRequested
    requires Answers(x, y.slot.pending.value, w)
    ensures
      var frame := y.slot.pending.value;
      var d := Run(x, y, [Loop, Take, Judge(w), Lock, Publish(false), Persist(false)]);
      && d == y.(s := d.s, slot := TakeFrom(y.slot))
      && d.s == y.s.(taken := y.s.taken + [frame], outcomes := y.s.outcomes + [L.Published],
                     published := y.s.published + [L.Publication(frame, w.processor.result, w)])
  {
    O.GoodFrameIsPublished(x.live, x.id, y.s, y.slot, w);
    var more := [Publish(false)] + ([Persist(false)] + []);
    assert [Loop, Take, Judge(w), Lock, Publish(false), Persist(false)]
           == [Loop] + ([Take] + ([Judge(w)] + ([Lock] + more)));
    var y1 := y.(s := L.OnLoop(y.s));
    var y2 := y1.(s := L.OnTake(y1.s, y.slot), slot := TakeFrom(y.slot));
    var y3 := y2.(s := L.OnJudge(x.live, x.id, y2.s, w));
    var y4 := y3.(s := L.OnLock(y3.s));
    var y5 := y4.(s := L.OnPublish(y4.s, false));
    RunTakes(x, y, Loop, [Take] + ([Judge(w)] + ([Lock] + more)));
    RunTakes(x, y1, Take, [Judge(w)] + ([Lock] + more));
    RunTakes(x, y2, Judge(w), [Lock] + more);
    RunTakes(x, y3, Lock, more);
    RunTakes(x, y4, Publish(false), [Persist(false)] + []);
    RunTakes(x, y5, Persist(false), []);
    hide L.OnJudge, L.OnPublish, L.OnPersist, L.OnLock, TakeFrom, Run;
  }

  /** All the frames, each with a world that answers well for it, from where the stream is. */
  predicate AllAnswered(x: Settings, y: System, fs: seq<Passage>) {
    && y.c.stream.sequence + |fs| <= MAX_INT64
    && forall i :: 0 <= i < |fs| ==>
         && D.Timely(x.camera, fs[i].reading)
         && Answers(x, Frame(x.source, y.c.stream.epoch, y.c.stream.sequence + i, fs[i].received), fs[i].world)
  }

  function AllMoves(fs: seq<Passage>): seq<Move> {
    if fs == [] then [] else Moves(fs[0]) + AllMoves(fs[1..])
  }

  lemma FrameGoesThrough(x: Settings, y: System, f: Passage)
    requires Idle(y) && D.Timely(x.camera, f.reading) && y.c.stream.sequence <= MAX_INT64
    requires Answers(x, FrameOf(x, y, f), f.world)
    ensures
      var d := Run(x, y, Moves(f));
      && Idle(d) && d.c.stream.epoch == y.c.stream.epoch && d.c.stream.sequence == y.c.stream.sequence + 1
      && d.s.published == y.s.published + [L.Publication(FrameOf(x, y, f), f.world.processor.result, f.world)]
  {
    var frame := FrameOf(x, y, f);
    var c := C.Run(x.camera, y.c, D.FrameEvents(f.reading, true));
    FrameIsOffered(x, y, f);
    D.FrameIsTaken(x.camera, y.c, f.reading);
    assert Moves(f) == Moves(f)[..4] + [Loop, Take, Judge(f.world), Lock, Publish(false), Persist(false)];
    RunJoins(x, y, Moves(f)[..4], [Loop, Take, Judge(f.world), Lock, Publish(false), Persist(false)]);
    hide Run, C.Run, D.FrameEvents, Moves, Answers, D.Timely;
    FrameIsPublished(x, y.(c := c, slot := OfferTo(y.slot, frame)), f.world);
  }

  /** What is published grows by the frames that were read, in order, numbered on from n. */
  ghost predicate Publishes(
    x: Settings, epoch: nat, n: nat, fs: seq<Passage>, before: seq<L.Publication>, after: seq<L.Publication>)
  {
    && |after| == |before| + |fs| && before <= after
    && forall i :: 0 <= i < |fs| ==> after[|before| + i].frame == Frame(x.source, epoch, n + i, fs[i].received)
  }

  lemma PublishesMore(
    x: Settings, epoch: nat, n: nat, fs: seq<Passage>, before: seq<L.Publication>, after: seq<L.Publication>,
    first: L.Publication)
    requires fs != [] && first.frame == Frame(x.source, epoch, n, fs[0].received)
    requires Publishes(x, epoch, n + 1, fs[1..], before + [first], after)
    ensures Publishes(x, epoch, n, fs, before, after)
  {
    forall i | 0 <= i < |fs| ensures after[|before| + i].frame == Frame(x.source, epoch, n + i, fs[i].received) {
      if i > 0 {
        assert fs[1..][i - 1] == fs[i];
      } else {
        assert (before + [first])[|before|] == first;
      }
    }
    assert before <= before + [first];
  }

  /** Every frame the camera reads in time is published, in order, as long as the world answers well for each. */
  lemma {:induction false} FramesGoThrough(x: Settings, y: System, fs: seq<Passage>)
    requires Idle(y) && AllAnswered(x, y, fs)
    ensures
      var d := Run(x, y, AllMoves(fs));
      Idle(d) && Publishes(x, y.c.stream.epoch, y.c.stream.sequence, fs, y.s.published, d.s.published)
    decreases |fs|
  {
    if fs != [] {
      var next := Run(x, y, Moves(fs[0]));
      FirstIsAnswered(x, y, fs);
      FrameGoesThrough(x, y, fs[0]);
      RunJoins(x, y, Moves(fs[0]), AllMoves(fs[1..]));
      RestIsAnswered(x, y, next, fs);
      FramesGoThrough(x, next, fs[1..]);
      assert AllMoves(fs) == Moves(fs[0]) + AllMoves(fs[1..]);
      var first := L.Publication(FrameOf(x, y, fs[0]), fs[0].world.processor.result, fs[0].world);
      hide *;
      PublishesMore(x, y.c.stream.epoch, y.c.stream.sequence, fs, y.s.published,
                    Run(x, y, AllMoves(fs)).s.published, first);
    }
  }

  lemma FirstIsAnswered(x: Settings, y: System, fs: seq<Passage>)
    requires fs != [] && AllAnswered(x, y, fs)
    ensures D.Timely(x.camera, fs[0].reading) && y.c.stream.sequence <= MAX_INT64
    ensures Answers(x, FrameOf(x, y, fs[0]), fs[0].world)
  {
    assert Answers(x, Frame(x.source, y.c.stream.epoch, y.c.stream.sequence + 0, fs[0].received), fs[0].world);
    hide Answers, D.Timely;
  }

  lemma RestIsAnswered(x: Settings, y: System, next: System, fs: seq<Passage>)
    requires fs != [] && AllAnswered(x, y, fs)
    requires next.c.stream.epoch == y.c.stream.epoch && next.c.stream.sequence == y.c.stream.sequence + 1
    ensures AllAnswered(x, next, fs[1..])
  {
    hide Answers, D.Timely;
    forall i | 0 <= i < |fs[1..]|
      ensures Answers(x, Frame(x.source, next.c.stream.epoch, next.c.stream.sequence + i, fs[1..][i].received),
                      fs[1..][i].world)
    {
      assert fs[1..][i] == fs[i + 1];
      assert Answers(x, Frame(x.source, y.c.stream.epoch, y.c.stream.sequence + (i + 1), fs[i + 1].received),
                     fs[i + 1].world);
    }
  }
}
