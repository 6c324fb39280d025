/** From the camera to the published observation: controller, slot and scheduler, interleaved step by step. */
module Pipeline {
  import opened Common
  import opened CameraPolicy
  import opened LatestSlot
  import C = ControllerMachine
  import K = ControllerProofs
  import L = LiveScheduler

  datatype System = System(c: C.Controller, slot: Slot, s: L.Scheduler)

  const NEW_SYSTEM := System(C.NEW_CONTROLLER, EMPTY_SLOT, L.NEW_SCHEDULER)

  datatype Settings = Settings(camera: Policy, live: L.Policy, id: L.Identity, source: nat)

  datatype Move =
    | Camera(e: C.Event, received: nat) | CloseFrames
    | Loop | Take | Judge(world: L.World) | Lock | Publish(closed: bool) | Persist(escapes: bool) | StopScheduler

  /** A camera step; an offer meets the slot as it is and puts the frame there. */
  function CameraStep(x: Settings, y: System, e: C.Event, received: nat): System
    requires C.Enabled(y.c, e)
  {
    var c := C.Step(x.camera, y.c, e);
    if e.Offer? && y.c.stream.sequence <= MAX_INT64 then
      y.(c := c, slot := OfferTo(y.slot, Frame(x.source, y.c.stream.epoch, y.c.stream.sequence, received)))
    else y.(c := c)
  }

  predicate Possible(y: System, m: Move) {
    match m
    case Camera(e, _) => C.Enabled(y.c, e) && (e.Offer? ==> e.slotClosed == y.slot.closed)
    case CloseFrames => true
    case Loop => y.s.stage.Looping?
    case Take => y.s.stage.Taking?
    case Judge(_) => y.s.stage.Judging?
    case Lock => y.s.stage.Locking?
    case Publish(_) => y.s.stage.Offering?
    case Persist(_) => y.s.stage.Persisting?
    case StopScheduler => true
  }

  function Step(x: Settings, y: System, m: Move): System
    requires Possible(y, m)
  {
    match m
    case Camera(e, received) => CameraStep(x, y, e, received)
    case CloseFrames => y.(slot := CloseSlot(y.slot))
    case Loop => y.(s := L.OnLoop(y.s))
    case Take => y.(s := L.OnTake(y.s, y.slot), slot := TakeFrom(y.slot))
    case Judge(world) => y.(s := L.OnJudge(x.live, x.id, y.s, world))
    case Lock => y.(s := L.OnLock(y.s))
    case Publish(closed) => y.(s := L.OnPublish(y.s, closed))
    case Persist(escapes) => y.(s := L.OnPersist(y.s, escapes))
    case StopScheduler => y.(s := y.s.(stopRequested := true))
  }

  function Run(x: Settings, y: System, moves: seq<Move>): System
    decreases |moves|
  {
    if moves == [] then y else Run(x, if Possible(y, moves[0]) then Step(x, y, moves[0]) else y, moves[1..])
  }

  // ---- order ------------------------------------------------------------------

  predicate Same(o: C.Offered, f: Frame) { o.epoch == f.epoch && o.sequence == f.sequence }

  /** Lexicographic order on (epoch, sequence). */
  predicate Earlier(a: Frame, b: Frame) { a.epoch < b.epoch || (a.epoch == b.epoch && a.sequence < b.sequence) }

  predicate WasOffered(offered: seq<C.Offered>, f: Frame) { exists k :: 0 <= k < |offered| && Same(offered[k], f) }

  predicate AllOffered(offered: seq<C.Offered>, frames: seq<Frame>) {
    forall i :: 0 <= i < |frames| ==> WasOffered(offered, frames[i])
  }

  predicate Ascending(frames: seq<Frame>) {
    forall i, j :: 0 <= i < j < |frames| ==> Earlier(frames[i], frames[j])
  }

  function Newest(offered: seq<C.Offered>): C.Offered
    requires offered != []
  {
    offered[|offered| - 1]
  }

  /** No frame taken so far comes after f. */
  predicate AfterAll(frames: seq<Frame>, f: Frame) { forall i :: 0 <= i < |frames| ==> Earlier(frames[i], f) }

  predicate NotAfter(f: Frame, o: C.Offered) { f.epoch < o.epoch || (f.epoch == o.epoch && f.sequence <= o.sequence) }

  predicate UpTo(frames: seq<Frame>, o: C.Offered) { forall i :: 0 <= i < |frames| ==> NotAfter(frames[i], o) }

  /** The taken frames and the pending one, against the frames the slot accepted. */
  predicate Linked(offered: seq<C.Offered>, slot: Slot, taken: seq<Frame>) {
    && AllOffered(offered, taken) && Ascending(taken)
    && (taken != [] ==> offered != [])
    && (offered != [] ==> UpTo(taken, Newest(offered)))
    && (slot.pending.Some? ==>
          offered != [] && Same(Newest(offered), slot.pending.value) && AfterAll(taken, slot.pending.value))
  }

  predicate Inv(x: Settings, y: System) {
    && K.Sound(x.camera, y.c) && L.Sound(x.live, x.id, y.s) && Linked(y.c.history.offered, y.slot, y.s.taken)
  }

  lemma OfferLinks(p: Policy, offered: seq<C.Offered>, o: C.Offered, next: nat, slot: Slot, taken: seq<Frame>, f: Frame)
    requires Linked(offered, slot, taken) && K.Chained(p, offered + [o], next) && Same(o, f) && !slot.closed
    ensures Linked(offered + [o], OfferTo(slot, f), taken)
  {
    var more := offered + [o];
    assert Newest(more) == o;
    if offered != [] {
      assert K.Follows(more[|offered| - 1], more[|offered|]);
    }
    forall i | 0 <= i < |taken| ensures WasOffered(more, taken[i]) && Earlier(taken[i], f) {
      var k :| 0 <= k < |offered| && Same(offered[k], taken[i]);
      assert more[k] == offered[k];
      assert NotAfter(taken[i], Newest(offered));
    }
  }

  lemma TakeLinks(offered: seq<C.Offered>, slot: Slot, taken: seq<Frame>)
    requires Linked(offered, slot, taken) && slot.pending.Some?
    ensures Linked(offered, TakeFrom(slot), taken + [slot.pending.value])
  {
    var f := slot.pending.value;
    assert Same(offered[|offered| - 1], f);
    assert WasOffered(offered, f);
  }

  lemma CameraKeeps(x: Settings, y: System, e: C.Event, received: nat)
    requires ValidPolicy(x.camera) && Possible(y, Camera(e, received)) && Inv(x, y)
    ensures Inv(x, CameraStep(x, y, e, received))
  {
    var c := C.Step(x.camera, y.c, e);
    K.StepKeepsSound(x.camera, y.c, e);
    if e.Offer? {
      OfferKeeps(x, y, e, received);
    } else {
      OnlyOffersGrow(x.camera, y.c, e);
    }
  }

  lemma OnlyOffersGrow(p: Policy, c: C.Controller, e: C.Event)
    requires C.Enabled(c, e) && !e.Offer?
    ensures C.Step(p, c, e).history.offered == c.history.offered
  {
    hide C.OnOffer, C.OnFactory, C.OnClose, C.OnRetry, C.OnPauseEnds, C.OnResume;
    if K.Frames(e) {
      FramesKeepOffers(p, c, e);
    } else {
      K.QuietLeavesOrder(p, c, e);
      hide C.Step;
    }
  }

  lemma FramesKeepOffers(p: Policy, c: C.Controller, e: C.Event)
    requires C.Enabled(c, e) && (e.OpenReturns? || e.ReadReturns? || e.Handle?)
    ensures C.Step(p, c, e).history.offered == c.history.offered
  {
  }

  lemma OfferKeeps(x: Settings, y: System, e: C.Event, received: nat)
    requires Possible(y, Camera(e, received)) && e.Offer? && Inv(x, y) && K.Sound(x.camera, C.Step(x.camera, y.c, e))
    ensures Inv(x, CameraStep(x, y, e, received))
  {
    var c := C.Step(x.camera, y.c, e);
    var f := Frame(x.source, y.c.stream.epoch, y.c.stream.sequence, received);
    if y.c.stream.sequence <= MAX_INT64 && !y.slot.closed {
      var o := C.Offered(y.c.stream.epoch, y.c.stream.sequence, y.c.history.heard);
      OfferLinks(x.camera, y.c.history.offered, o, c.nextEpoch, y.slot, y.s.taken, f);
    }
  }

  lemma StepKeeps(x: Settings, y: System, m: Move)
    requires ValidPolicy(x.camera) && Possible(y, m) && Inv(x, y)
    ensures Inv(x, Step(x, y, m))
  {
    hide K.Sound, CameraStep;
    match m
    case Camera(e, received) => CameraKeeps(x, y, e, received);
    case CloseFrames =>
    case Loop => L.LoopKeeps(x.live, x.id, y.s); hide L.Sound;
    case Take =>
      L.TakeKeeps(x.live, x.id, y.s, y.slot);
      if y.slot.pending.Some? {
        TakeLinks(y.c.history.offered, y.slot, y.s.taken);
      }
    case Judge(world) => L.JudgeKeeps(x.live, x.id, y.s, world); hide L.Sound;
    case Lock => L.LockKeeps(x.live, x.id, y.s); hide L.Sound;
    case Publish(closed) => L.PublishKeeps(x.live, x.id, y.s, closed); hide L.Sound;
    case Persist(escapes) => L.PersistKeeps(x.live, x.id, y.s, escapes); hide L.Sound;
    case StopScheduler => assert L.InHand(y.s.(stopRequested := true)) == L.InHand(y.s);
  }

  lemma {:induction false} RunKeeps(x: Settings, y: System, moves: seq<Move>)
    requires ValidPolicy(x.camera) && Inv(x, y)
    ensures Inv(x, Run(x, y, moves))
    decreases |moves|
  {
    hide Step, Inv, Possible;
    if moves != [] {
      if Possible(y, moves[0]) { StepKeeps(x, y, moves[0]); }
      RunKeeps(x, if Possible(y, moves[0]) then Step(x, y, moves[0]) else y, moves[1..]);
    }
  }

  lemma NewSystemIsSound(x: Settings, y: System)
    requires y == NEW_SYSTEM
    ensures Inv(x, y)
  {
    K.NewControllerIsSound(x.camera, y.c);
    hide K.Sound;
  }

  // ---- the end-to-end theorem ------------------------------------------------------

  lemma {:induction false} DeliveredAscends(taken: seq<Frame>, outcomes: seq<L.Outcome>, offered: seq<C.Offered>)
    requires |outcomes| <= |taken| && Ascending(taken) && AllOffered(offered, taken)
    ensures Ascending(L.Delivered(taken, outcomes)) && AllOffered(offered, L.Delivered(taken, outcomes))
    ensures |outcomes| < |taken| ==> AfterAll(L.Delivered(taken, outcomes), taken[|outcomes|])
    decreases |outcomes|
  {
    if outcomes != [] {
      var n := |outcomes| - 1;
      DeliveredAscends(taken, outcomes[..n], offered);
      var earlier := L.Delivered(taken, outcomes[..n]);
      if |outcomes| < |taken| {
        assert Earlier(taken[n], taken[n + 1]);
        forall i | 0 <= i < |earlier| ensures Earlier(earlier[i], taken[n + 1]) {
          assert Earlier(earlier[i], taken[n]);
        }
      }
    }
  }

  /** A frame of the negotiated shape, and the right one of those read in its epoch: after the warm-up come the frames
      offered before it, and then itself. */
  predicate WarmedUp(p: Policy, offered: seq<C.Offered>, f: Frame) {
    exists k :: 0 <= k < |offered| && Same(offered[k], f) && K.RightlyRead(p, offered[k])
  }

  lemma OfferedIsWarm(p: Policy, offered: seq<C.Offered>, next: nat, f: Frame)
    requires K.Chained(p, offered, next) && WasOffered(offered, f)
    ensures WarmedUp(p, offered, f)
  {
    var k :| 0 <= k < |offered| && Same(offered[k], f);
    assert K.RightlyRead(p, offered[k]);
  }

  /** The frames of published observations, over a run: strictly ascending by (epoch, sequence), each accepted by
      the slot after its epoch's warm-up, each observation honouring its frame's identity, epoch and age limits,
      and at most one published after the stop event; and every frame taken has exactly one outcome. */
  ghost predicate Delivers(x: Settings, y: System) {
    var published := y.s.published;
    && y.s.publishedAfterStop <= 1 && L.Accounted(y.s)
    && Ascending(L.PublishedFrames(published))
    && (forall i :: 0 <= i < |published| ==>
          && WarmedUp(x.camera, y.c.history.offered, published[i].frame)
          && L.Honours(x.live, x.id, published[i]))
  }

  lemma SoundDelivers(x: Settings, y: System)
    requires Inv(x, y)
    ensures Delivers(x, y)
  {
    hide L.Honours, K.Owning, K.FailsLast, K.Budgeted, K.Paced;
    var offered, published := y.c.history.offered, y.s.published;
    DeliveredAscends(y.s.taken, y.s.outcomes, offered);
    var frames := L.PublishedFrames(published);
    forall i | 0 <= i < |published| ensures WarmedUp(x.camera, offered, published[i].frame) {
      assert WasOffered(offered, frames[i]);
      OfferedIsWarm(x.camera, offered, y.c.nextEpoch, frames[i]);
    }
  }

  lemma EveryRunDelivers(x: Settings, moves: seq<Move>)
    requires ValidPolicy(x.camera)
    ensures Delivers(x, Run(x, NEW_SYSTEM, moves))
  {
    hide Run, Inv, Delivers;
    NewSystemIsSound(x, NEW_SYSTEM);
    RunKeeps(x, NEW_SYSTEM, moves);
    SoundDelivers(x, Run(x, NEW_SYSTEM, moves));
  }
}
