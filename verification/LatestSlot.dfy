/** The capacity-one handoff between the camera and the scheduler. */
module LatestSlot {
  import opened Common

  datatype Frame = Frame(source: nat, epoch: nat, sequence: nat, received: nat)

  datatype OfferStatus = OfferAccepted | OfferReplaced(sequence: nat) | OfferClosed

  /** The slot's fields; `released` counts the pending frames that closing let go. */
  datatype Slot = Slot(
    pending: Option<Frame>, closed: bool, offered: nat, replaced: nat, taken: nat, rejected: nat, released: nat)

  const EMPTY_SLOT := Slot(None, false, 0, 0, 0, 0, 0)

  function OfferTo(s: Slot, frame: Frame): Slot {
    if s.closed then s.(rejected := s.rejected + 1)
    else
      s.(offered := s.offered + 1, pending := Some(frame),
         replaced := s.replaced + if s.pending.Some? then 1 else 0)
  }

  function TakeFrom(s: Slot): Slot {
    if s.pending.None? then s else s.(pending := None, taken := s.taken + 1)
  }

  function CloseSlot(s: Slot): Slot {
    s.(closed := true, pending := None, released := s.released + if s.pending.Some? then 1 else 0)
  }

  /** Every accepted frame was replaced, taken, let go by closing, or is pending; a closed slot holds none. */
  predicate Balanced(s: Slot) {
    && s.offered == s.replaced + s.taken + s.released + (if s.pending.Some? then 1 else 0)
    && (s.closed ==> s.pending.None?)
    && s.released <= (if s.closed then 1 else 0)
  }

  // ---- what its uses so far make of it --------------------------------------------------

  datatype Use = OfferUse(frame: Frame) | TakeUse | CloseUse

  function UsedOnce(s: Slot, u: Use): Slot {
    match u
    case OfferUse(frame) => OfferTo(s, frame)
    case TakeUse => TakeFrom(s)
    case CloseUse => CloseSlot(s)
  }

  /** A new slot after some uses. */
  function Used(uses: seq<Use>): Slot {
    if uses == [] then EMPTY_SLOT else UsedOnce(Used(uses[..|uses| - 1]), uses[|uses| - 1])
  }

  /** The frames offered before the slot was closed, in order. */
  function AcceptedFrames(uses: seq<Use>): seq<Frame> {
    if uses == [] then []
    else
      var before, last := uses[..|uses| - 1], uses[|uses| - 1];
      AcceptedFrames(before) + if last.OfferUse? && CloseUse !in before then [last.frame] else []
  }

  /** How many were offered later. */
  function RefusedFrames(uses: seq<Use>): nat {
    if uses == [] then 0
    else
      var before, last := uses[..|uses| - 1], uses[|uses| - 1];
      RefusedFrames(before) + if last.OfferUse? && CloseUse in before then 1 else 0
  }

  /** The frame was offered, and nothing has been offered or taken since, nor the slot closed. */
  ghost predicate WaitsSince(uses: seq<Use>, i: nat, frame: Frame) {
    && i < |uses| && uses[i] == OfferUse(frame) && CloseUse !in uses
    && forall j :: i < j < |uses| ==> !uses[j].TakeUse? && !uses[j].OfferUse?
  }

  /** Over any uses: the slot is closed if and only if one of them closed it; it counts the frames offered before and
      after that; and it holds a frame if and only if that was the last one offered, was not taken since, and the slot
      was not closed. */
  lemma {:induction false} UsesDecide(uses: seq<Use>)
    ensures
      var s := Used(uses);
      && Balanced(s) && (s.closed <==> CloseUse in uses)
      && s.offered == |AcceptedFrames(uses)| && s.rejected == RefusedFrames(uses)
      && forall frame :: s.pending == Some(frame) <==> exists i: nat :: WaitsSince(uses, i, frame)
    decreases |uses|
  {
    if uses != [] {
      var n := |uses| - 1;
      var before, last := uses[..n], uses[n];
      UsesDecide(before);
      assert uses == before + [last];
      forall frame ensures Used(uses).pending == Some(frame) <==> exists i: nat :: WaitsSince(uses, i, frame) {
        WaitingGoesOn(before, last, frame);
      }
    } else {
      assert forall frame: Frame, i: nat :: !WaitsSince(uses, i, frame);
    }
  }

  lemma WaitingGoesOn(before: seq<Use>, last: Use, frame: Frame)
    ensures
      (exists i: nat :: WaitsSince(before + [last], i, frame)) <==>
        if last.OfferUse? then CloseUse !in before && last.frame == frame else false
  {
    var uses := before + [last];
    if last.OfferUse? && CloseUse !in before && last.frame == frame { assert WaitsSince(uses, |before|, frame); }
    assert uses[|before|] == last;
  }

  class LatestFrameSlot {
    var pending: Option<Frame>
    var closed: bool
    var offeredCount: nat
    var replacedCount: nat
    var takenCount: nat
    var rejectedCount: nat
    ghost var releasedCount: nat

    ghost function State(): Slot
      reads this
    {
      Slot(pending, closed, offeredCount, replacedCount, takenCount, rejectedCount, releasedCount)
    }

    constructor ()
      ensures State() == EMPTY_SLOT && Balanced(State())
    {
      pending, closed := None, false;
      offeredCount, replacedCount, takenCount, rejectedCount, releasedCount := 0, 0, 0, 0, 0;
    }

    method Offer(frame: Frame) returns (status: OfferStatus)
      requires Balanced(State())
      modifies this
      ensures State() == OfferTo(old(State()), frame) && Balanced(State())
      ensures status == (if old(closed) then OfferClosed
                         else if old(pending).Some? then OfferReplaced(old(pending).value.sequence)
                         else OfferAccepted)
    {
      if closed {
        rejectedCount := rejectedCount + 1;
        return OfferClosed;
      }
      offeredCount := offeredCount + 1;
      var replaced := pending;
      pending := Some(frame);
      if replaced.None? {
        return OfferAccepted;
      }
      replacedCount := replacedCount + 1;
      return OfferReplaced(replaced.value.sequence);
    }

    /** One turn of `take` under the lock: waits on (done is false), or returns a frame or nothing. */
    method Take(expired: bool) returns (done: bool, frame: Option<Frame>)
      requires Balanced(State())
      modifies this
      ensures State() == TakeFrom(old(State())) && Balanced(State())
      ensures frame == old(pending)
      ensures done == (old(pending).Some? || old(closed) || expired)
    {
      if pending.None? && !closed {
        return expired, None;
      }
      frame := pending;
      if frame.Some? {
        pending := None;
        takenCount := takenCount + 1;
      }
      done := true;
    }

    method Close()
      requires Balanced(State())
      modifies this
      ensures State() == CloseSlot(old(State())) && Balanced(State())
    {
      closed := true;
      if pending.Some? {
        releasedCount := releasedCount + 1;
      }
      pending := None;
    }
  }
}
