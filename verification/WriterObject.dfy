/** The writer's object: each method is one region under its condition, proved to make the machine's step. */
module WriterObject {
  import opened Common
  import opened WriterMachine

  /** The deque with its byte count, the item counters, and the receipts remembered. */
  datatype Work = Work(
    queue: seq<Pending>, pendingBytes: int, queued: nat, accepted: nat, coalesced: nat, putRejected: nat,
    putFailed: nat, discarded: nat, recent: seq<ReceiptMetadata>)

  /** The item in the worker's hands, what has become of every other item so far, and every receipt. */
  datatype Past = Past(
    hand: seq<Pending>, submitted: seq<Pending>, handled: seq<Pending>, answers: seq<Status>, raised: bool,
    dropped: seq<Pending>, receipts: seq<ReceiptMetadata>)

  function FlowOf(w: Work, p: Past): Flow {
    Flow(w.queue, w.pendingBytes, p.hand, w.queued, w.accepted, w.coalesced, w.putRejected, w.putFailed, w.discarded,
         p.submitted, p.handled, p.answers, p.raised, p.dropped)
  }

  /** A store's receipt; its reason is a code the writer only passes on. */
  datatype Receipt = Receipt(status: Status, reason: Option<nat>, storeSequence: Option<nat>, bytesAccepted: nat)

  datatype ReceiptMetadata = ReceiptMetadata(receipt: Receipt, submittedBytes: nat)

  /** The last n elements, or all of them. */
  function Last(s: seq<ReceiptMetadata>, n: nat): seq<ReceiptMetadata> { if |s| <= n then s else s[|s| - n..] }

  /** A bounded deque that takes one more element holds the last of all that were added. */
  lemma LastOfMore(s: seq<ReceiptMetadata>, n: nat, m: ReceiptMetadata)
    requires n > 0
    ensures Last(Last(s, n) + [m], n) == Last(s + [m], n)
  {
    if |s| > n {
      assert (s[|s| - n..] + [m])[1..] == (s + [m])[|s| + 1 - n..];
    }
  }

  lemma FlowIgnoresReceipts(w: Work, p: Past, recent: seq<ReceiptMetadata>, receipts: seq<ReceiptMetadata>)
    ensures FlowOf(w.(recent := recent), p.(receipts := receipts)) == FlowOf(w, p)
  {
  }

  lemma CountKeepsItems(f: Flow, status: Status)
    ensures Count(f, status).hand == f.hand && Count(f, status).handled == f.handled
    ensures Count(f, status).answers == f.answers
  {
  }

  class ObservationWriter {
    const limits: Limits
    const historyLimit: nat
    var state: WriterState
    var failure: Option<FailureReason>
    var stopRequested: bool
    var drainRequested: bool
    var ready: bool
    var inFlight: bool
    var rejected: nat
    var activeStore: bool
    var retainedStore: bool
    var worker: Worker
    var work: Work
    ghost var past: Past
    ghost var joining: Option<nat>
    ghost var closes: seq<CloseCall>
    ghost var firstStop: Option<bool>

    ghost function State(): Writer
      reads this
    {
      Writer(state, failure, stopRequested, drainRequested, ready, inFlight, rejected, activeStore, retainedStore,
             worker, joining, FlowOf(work, past), closes, firstStop)
    }

    /** What `recent_receipts` gives out. */
    ghost predicate RemembersLast()
      reads this
    {
      historyLimit > 0 && work.recent == Last(past.receipts, historyLimit)
    }

    constructor (l: Limits, history: nat)
      requires history > 0
      ensures limits == l && State() == NEW_WRITER && RemembersLast() && past.receipts == []
    {
      limits, historyLimit := l, history;
      state, failure, stopRequested, drainRequested, ready := New, None, false, false, false;
      inFlight, rejected, activeStore, retainedStore, worker := false, 0, false, false, Unborn;
      work, past := Work([], 0, 0, 0, 0, 0, 0, 0, []), Past([], [], [], [], false, [], []);
      joining, closes, firstStop := None, [], None;
    }

    method Submit(envelope: nat, size: Option<nat>) returns (status: SubmissionStatus)
      modifies this`rejected, this`work, this`past
      ensures status == Answer(limits, old(State()), size)
      ensures State() == WriterMachine.Submit(limits, old(State()), envelope, size)
      ensures status == Queued <==>
                && size.Some? && state == Running && |old(work.queue)| < limits.maxPendingCount
                && old(work.pendingBytes) + size.value <= limits.maxPendingBytes
      ensures status == ClosedForSubmission <==> size.Some? && state != Running
      ensures status == Queued ==>
                && work.queue == old(work.queue) + [Pending(envelope, size.value)]
                && work.pendingBytes == old(work.pendingBytes) + size.value && work.queued == old(work.queued) + 1
                && rejected == old(rejected)
      ensures status != Queued ==> work == old(work) && rejected == old(rejected) + 1
    {
      if size.None? {
        rejected := rejected + 1;
        return Refused;
      }
      if state != Running {
        rejected := rejected + 1;
        return ClosedForSubmission;
      }
      if |work.queue| >= limits.maxPendingCount || work.pendingBytes + size.value > limits.maxPendingBytes {
        rejected := rejected + 1;
        return Refused;
      }
      var pending := Pending(envelope, size.value);
      work := work.(queue := work.queue + [pending]);
      work := work.(pendingBytes := work.pendingBytes + size.value, queued := work.queued + 1);
      past := past.(submitted := past.submitted + [pending]);
      return Queued;
    }

    method DiscardPendingLocked()
      modifies this`work, this`past
      ensures FlowOf(work, past) == DiscardPending(old(FlowOf(work, past)))
      ensures work.recent == old(work.recent) && past.receipts == old(past.receipts)
    {
      past := past.(dropped := work.queue + past.dropped);
      work := work.(discarded := work.discarded + |work.queue|);
      work := work.(queue := [], pendingBytes := 0);
    }

    /** The first region of a stop; None when the stop goes on to join the worker. */
    method BeginStop(drain: bool) returns (report: Option<StopReport>)
      requires joining.None?
      modifies this`state, this`stopRequested, this`drainRequested, this`firstStop, this`joining, this`work,
        this`past
      ensures State() == StopBegin(old(State()), drain)
      ensures report == if StopsAtOnce(old(State())) then Some(ReportAtOnce(old(State()))) else None
    {
      assert FlowOf(work, past).queue == work.queue;
      hide FlowOf, DiscardPending, StopAndJoin;
      if state == Stopped {
        return Some(StopReport(Stopped, true, 0));
      }
      if worker == Unborn {
        if state == New {
          state := Stopped;
          return Some(StopReport(Stopped, true, 0));
        }
        return Some(StopReport(state, false, 0));
      }
      JoinWorker(drain);
      report := None;
    }

    /** Tells the worker to stop and goes on to join it. */
    method JoinWorker(drain: bool)
      requires worker != Unborn && state != Stopped
      modifies this`state, this`stopRequested, this`drainRequested, this`firstStop, this`joining, this`work,
        this`past
      ensures State() == StopAndJoin(old(State()), drain)
    {
      assert FlowOf(work, past).queue == work.queue;
      hide FlowOf, DiscardPending;
      ghost var discardedNow := 0;
      if state == Running || state == Draining {
        if state != Draining {
          discardedNow := LeaveRunning(drain);
        }
      } else {
        stopRequested, drainRequested := true, drain;
      }
      joining := Some(discardedNow);
    }

    method LeaveRunning(drain: bool) returns (discardedNow: nat)
      modifies this`state, this`stopRequested, this`drainRequested, this`firstStop, this`work, this`past
      ensures state == Draining && stopRequested && drainRequested == drain && firstStop == Some(drain)
      ensures discardedNow == if drain then 0 else |old(work.queue)|
      ensures FlowOf(work, past) == if drain then old(FlowOf(work, past)) else DiscardPending(old(FlowOf(work, past)))
    {
      state, stopRequested, drainRequested := Draining, true, drain;
      firstStop := Some(drain);
      discardedNow := 0;
      if !drain {
        discardedNow := |work.queue|;
        DiscardPendingLocked();
      }
    }

    /** The last region of a stop; `discardedNow` is the number its first region discarded. */
    method EndStop(discardedNow: nat) returns (report: StopReport)
      requires joining == Some(discardedNow)
      modifies this`joining, this`state, this`failure, this`retainedStore
      ensures State() == StopEnd(old(State())) && report == ReportAfterJoin(old(State()))
    {
      joining := None;
      if worker != Gone && worker != Unborn {
        state, failure := Stuck, Some(StopTimeout);
        if activeStore {
          retainedStore := true;
        }
        return StopReport(Stuck, false, discardedNow);
      }
      return StopReport(state, state == Stopped, discardedNow);
    }

    method TakePending()
      requires worker.Idle?
      modifies this`work, this`past, this`inFlight, this`worker
      ensures State() == Take(old(State()))
    {
      if work.queue != [] {
        var pending := work.queue[0];
        work := work.(queue := work.queue[1..], pendingBytes := work.pendingBytes - pending.canonicalBytes);
        past := past.(hand := [pending]);
        inFlight := true;
        worker := Putting(pending);
      } else if stopRequested {
        worker := Closing(true);
      }
    }

    method CountReceipt(status: Status)
      modifies this`work
      ensures FlowOf(work, past) == Count(old(FlowOf(work, past)), status)
      ensures work.accepted == old(work.accepted) + if status == Accepted then 1 else 0
      ensures work.coalesced == old(work.coalesced) + if status == Coalesced then 1 else 0
      ensures work.putRejected == old(work.putRejected) + if status == Rejected then 1 else 0
      ensures work.putFailed == old(work.putFailed) + if status == Failed then 1 else 0
      ensures work.recent == old(work.recent)
    {
      match status
      case Accepted => work := work.(accepted := work.accepted + 1);
      case Coalesced => work := work.(coalesced := work.coalesced + 1);
      case Rejected => work := work.(putRejected := work.putRejected + 1);
      case Failed => work := work.(putFailed := work.putFailed + 1);
    }

    /** Counts a receipt under its own status, and keeps it among the last ones. */
    method RecordReceipt(receipt: Receipt, submittedBytes: nat)
      requires RemembersLast()
      modifies this`work, this`past
      ensures FlowOf(work, past) == Count(old(FlowOf(work, past)), receipt.status)
      ensures work.accepted == old(work.accepted) + if receipt.status == Accepted then 1 else 0
      ensures work.coalesced == old(work.coalesced) + if receipt.status == Coalesced then 1 else 0
      ensures work.putRejected == old(work.putRejected) + if receipt.status == Rejected then 1 else 0
      ensures work.putFailed == old(work.putFailed) + if receipt.status == Failed then 1 else 0
      ensures RemembersLast() && past.receipts == old(past.receipts) + [ReceiptMetadata(receipt, submittedBytes)]
    {
      CountReceipt(receipt.status);
      var added := work.recent + [ReceiptMetadata(receipt, submittedBytes)];
      FlowIgnoresReceipts(work, past, if |added| > historyLimit then added[1..] else added,
                          past.receipts + [ReceiptMetadata(receipt, submittedBytes)]);
      hide FlowOf, Count;
      LastOfMore(past.receipts, historyLimit, ReceiptMetadata(receipt, submittedBytes));
      work := work.(recent := if |added| > historyLimit then added[1..] else added);
      past := past.(receipts := past.receipts + [ReceiptMetadata(receipt, submittedBytes)]);
    }

    method PutReturned(receipt: Receipt)
      requires worker.Putting? && RemembersLast()
      modifies this`inFlight, this`work, this`past, this`worker
      ensures State() == PutReturns(old(State()), receipt.status)
      ensures RemembersLast()
      ensures past.receipts == old(past.receipts) + [ReceiptMetadata(receipt, old(worker).item.canonicalBytes)]
    {
      CountKeepsItems(FlowOf(work, past), receipt.status);
      hide Count, Last;
      inFlight := false;
      RecordReceipt(receipt, worker.item.canonicalBytes);
      past := past.(handled := past.handled + past.hand, answers := past.answers + [receipt.status], hand := []);
      worker := if stopRequested && !drainRequested then Closing(true) else Idle;
    }

    /** The item in hand counts as failed, and everything still queued as discarded. */
    method CountRaised()
      modifies this`work, this`past
      ensures FlowOf(work, past) == DiscardPending(Handle(old(FlowOf(work, past)), Failed).(raised := true))
      ensures work.recent == old(work.recent) && past.receipts == old(past.receipts)
    {
      work := work.(putFailed := work.putFailed + 1);
      past := past.(handled := past.handled + past.hand, answers := past.answers + [Failed], hand := [], raised := true);
      DiscardPendingLocked();
    }

    method PutRaised()
      requires worker.Putting?
      modifies this`inFlight, this`work, this`past, this`state, this`failure, this`worker
      ensures State() == PutRaises(old(State()))
      ensures work.recent == old(work.recent) && past.receipts == old(past.receipts)
    {
      hide FlowOf, Handle, DiscardPending;
      inFlight := false;
      CountRaised();
      state, failure := Failing, Some(StorePutFailed);
      worker := Closing(true);
    }

    method FinishRun(closeFailed: bool)
      requires worker.Finishing? && worker.closeFailed == closeFailed
      modifies this`inFlight, this`state, this`failure, this`retainedStore, this`activeStore, this`ready, this`worker
      ensures State() == Finish(old(State()))
    {
      hide FlowOf;
      inFlight := false;
      if state == Stuck {
        if worker.store {
          retainedStore := true;
        }
      } else if closeFailed {
        state, failure := Failing, Some(StoreCloseFailed);
      } else if state != Failing {
        state := Stopped;
      }
      activeStore, ready, worker := false, true, Exiting;
    }
  }
}
