/** What a snapshot provider does with the backend of one capture: open, warm up, read a frame, encode it. */
module SnapshotReads {
  import opened Common

  /** A look at the deadline: in time, over, or a clock reading that raises. */
  datatype Look = InTime | Over | ClockRaises

  /** One read: a frame, matching the stream or not; a failure by its status; the deadline over before the backend
      was called; or an exception. */
  datatype Read =
    | Matching | Mismatching | TimedOut | Disconnected | Recoverable | Fatal | OverBefore | Raises

  datatype Opening = Opened | NotAStream | OpenTimedOut | OpenUnavailable | OpenRaises

  /** What the use of one backend meets. Read k answers the k-th read. */
  datatype Use = Use(
    safe: bool, before: Look, opening: Opening, answers: seq<Read>, encodes: bool, after: Look)

  datatype UseResult = Delivered(sequence: nat) | UseTimeout | UseUnavailable | UseFailed

  /** The result of a use that a read ends. */
  function MapReadFailure(r: Read): UseResult {
    match r
    case TimedOut => UseTimeout
    case OverBefore => UseTimeout
    case Disconnected => UseUnavailable
    case _ => UseFailed
  }

  /** Read i is followed by another: a matching warm-up frame, or a recoverable failure before the last attempt. */
  predicate GoesOn(warmup: nat, attempts: nat, i: nat, r: Read) {
    if i < warmup then r.Matching? else r.Recoverable? && i + 1 < warmup + attempts
  }

  /** The reads end after n of them: each but the last goes on, and the last does not. */
  predicate EndsAfter(warmup: nat, attempts: nat, answers: seq<Read>, n: nat) {
    && 0 < n <= |answers|
    && (forall i :: 0 <= i < n - 1 ==> GoesOn(warmup, attempts, i, answers[i]))
    && !GoesOn(warmup, attempts, n - 1, answers[n - 1])
  }

  /** There is one such number. */
  lemma EndIsUnique(warmup: nat, attempts: nat, answers: seq<Read>, n: nat, m: nat)
    requires EndsAfter(warmup, attempts, answers, n) && EndsAfter(warmup, attempts, answers, m)
    ensures n == m
  {
  }

  /** A frame is taken exactly when every warm-up read is a matching frame and one of the attempts is one, after
      recoverable failures only; it is numbered by the reads before it. */
  predicate TakesFrame(warmup: nat, attempts: nat, answers: seq<Read>, sequence: nat) {
    && warmup <= sequence < warmup + attempts && sequence < |answers| && answers[sequence].Matching?
    && (forall i :: 0 <= i < warmup ==> answers[i].Matching?)
    && (forall i :: warmup <= i < sequence ==> answers[i].Recoverable?)
  }

  lemma TakenFrameEnds(warmup: nat, attempts: nat, answers: seq<Read>, n: nat)
    requires EndsAfter(warmup, attempts, answers, n) && n <= warmup + attempts
    ensures TakesFrame(warmup, attempts, answers, n - 1) <==> n > warmup && answers[n - 1].Matching?
    ensures forall k: nat :: TakesFrame(warmup, attempts, answers, k) ==> k == n - 1
  {
    forall k: nat | TakesFrame(warmup, attempts, answers, k) ensures k == n - 1 {
      assert EndsAfter(warmup, attempts, answers, k + 1);
      EndIsUnique(warmup, attempts, answers, n, k + 1);
    }
    if n > warmup && answers[n - 1].Matching? {
      forall i | 0 <= i < warmup ensures answers[i].Matching? { assert GoesOn(warmup, attempts, i, answers[i]); }
      forall i | warmup <= i < n - 1 ensures answers[i].Recoverable? { assert GoesOn(warmup, attempts, i, answers[i]); }
    }
  }

  /** The two read loops: `used` reads, of which the last one decides. */
  method ReadFrame(warmup: nat, attempts: nat, answers: seq<Read>) returns (r: UseResult, used: nat)
    requires attempts > 0 && |answers| == warmup + attempts
    ensures EndsAfter(warmup, attempts, answers, used)
    ensures r.Delivered? <==> TakesFrame(warmup, attempts, answers, used - 1)
    ensures r.Delivered? ==> r.sequence == used - 1
    ensures !r.Delivered? ==> r == MapReadFailure(answers[used - 1])
  {
    var k := 0;
    while k < warmup
      invariant 0 <= k <= warmup && forall i :: 0 <= i < k ==> GoesOn(warmup, attempts, i, answers[i])
    {
      if !answers[k].Matching? {
        TakenFrameEnds(warmup, attempts, answers, k + 1);
        return MapReadFailure(answers[k]), k + 1;
      }
      k := k + 1;
    }
    var attempt := 0;
    while attempt < attempts
      invariant 0 <= attempt < attempts
      invariant forall i :: 0 <= i < warmup + attempt ==> GoesOn(warmup, attempts, i, answers[i])
    {
      var target := answers[warmup + attempt];
      if !target.Recoverable? || attempt + 1 >= attempts {
        TakenFrameEnds(warmup, attempts, answers, warmup + attempt + 1);
        if target.Matching? {
          return Delivered(warmup + attempt), warmup + attempt + 1;
        }
        return MapReadFailure(target), warmup + attempt + 1;
      }
      attempt := attempt + 1;
    }
    assert false;
  }

  ghost predicate Delivers(warmup: nat, attempts: nat, u: Use) {
    && u.safe && u.before.InTime? && u.opening.Opened? && u.encodes && u.after.InTime?
    && ReadsTake(warmup, attempts, u.answers)
  }

  ghost predicate ReadsTake(warmup: nat, attempts: nat, answers: seq<Read>) {
    exists k: nat :: TakesFrame(warmup, attempts, answers, k)
  }

  /** The reads end in a failure that is reported so. */
  ghost predicate ReadsEndIn(warmup: nat, attempts: nat, answers: seq<Read>, r: UseResult) {
    exists n: nat :: EndsAfter(warmup, attempts, answers, n) && MapReadFailure(answers[n - 1]) == r
  }

  /** The use of one backend: a picture is delivered exactly when the backend is safe and opens in time, the reads
      take a frame, and it is encoded in time; every other end is a timeout, unavailable or failed, by what it was
      that ended it. */
  method UseBackend(warmup: nat, attempts: nat, u: Use) returns (r: UseResult)
    requires attempts > 0 && |u.answers| == warmup + attempts
    ensures r.Delivered? <==> Delivers(warmup, attempts, u)
    ensures r.Delivered? ==> TakesFrame(warmup, attempts, u.answers, r.sequence)
    ensures r.UseTimeout? <==>
              && u.safe
              && (u.before.Over?
                  || (u.before.InTime?
                      && (u.opening.OpenTimedOut?
                          || (u.opening.Opened?
                              && (ReadsEndIn(warmup, attempts, u.answers, UseTimeout)
                                  || (u.encodes && u.after.Over? && ReadsTake(warmup, attempts, u.answers)))))))
    ensures r.UseUnavailable? <==>
              && u.safe && u.before.InTime?
              && (u.opening.OpenUnavailable?
                  || (u.opening.Opened? && ReadsEndIn(warmup, attempts, u.answers, UseUnavailable)))
  {
    if !u.safe || u.before.ClockRaises? {
      return UseFailed;
    }
    if u.before.Over? {
      return UseTimeout;
    }
    if !u.opening.Opened? {
      return if u.opening.OpenTimedOut? then UseTimeout
             else if u.opening.OpenUnavailable? then UseUnavailable else UseFailed;
    }
    var used;
    r, used := ReadFrame(warmup, attempts, u.answers);
    TakenFrameEnds(warmup, attempts, u.answers, used);
    if !r.Delivered? {
      return;
    }
    if !u.encodes || u.after.ClockRaises? {
      return UseFailed;
    }
    if u.after.Over? {
      return UseTimeout;
    }
  }
}
