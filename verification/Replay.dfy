/** Synthetic replay: frames every 10 ms against a processor that takes 25 ms, keeping only the newest frame. */
module Replay {
  import opened Common

  const FRAME_INTERVAL_NS: nat := 10_000_000
  const PROCESSING_TIME_NS: nat := 25_000_000
  const MAX_SYNTHETIC_REPLAY_FRAMES: int := 10_000

  datatype Mode = Exhaustive | Faithful

  /** Which frames were processed and dropped, in that order of events, and the virtual duration. */
  datatype Report = Report(processed: seq<int>, dropped: seq<int>, duration: int)

  // ---- the closed form -----------------------------------------------------------

  /** The frame processed when the processor becomes free for the k-th time: the last one to arrive before
      25k ms. */
  function Turn(k: nat): int
    requires k >= 1
  {
    (5 * k + 1) / 2 - 1
  }

  /** How often the processor became free by the arrival of frame t. */
  function Turns(t: nat): nat { 2 * t / 5 }

  function FirstTurns(count: nat): (s: seq<int>)
    ensures |s| == count
    ensures forall i :: 0 <= i < count ==> s[i] == Turn(i + 1)
  {
    seq(count, (i: nat) requires i < count => Turn(i + 1))
  }

  /** The frames a faithful replay of n frames processes. */
  function Schedule(n: nat): seq<int> {
    if n == 0 then []
    else if n == 1 then [0]
    else [0] + FirstTurns(Turns(n - 1)) + [n - 1]
  }

  /** The frames below t that are not in the list, ascending. */
  function Skipped(processed: seq<int>, t: nat): seq<int> {
    if t == 0 then []
    else Skipped(processed, t - 1) + if t - 1 in processed then [] else [t - 1]
  }

  function AllFrames(n: nat): (s: seq<int>)
    ensures |s| == n && forall i :: 0 <= i < n ==> s[i] == i
  {
    seq(n, (i: nat) => i)
  }

  lemma {:induction false} LaterIsNotSkipped(processed: seq<int>, more: int, t: nat)
    requires more >= t
    ensures Skipped(processed + [more], t) == Skipped(processed, t)
    decreases t
  {
    if t > 0 {
      LaterIsNotSkipped(processed, more, t - 1);
      assert (t - 1 in processed + [more]) == (t - 1 in processed);
    }
  }

  /** The k-th turn is the last frame to arrive strictly before 25k ms. */
  lemma TurnIsNewest(k: nat, t: int)
    requires k >= 1
    ensures t == Turn(k) <==> t * FRAME_INTERVAL_NS < k * PROCESSING_TIME_NS <= (t + 1) * FRAME_INTERVAL_NS
  {
  }

  lemma NextTurns(t: nat)
    requires t >= 1
    ensures
      var q := Turns(t - 1);
      if t * FRAME_INTERVAL_NS >= (q + 1) * PROCESSING_TIME_NS then Turns(t) == q + 1 && Turn(q + 1) == t - 1
      else Turns(t) == q
    ensures t * FRAME_INTERVAL_NS < (Turns(t) + 1) * PROCESSING_TIME_NS
  {
  }

  lemma TurnsAppend(q: nat)
    ensures FirstTurns(q) + [Turn(q + 1)] == FirstTurns(q + 1)
  {
  }

  /** A frame that just arrived has not been processed yet. */
  lemma NewFrameIsNew(t: nat)
    requires t >= 1
    ensures t !in [0] + FirstTurns(Turns(t))
  {
    var s := [0] + FirstTurns(Turns(t));
    forall i | 0 <= i < |s| ensures s[i] < t {
      if i > 0 {
        assert s[i] == Turn(i);
      }
    }
  }

  /** The arrival of frame t settles what becomes of frame t - 1, if it is pending. */
  lemma FrameSettles(t: nat, processed: seq<int>, dropped: seq<int>)
    requires t >= 1 && processed == [0] + FirstTurns(Turns(t - 1))
    requires t > 1 ==> dropped == Skipped(processed, t - 1) && t - 1 !in processed
    ensures
      var next := [0] + FirstTurns(Turns(t));
      && t !in next
      && t * FRAME_INTERVAL_NS < (Turns(t) + 1) * PROCESSING_TIME_NS
      && (if t * FRAME_INTERVAL_NS >= (Turns(t - 1) + 1) * PROCESSING_TIME_NS then
            t > 1 && Turns(t) == Turns(t - 1) + 1 && processed + [t - 1] == next && dropped == Skipped(next, t)
          else
            Turns(t) == Turns(t - 1) && processed == next && (t > 1 ==> dropped + [t - 1] == Skipped(next, t)))
  {
    NextTurns(t);
    NewFrameIsNew(t);
    TurnsAppend(Turns(t - 1));
    LaterIsNotSkipped(processed, t - 1, t - 1);
    assert processed + [t - 1] == [0] + (FirstTurns(Turns(t - 1)) + [t - 1]);
    hide FirstTurns, Turns;
  }

  // ---- the replay -------------------------------------------------------------------

  /** The faithful loop. `direct` counts how often the loop's last branch processes an arriving frame at once,
      which only the very first frame ever is. */
  method FaithfulLoop(n: nat) returns (processed: seq<int>, dropped: seq<int>, busyUntil: int, direct: int)
    ensures processed == Schedule(n)
    ensures dropped == Skipped(processed, n) && |processed| + |dropped| == n
    ensures Increasing(processed) && Increasing(dropped)
    ensures busyUntil == PROCESSING_TIME_NS * |processed|
    ensures direct == 0
  {
    StartOfSchedule();
    processed, dropped, busyUntil, direct := [], [], 0, 0;
    var pending: Option<nat> := None;
    var processorActive := false;
    hide Turns, FirstTurns, Skipped, Schedule;
    for t := 0 to n
      invariant direct == 0
      invariant processorActive == (t > 0)
      invariant t == 0 ==> processed == [] && dropped == [] && busyUntil == 0
      invariant t > 0 ==> processed == [0] + FirstTurns(Turns(t - 1))
      invariant t > 0 ==> busyUntil == PROCESSING_TIME_NS * (1 + Turns(t - 1))
      invariant pending == if t > 1 then Some(t - 1) else None
      invariant t == 1 ==> dropped == []
      invariant t > 1 ==> dropped == Skipped(processed, t - 1) && t - 1 !in processed
      invariant |processed| + |dropped| + (if t > 1 then 1 else 0) == t
    {
      var frameTime := t * FRAME_INTERVAL_NS;
      if !processorActive {
        processed := processed + [t];
        busyUntil := frameTime + PROCESSING_TIME_NS;
        processorActive := true;
        continue;
      }
      FrameSettles(t, processed, dropped);
      if frameTime >= busyUntil && pending.Some? {
        processed := processed + [pending.value];
        pending := None;
        busyUntil := busyUntil + PROCESSING_TIME_NS;
      }
      if frameTime >= busyUntil {
        direct := direct + 1;
        processed := processed + [t];
        busyUntil := frameTime + PROCESSING_TIME_NS;
      } else {
        if pending.Some? {
          dropped := dropped + [pending.value];
        }
        pending := Some(t);
      }
    }
    EndOfSchedule(n, processed, dropped);
    if pending.Some? {
      processed := processed + [pending.value];
      busyUntil := busyUntil + PROCESSING_TIME_NS;
    }
    ScheduleIsIncreasing(n);
    SkippedIsIncreasing(processed, n);
  }

  /** After the first frame alone. */
  lemma StartOfSchedule()
    ensures [0] + FirstTurns(Turns(0)) == [0] && Turns(0) == 0
    ensures Skipped([0], 0) == Skipped([0], 1) == []
  {
  }

  /** What is still pending after the last frame completes the schedule. */
  lemma EndOfSchedule(n: nat, processed: seq<int>, dropped: seq<int>)
    requires n == 0 ==> processed == [] && dropped == []
    requires n > 0 ==> processed == [0] + FirstTurns(Turns(n - 1))
    requires n == 1 ==> dropped == []
    requires n > 1 ==> dropped == Skipped(processed, n - 1) && n - 1 !in processed
    requires |processed| + |dropped| + (if n > 1 then 1 else 0) == n
    ensures
      var all := processed + if n > 1 then [n - 1] else [];
      all == Schedule(n) && dropped == Skipped(all, n)
    ensures n > 0 ==> |processed| == 1 + Turns(n - 1)
  {
    if n > 1 { LaterIsNotSkipped(processed, n - 1, n - 1); }
  }

  /** `run_synthetic_replay`; None for a frame count it refuses. */
  method RunSyntheticReplay(mode: Mode, frameCount: int) returns (report: Option<Report>)
    ensures report.None? <==> !(0 <= frameCount <= MAX_SYNTHETIC_REPLAY_FRAMES)
    ensures report.Some? && mode.Faithful? ==>
              report.value == Report(Schedule(frameCount), Skipped(Schedule(frameCount), frameCount),
                                     PROCESSING_TIME_NS * |Schedule(frameCount)|)
    ensures report.Some? && mode.Exhaustive? ==>
              report.value == Report(AllFrames(frameCount), [], FRAME_INTERVAL_NS * frameCount)
  {
    if frameCount < 0 || frameCount > MAX_SYNTHETIC_REPLAY_FRAMES {
      return None;
    }
    var processed, dropped, busyUntil := [], [], 0;
    if mode.Exhaustive? {
      for t := 0 to frameCount
        invariant processed == AllFrames(t)
      {
        processed := processed + [t];
      }
      if frameCount > 0 {
        busyUntil := (frameCount - 1) * FRAME_INTERVAL_NS;
      }
    } else {
      var direct;
      processed, dropped, busyUntil, direct := FaithfulLoop(frameCount);
    }
    // The source advances the clock past every frame it has produced.
    var clock := frameCount * FRAME_INTERVAL_NS;
    report := Some(Report(processed, dropped, Max(clock, busyUntil)));
  }

  // ---- what the schedule means ---------------------------------------------------------

  predicate Increasing(s: seq<int>) { forall i, j :: 0 <= i < j < |s| ==> s[i] < s[j] }

  lemma TurnGrows(j: nat, k: nat)
    requires 1 <= j < k
    ensures 0 < Turn(j) < Turn(k)
  {
  }

  /** Frames are processed in order and at most once; the first and the last always are. */
  lemma ScheduleIsIncreasing(n: nat)
    ensures Increasing(Schedule(n)) && (forall x :: x in Schedule(n) ==> 0 <= x < n)
    ensures n > 0 ==> 0 in Schedule(n) && n - 1 in Schedule(n)
    ensures |Schedule(n)| == if n < 2 then n else 2 + 2 * (n - 1) / 5
  {
    var s := Schedule(n);
    if n >= 2 {
      assert s[|s| - 1] == n - 1;
      forall i, j | 0 <= i < j < |s| ensures s[i] < s[j] {
        if 0 < i && j < |s| - 1 { TurnGrows(i, j); }
      }
      forall x | x in s ensures 0 <= x < n {
        var i :| 0 <= i < |s| && s[i] == x;
        if 0 < i < |s| - 1 { assert x == Turn(i); }
      }
    }
  }

  /** Every frame is processed or dropped, never both. */
  lemma {:induction false} SkippedIsTheRest(processed: seq<int>, t: nat, x: int)
    ensures x in Skipped(processed, t) <==> 0 <= x < t && x !in processed
    decreases t
  {
    if t > 0 { SkippedIsTheRest(processed, t - 1, x); }
  }

  lemma {:induction false} SkippedIsIncreasing(processed: seq<int>, t: nat)
    ensures Increasing(Skipped(processed, t))
    decreases t
  {
    if t > 0 {
      SkippedIsIncreasing(processed, t - 1);
      var s := Skipped(processed, t - 1);
      forall i | 0 <= i < |s| ensures s[i] < t - 1 { SkippedIsTheRest(processed, t - 1, s[i]); }
    }
  }
}
