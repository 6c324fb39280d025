/** A replay's observations in the memory store it makes for them. */
module ReplayStore {
  import opened Common
  import opened Observations
  import opened MemoryStore
  import opened SqliteStore
  import opened Replay
  import D = DigestProcessor

  const BYTES_PER_FRAME: nat := 2_048
  const LEAST_STORE_BYTES: nat := 4_096

  /** The processor: the observation of each frame, and what measuring it gives. */
  type Processor = int -> Observation

  type Measure = Observation -> Option<nat>

  /** One key for each frame, and documents that fit in the bytes the store has for each. */
  predicate Fitting(n: nat, process: Processor, measure: Measure) {
    && (forall i, j :: 0 <= i < j < n ==> process(i).idempotencyKey != process(j).idempotencyKey)
    && (forall i :: 0 <= i < n ==>
          measure(process(i)).Some? && measure(process(i)).value <= BYTES_PER_FRAME)
  }

  function StorePut(n: nat, m: Memory, same: Equality, o: Observation, measure: Measure): (Memory, MemoryReceipt) {
    MemoryPut(Max(1, n), Max(LEAST_STORE_BYTES, n * BYTES_PER_FRAME), same, m, o, measure(o))
  }

  /** The store after the frames of a list, in order. */
  function StoreAfter(n: nat, frames: seq<int>, same: Equality, process: Processor, measure: Measure): Memory {
    if frames == [] then EMPTY_MEMORY
    else
      var last := |frames| - 1;
      StorePut(n, StoreAfter(n, frames[..last], same, process, measure), same, process(frames[last]), measure).0
  }

  /** The receipts of the same puts. */
  function Receipts(n: nat, frames: seq<int>, same: Equality, process: Processor, measure: Measure):
      seq<MemoryReceipt>
  {
    if frames == [] then []
    else
      var last := |frames| - 1;
      Receipts(n, frames[..last], same, process, measure)
      + [StorePut(n, StoreAfter(n, frames[..last], same, process, measure), same, process(frames[last]), measure).1]
  }

  function SizeSum(frames: seq<int>, process: Processor, measure: Measure): nat {
    if frames == [] then 0
    else
      var size := measure(process(frames[|frames| - 1]));
      SizeSum(frames[..|frames| - 1], process, measure) + if size.Some? then size.value else 0
  }

  /** Frames of a replay of n, each at most once. */
  predicate Selection(frames: seq<int>, n: nat) {
    |frames| <= n && Increasing(frames) && forall i :: 0 <= i < |frames| ==> 0 <= frames[i] < n
  }

  /** The store holds exactly the observations of the frames, in order, and counts their bytes. */
  ghost predicate Holds(m: Memory, frames: seq<int>, process: Processor, measure: Measure) {
    && !m.closed && |m.observations| == |frames|
    && (forall i :: 0 <= i < |frames| ==> m.observations[i] == process(frames[i]))
    && (forall key :: key in m.observationsByKey ==> KeyOfOne(frames, process, key))
    && m.bytesUsed == SizeSum(frames, process, measure) <= |frames| * BYTES_PER_FRAME
  }

  ghost predicate KeyOfOne(frames: seq<int>, process: Processor, key: string) {
    exists i :: 0 <= i < |frames| && key == process(frames[i]).idempotencyKey
  }

  lemma NewKeyIsAccepted(n: nat, m: Memory, same: Equality, o: Observation, measure: Measure)
    requires !m.closed && o.idempotencyKey !in m.observationsByKey && |m.observations| < n
    requires measure(o).Some? && measure(o).value <= BYTES_PER_FRAME
    requires m.bytesUsed <= |m.observations| * BYTES_PER_FRAME
    ensures StorePut(n, m, same, o, measure) ==
            (Remember(m, o, measure(o).value),
             MemoryReceipt(Accepted, None, Some(|m.observations| + 1), measure(o).value))
  {
  }

  lemma RememberedHolds(n: nat, frames: seq<int>, m: Memory, process: Processor, measure: Measure)
    requires frames != [] && Holds(m, frames[..|frames| - 1], process, measure)
    requires Fitting(n, process, measure) && 0 <= frames[|frames| - 1] < n
    ensures
      var o := process(frames[|frames| - 1]);
      measure(o).Some? && Holds(Remember(m, o, measure(o).value), frames, process, measure)
  {
    var last := |frames| - 1;
    var before, o := frames[..last], process(frames[last]);
    forall key | key in m.observationsByKey ensures KeyOfOne(frames, process, key) {
      assert KeyOfOne(before, process, key);
      var i :| 0 <= i < |before| && key == process(before[i]).idempotencyKey;
      assert frames[i] == before[i];
    }
    assert KeyOfOne(frames, process, o.idempotencyKey);
    hide KeyOfOne;
  }

  lemma LastKeyIsNew(n: nat, frames: seq<int>, process: Processor, measure: Measure)
    requires frames != [] && Selection(frames, n) && Fitting(n, process, measure)
    ensures !KeyOfOne(frames[..|frames| - 1], process, process(frames[|frames| - 1]).idempotencyKey)
  {
    var last := |frames| - 1;
    forall i | 0 <= i < last
      ensures process(frames[..last][i]).idempotencyKey != process(frames[last]).idempotencyKey
    {
      assert frames[i] < frames[last];
    }
  }

  /** Every put of a replay is accepted, in the order of its frames, and the store holds exactly their observations
      and counts their bytes, however equal observations are told apart. */
  lemma {:induction false} EveryPutIsAccepted(
    n: nat, frames: seq<int>, same: Equality, process: Processor, measure: Measure)
    requires Selection(frames, n) && Fitting(n, process, measure)
    ensures Holds(StoreAfter(n, frames, same, process, measure), frames, process, measure)
    ensures
      var rs := Receipts(n, frames, same, process, measure);
      |rs| == |frames| && forall i :: 0 <= i < |rs| ==> rs[i].status == Accepted && rs[i].sequence == Some(i + 1)
    decreases |frames|
  {
    hide StorePut, KeyOfOne, Remember, SizeSum;
    if frames != [] {
      var last := |frames| - 1;
      EveryPutIsAccepted(n, frames[..last], same, process, measure);
      var m := StoreAfter(n, frames[..last], same, process, measure);
      LastKeyIsNew(n, frames, process, measure);
      NewKeyIsAccepted(n, m, same, process(frames[last]), measure);
      RememberedHolds(n, frames, m, process, measure);
    } else {
      NothingHolds(process, measure);
    }
  }

  lemma NothingHolds(process: Processor, measure: Measure)
    ensures Holds(EMPTY_MEMORY, [], process, measure)
  {
  }

  /** Both modes' processed frames are such a selection, so a replay reports every processed frame as accepted, none
      coalesced and none rejected. */
  lemma ReplaysAreAccepted(n: nat, mode: Mode, same: Equality, process: Processor, measure: Measure)
    requires Fitting(n, process, measure)
    ensures
      var frames := if mode.Faithful? then Schedule(n) else AllFrames(n);
      && Holds(StoreAfter(n, frames, same, process, measure), frames, process, measure)
      && var rs := Receipts(n, frames, same, process, measure);
      && |rs| == |frames| && forall i :: 0 <= i < |rs| ==> rs[i].status == Accepted && rs[i].sequence == Some(i + 1)
  {
    var frames := if mode.Faithful? then Schedule(n) else AllFrames(n);
    ProcessedIsSelection(n, mode);
    hide Holds, Receipts, StoreAfter, Schedule;
    EveryPutIsAccepted(n, frames, same, process, measure);
  }

  // ---- the replay's own processor ------------------------------------------------------------

  function DigestOf(c: D.Checksum, mode: Mode): Processor { (k: int) => D.Process(c, mode, Max(0, k)) }

  /** `observation_size` of an envelope that fits. */
  function EncodingSize(o: Observation): Option<nat> { Some(|Observations.Encoding(o)|) }

  /** The deterministic processor gives one key for each frame and documents within the allowance, whatever the
      checksum, for every frame count a replay accepts. */
  lemma DigestsFit(n: nat, c: D.Checksum, mode: Mode)
    requires n <= MAX_SYNTHETIC_REPLAY_FRAMES
    ensures Fitting(n, DigestOf(c, mode), EncodingSize)
  {
    hide D.Process;
    forall i, j | 0 <= i < j < n ensures DigestOf(c, mode)(i).idempotencyKey != DigestOf(c, mode)(j).idempotencyKey {
      if DigestOf(c, mode)(i).idempotencyKey == DigestOf(c, mode)(j).idempotencyKey {
        D.KeysAreDistinct(c, mode, i, j);
      }
    }
    forall i | 0 <= i < n ensures |Observations.Encoding(DigestOf(c, mode)(i))| <= BYTES_PER_FRAME {
      D.DocumentBytes(c, mode, i);
    }
  }

  /** So the store of a replay accepts every processed frame, and holds their digests. */
  lemma ReplayDigestsAreAccepted(n: nat, mode: Mode, same: Equality, c: D.Checksum)
    requires n <= MAX_SYNTHETIC_REPLAY_FRAMES
    ensures
      var frames := if mode.Faithful? then Schedule(n) else AllFrames(n);
      && Holds(StoreAfter(n, frames, same, DigestOf(c, mode), EncodingSize), frames, DigestOf(c, mode), EncodingSize)
      && var rs := Receipts(n, frames, same, DigestOf(c, mode), EncodingSize);
      && |rs| == |frames| && forall i :: 0 <= i < |rs| ==> rs[i].status == Accepted && rs[i].sequence == Some(i + 1)
  {
    hide Fitting, Holds, Receipts, StoreAfter, Schedule;
    DigestsFit(n, c, mode);
    ReplaysAreAccepted(n, mode, same, DigestOf(c, mode), EncodingSize);
  }

  // ---- the whole report ------------------------------------------------------------------------

  datatype StoreReport = StoreReport(
    replay: Report, accepted: int, coalesced: int, rejected: int, crcs: seq<string>, storeBytes: nat)

  /** The checksums of some frames, as their observations give them. */
  function CrcsOf(c: D.Checksum, frames: seq<int>): (crcs: seq<string>)
    ensures |crcs| == |frames|
  {
    seq(|frames|, i requires 0 <= i < |frames| => D.Hex(D.Crc(c, Max(0, frames[i])), 8))
  }

  function CrcOf(o: Observation): string {
    if "crc32_hex" in o.payload && o.payload["crc32_hex"].JString? then o.payload["crc32_hex"].s else ""
  }

  lemma DigestCarriesCrc(c: D.Checksum, mode: Mode, frame: int)
    ensures CrcOf(DigestOf(c, mode)(frame)) == D.Hex(D.Crc(c, Max(0, frame)), 8)
  {
    assert |"byte_count"| == 10 && |"byte_sum"| == 8 && |"crc32"| == 5 && |"crc32_hex"| == 9 && |"pixel_format"| == 12;
    hide D.Hex, D.Crc, D.FrameIdentity;
  }

  /** The frames' puts into a fresh store, their receipts counted. */
  method PutFrames(n: nat, frames: seq<int>, mode: Mode, c: D.Checksum, same: Equality)
    returns (store: MemoryStore, accepted: int, coalesced: int, rejected: int)
    requires Selection(frames, n) && n <= MAX_SYNTHETIC_REPLAY_FRAMES
    ensures fresh(store)
    ensures store.State() == StoreAfter(n, frames, same, DigestOf(c, mode), EncodingSize)
    ensures accepted == |frames| && coalesced == 0 && rejected == 0
  {
    var process := DigestOf(c, mode);
    DigestsFit(n, c, mode);
    EveryPutIsAccepted(n, frames, same, process, EncodingSize);
    store := new MemoryStore(Max(1, n), Max(LEAST_STORE_BYTES, n * BYTES_PER_FRAME), same, EncodingSize);
    accepted, coalesced, rejected := 0, 0, 0;
    hide Fitting, Holds, Remember, Observations.Encoding;
    assert frames[..0] == [];
    for i := 0 to |frames|
      invariant fresh(store) && Indexed(store.State())
      invariant store.same == same && store.measure == EncodingSize
      invariant store.maxObservations == Max(1, n) && store.maxBytes == Max(LEAST_STORE_BYTES, n * BYTES_PER_FRAME)
      invariant store.State() == StoreAfter(n, frames[..i], same, process, EncodingSize)
      invariant accepted == i && coalesced == 0 && rejected == 0
    {
      PutIsAccepted(n, frames, i, same, process, EncodingSize);
      var receipt := store.Put(process(frames[i]));
      if receipt.status == Accepted {
        accepted := accepted + 1;
      } else if receipt.status == Coalesced {
        coalesced := coalesced + 1;
      } else {
        rejected := rejected + 1;
      }
    }
    assert frames[..|frames|] == frames;
  }

  /** One put of a replay. */
  lemma PutIsAccepted(n: nat, frames: seq<int>, i: nat, same: Equality, process: Processor, measure: Measure)
    requires Selection(frames, n) && Fitting(n, process, measure) && i < |frames|
    ensures
      var (m, r) := StorePut(n, StoreAfter(n, frames[..i], same, process, measure), same, process(frames[i]), measure);
      m == StoreAfter(n, frames[..i + 1], same, process, measure) && r.status == Accepted
  {
    hide Fitting, Holds, StorePut;
    var upto := frames[..i + 1];
    assert upto[..i] == frames[..i] && upto[i] == frames[i];
    EveryPutIsAccepted(n, upto, same, process, measure);
    var rs := Receipts(n, upto, same, process, measure);
    assert rs[i].status == Accepted;
  }

  lemma CrcsAreCarried(observations: seq<Observation>, frames: seq<int>, mode: Mode, c: D.Checksum)
    requires |observations| == |frames|
    requires forall i :: 0 <= i < |frames| ==> observations[i] == DigestOf(c, mode)(frames[i])
    ensures forall i :: 0 <= i < |frames| ==> CrcOf(observations[i]) == CrcsOf(c, frames)[i]
  {
    forall i | 0 <= i < |frames| ensures CrcOf(observations[i]) == CrcsOf(c, frames)[i] {
      hide CrcOf, DigestOf, D.Hex, D.Crc;
      DigestCarriesCrc(c, mode, frames[i]);
    }
  }

  method CollectCrcs(observations: seq<Observation>, ghost frames: seq<int>, ghost mode: Mode, ghost c: D.Checksum)
    returns (crcs: seq<string>)
    requires |observations| == |frames|
    requires forall i :: 0 <= i < |frames| ==> observations[i] == DigestOf(c, mode)(frames[i])
    ensures crcs == CrcsOf(c, frames)
  {
    hide CrcOf, CrcsOf, DigestOf;
    CrcsAreCarried(observations, frames, mode, c);
    ghost var wanted := CrcsOf(c, frames);
    crcs := [];
    for i := 0 to |observations|
      invariant crcs == wanted[..i]
    {
      crcs := crcs + [CrcOf(observations[i])];
    }
  }

  /** `run_synthetic_replay` with its store: the whole report, None for a frame count it refuses. */
  method RunReplay(mode: Mode, frameCount: int, c: D.Checksum, same: Equality) returns (report: Option<StoreReport>)
    ensures report.None? <==> !(0 <= frameCount <= MAX_SYNTHETIC_REPLAY_FRAMES)
    ensures report.Some? ==>
              var frames := if mode.Faithful? then Schedule(frameCount) else AllFrames(frameCount);
              var r := report.value;
              && r.replay.processed == frames
              && r.accepted == |frames| && r.coalesced == 0 && r.rejected == 0
              && r.crcs == CrcsOf(c, frames)
              && r.storeBytes == SizeSum(frames, DigestOf(c, mode), EncodingSize) <= |frames| * BYTES_PER_FRAME
    ensures report.Some? && mode.Faithful? ==>
              report.value.replay == Report(Schedule(frameCount), Skipped(Schedule(frameCount), frameCount),
                                            PROCESSING_TIME_NS * |Schedule(frameCount)|)
    ensures report.Some? && mode.Exhaustive? ==>
              report.value.replay == Report(AllFrames(frameCount), [], FRAME_INTERVAL_NS * frameCount)
  {
    var replay := RunSyntheticReplay(mode, frameCount);
    if replay.None? {
      return None;
    }
    var n: nat, frames := frameCount, replay.value.processed;
    ProcessedIsSelection(n, mode);
    hide Schedule, Skipped, AllFrames, DigestOf, KeyOfOne, SizeSum, StoreAfter, Receipts, CrcsOf, Fitting, Selection;
    var store, accepted, coalesced, rejected := PutFrames(n, frames, mode, c, same);
    DigestsFit(n, c, mode);
    EveryPutIsAccepted(n, frames, same, DigestOf(c, mode), EncodingSize);
    var crcs := CollectCrcs(store.observations, frames, mode, c);
    report := Some(StoreReport(replay.value, accepted, coalesced, rejected, crcs, store.bytesUsed));
  }

  lemma ProcessedIsSelection(n: nat, mode: Mode)
    ensures Selection(if mode.Faithful? then Schedule(n) else AllFrames(n), n)
  {
    if mode.Faithful? {
      ScheduleIsIncreasing(n);
      var frames := Schedule(n);
      assert |frames| <= n;
      forall i | 0 <= i < |frames| ensures 0 <= frames[i] < n {
        assert frames[i] in Schedule(n);
      }
      hide Schedule;
    }
  }
}
