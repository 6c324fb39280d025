/** Which snapshot calls are reserved and which pictures handed out, and that a grant in force is honoured to its end. */
module SnapshotDecisions {
  import opened Common
  import opened Consent
  import opened ConsentLedgers
  import opened SnapshotConsent

  /** A reservation is made, and one attempt counted, exactly when the grant on file covers the request and has an
      attempt left and the file is replaced; the call has it exactly when the replacement is seen to succeed. */
  lemma ReserveDecides(w: World, sensitivity: Sensitivity, now: int, fate: Fate)
    ensures
      var z := Step(w, ReserveEvent(sensitivity, now, fate));
      var s := w.file;
      if s.Some? && s.value.attempts < s.value.grant.quota && Covers(s.value.grant, SnapshotRead, sensitivity, now)
         && !fate.Untouched?
      then
        var t := s.value.(attempts := s.value.attempts + 1, generation := s.value.generation + 1);
        z == w.(file := Some(t), calls := if fate.Done? then w.calls + [Call(t, Waiting)] else w.calls)
      else z == w
  {
    if w.file.Some? {
      AllowedMeansCovered(Some(w.file.value.grant), SnapshotRead, sensitivity, now, w.file.value.attempts);
      hide EvaluateGrant, Covers;
      if !fate.Done? { assert w.calls + [] == w.calls; }
    }
  }

  /** A picture that was taken is handed out exactly when the grant it was reserved under is still the one on file and
      covers it at that time, whatever became of its attempts. */
  lemma ReturnDecides(w: World, i: nat, sensitivity: Sensitivity, now: int)
    requires i < |w.calls| && w.calls[i].stage.Captured?
    ensures
      var z, c, s := Step(w, ReturnEvent(i, sensitivity, now)), w.calls[i], w.file;
      && z.file == w.file && z.issued == w.issued && z.calls == w.calls[i := Call(c.reserved, Returned)]
      && z.delivered ==
           if s.Some? && s.value.grant.publicId == c.reserved.grant.publicId && s.value.grant.quota > 0
              && Covers(s.value.grant, SnapshotRead, sensitivity, now)
           then w.delivered + [Delivery(c.reserved, s.value, sensitivity, now)] else w.delivered
  {
    if w.file.Some? {
      AllowedMeansCovered(Some(w.file.value.grant), SnapshotRead, sensitivity, now, 0);
      hide EvaluateGrant, Covers;
    }
  }

  /** Each call asks the provider once. */
  lemma CaptureDecides(w: World, i: nat)
    ensures
      var z := Step(w, CaptureEvent(i));
      if i < |w.calls| && w.calls[i].stage.Waiting?
      then z == w.(calls := w.calls[i := Call(w.calls[i].reserved, Captured)])
      else z == w
  {
  }

  // ---- a grant in force ----------------------------------------------------------------------

  /** One call: the class it asks for, when it asks, and when its picture is there. */
  datatype Request = Request(sensitivity: Sensitivity, asked: int, taken: int)

  /** A call from its reservation to its return, as call number i. */
  function Snapshot(r: Request, i: nat): seq<Event> {
    [ReserveEvent(r.sensitivity, r.asked, Done), CaptureEvent(i), ReturnEvent(i, r.sensitivity, r.taken)]
  }

  function Snapshots(rs: seq<Request>, i: nat): seq<Event> {
    if rs == [] then [] else Snapshot(rs[0], i) + Snapshots(rs[1..], i + 1)
  }

  predicate Covered(g: Grant, r: Request) {
    Covers(g, SnapshotRead, r.sensitivity, r.asked) && Covers(g, SnapshotRead, r.sensitivity, r.taken)
  }

  function Used(s: ConsentState, n: nat): ConsentState {
    s.(attempts := s.attempts + n, generation := s.generation + n)
  }

  /** The pictures those calls hand out. */
  function Pictures(s: ConsentState, rs: seq<Request>): seq<Delivery>
    decreases |rs|
  {
    if rs == [] then []
    else
      [Delivery(Used(s, 1), Used(s, 1), rs[0].sensitivity, rs[0].taken)] + Pictures(Used(s, 1), rs[1..])
  }

  lemma {:induction false} RunsJoin(w: World, a: seq<Event>, b: seq<Event>)
    ensures Run(w, a + b) == Run(Run(w, a), b)
    decreases |a|
  {
    hide Step;
    if a == [] {
      assert a + b == b;
    } else {
      RunsJoin(Step(w, a[0]), a[1..], b);
      assert (a + b)[0] == a[0] && (a + b)[1..] == a[1..] + b;
    }
  }

  lemma RunOfNone(w: World)
    ensures Run(w, []) == w
  {
  }

  lemma RunOfThree(w: World, a: Event, b: Event, c: Event)
    ensures Run(w, [a, b, c]) == Step(Step(Step(w, a), b), c)
  {
    hide Step;
    var z := Step(w, a);
    assert [a, b, c][1..] == [b, c] && [b, c][1..] == [c] && [c][1..] == [];
    assert Run(w, [a, b, c]) == Run(z, [b, c]);
    assert Run(z, [b, c]) == Run(Step(z, b), [c]);
    assert Run(Step(z, b), [c]) == Run(Step(Step(z, b), c), []);
  }

  lemma OneIsDelivered(w: World, r: Request)
    requires w.file.Some? && w.file.value.attempts < w.file.value.grant.quota && w.file.value.attempts >= 0
    requires Covered(w.file.value.grant, r)
    ensures
      var z, t := Run(w, Snapshot(r, |w.calls|)), Used(w.file.value, 1);
      && z == w.(file := Some(t), calls := w.calls + [Call(t, Returned)],
                 delivered := w.delivered + [Delivery(t, t, r.sensitivity, r.taken)])
  {
    var i, t := |w.calls|, Used(w.file.value, 1);
    ReserveDecides(w, r.sensitivity, r.asked, Done);
    var a := Step(w, ReserveEvent(r.sensitivity, r.asked, Done));
    CaptureDecides(a, i);
    var b := Step(a, CaptureEvent(i));
    ReturnDecides(b, i, r.sensitivity, r.taken);
    RunOfThree(w, ReserveEvent(r.sensitivity, r.asked, Done), CaptureEvent(i), ReturnEvent(i, r.sensitivity, r.taken));
    hide Step, Run, Covers;
    assert a.calls[i] == Call(t, Waiting);
    assert a.calls[i := Call(t, Captured)][i := Call(t, Returned)] == w.calls + [Call(t, Returned)];
  }

  lemma SnapshotsUnfold(s: ConsentState, rs: seq<Request>, i: nat)
    ensures rs == [] ==> Snapshots(rs, i) == [] && Pictures(s, rs) == []
    ensures
      rs != [] ==>
        && Snapshots(rs, i) == Snapshot(rs[0], i) + Snapshots(rs[1..], i + 1)
        && Pictures(s, rs) ==
             [Delivery(Used(s, 1), Used(s, 1), rs[0].sensitivity, rs[0].taken)] + Pictures(Used(s, 1), rs[1..])
  {
    hide Snapshot, Used, Step;
  }

  lemma UsedAdds(s: ConsentState, n: nat)
    ensures Used(s, 0) == s && (n > 0 ==> Used(Used(s, 1), n - 1) == Used(s, n))
    ensures Used(s, 1).grant == s.grant && Used(s, 1).attempts == s.attempts + 1
  {
  }

  /** Calls one after another that the grant on file covers are all honoured, up to its quota: each takes one attempt
      and each picture is handed out. */
  lemma {:induction false} CoveredCallsAreHonoured(w: World, rs: seq<Request>)
    requires w.file.Some? && w.file.value.attempts >= 0
    requires w.file.value.attempts + |rs| <= w.file.value.grant.quota
    requires forall k :: 0 <= k < |rs| ==> Covered(w.file.value.grant, rs[k])
    ensures
      var z := Run(w, Snapshots(rs, |w.calls|));
      && z.file == Some(Used(w.file.value, |rs|)) && |z.calls| == |w.calls| + |rs| && z.issued == w.issued
      && z.delivered == w.delivered + Pictures(w.file.value, rs)
    decreases |rs|
  {
    SnapshotsUnfold(w.file.value, rs, |w.calls|);
    UsedAdds(w.file.value, |rs|);
    RunOfNone(w);
    hide *;
    if rs == [] {
      assert w.delivered + [] == w.delivered;
    } else {
      OneIsDelivered(w, rs[0]);
      var z := Run(w, Snapshot(rs[0], |w.calls|));
      assert z.file.value.grant == w.file.value.grant && |z.calls| == |w.calls| + 1;
      CoveredCallsAreHonoured(z, rs[1..]);
      RunsJoin(w, Snapshot(rs[0], |w.calls|), Snapshots(rs[1..], |w.calls| + 1));
      var one := Delivery(z.file.value, z.file.value, rs[0].sensitivity, rs[0].taken);
      var more := Pictures(z.file.value, rs[1..]);
      assert w.delivered + [one] + more == w.delivered + ([one] + more);
    }
  }

  /** With the quota used up, or the grant revoked, no further call is. */
  lemma UsedUpGrantRefuses(w: World, sensitivity: Sensitivity, now: int, fate: Fate)
    requires w.file.Some? ==> w.file.value.attempts >= w.file.value.grant.quota
    ensures Step(w, ReserveEvent(sensitivity, now, fate)) == w
    ensures Step(Step(w, RevokeEvent(true)), ReserveEvent(sensitivity, now, fate)).file.None?
  {
    ReserveDecides(w, sensitivity, now, fate);
    hide Covers, EvaluateGrant;
  }
}
