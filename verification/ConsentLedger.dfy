/** The consent file and the operations that replace it under the mutation lock. */
module ConsentLedgers {
  import opened Common
  import opened Utf8
  import opened Consent
  import opened ConsentSize

  /** How a replacement of the file ends: not at all, with the file replaced but an error after it, or well. */
  datatype Fate = Untouched | ReplacedThenFailed | Done

  /** What a call meets besides: whether the mutation lock is obtained in time, whether the file can be inspected and
      read, and whether the lock is given back. */
  datatype Access = Access(lock: bool, readable: bool, releases: bool)

  datatype Reservation = Refused(reason: Reason) | Reserved(state: ConsentState) | LedgerError

  /** The state after one more attempt. */
  function Advanced(s: ConsentState): ConsentState { s.(attempts := s.attempts + 1, generation := s.generation + 1) }

  function NewState(
    id: string, scopes: set<Scope>, seconds: int, quota: int, ceiling: Sensitivity, now: int): ConsentState
  {
    ConsentState(Grant(id, scopes, now + seconds * NANOSECONDS, quota, ceiling), now, 0, 1)
  }

  /** The arguments of a grant that pass its checks. */
  predicate Grantable(seconds: int, quota: int, ceiling: Sensitivity, now: int) {
    && 1 <= seconds <= MAX_CONSENT_DURATION_SECONDS && 0 <= quota <= MAX_SNAPSHOT_QUOTA && !ceiling.Prohibited?
    && 0 <= now && now + seconds * NANOSECONDS <= MAX_INT64
  }

  lemma AdvancedIsValid(s: ConsentState)
    requires ValidState(s) && s.attempts < s.grant.quota
    ensures ValidState(Advanced(s))
  {
  }

  lemma AllowedAdvances(s: ConsentState, sensitivity: Sensitivity, now: int)
    requires ValidState(s)
    requires EvaluateGrant(Some(s.grant), SnapshotRead, sensitivity, now, s.attempts).Allowed?
    ensures s.attempts < s.grant.quota && ValidState(Advanced(s))
  {
    AdvancedIsValid(s);
    hide ValidGrant;
  }

  lemma NewStateIsValid(id: string, scopes: set<Scope>, seconds: int, quota: int, ceiling: Sensitivity, now: int)
    requires Nonblank(id) && |id| <= MAX_PUBLIC_ID_CHARS && Grantable(seconds, quota, ceiling, now)
    ensures ValidState(NewState(id, scopes, seconds, quota, ceiling, now))
  {
  }

  // ---- the operations on the file's bytes --------------------------------------------

  /** What `load` makes of the file: an error, no state, or the state. */
  predicate Readable(file: Option<Bytes>) { file.None? || DecodeFile(file.value).Some? }

  function Stored(file: Option<Bytes>): (s: Option<ConsentState>)
    ensures s.Some? ==> ValidState(s.value)
  {
    if file.None? then None else DecodeFile(file.value)
  }

  function WriteFile(file: Option<Bytes>, s: ConsentState, fate: Fate): Option<Bytes> {
    if fate.Untouched? then file else Some(FileBytes(s))
  }

  function GrantFile(
    file: Option<Bytes>, id: string, scopes: set<Scope>, seconds: int, quota: int, ceiling: Sensitivity, now: int,
    a: Access, fate: Fate): Option<Bytes>
  {
    if Grantable(seconds, quota, ceiling, now) && a.lock then
      WriteFile(file, NewState(id, scopes, seconds, quota, ceiling, now), fate)
    else file
  }

  function RevokeFile(file: Option<Bytes>, a: Access, fate: Fate): Option<Bytes> {
    if a.lock && a.readable && !fate.Untouched? then None else file
  }

  /** Whether `reserve_snapshot` gets as far as replacing the file. */
  predicate Advances(file: Option<Bytes>, sensitivity: Sensitivity, now: int, a: Access) {
    && a.lock && a.readable && 0 <= now <= MAX_INT64 && Stored(file).Some?
    && EvaluateGrant(Some(Stored(file).value.grant), SnapshotRead, sensitivity, now, Stored(file).value.attempts).Allowed?
  }

  function ReserveFile(file: Option<Bytes>, sensitivity: Sensitivity, now: int, a: Access, fate: Fate): Option<Bytes> {
    if Advances(file, sensitivity, now, a) then WriteFile(file, Advanced(Stored(file).value), fate) else file
  }

  /** What a reservation on this file needs of the grant. */
  lemma ReservationNeeds(file: Option<Bytes>, sensitivity: Sensitivity, now: int)
    ensures
      Stored(file).Some? ==>
        var s := Stored(file).value;
        && (EvaluateGrant(Some(s.grant), SnapshotRead, sensitivity, now, s.attempts).Allowed? <==>
              s.attempts < s.grant.quota && Covers(s.grant, SnapshotRead, sensitivity, now))
        && Advanced(s) == s.(attempts := s.attempts + 1, generation := s.attempts + 2)
    ensures !EvaluateGrant(None, SnapshotRead, sensitivity, now, 0).Allowed?
  {
    if Stored(file).Some? {
      var s := Stored(file).value;
      AllowedMeansCovered(Some(s.grant), SnapshotRead, sensitivity, now, s.attempts);
    }
    hide DecodeFile, EvaluateGrant, Covers;
  }

  class ConsentLedger {
    var file: Option<Bytes>

    constructor (existing: Option<Bytes>)
      ensures file == existing
    {
      file := existing;
    }

    /** The current state; not `ok` for a file that cannot be inspected, read or decoded. */
    method Load(readable: bool) returns (ok: bool, state: Option<ConsentState>)
      ensures ok == (readable && (file.None? || DecodeFile(file.value).Some?))
      ensures state == if !readable || file.None? then None else DecodeFile(file.value)
      ensures state.Some? ==> ValidState(state.value)
    {
      if !readable {
        return false, None;
      }
      if file.None? {
        return true, None;
      }
      state := DecodeFile(file.value);
      ok := state.Some?;
    }

    /** The size check cannot refuse a valid state. */
    method Write(s: ConsentState, fate: Fate) returns (ok: bool)
      requires ValidState(s)
      modifies this
      ensures ok == fate.Done?
      ensures file == WriteFile(old(file), s, fate)
      ensures if fate.Untouched? then file == old(file) else file.Some? && DecodeFile(file.value) == Some(s)
    {
      WrittenStateIsReadBack(s);
      var payload := FileBytes(s);
      if |payload| > MAX_CONSENT_FILE_BYTES {
        return false;
      }
      if fate.Untouched? {
        return false;
      }
      file := Some(payload);
      ok := fate.Done?;
    }

    /** `grant`; None when it raises, which it does too when the lock cannot be given back after the write. */
    method GrantConsent(
      id: string, scopes: set<Scope>, seconds: int, quota: int, ceiling: Sensitivity, now: int, a: Access, fate: Fate)
      returns (r: Option<ConsentState>)
      requires Nonblank(id) && |id| <= MAX_PUBLIC_ID_CHARS
      modifies this
      ensures r == if Grantable(seconds, quota, ceiling, now) && a.lock && fate.Done? && a.releases
                   then Some(NewState(id, scopes, seconds, quota, ceiling, now)) else None
      ensures r.Some? <==>
                && 1 <= seconds <= MAX_CONSENT_DURATION_SECONDS && 0 <= quota <= MAX_SNAPSHOT_QUOTA
                && !ceiling.Prohibited? && 0 <= now && now + 1_000_000_000 * seconds <= MAX_INT64
                && a.lock && fate.Done? && a.releases
      ensures r.Some? ==>
                r.value == ConsentState(Grant(id, scopes, now + 1_000_000_000 * seconds, quota, ceiling), now, 0, 1)
      ensures file == GrantFile(old(file), id, scopes, seconds, quota, ceiling, now, a, fate)
      ensures if Grantable(seconds, quota, ceiling, now) && a.lock && !fate.Untouched?
              then file.Some? && DecodeFile(file.value) == Some(NewState(id, scopes, seconds, quota, ceiling, now))
              else file == old(file)
    {
      hide ValidState, DecodeFile, Nonblank, FileBytes, WriteFile;
      r := None;
      if 1 <= seconds <= MAX_CONSENT_DURATION_SECONDS && 0 <= quota <= MAX_SNAPSHOT_QUOTA && now >= 0 {
        var expires := now + seconds * NANOSECONDS;
        if expires <= MAX_INT64 && !ceiling.Prohibited? {
          assert Grantable(seconds, quota, ceiling, now);
          var state := ConsentState(Grant(id, scopes, expires, quota, ceiling), now, 0, 1);
          NewStateIsValid(id, scopes, seconds, quota, ceiling, now);
          if a.lock {
            var ok := Write(state, fate);
            r := if ok && a.releases then Some(state) else None;
          }
        }
      }
    }

    /** `revoke`: whether there was a file, or None when it raises. */
    method Revoke(a: Access, fate: Fate) returns (existed: Option<bool>)
      modifies this
      ensures existed == (if !a.lock || !a.readable || !a.releases then None
                          else if old(file).None? then Some(false)
                          else if fate.Done? then Some(true) else None)
      ensures file == RevokeFile(old(file), a, fate)
    {
      if !a.lock {
        return None;
      }
      if a.readable {
        if file.None? {
          existed := Some(false);
        } else if fate.Untouched? {
          existed := None;
        } else {
          file := None;
          existed := if fate.Done? then Some(true) else None;
        }
      } else {
        existed := None;
      }
      if !a.releases {
        existed := None;
      }
    }

    /** `reserve_snapshot`: an attempt is consumed exactly when the grant in the file covers the request and has
        attempts left, and is reported as reserved only once it is on file; whatever was decided, the call raises
        when the lock cannot be given back. */
    method ReserveSnapshot(sensitivity: Sensitivity, now: int, a: Access, fate: Fate) returns (r: Reservation)
      modifies this
      ensures file == ReserveFile(old(file), sensitivity, now, a, fate)
      ensures r.Reserved? <==>
                && a.lock && a.readable && a.releases && fate.Done? && 0 <= now <= MAX_INT64 && old(file).Some?
                && var before := DecodeFile(old(file).value);
                before.Some? && before.value.attempts < before.value.grant.quota
                && Covers(before.value.grant, SnapshotRead, sensitivity, now)
      ensures r.Reserved? ==>
                && var before := DecodeFile(old(file).value).value;
                r.state == before.(attempts := before.attempts + 1, generation := before.attempts + 2)
      ensures
        var before := if old(file).None? then None else DecodeFile(old(file).value);
        var readable := a.lock && a.readable && 0 <= now <= MAX_INT64 && (old(file).None? || before.Some?);
        var reason := EvaluateGrant(if before.None? then None else Some(before.value.grant), SnapshotRead, sensitivity,
                        now, if before.None? then 0 else before.value.attempts);
        if !readable then r.LedgerError? && file == old(file)
        else if !reason.Allowed? then r == (if a.releases then Refused(reason) else LedgerError) && file == old(file)
        else
          && before.Some?
          && (if fate.Untouched? then file == old(file)
              else file.Some? && DecodeFile(file.value) == Some(Advanced(before.value)))
          && r == if fate.Done? && a.releases then Reserved(Advanced(before.value)) else LedgerError
    {
      ReservationNeeds(file, sensitivity, now);
      hide ValidState, DecodeFile, FileBytes, Covers, EvaluateGrant;
      if !(0 <= now <= MAX_INT64) || !a.lock {
        return LedgerError;
      }
      r := ReserveLocked(sensitivity, now, a, fate);
      if !a.releases {
        r := LedgerError;
      }
    }

    /** The same inside the mutation lock. */
    method ReserveLocked(sensitivity: Sensitivity, now: int, a: Access, fate: Fate) returns (r: Reservation)
      requires a.lock && 0 <= now <= MAX_INT64
      modifies this
      ensures file == ReserveFile(old(file), sensitivity, now, a, fate)
      ensures r.Reserved? <==> Advances(old(file), sensitivity, now, a) && fate.Done?
      ensures
        var before := if old(file).None? then None else DecodeFile(old(file).value);
        var reason := EvaluateGrant(if before.None? then None else Some(before.value.grant), SnapshotRead, sensitivity,
                        now, if before.None? then 0 else before.value.attempts);
        if !(a.readable && (old(file).None? || before.Some?)) then r.LedgerError? && file == old(file)
        else if !reason.Allowed? then r == Refused(reason) && file == old(file)
        else
          && before.Some?
          && (if fate.Untouched? then file == old(file)
              else file.Some? && DecodeFile(file.value) == Some(Advanced(before.value)))
          && r == if fate.Done? then Reserved(Advanced(before.value)) else LedgerError
    {
      hide ValidState, DecodeFile, FileBytes;
      var ok, state := Load(a.readable);
      if !ok {
        return LedgerError;
      }
      var grant := if state.None? then None else Some(state.value.grant);
      var attempts := if state.None? then 0 else state.value.attempts;
      var reason := EvaluateGrant(grant, SnapshotRead, sensitivity, now, attempts);
      if reason != Allowed || state.None? {
        return Refused(reason);
      }
      AllowedAdvances(state.value, sensitivity, now);
      hide EvaluateGrant;
      var updated := Advanced(state.value);
      var written := Write(updated, fate);
      r := if written then Reserved(updated) else LedgerError;
    }
  }
}
