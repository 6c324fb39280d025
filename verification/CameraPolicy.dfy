/** The limits of a camera session and its retry delay. */
module CameraPolicy {
  import opened Common

  const MAX_CAPTURE_TIMEOUT_NS: nat := 60_000_000_000
  const MAX_CAPTURE_COOLDOWN_NS: nat := 300_000_000_000
  const MAX_REOPEN_ATTEMPTS: nat := 16
  const MAX_WARMUP_FRAMES: nat := 300

  datatype Policy = Policy(
    openTimeout: nat, readTimeout: nat, staleAfter: nat, shutdownTimeout: nat,
    initialCooldown: nat, maximumCooldown: nat, minimumReopenInterval: nat, stableResetAfter: nat,
    maxReopenAttempts: nat, warmupFrames: nat)

  /** What the policy's own checks admit. */
  predicate ValidPolicy(p: Policy) {
    && 1 <= p.openTimeout <= p.shutdownTimeout <= MAX_CAPTURE_TIMEOUT_NS
    && 1 <= p.readTimeout <= p.shutdownTimeout
    && p.readTimeout <= p.staleAfter <= MAX_CAPTURE_TIMEOUT_NS
    && 1 <= p.initialCooldown <= p.maximumCooldown <= MAX_CAPTURE_COOLDOWN_NS
    && 1 <= p.minimumReopenInterval <= p.maximumCooldown
    && 1 <= p.stableResetAfter <= MAX_CAPTURE_COOLDOWN_NS
    && p.maxReopenAttempts <= MAX_REOPEN_ATTEMPTS
    && p.warmupFrames <= MAX_WARMUP_FRAMES
  }

  function PowerOfTwo(k: nat): (p: nat)
    ensures p >= 1
  {
    if k == 0 then 1 else 2 * PowerOfTwo(k - 1)
  }

  /** The number of failed attempts the delay is defined for. */
  predicate CooldownDomain(failedAttempts: nat) { 1 <= failedAttempts <= MAX_REOPEN_ATTEMPTS + 1 }

  function Cooldown(p: Policy, failedAttempts: nat): nat
    requires CooldownDomain(failedAttempts)
  {
    Min(p.initialCooldown * PowerOfTwo(Min(failedAttempts - 1, MAX_REOPEN_ATTEMPTS)), p.maximumCooldown)
  }

  /** Any two opens start at least a gap apart. */
  predicate Spaced(opens: seq<nat>, gap: nat) { forall i, j :: 0 <= i < j < |opens| ==> opens[i] + gap <= opens[j] }

  /** The delay of one retry: the cooldown, or longer if the last open started too recently. */
  function RetryDelay(p: Policy, failedAttempts: nat, lastOpen: Option<nat>, now: nat): nat
    requires CooldownDomain(failedAttempts)
  {
    var cooldown := Cooldown(p, failedAttempts);
    if lastOpen.None? then cooldown
    else Max(cooldown, Max(0, p.minimumReopenInterval - Max(0, now - lastOpen.value)))
  }

  lemma {:induction false} PowerOfTwoGrows(a: nat, b: nat)
    requires a <= b
    ensures PowerOfTwo(a) <= PowerOfTwo(b)
    decreases b
  {
    if a < b {
      PowerOfTwoGrows(a, b - 1);
    }
  }

  lemma ScaleGrows(k: nat, a: nat, b: nat)
    requires a <= b
    ensures k * a <= k * b
  {
  }

  /** More failures never shorten the delay, which starts at the initial cooldown and is capped. */
  lemma CooldownIsMonotone(p: Policy, a: nat, b: nat)
    requires ValidPolicy(p) && CooldownDomain(a) && CooldownDomain(b) && a <= b
    ensures p.initialCooldown <= Cooldown(p, a) <= Cooldown(p, b) <= p.maximumCooldown
    ensures Cooldown(p, 1) == p.initialCooldown
  {
    PowerOfTwoGrows(a - 1, b - 1);
    ScaleGrows(p.initialCooldown, PowerOfTwo(a - 1), PowerOfTwo(b - 1));
    ScaleGrows(p.initialCooldown, 1, PowerOfTwo(a - 1));
  }

  /** One more failure doubles the delay, up to the cap. */
  lemma CooldownDoubles(p: Policy, failedAttempts: nat)
    requires ValidPolicy(p) && CooldownDomain(failedAttempts) && CooldownDomain(failedAttempts + 1)
    ensures Cooldown(p, failedAttempts + 1) == Min(2 * Cooldown(p, failedAttempts), p.maximumCooldown)
  {
    var power := PowerOfTwo(failedAttempts - 1);
    assert PowerOfTwo(failedAttempts) == 2 * power;
    assert p.initialCooldown * (2 * power) == 2 * (p.initialCooldown * power);
  }

  /** The delay lies between the cooldowns, and is the shortest one from the cooldown on after which the last open is
      an interval ago. */
  lemma RetryDelayIsBounded(p: Policy, failedAttempts: nat, lastOpen: Option<nat>, now: nat)
    requires ValidPolicy(p) && CooldownDomain(failedAttempts)
    ensures p.initialCooldown <= RetryDelay(p, failedAttempts, lastOpen, now) <= p.maximumCooldown
    ensures
      var delay, cooldown := RetryDelay(p, failedAttempts, lastOpen, now), Cooldown(p, failedAttempts);
      && cooldown <= delay && (lastOpen.None? ==> delay == cooldown)
      && (lastOpen.Some? ==>
            // A clock that went back counts as one that stood still.
            var at := Max(lastOpen.value, now);
            lastOpen.value + p.minimumReopenInterval <= at + delay
            && (delay == cooldown || lastOpen.value + p.minimumReopenInterval == at + delay))
  {
    hide Cooldown;
    CooldownIsMonotone(p, failedAttempts, failedAttempts);
  }
}
