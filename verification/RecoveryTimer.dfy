/** The not-ok timer and the reset cooldown (internal/controller/cluster.go): when the cluster was
    first seen degraded, and when it was last reset. */
module RecoveryTimer {
  import opened Options
  import opened Annotations

  const RESET_COOLDOWN: int := 300 * SECOND

  /** Ten times the node timeout, between 30 and 120 seconds; 2000 ms when none is given. */
  function ConvergenceTimeout(nodeTimeoutMs: int): (t: int)
    ensures 30 * SECOND <= t <= 120 * SECOND
    ensures 3_000 <= nodeTimeoutMs <= 12_000 ==> t == 10 * nodeTimeoutMs * (SECOND / 1_000)
    ensures nodeTimeoutMs < 3_000 ==> t == 30 * SECOND
    ensures nodeTimeoutMs > 12_000 ==> t == 120 * SECOND
  {
    var ms := if nodeTimeoutMs <= 0 then 2000 else nodeTimeoutMs;
    var d := ms * 1_000_000 * 10;
    if d < 30 * SECOND then 30 * SECOND else if d > 120 * SECOND then 120 * SECOND else d
  }

  // ----------------------------------------------------------------- the timer

  /** The timer runs and was started at least `timeout` ago. */
  predicate HasTimedOut(s: Memory, now: int, timeout: int) {
    Aged(Lookup(s.mem, ClusterNotOkSince), now, timeout)
  }

  /** Asking starts the timer; a start that is not persisted does not count. */
  function AfterCheck(s: Memory, now: int, patch: PatchOutcome): Memory {
    if ClusterNotOkSince in s.mem || patch.Rejected? then s
    else Patched(s.(mem := s.mem[ClusterNotOkSince := Printed(now)]), s.mem, patch)
  }

  method ClusterNotOkTimedOut(vc: ClusterResource, now: int, timeout: int, patch: PatchOutcome)
    returns (timedOut: bool)
    modifies vc
    ensures vc.State() == AfterCheck(old(vc.State()), now, patch)
    ensures timedOut == old(HasTimedOut(vc.State(), now, timeout))
  {
    if ClusterNotOkSince !in vc.annotations {
      var base := vc.annotations;
      vc.annotations := vc.annotations[ClusterNotOkSince := Printed(now)];
      var ok := vc.Patch(base, patch);
      if !ok {
        vc.annotations := vc.annotations - {ClusterNotOkSince};
        assert vc.annotations == base;
      }
      return false;
    }
    match vc.annotations[ClusterNotOkSince]
    case Malformed => return false;
    case Stamp(t) => return now - t >= timeout;
  }

  // ----------------------------------------------------------------- clearing

  const RECOVERY_KEYS := {ClusterNotOkSince, LastResetTime}

  function Cleared(s: Memory, patch: PatchOutcome): Memory {
    if ClusterNotOkSince !in s.mem && LastResetTime !in s.mem then s
    else Patched(s.(mem := s.mem - RECOVERY_KEYS), s.mem, patch)
  }

  method ClearClusterNotOk(vc: ClusterResource, patch: PatchOutcome)
    modifies vc
    ensures vc.State() == Cleared(old(vc.State()), patch)
  {
    if ClusterNotOkSince !in vc.annotations && LastResetTime !in vc.annotations {
      return;
    }
    var base := vc.annotations;
    vc.annotations := vc.annotations - {ClusterNotOkSince};
    vc.annotations := vc.annotations - {LastResetTime};
    assert vc.annotations == base - RECOVERY_KEYS;
    var _ := vc.Patch(base, patch);
  }

  // ----------------------------------------------------------------- resetting

  /** The two clock readings of a reset and the patch that records it. */
  datatype ResetTry = ResetTry(checked: int, recorded: int, patch: PatchOutcome)

  /** A record that is younger than the cooldown. */
  predicate Recent(v: Option<Value>, now: int) {
    match v
    case Some(Stamp(t)) => now - t < RESET_COOLDOWN
    case _ => false
  }

  /** The last recorded reset is too recent. */
  predicate Cooling(s: Memory, now: int) {
    Recent(Lookup(s.mem, LastResetTime), now)
  }

  function AfterReset(s: Memory, try: ResetTry): Memory {
    if Cooling(s, try.checked) then s
    else Patched(s.(mem := s.mem[LastResetTime := Printed(try.recorded)]), s.mem, try.patch)
  }

  /** CLUSTER RESET SOFT to every pod, unless one was recorded recently. */
  method ResetAllNodes(vc: ClusterResource, try: ResetTry) returns (issued: bool)
    modifies vc
    ensures vc.State() == AfterReset(old(vc.State()), try)
    ensures issued == !old(Cooling(vc.State(), try.checked))
  {
    if LastResetTime in vc.annotations {
      match vc.annotations[LastResetTime]
      case Malformed =>
      case Stamp(t) =>
        if try.checked - t < RESET_COOLDOWN {
          return false;
        }
    }
    var base := vc.annotations;
    vc.annotations := vc.annotations[LastResetTime := Printed(try.recorded)];
    var _ := vc.Patch(base, try.patch);
    return true;
  }

  // ----------------------------------------------------------------- what happens to the annotations

  /** What a pass may do to a stamp: leave it, drop it, or write one of its own clock readings. */
  ghost predicate Evolves(before: Option<Value>, after: Option<Value>, from: int, to: int) {
    after == before || after == None || exists now | from <= now <= to :: after == Some(Printed(now))
  }

  lemma CheckLeaves(s: Memory, now: int, patch: PatchOutcome, k: Key)
    requires k != ClusterNotOkSince
    ensures Leaves(s, AfterCheck(s, now, patch), k)
  {
    PatchLeaves(s.(mem := s.mem[ClusterNotOkSince := Printed(now)]), s.mem, patch, k);
  }

  lemma ClearLeaves(s: Memory, patch: PatchOutcome, k: Key)
    requires k !in RECOVERY_KEYS
    ensures Leaves(s, Cleared(s, patch), k)
  {
    PatchLeaves(s.(mem := s.mem - RECOVERY_KEYS), s.mem, patch, k);
  }

  lemma ResetLeaves(s: Memory, try: ResetTry, k: Key)
    requires k != LastResetTime
    ensures Leaves(s, AfterReset(s, try), k)
  {
    PatchLeaves(s.(mem := s.mem[LastResetTime := Printed(try.recorded)]), s.mem, try.patch, k);
  }

  lemma CheckEvolves(s: Memory, now: int, patch: PatchOutcome)
    ensures var after := AfterCheck(s, now, patch);
            Evolves(Lookup(s.stored, ClusterNotOkSince), Lookup(after.stored, ClusterNotOkSince), now, now)
  {
    if ClusterNotOkSince !in s.mem && patch.Accepted? {
      PatchedAt(s.(mem := s.mem[ClusterNotOkSince := Printed(now)]), s.mem, patch.kept, ClusterNotOkSince);
    }
  }

  lemma ClearEvolves(s: Memory, patch: PatchOutcome)
    ensures var after := Cleared(s, patch);
            Lookup(after.stored, ClusterNotOkSince) in {None, Lookup(s.stored, ClusterNotOkSince)}
  {
    if patch.Accepted? {
      PatchedAt(s.(mem := s.mem - RECOVERY_KEYS), s.mem, patch.kept, ClusterNotOkSince);
    }
  }

  /** The reset does not touch the timer on the server. */
  lemma ResetKeepsTimer(s: Memory, try: ResetTry)
    ensures var after := AfterReset(s, try);
            Lookup(after.stored, ClusterNotOkSince) == Lookup(s.stored, ClusterNotOkSince)
  {
    if try.patch.Accepted? {
      PatchedAt(s.(mem := s.mem[LastResetTime := Printed(try.recorded)]), s.mem, try.patch.kept, ClusterNotOkSince);
    }
  }

  /** Clearing always stops the timer in the copy; on the server when the patch is accepted. */
  lemma ClearStops(s: Memory, patch: PatchOutcome)
    requires Agree(s, ClusterNotOkSince)
    ensures var after := Cleared(s, patch);
            && Lookup(after.mem, ClusterNotOkSince) == None
            && (patch.Accepted? ==> Lookup(after.stored, ClusterNotOkSince) == None)
  {
    if patch.Accepted? {
      PatchedAt(s.(mem := s.mem - RECOVERY_KEYS), s.mem, patch.kept, ClusterNotOkSince);
    }
  }

  /** Clearing also forgets the last reset, so the cooldown does not outlive it. */
  lemma ClearForgetsReset(s: Memory, patch: PatchOutcome, now: int)
    requires LastResetTime in s.mem || Agree(s, LastResetTime)
    ensures !Cooling(Cleared(s, patch), now)
  {
    if patch.Accepted? {
      PatchedAt(s.(mem := s.mem - RECOVERY_KEYS), s.mem, patch.kept, LastResetTime);
    }
  }
}
