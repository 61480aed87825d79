/** The spacing of CLUSTER RESET SOFT over whole runs (internal/controller/cluster.go): how far the
    cooldown reaches, and where it ends. */
module ResetSpacing {
  import opened Options
  import opened Annotations
  import opened RecoveryTimer
  import opened ClusterTopology
  import opened Reconcile
  import opened Runs
  import opened PushSpacing
  import Bootstrap
  import StaleNodes

  /** The recorded reset. */
  function Record(stored: Entries): Option<Value> {
    Lookup(stored, LastResetTime)
  }

  // ----------------------------------------------------------------- the resets of one pass

  predicate Bootstraps(env: PassEnv) {
    Asks(env) && ViewOf(env.topology.answers) == Unformed
  }

  /** The resets that a pass issues, in order. */
  function ResetsOf(stored: Entries, env: PassEnv): seq<ResetTry> {
    if Bootstraps(env) then Bootstrap.Resets(CrashState(stored, env), env.topology.boot) else []
  }

  /** These are the resets of the pass. */
  lemma ResetsOfPass(stored: Entries, env: PassEnv)
    ensures multiset(Pass(stored, env).boot)[Bootstrap.Reset] == |ResetsOf(stored, env)|
    ensures !Pass(stored, env).healthReset
  {
    HealthNeverResets(stored, env);
    if Bootstraps(env) {
      Bootstrap.ResetsAre(CrashState(stored, env), env.topology.boot);
    }
  }

  /** The first call that could issue a reset, if the pass gets to one. */
  function FirstTry(stored: Entries, env: PassEnv): Option<ResetTry> {
    var boot := env.topology.boot;
    if !Bootstraps(env) then None
    else if ForcesOn(stored, boot) then Some(boot.reset)
    else if Bootstrap.Starts(boot) && boot.job == Bootstrap.NotFound then Some(boot.again)
    else None
  }

  /** The pass drops the record on the way and resets behind it. */
  predicate Bypasses(stored: Entries, env: PassEnv) {
    Bootstraps(env) && ForcesOn(stored, env.topology.boot) && env.topology.boot.job == Bootstrap.NotFound
  }

  /** A pass resets exactly when it gets to a try that no recent record stops, or bypasses the
      record; and in the first case the first try is the first reset. */
  lemma ResetsExactly(stored: Entries, env: PassEnv)
    ensures ResetsOf(stored, env) != [] <==>
            match FirstTry(stored, env)
            case None => false
            case Some(first) => !Recent(Record(stored), first.checked) || Bypasses(stored, env)
    ensures match FirstTry(stored, env)
            case None => true
            case Some(first) =>
              !Recent(Record(stored), first.checked) ==>
                ResetsOf(stored, env) != [] && ResetsOf(stored, env)[0] == first
  {
    var s, boot := CrashState(stored, env), env.topology.boot;
    CrashAgrees(stored, env, LastResetTime);
    CrashAgrees(stored, env, ClusterNotOkSince);
    assert Bootstrap.Forces(s, boot) == ForcesOn(stored, boot);
    Bootstrap.BootPaths(s, boot);
  }

  // ----------------------------------------------------------------- the record over one pass

  /** What a step may do to the record: leave it, drop it, or write the time of one of `resets`. */
  ghost predicate Records(before: Option<Value>, after: Option<Value>, resets: seq<ResetTry>) {
    after == before || after == None || exists r | r in resets :: after == Some(Printed(r.recorded))
  }

  lemma ClearRecords(s: Memory, patch: PatchOutcome)
    ensures Record(Cleared(s, patch).stored) in {None, Record(s.stored)}
  {
    if patch.Accepted? {
      PatchedAt(s.(mem := s.mem - RECOVERY_KEYS), s.mem, patch.kept, LastResetTime);
    }
  }

  lemma ResetRecords(s: Memory, try: ResetTry)
    ensures Record(AfterReset(s, try).stored) ==
            if Cooling(s, try.checked) || try.patch.Rejected? then Record(s.stored)
            else if Lookup(s.mem, LastResetTime) == Some(Printed(try.recorded)) then Record(s.stored)
            else Some(Printed(try.recorded))
  {
    if try.patch.Accepted? {
      PatchedAt(s.(mem := s.mem[LastResetTime := Printed(try.recorded)]), s.mem, try.patch.kept, LastResetTime);
    }
  }

  lemma JobPhaseRecords(s: Memory, env: Bootstrap.BootEnv, resets: seq<ResetTry>)
    requires env.job == Bootstrap.NotFound && !Cooling(s, env.again.checked) ==> env.again in resets
    ensures Records(Record(s.stored), Record(Bootstrap.JobPhase(s, env).state.stored), resets)
  {
    ResetRecords(s, env.again);
  }

  lemma BootRecords(s: Memory, env: Bootstrap.BootEnv)
    ensures Records(Record(s.stored), Record(Bootstrap.Boot(s, env).state.stored), Bootstrap.Resets(s, env))
  {
    Bootstrap.BootPaths(s, env);
    if Bootstrap.Forces(s, env) {
      ForcedRecords(s, env);
    } else if Bootstrap.Starts(env) {
      JobPhaseRecords(s, env, Bootstrap.Resets(s, env));
    } else {
      CheckKeepsRecord(s, env.timer.now, env.timer.patch);
    }
  }

  lemma CheckKeepsRecord(s: Memory, now: int, patch: PatchOutcome)
    ensures Record(AfterCheck(s, now, patch).stored) == Record(s.stored)
  {
    CheckLeaves(s, now, patch, LastResetTime);
  }

  lemma ForcedRecords(s: Memory, env: Bootstrap.BootEnv)
    requires Bootstrap.Forces(s, env)
    ensures Records(Record(s.stored), Record(Bootstrap.ResetPhase(s, env).state.stored), Bootstrap.Resets(s, env))
  {
    var resets := Bootstrap.Resets(s, env);
    var reset := AfterReset(s, env.reset);
    var cleared := Cleared(reset, env.clear);
    ResetRecords(s, env.reset);
    ClearRecords(reset, env.clear);
    Bootstrap.ClearedAfterReset(s, env.reset, env.clear, env.again.checked);
    assert env.job == Bootstrap.NotFound ==> env.again in resets;
    assert !Cooling(s, env.reset.checked) ==> env.reset in resets;
    JobPhaseRecords(cleared, env, resets);
  }

  lemma HealthRecords(s: Memory, env: HealthEnv)
    requires ClusterNotOkSince !in s.mem
    ensures Record(Health(s, env).state.stored) in {None, Record(s.stored)}
  {
    ClearRecords(s, env.clear);
    CheckKeepsRecord(s, env.timer.now, env.timer.patch);
    StaleNodes.ForgetLeaves(AfterState(s, env), env.forget, LastResetTime);
  }

  lemma TopologyRecords(s: Memory, env: TopologyEnv, resets: seq<ResetTry>)
    requires ViewOf(env.answers) == Unformed && |env.answers| > 0 && env.secretOk && env.listOk ==>
               resets == Bootstrap.Resets(s, env.boot)
    ensures Records(Record(s.stored), Record(Topology(s, env).state.stored), resets)
  {
    if env.secretOk && env.listOk && |env.answers| > 0 {
      match ViewOf(env.answers)
      case Formed => ClearRecords(s, env.clear);
      case Diverged =>
        CheckKeepsRecord(s, env.timer.now, env.timer.patch);
        ClearRecords(AfterCheck(s, env.timer.now, env.timer.patch), env.clear);
      case Unformed => BootRecords(s, env.boot);
    }
  }

  lemma PassRecords(stored: Entries, env: PassEnv)
    ensures Records(Record(stored), Record(Pass(stored, env).stored), ResetsOf(stored, env))
  {
    if !env.early {
      CrashAgrees(stored, env, LastResetTime);
      TopologyRecords(CrashState(stored, env), env.topology, ResetsOf(stored, env));
      if ReachesHealth(stored, env) {
        FormedStopsTimer(stored, env);
        HealthRecords(TopologyOf(stored, env).state, env.health);
      }
    }
  }

  // ----------------------------------------------------------------- over a run

  predicate ResetClockOk(env: PassEnv) {
    && env.start <= env.topology.boot.reset.checked <= env.topology.boot.reset.recorded <= env.end
    && env.start <= env.topology.boot.again.checked <= env.topology.boot.again.recorded <= env.end
  }

  ghost predicate ResetsInOrder(passes: seq<PassEnv>) {
    && (forall i | 0 <= i < |passes| :: ResetClockOk(passes[i]))
    && (forall i, j | 0 <= i < j < |passes| :: passes[i].end <= passes[j].start)
  }

  lemma TruncatedOrder(a: int, b: int)
    requires a <= b
    ensures Truncated(a) <= Truncated(b)
  {
    var x, y := a / SECOND, b / SECOND;
    assert Truncated(a) == x * SECOND && Truncated(b) == y * SECOND;
    assert x <= y;
  }

  /** A record that was written no earlier than `t`. */
  predicate RecordedSince(v: Option<Value>, t: int) {
    match v
    case Some(Stamp(at)) => at >= Truncated(t)
    case _ => false
  }

  lemma ResetsWithin(stored: Entries, env: PassEnv, r: ResetTry)
    requires ResetClockOk(env) && r in ResetsOf(stored, env)
    ensures env.start <= r.checked <= r.recorded <= env.end
  {
  }

  lemma RecordStep(stored: Entries, env: PassEnv, t: int)
    requires ResetClockOk(env) && t <= env.start && RecordedSince(Record(stored), t)
    ensures Record(Pass(stored, env).stored) == None || RecordedSince(Record(Pass(stored, env).stored), t)
  {
    PassRecords(stored, env);
    var after := Record(Pass(stored, env).stored);
    if after != Record(stored) && after != None {
      var r :| r in ResetsOf(stored, env) && after == Some(Printed(r.recorded));
      ResetsWithin(stored, env, r);
      TruncatedOrder(t, r.recorded);
    }
  }

  /** No pass behind `i` and up to `n` finds the record gone. */
  ghost predicate RecordKept(states: seq<Entries>, i: nat, n: nat)
    requires n < |states|
  {
    forall m | i < m <= n :: Record(states[m]) != None
  }

  lemma {:induction false} RecordIsRecent(states: seq<Entries>, passes: seq<PassEnv>, i: nat, n: nat, t: int)
    requires IsRun(states, passes) && ResetsInOrder(passes) && i < n <= |passes|
    requires t <= passes[i].end && Record(states[i + 1]) == Some(Printed(t)) && RecordKept(states, i, n)
    ensures RecordedSince(Record(states[n]), t)
  {
    if n > i + 1 {
      RecordIsRecent(states, passes, i, n - 1, t);
      RecordStep(states[n - 1], passes[n - 1], t);
    }
  }

  /** Pass `i` resets at some time and leaves that recorded on the server. */
  ghost predicate LeavesRecord(states: seq<Entries>, passes: seq<PassEnv>, i: nat, r: ResetTry) {
    && i < |passes| < |states| && r in ResetsOf(states[i], passes[i])
    && Record(states[i + 1]) == Some(Printed(r.recorded))
  }

  /** The reset in front of a new Job leaves its record behind if the patch is accepted. */
  lemma NewJobRecords(stored: Entries, env: PassEnv)
    requires Bootstraps(env) && env.topology.boot.again in ResetsOf(stored, env)
    requires env.topology.boot.job == Bootstrap.NotFound && env.topology.boot.again.patch.Accepted?
    ensures Record(Pass(stored, env).stored) == Some(Printed(env.topology.boot.again.recorded))
  {
    var s, boot := CrashState(stored, env), env.topology.boot;
    CrashAgrees(stored, env, LastResetTime);
    Bootstrap.BootPaths(s, boot);
    if Bootstrap.Forces(s, boot) {
      Bootstrap.ClearedAfterReset(s, boot.reset, boot.clear, boot.again.checked);
      ResetRecords(Cleared(AfterReset(s, boot.reset), boot.clear), boot.again);
    } else {
      ResetRecords(s, boot.again);
    }
  }

  /** The first reset of a pass that finds a record written no earlier than `t`. */
  lemma FirstResetLater(stored: Entries, env: PassEnv, t: int)
    requires RecordedSince(Record(stored), t) && ResetsOf(stored, env) != []
    ensures || ResetsOf(stored, env)[0].checked - t > RESET_COOLDOWN - SECOND
            || (Bypasses(stored, env) && Recent(Record(stored), env.topology.boot.reset.checked))
  {
    ResetsExactly(stored, env);
  }

  // ----------------------------------------------------------------- who drops the record

  /** The pass leaves no record where there was one, told from its answers and patches: every
      accepted clear does, unless the same pass resets again and records that. */
  predicate Drops(stored: Entries, env: PassEnv) {
    Asks(env) &&
    match ViewOf(env.topology.answers)
    case Formed => env.topology.clear.Accepted?
    case Diverged =>
      Aged(Timer(stored), env.topology.timer.now, env.topology.timeout) && env.topology.clear.Accepted?
    case Unformed =>
      var boot := env.topology.boot;
      && ForcesOn(stored, boot) && boot.clear.Accepted?
      && !(boot.job == Bootstrap.NotFound && boot.again.patch.Accepted?)
  }

  lemma ClearDrops(s: Memory, patch: PatchOutcome)
    requires LastResetTime in s.mem
    ensures LastResetTime !in Cleared(s, patch).mem
    ensures Record(Cleared(s, patch).stored) == if patch.Accepted? then None else Record(s.stored)
  {
    if patch.Accepted? {
      PatchedAt(s.(mem := s.mem - RECOVERY_KEYS), s.mem, patch.kept, LastResetTime);
    }
  }

  lemma ResetKeepsInCopy(s: Memory, try: ResetTry)
    requires LastResetTime in s.mem && Agree(s, LastResetTime)
    ensures LastResetTime in AfterReset(s, try).mem && Record(AfterReset(s, try).stored) != None
  {
    if try.patch.Accepted? {
      PatchedAt(s.(mem := s.mem[LastResetTime := Printed(try.recorded)]), s.mem, try.patch.kept, LastResetTime);
    }
  }

  lemma HealthKeepsRecord(s: Memory, env: HealthEnv)
    requires ClusterNotOkSince !in s.mem && LastResetTime !in s.mem
    ensures Record(Health(s, env).state.stored) == Record(s.stored)
  {
    CheckKeepsRecord(s, env.timer.now, env.timer.patch);
    StaleNodes.ForgetLeaves(AfterState(s, env), env.forget, LastResetTime);
  }

  lemma FormedDrops(stored: Entries, env: PassEnv)
    requires Asks(env) && ViewOf(env.topology.answers) == Formed && Record(stored).Some?
    ensures Record(Pass(stored, env).stored) == None <==> Drops(stored, env)
  {
    var s := CrashState(stored, env);
    CrashAgrees(stored, env, LastResetTime);
    CrashAgrees(stored, env, ClusterNotOkSince);
    ClearDrops(s, env.topology.clear);
    ClearStops(s, env.topology.clear);
    HealthKeepsRecord(Cleared(s, env.topology.clear), env.health);
  }

  lemma DivergedDrops(stored: Entries, env: PassEnv)
    requires Asks(env) && ViewOf(env.topology.answers) == Diverged && Record(stored).Some?
    ensures Record(Pass(stored, env).stored) == None <==> Drops(stored, env)
  {
    var s := CrashState(stored, env);
    CrashAgrees(stored, env, LastResetTime);
    CrashAgrees(stored, env, ClusterNotOkSince);
    CheckLeaves(s, env.topology.timer.now, env.topology.timer.patch, LastResetTime);
    if HasTimedOut(s, env.topology.timer.now, env.topology.timeout) {
      assert AfterCheck(s, env.topology.timer.now, env.topology.timer.patch) == s;
      ClearDrops(s, env.topology.clear);
    }
  }

  lemma ForcedDrops(s: Memory, env: Bootstrap.BootEnv)
    requires Bootstrap.Forces(s, env) && LastResetTime in s.mem && Agree(s, LastResetTime)
    ensures Record(Bootstrap.ResetPhase(s, env).state.stored) == None <==>
            env.clear.Accepted? && !(env.job == Bootstrap.NotFound && env.again.patch.Accepted?)
  {
    var reset := AfterReset(s, env.reset);
    var cleared := Cleared(reset, env.clear);
    ResetKeepsInCopy(s, env.reset);
    ClearDrops(reset, env.clear);
    ResetRecords(cleared, env.again);
  }

  lemma JobPhaseKeepsRecord(s: Memory, env: Bootstrap.BootEnv)
    requires LastResetTime in s.mem && Agree(s, LastResetTime)
    ensures Record(Bootstrap.JobPhase(s, env).state.stored) != None
  {
    ResetKeepsInCopy(s, env.again);
  }

  lemma UnformedDrops(stored: Entries, env: PassEnv)
    requires Asks(env) && ViewOf(env.topology.answers) == Unformed && Record(stored).Some?
    ensures Record(Pass(stored, env).stored) == None <==> Drops(stored, env)
  {
    var s, boot := CrashState(stored, env), env.topology.boot;
    CrashAgrees(stored, env, LastResetTime);
    CrashAgrees(stored, env, ClusterNotOkSince);
    assert Bootstrap.Forces(s, boot) == ForcesOn(stored, boot);
    Bootstrap.BootPaths(s, boot);
    if Bootstrap.Forces(s, boot) {
      ForcedDrops(s, boot);
    } else {
      JobPhaseKeepsRecord(s, boot);
      CheckKeepsRecord(s, boot.timer.now, boot.timer.patch);
    }
  }

  /** A record is dropped by exactly those passes. */
  lemma DropsExactly(stored: Entries, env: PassEnv)
    requires Record(stored).Some?
    ensures Record(Pass(stored, env).stored) == None <==> Drops(stored, env)
  {
    if Asks(env) {
      match ViewOf(env.topology.answers)
      case Formed => FormedDrops(stored, env);
      case Diverged => DivergedDrops(stored, env);
      case Unformed => UnformedDrops(stored, env);
    } else {
      CrashAgrees(stored, env, LastResetTime);
    }
  }

  /** A recorded reset is kept as long as no pass drops the record. */
  lemma {:induction false} KeptUnlessDropped(states: seq<Entries>, passes: seq<PassEnv>, i: nat, n: nat)
    requires IsRun(states, passes) && i < n <= |passes| && Record(states[i + 1]) != None
    requires forall m | i < m < n :: !Drops(states[m], passes[m])
    ensures RecordKept(states, i, n)
  {
    if n > i + 1 {
      KeptUnlessDropped(states, passes, i, n - 1);
      DropsExactly(states[n - 1], passes[n - 1]);
    }
  }

  // ----------------------------------------------------------------- the spacing

  /** Two passes of a run that reset, with no pass in between that drops the record of the first:
      the second one resets more than 299 seconds later, unless it bypasses the record. */
  lemma ResetsSpaced(states: seq<Entries>, passes: seq<PassEnv>, i: nat, j: nat, r: ResetTry)
    requires IsRun(states, passes) && ResetsInOrder(passes) && i < j < |passes|
    requires LeavesRecord(states, passes, i, r)
    requires forall m | i < m < j :: !Drops(states[m], passes[m])
    ensures ResetsOf(states[j], passes[j]) != [] ==>
              || ResetsOf(states[j], passes[j])[0].checked - r.recorded > 299 * SECOND
              || (Bypasses(states[j], passes[j]) && Recent(Record(states[j]), passes[j].topology.boot.reset.checked))
  {
    ResetsWithin(states[i], passes[i], r);
    KeptUnlessDropped(states, passes, i, j);
    RecordIsRecent(states, passes, i, j, r.recorded);
    if ResetsOf(states[j], passes[j]) != [] {
      FirstResetLater(states[j], passes[j], r.recorded);
    }
  }

  /** A bypass has no bound: the pass resets although the record is recent. */
  lemma BypassResets(stored: Entries, env: PassEnv)
    requires Bypasses(stored, env) && Recent(Record(stored), env.topology.boot.reset.checked)
    ensures ResetsOf(stored, env) == [env.topology.boot.again]
  {
    var s, boot := CrashState(stored, env), env.topology.boot;
    CrashAgrees(stored, env, LastResetTime);
    CrashAgrees(stored, env, ClusterNotOkSince);
    assert Bootstrap.Forces(s, boot);
  }

  /** Nor has a dropped record: whatever the clock says, a pass that finds none and gets to a try
      resets. */
  lemma DroppedRecordResets(stored: Entries, env: PassEnv)
    requires Record(stored) in {None, Some(Malformed)} && FirstTry(stored, env).Some?
    ensures ResetsOf(stored, env) != [] && ResetsOf(stored, env)[0] == FirstTry(stored, env).value
  {
    ResetsExactly(stored, env);
  }
}
