/** The spacing of topology pushes over whole runs (internal/controller/cluster.go): when a later
    push is held back by the not-ok timer, and when it is not. */
module PushSpacing {
  import opened Options
  import opened Annotations
  import opened RecoveryTimer
  import opened ClusterTopology
  import opened Reconcile
  import opened Runs
  import Aggregation
  import Bootstrap
  import StaleNodes

  // ----------------------------------------------------------------- the timer over one pass

  function Timer(stored: Entries): Option<Value> {
    Lookup(stored, ClusterNotOkSince)
  }

  lemma EvolvesWidens(a: Option<Value>, b: Option<Value>, now: int, from: int, to: int)
    requires Evolves(a, b, now, now) && from <= now <= to
    ensures Evolves(a, b, from, to)
  {
  }

  /** The clock readings that concern the timer lie within the pass; a push follows its check. */
  predicate ClockOk(env: PassEnv) {
    && env.start <= env.topology.timer.now <= env.end
    && env.start <= env.topology.boot.timer.now <= env.end
    && env.start <= env.health.timer.now <= env.end
    && (env.topology.push.Pushed? ==> env.topology.timer.now <= env.topology.push.at <= env.end)
  }

  /** Passes follow each other. */
  ghost predicate InOrder(passes: seq<PassEnv>) {
    && (forall i | 0 <= i < |passes| :: ClockOk(passes[i]))
    && (forall i, j | 0 <= i < j < |passes| :: passes[i].end <= passes[j].start)
  }

  lemma JobPhaseKeepsTimer(s: Memory, env: Bootstrap.BootEnv)
    ensures Timer(Bootstrap.JobPhase(s, env).state.stored) == Timer(s.stored)
  {
    ResetKeepsTimer(s, env.again);
  }

  lemma BootEvolves(s: Memory, env: Bootstrap.BootEnv)
    ensures Evolves(Timer(s.stored), Timer(Bootstrap.Boot(s, env).state.stored), env.timer.now, env.timer.now)
  {
    JobPhaseKeepsTimer(s, env);
    CheckEvolves(s, env.timer.now, env.timer.patch);
    var reset := AfterReset(s, env.reset);
    ResetKeepsTimer(s, env.reset);
    ClearEvolves(reset, env.clear);
    JobPhaseKeepsTimer(Cleared(reset, env.clear), env);
  }

  lemma RecoverEvolves(s: Memory, env: TopologyEnv)
    ensures Evolves(Timer(s.stored), Timer(Recover(s, env).state.stored), env.timer.now, env.timer.now)
  {
    CheckEvolves(s, env.timer.now, env.timer.patch);
    ClearEvolves(AfterCheck(s, env.timer.now, env.timer.patch), env.clear);
  }

  lemma TopologyEvolves(s: Memory, env: TopologyEnv, from: int, to: int)
    requires from <= env.timer.now <= to && from <= env.boot.timer.now <= to
    ensures Evolves(Timer(s.stored), Timer(Topology(s, env).state.stored), from, to)
  {
    if env.secretOk && env.listOk && |env.answers| > 0 {
      match ViewOf(env.answers)
      case Formed =>
        ClearEvolves(s, env.clear);
      case Diverged =>
        RecoverEvolves(s, env);
        EvolvesWidens(Timer(s.stored), Timer(Recover(s, env).state.stored), env.timer.now, from, to);
      case Unformed =>
        BootEvolves(s, env.boot);
        EvolvesWidens(Timer(s.stored), Timer(Bootstrap.Boot(s, env.boot).state.stored), env.boot.timer.now, from, to);
    }
  }

  lemma AfterStateEvolves(s: Memory, env: HealthEnv)
    ensures Evolves(Timer(s.stored), Timer(AfterState(s, env).stored), env.timer.now, env.timer.now)
  {
    var checked := AfterCheck(s, env.timer.now, env.timer.patch);
    ClearEvolves(s, env.clear);
    CheckEvolves(s, env.timer.now, env.timer.patch);
    ClearEvolves(checked, env.clear);
    ResetKeepsTimer(checked, env.reset);
    ClearEvolves(AfterReset(checked, env.reset), env.clear);
  }

  lemma HealthEvolves(s: Memory, env: HealthEnv)
    ensures Evolves(Timer(s.stored), Timer(Health(s, env).state.stored), env.timer.now, env.timer.now)
  {
    AfterStateEvolves(s, env);
    StaleNodes.ForgetLeaves(AfterState(s, env), env.forget, ClusterNotOkSince);
  }

  /** Whatever a pass does, a timer that it leaves behind is the old one or was started by it. */
  lemma PassEvolves(stored: Entries, env: PassEnv)
    requires ClockOk(env)
    ensures Evolves(Timer(stored), Timer(Pass(stored, env).stored), env.start, env.end)
  {
    CrashAgrees(stored, env, ClusterNotOkSince);
    TopologyEvolves(CrashState(stored, env), env.topology, env.start, env.end);
    if ReachesHealth(stored, env) {
      var s := TopologyOf(stored, env).state;
      HealthEvolves(s, env.health);
      EvolvesWidens(Timer(s.stored), Timer(Health(s, env.health).state.stored), env.health.timer.now, env.start,
                    env.end);
    }
  }

  /** The topology step gets as far as asking the pods. */
  predicate Asks(env: PassEnv) {
    !env.early && env.topology.secretOk && env.topology.listOk && |env.topology.answers| > 0
  }

  /** The bootstrap path forces a reset on what the server has stored. */
  predicate ForcesOn(stored: Entries, env: Bootstrap.BootEnv) {
    && env.secretOk && env.ready >= env.total && Bootstrap.NotReady(Bootstrap.STALE_PEERS) in env.results
    && Aged(Timer(stored), env.timer.now, env.timeout)
  }

  /** The pass takes the stored timer away or starts it anew, told from its answers and patches: a
      formed pass that clears it, or fails to and then restarts it in the health step; a push or a
      forced reset that clears it. */
  predicate Replaces(stored: Entries, env: PassEnv) {
    Asks(env) &&
    match ViewOf(env.topology.answers)
    case Formed =>
      || env.topology.clear.Accepted?
      || (Observes(env.health) && Degraded(env.health) && env.health.timer.patch.Accepted?)
    case Diverged =>
      Aged(Timer(stored), env.topology.timer.now, env.topology.timeout) && env.topology.clear.Accepted?
    case Unformed => ForcesOn(stored, env.topology.boot) && env.topology.boot.clear.Accepted?
  }

  lemma RejectedClear(s: Memory, patch: PatchOutcome)
    requires patch.Rejected?
    ensures ClusterNotOkSince !in Cleared(s, patch).mem && LastResetTime !in Cleared(s, patch).mem
    ensures Cleared(s, patch).stored == s.stored
  {
  }

  /** The formed pass: cleared by the topology step, perhaps restarted by the health step. */
  lemma FormedReplaces(stored: Entries, env: PassEnv)
    requires Asks(env) && ViewOf(env.topology.answers) == Formed
    requires Timer(stored).Some? && Timer(stored) != Some(Printed(env.health.timer.now))
    ensures Timer(Pass(stored, env).stored) != Timer(stored) <==> Replaces(stored, env)
  {
    var s := CrashState(stored, env);
    CrashAgrees(stored, env, ClusterNotOkSince);
    ClearStops(s, env.topology.clear);
    var t := Cleared(s, env.topology.clear);
    HealthEvolves(t, env.health);
    if env.topology.clear.Rejected? {
      RejectedClear(s, env.topology.clear);
      HealthRestarts(t, env.health);
    }
  }

  /** On a copy without the two annotations, the health step starts the timer exactly when it is
      told of a failure and its patch is accepted, and does nothing to it otherwise. */
  lemma HealthRestarts(s: Memory, env: HealthEnv)
    requires ClusterNotOkSince !in s.mem && LastResetTime !in s.mem
    ensures Timer(Health(s, env).state.stored) ==
            if Observes(env) && Degraded(env) && env.timer.patch.Accepted? then Some(Printed(env.timer.now))
            else Timer(s.stored)
  {
    StaleNodes.ForgetLeaves(AfterState(s, env), env.forget, ClusterNotOkSince);
    if env.timer.patch.Accepted? {
      PatchedAt(s.(mem := s.mem[ClusterNotOkSince := Printed(env.timer.now)]), s.mem, env.timer.patch.kept,
                ClusterNotOkSince);
    }
  }

  lemma DivergedReplaces(stored: Entries, env: PassEnv)
    requires Asks(env) && ViewOf(env.topology.answers) == Diverged && Timer(stored).Some?
    ensures Timer(Pass(stored, env).stored) != Timer(stored) <==> Replaces(stored, env)
  {
    var s := CrashState(stored, env);
    CrashAgrees(stored, env, ClusterNotOkSince);
    ClearStops(s, env.topology.clear);
    assert AfterCheck(s, env.topology.timer.now, env.topology.timer.patch) == s;
  }

  lemma UnformedReplaces(stored: Entries, env: PassEnv)
    requires Asks(env) && ViewOf(env.topology.answers) == Unformed && Timer(stored).Some?
    ensures Timer(Pass(stored, env).stored) != Timer(stored) <==> Replaces(stored, env)
  {
    var s, boot := CrashState(stored, env), env.topology.boot;
    CrashAgrees(stored, env, ClusterNotOkSince);
    assert Bootstrap.Forces(s, boot) == ForcesOn(stored, boot);
    Bootstrap.BootPaths(s, boot);
    assert AfterCheck(s, boot.timer.now, boot.timer.patch) == s;
    JobPhaseKeepsTimer(s, boot);
    var reset := AfterReset(s, boot.reset);
    ResetLeaves(s, boot.reset, ClusterNotOkSince);
    ClearStops(reset, boot.clear);
    JobPhaseKeepsTimer(Cleared(reset, boot.clear), boot);
  }

  /** A stored timer is replaced by exactly those passes. */
  lemma ReplacedExactly(stored: Entries, env: PassEnv)
    requires Timer(stored).Some? && Timer(stored) != Some(Printed(env.health.timer.now))
    ensures Timer(Pass(stored, env).stored) != Timer(stored) <==> Replaces(stored, env)
  {
    if Asks(env) {
      match ViewOf(env.topology.answers)
      case Formed => FormedReplaces(stored, env);
      case Diverged => DivergedReplaces(stored, env);
      case Unformed => UnformedReplaces(stored, env);
    } else {
      CrashAgrees(stored, env, ClusterNotOkSince);
    }
  }

  // ----------------------------------------------------------------- pushes over a run

  /** The timer, if it runs, was started no more than a second before `t`. */
  predicate StartedSince(v: Option<Value>, t: int) {
    match v
    case None => true
    case Some(Stamp(at)) => at > t - SECOND
    case Some(Malformed) => false
  }

  /** A push needs a timer that has run out; an accepted clear stops it on the server. */
  lemma PushMeans(stored: Entries, env: PassEnv)
    requires Pass(stored, env).pushed.Some?
    ensures Asks(env) && ViewOf(env.topology.answers) == Diverged
    ensures env.topology.push == Pushed(Pass(stored, env).pushed.value, env.topology.push.accepted)
    ensures Aged(Timer(stored), env.topology.timer.now, env.topology.timeout)
    ensures env.topology.clear.Accepted? ==> Timer(Pass(stored, env).stored) == None
    ensures env.topology.clear.Rejected? ==> Timer(Pass(stored, env).stored) == Timer(stored)
  {
    CrashAgrees(stored, env, ClusterNotOkSince);
    ClearStops(CrashState(stored, env), env.topology.clear);
  }

  /** Pass `i` pushes at `at`, with a timeout of more than a second. */
  ghost predicate PushesAt(states: seq<Entries>, passes: seq<PassEnv>, i: nat, at: int) {
    && i < |passes| <= |states| && Pass(states[i], passes[i]).pushed == Some(at)
    && passes[i].topology.timeout > SECOND
  }

  /** A stamp that was expired at the push is older than any that a later pass can write. */
  lemma ExpiredIsOlder(v: Option<Value>, checked: int, timeout: int, at: int, now: int)
    requires Aged(v, checked, timeout) && timeout > SECOND && checked <= at <= now
    ensures v != Some(Printed(now)) && !StartedSince(v, at)
  {
  }

  /** The timers in front of the passes of a run, and which passes replace them. */
  function Timers(states: seq<Entries>): seq<Option<Value>> {
    Stamps(states, ClusterNotOkSince)
  }

  function Replacing(states: seq<Entries>, passes: seq<PassEnv>): seq<bool>
    requires |passes| <= |states|
  {
    seq(|passes|, i requires 0 <= i < |passes| => Replaces(states[i], passes[i]))
  }

  /** Where the timer stands behind a push at `at` by pass `i`: it is none or was started since the
      push, if a pass has replaced it; it is the very one that the push has found, if not. */
  predicate Stands(found: Option<Value>, now: Option<Value>, at: int, replaced: bool) {
    if replaced then StartedSince(now, at) else now == found
  }

  /** One pass on. */
  predicate Moves(found: Option<Value>, before: Option<Value>, after: Option<Value>, at: int, changed: bool) {
    && (Stands(found, before, at, true) ==> Stands(found, after, at, true))
    && (Stands(found, before, at, false) ==> Stands(found, after, at, changed))
  }

  ghost predicate Replaced(replacing: seq<bool>, i: nat, n: nat) {
    exists m | i <= m < n && m < |replacing| :: replacing[m]
  }

  lemma {:induction false} Chain(timers: seq<Option<Value>>, replacing: seq<bool>, i: nat, n: nat, at: int)
    requires i < n < |timers| && n <= |replacing|
    requires Stands(timers[i], timers[i + 1], at, replacing[i])
    requires forall m | i < m < n :: Moves(timers[i], timers[m], timers[m + 1], at, replacing[m])
    ensures Stands(timers[i], timers[n], at, Replaced(replacing, i, n))
  {
    if n == i + 1 {
      assert Replaced(replacing, i, n) == replacing[i];
    } else {
      Chain(timers, replacing, i, n - 1, at);
      assert Moves(timers[i], timers[n - 1], timers[n], at, replacing[n - 1]);
      assert Replaced(replacing, i, n) <==> Replaced(replacing, i, n - 1) || replacing[n - 1];
    }
  }

  /** The push itself replaces the timer exactly when its clear is accepted. */
  lemma PushStep(states: seq<Entries>, passes: seq<PassEnv>, i: nat, at: int)
    requires IsRun(states, passes) && PushesAt(states, passes, i, at)
    ensures Stands(Timer(states[i]), Timer(states[i + 1]), at, Replaces(states[i], passes[i]))
  {
    PushMeans(states[i], passes[i]);
  }

  lemma TimerStep(states: seq<Entries>, passes: seq<PassEnv>, i: nat, n: nat, at: int)
    requires IsRun(states, passes) && InOrder(passes) && i < n < |passes| && PushesAt(states, passes, i, at)
    ensures Moves(Timer(states[i]), Timer(states[n]), Timer(states[n + 1]), at, Replaces(states[n], passes[n]))
  {
    var stored, env := states[n], passes[n];
    PushMeans(states[i], passes[i]);
    PassEvolves(stored, env);
    assert ClockOk(passes[i]) && ClockOk(env) && passes[i].end <= env.start;
    if Timer(stored) == Timer(states[i]) {
      ExpiredIsOlder(Timer(stored), passes[i].topology.timer.now, passes[i].topology.timeout, at, env.health.timer.now);
      ReplacedExactly(stored, env);
    }
  }

  /** Behind a push, the timer is the very one that the push has found as long as no pass
      replaces it; from then on it is none, or one started since the push. */
  lemma TimerSincePush(states: seq<Entries>, passes: seq<PassEnv>, i: nat, n: nat, at: int)
    requires IsRun(states, passes) && InOrder(passes) && i < n <= |passes| && PushesAt(states, passes, i, at)
    ensures Stands(Timer(states[i]), Timer(states[n]), at, Replaced(Replacing(states, passes), i, n))
  {
    PushStep(states, passes, i, at);
    forall m | i < m < n
      ensures Moves(Timer(states[i]), Timer(states[m]), Timer(states[m + 1]), at, Replaces(states[m], passes[m]))
    {
      TimerStep(states, passes, i, m, at);
    }
    Chain(Timers(states), Replacing(states, passes), i, n, at);
  }

  /** Two pushes of a run, exactly: if a pass from the first one on has replaced the timer, they
      are more than the timeout less one second apart; otherwise the second one has found the very
      stamp that the first one found. */
  lemma PushesSpaced(states: seq<Entries>, passes: seq<PassEnv>, i: nat, j: nat, nodeTimeoutMs: int, at: int,
                     again: int)
    requires IsRun(states, passes) && InOrder(passes) && i < j
    requires PushesAt(states, passes, i, at) && PushesAt(states, passes, j, again)
    requires passes[j].topology.timeout == ConvergenceTimeout(nodeTimeoutMs)
    ensures Replaced(Replacing(states, passes), i, j) ==>
              again - at > ConvergenceTimeout(nodeTimeoutMs) - SECOND && again - at > 29 * SECOND
    ensures Replaced(Replacing(states, passes), i, j) <==> Timer(states[j]) != Timer(states[i])
  {
    TimerSincePush(states, passes, i, j, at);
    PushMeans(states[i], passes[i]);
    PushMeans(states[j], passes[j]);
    assert ClockOk(passes[i]) && ClockOk(passes[j]);
    ExpiredIsOlder(Timer(states[i]), passes[i].topology.timer.now, passes[i].topology.timeout, at, at);
  }

  /** In that other case no bound holds: whatever the clock says, a pass that finds the cluster
      diverged pushes again. */
  lemma PushRepeats(states: seq<Entries>, passes: seq<PassEnv>, i: nat, j: nat, at: int)
    requires IsRun(states, passes) && InOrder(passes) && i < j < |passes| && PushesAt(states, passes, i, at)
    requires !Replaced(Replacing(states, passes), i, j)
    requires Asks(passes[j]) && ViewOf(passes[j].topology.answers) == Diverged && passes[j].topology.push.Pushed?
    requires passes[j].topology.timeout <= passes[i].topology.timeout
    ensures Pass(states[j], passes[j]).pushed == Some(passes[j].topology.push.at)
  {
    TimerSincePush(states, passes, i, j, at);
    PushMeans(states[i], passes[i]);
    assert ClockOk(passes[i]) && ClockOk(passes[j]);
    CrashAgrees(states[j], passes[j], ClusterNotOkSince);
  }

  /** It does happen: the same pass twice, at the same moment, with its clear rejected. */
  lemma PushesAtOnce(stored: Entries, env: PassEnv)
    requires stored == map[ClusterNotOkSince := Stamp(0)]
    requires Asks(env) && env.topology.answers == [Aggregation.Answer("fail", 1)]
    requires env.topology.timer.now == 120 * SECOND && env.topology.timeout == 30 * SECOND
    requires env.topology.clear.Rejected? && env.topology.push == Pushed(120 * SECOND, true)
    ensures Pass(stored, env).pushed == Some(120 * SECOND)
    ensures Pass(Pass(stored, env).stored, env).pushed == Some(120 * SECOND)
  {
    var a := Aggregation.Answer("fail", 1);
    assert env.topology.answers[..0] == [] && a in env.topology.answers;
    assert Aggregation.Fold(env.topology.answers) == a;
    CrashAgrees(stored, env, ClusterNotOkSince);
    PushMeans(stored, env);
    CrashAgrees(Pass(stored, env).stored, env, ClusterNotOkSince);
  }
}
