/** One pass of `Reconcile` (internal/controller/valkeycluster_controller.go), as far as it touches
    the timers: crash-loop recovery, then the topology step, then, only for a formed cluster, the
    health step (internal/controller/health.go).

    A pass starts from a fresh read, so its copy equals what the server has: the operator sees its
    own accepted writes. The other steps of a pass write other annotations and are not modelled. */
module Reconcile {
  import opened Options
  import opened Annotations
  import opened RecoveryTimer
  import opened ClusterTopology
  import Bootstrap
  import CrashLoop
  import StaleNodes

  // ----------------------------------------------------------------- health

  /** `clusterState` is what the one pod says that is asked here. */
  datatype HealthEnv = HealthEnv(
    secretOk: bool,
    reachable: bool,
    clusterState: string,
    timeout: int,
    timer: Bootstrap.Try,
    podsListed: bool,
    reset: ResetTry,
    clear: PatchOutcome,
    forget: StaleNodes.ForgetEnv)

  datatype HealthOutcome = HealthOutcome(state: Memory, reset: bool, forgotten: seq<string>)

  predicate Degraded(env: HealthEnv) {
    env.clusterState != "" && env.clusterState != "ok"
  }

  /** The branch that would force a reset. */
  predicate ForcesReset(s: Memory, env: HealthEnv) {
    Degraded(env) && HasTimedOut(s, env.timer.now, env.timeout)
  }

  function AfterState(s: Memory, env: HealthEnv): Memory {
    if !Degraded(env) then Cleared(s, env.clear)
    else
      var checked := AfterCheck(s, env.timer.now, env.timer.patch);
      if !ForcesReset(s, env) then checked
      else Cleared(if env.podsListed then AfterReset(checked, env.reset) else checked, env.clear)
  }

  predicate Observes(env: HealthEnv) {
    env.secretOk && env.reachable
  }

  function Health(s: Memory, env: HealthEnv): HealthOutcome {
    if !Observes(env) then HealthOutcome(s, false, [])
    else
      var forget := StaleNodes.Forget(AfterState(s, env), env.forget);
      var cooling := Cooling(AfterCheck(s, env.timer.now, env.timer.patch), env.reset.checked);
      HealthOutcome(forget.state, ForcesReset(s, env) && env.podsListed && !cooling, forget.forgotten)
  }

  method ReconcileClusterHealth(vc: ClusterResource, env: HealthEnv) returns (reset: bool, forgotten: seq<string>)
    requires Observes(env) ==> StaleNodes.MayForget(AfterState(vc.State(), env).mem, env.forget)
    modifies vc
    ensures HealthOutcome(vc.State(), reset, forgotten) == Health(old(vc.State()), env)
  {
    reset := false;
    if !env.secretOk || !env.reachable {
      return false, [];
    }
    if env.clusterState != "" && env.clusterState != "ok" {
      var timedOut := ClusterNotOkTimedOut(vc, env.timer.now, env.timeout, env.timer.patch);
      if timedOut {
        if env.podsListed {
          reset := ResetAllNodes(vc, env.reset);
        }
        ClearClusterNotOk(vc, env.clear);
      }
    } else {
      ClearClusterNotOk(vc, env.clear);
    }
    forgotten := StaleNodes.ForgetStaleNodes(vc, env.forget);
  }

  // ----------------------------------------------------------------- the pass

  /** `early` is a pass that ends before the crash-loop step. All clock readings lie between
      `start` and `end`. */
  datatype PassEnv = PassEnv(
    early: bool,
    start: int,
    end: int,
    crash: CrashLoop.CrashEnv,
    topology: TopologyEnv,
    health: HealthEnv)

  datatype PassOutcome = PassOutcome(
    stored: Entries,
    crash: seq<CrashLoop.Action>,
    pushed: Option<int>,
    boot: seq<Bootstrap.Action>,
    healthReset: bool,
    forgotten: seq<string>)

  function CrashState(stored: Entries, env: PassEnv): Memory {
    CrashLoop.CrashStep(Memory(stored, stored), env.crash).state
  }

  function TopologyOf(stored: Entries, env: PassEnv): TopologyOutcome {
    Topology(CrashState(stored, env), env.topology)
  }

  /** The health step is reached. */
  predicate ReachesHealth(stored: Entries, env: PassEnv) {
    !env.early && !TopologyOf(stored, env).failed && TopologyOf(stored, env).bootstrapped
  }

  function Pass(stored: Entries, env: PassEnv): PassOutcome {
    if env.early then PassOutcome(stored, [], None, [], false, [])
    else
      var crash := CrashLoop.CrashStep(Memory(stored, stored), env.crash);
      var topology := TopologyOf(stored, env);
      if !ReachesHealth(stored, env) then
        PassOutcome(topology.state.stored, crash.actions, topology.pushed, topology.actions, false, [])
      else
        var health := Health(topology.state, env.health);
        PassOutcome(health.state.stored, crash.actions, topology.pushed, topology.actions, health.reset,
                    health.forgotten)
  }

  /** No id that the health step cuts for its log is too short. */
  predicate MayForget(stored: Entries, env: PassEnv) {
    ReachesHealth(stored, env) && Observes(env.health) ==>
      StaleNodes.MayForget(AfterState(TopologyOf(stored, env).state, env.health).mem, env.health.forget)
  }

  method ReconcilePass(vc: ClusterResource, env: PassEnv) returns (out: PassOutcome)
    requires vc.annotations == vc.stored
    requires MayForget(vc.stored, env)
    modifies vc
    ensures out == Pass(old(vc.stored), env) && out.stored == vc.stored
  {
    if env.early {
      return PassOutcome(vc.stored, [], None, [], false, []);
    }
    var crash := CrashLoop.ReconcileCrashLoopRecovery(vc, env.crash);
    var pushed, actions, failed, bootstrapped := ReconcileClusterTopology(vc, env.topology);
    if failed || !bootstrapped {
      return PassOutcome(vc.stored, crash, pushed, actions, false, []);
    }
    var reset, forgotten := ReconcileClusterHealth(vc, env.health);
    return PassOutcome(vc.stored, crash, pushed, actions, reset, forgotten);
  }

  // ----------------------------------------------------------------- steps and annotations

  /** The crash-loop step leaves what it does not own. */
  lemma CrashAgrees(stored: Entries, env: PassEnv, k: Key)
    requires !k.CrashSince?
    ensures Agree(CrashState(stored, env), k)
    ensures Lookup(CrashState(stored, env).stored, k) == Lookup(stored, k)
  {
    CrashLoop.CrashLeaves(Memory(stored, stored), env.crash, k);
  }

  lemma JobPhaseLeaves(s: Memory, env: Bootstrap.BootEnv, k: Key)
    requires k !in RECOVERY_KEYS
    ensures Leaves(s, Bootstrap.JobPhase(s, env).state, k)
  {
    ResetLeaves(s, env.again, k);
  }

  lemma BootLeaves(s: Memory, env: Bootstrap.BootEnv, k: Key)
    requires k !in RECOVERY_KEYS
    ensures Leaves(s, Bootstrap.Boot(s, env).state, k)
  {
    JobPhaseLeaves(s, env, k);
    CheckLeaves(s, env.timer.now, env.timer.patch, k);
    var reset := AfterReset(s, env.reset);
    ResetLeaves(s, env.reset, k);
    ClearLeaves(reset, env.clear, k);
    JobPhaseLeaves(Cleared(reset, env.clear), env, k);
  }

  lemma TopologyLeaves(s: Memory, env: TopologyEnv, k: Key)
    requires k !in RECOVERY_KEYS
    ensures Leaves(s, Topology(s, env).state, k)
  {
    var checked := AfterCheck(s, env.timer.now, env.timer.patch);
    ClearLeaves(s, env.clear, k);
    CheckLeaves(s, env.timer.now, env.timer.patch, k);
    ClearLeaves(checked, env.clear, k);
    BootLeaves(s, env.boot, k);
  }

  lemma AfterStateLeaves(s: Memory, env: HealthEnv, k: Key)
    requires k !in RECOVERY_KEYS
    ensures Leaves(s, AfterState(s, env), k)
  {
    var checked := AfterCheck(s, env.timer.now, env.timer.patch);
    ClearLeaves(s, env.clear, k);
    CheckLeaves(s, env.timer.now, env.timer.patch, k);
    ClearLeaves(checked, env.clear, k);
    ResetLeaves(checked, env.reset, k);
    ClearLeaves(AfterReset(checked, env.reset), env.clear, k);
  }

  /** The timer on the server behind the health step, case by case: a pod that is asked and says
      neither nothing nor ok makes it start the timer or, once it has run out, clear it; otherwise
      it is cleared. */
  lemma HealthTimer(s: Memory, env: HealthEnv)
    requires Agree(s, ClusterNotOkSince)
    ensures var before := Lookup(s.stored, ClusterNotOkSince);
            var after := Lookup(Health(s, env).state.stored, ClusterNotOkSince);
            && (!env.secretOk || !env.reachable ==> after == before)
            && (env.secretOk && env.reachable && (env.clusterState == "" || env.clusterState == "ok") ==>
                  after == if env.clear.Accepted? then None else before)
            && (env.secretOk && env.reachable && env.clusterState != "" && env.clusterState != "ok" ==>
                  && (before == None ==>
                        after == if env.timer.patch.Accepted? then Some(Printed(env.timer.now)) else None)
                  && (Aged(before, env.timer.now, env.timeout) && env.clear.Accepted? ==> after == None)
                  && (before != None && !Aged(before, env.timer.now, env.timeout) ==> after == before))
  {
    if Observes(env) {
      var checked := AfterCheck(s, env.timer.now, env.timer.patch);
      StaleNodes.ForgetLeaves(AfterState(s, env), env.forget, ClusterNotOkSince);
      if !Degraded(env) {
        ClearTimer(s, env.clear);
      } else {
        CheckTimer(s, env.timer.now, env.timer.patch);
        if ForcesReset(s, env) {
          ResetKeepsTimer(checked, env.reset);
          ResetAgrees(checked, env.reset);
          ClearTimer(if env.podsListed then AfterReset(checked, env.reset) else checked, env.clear);
        }
      }
    }
  }

  lemma ClearTimer(s: Memory, patch: PatchOutcome)
    requires Agree(s, ClusterNotOkSince)
    ensures Lookup(Cleared(s, patch).stored, ClusterNotOkSince) ==
            if patch.Accepted? then None else Lookup(s.stored, ClusterNotOkSince)
  {
    if patch.Accepted? {
      PatchedAt(s.(mem := s.mem - RECOVERY_KEYS), s.mem, patch.kept, ClusterNotOkSince);
    }
  }

  lemma CheckTimer(s: Memory, now: int, patch: PatchOutcome)
    requires Agree(s, ClusterNotOkSince)
    ensures var after := AfterCheck(s, now, patch);
            && Agree(after, ClusterNotOkSince)
            && Lookup(after.stored, ClusterNotOkSince) ==
               if ClusterNotOkSince !in s.stored && patch.Accepted? then Some(Printed(now))
               else Lookup(s.stored, ClusterNotOkSince)
  {
    if ClusterNotOkSince !in s.mem && patch.Accepted? {
      PatchWrites(s.(mem := s.mem[ClusterNotOkSince := Printed(now)]), s.mem, patch.kept, ClusterNotOkSince);
    }
  }

  lemma ResetAgrees(s: Memory, try: ResetTry)
    requires Agree(s, ClusterNotOkSince)
    ensures Agree(AfterReset(s, try), ClusterNotOkSince)
  {
    ResetLeaves(s, try, ClusterNotOkSince);
  }

  /** The health step runs in exactly the passes that find the cluster formed. */
  lemma HealthExactly(stored: Entries, env: PassEnv)
    ensures ReachesHealth(stored, env) <==>
            && !env.early && env.topology.secretOk && env.topology.listOk && |env.topology.answers| > 0
            && ViewOf(env.topology.answers) == Formed
  {
  }

  // ----------------------------------------------------------------- resets

  /** The topology step stops the timer in the copy before it reports a formed cluster. */
  lemma FormedStopsTimer(stored: Entries, env: PassEnv)
    requires ReachesHealth(stored, env)
    ensures Lookup(TopologyOf(stored, env).state.mem, ClusterNotOkSince) == None
  {
    CrashAgrees(stored, env, ClusterNotOkSince);
    ClearStops(CrashState(stored, env), env.topology.clear);
  }

  /** The health step never resets: the timer it asks has just been stopped. */
  lemma HealthNeverResets(stored: Entries, env: PassEnv)
    ensures !Pass(stored, env).healthReset
  {
    if ReachesHealth(stored, env) {
      FormedStopsTimer(stored, env);
    }
  }

  /** A pass whose best view is ok with slots resets nothing, whatever the health step is told. */
  lemma FormedPassNeverResets(stored: Entries, env: PassEnv)
    requires ViewOf(env.topology.answers) == Formed
    ensures !Pass(stored, env).healthReset && Pass(stored, env).boot == []
  {
    HealthNeverResets(stored, env);
  }
}
