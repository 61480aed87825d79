/** The bootstrap state machine: readiness of a pod (server/bootstrap.c), readiness of all pods, and
    `reconcileBootstrapJob` (internal/controller/cluster.go). */
module Bootstrap {
  import opened Options
  import opened Annotations
  import opened RecoveryTimer

  // ----------------------------------------------------------------- readiness

  const OWNS_SLOTS := "node already owns slots — already part of a cluster"
  const STALE_PEERS := "stale peers in nodes.conf — CLUSTER RESET SOFT required"
  const NOT_CLUSTER := "server_mode is not cluster"

  datatype Readiness = Ready | NotReady(reason: string)

  /** The verdict of OPERATOR.BOOTSTRAP.READY; an absent counter reads -1. */
  function Verdict(serverMode: string, slotsAssigned: int, knownNodes: int): Readiness {
    if serverMode != "cluster" then NotReady(NOT_CLUSTER)
    else if slotsAssigned > 0 then NotReady(OWNS_SLOTS)
    else if knownNodes > 1 then NotReady(STALE_PEERS)
    else Ready
  }

  function Reasons(results: seq<Readiness>): seq<string> {
    if |results| == 0 then []
    else
      var init, last := results[..|results| - 1], results[|results| - 1];
      Reasons(init) + if last.NotReady? then [last.reason] else []
  }

  lemma {:induction false} ReasonsMean(results: seq<Readiness>, reason: string)
    ensures reason in Reasons(results) <==> NotReady(reason) in results
  {
    if |results| > 0 {
      var init, last := results[..|results| - 1], results[|results| - 1];
      ReasonsMean(init, reason);
      assert results == init + [last];
    }
  }

  lemma {:induction false} NoReasons(results: seq<Readiness>)
    ensures Reasons(results) == [] <==> forall r | r in results :: r == Ready
  {
    if |results| > 0 {
      var init, last := results[..|results| - 1], results[|results| - 1];
      NoReasons(init);
      assert results == init + [last];
      assert last in results && forall r | r in init :: r in results;
    }
  }

  method AllNodesBootstrapReady(results: seq<Readiness>) returns (allReady: bool, reasons: seq<string>)
    ensures reasons == Reasons(results)
    ensures allReady <==> forall r | r in results :: r == Ready
  {
    reasons := [];
    for i := 0 to |results|
      invariant reasons == Reasons(results[..i])
    {
      assert results[..i + 1] == results[..i] + [results[i]];
      if results[i].NotReady? {
        reasons := reasons + [results[i].reason];
      }
    }
    assert results[..|results|] == results;
    NoReasons(results);
    allReady := |reasons| == 0;
  }

  // ----------------------------------------------------------------- the state machine

  datatype Action = Reset | DeleteJob | CreateJob

  datatype JobLookup = LookupFailed | NotFound | Found(succeeded: nat, failed: nat, backoffLimit: Option<int>)

  /** A clock reading and the answer to the patch that may follow it. */
  datatype Try = Try(now: int, patch: PatchOutcome)

  datatype BootEnv = BootEnv(
    secretOk: bool,
    ready: nat,
    total: nat,
    results: seq<Readiness>,
    timeout: int,
    timer: Try,
    reset: ResetTry,
    clear: PatchOutcome,
    job: JobLookup,
    again: ResetTry,
    createOk: bool)

  datatype BootOutcome = BootOutcome(state: Memory, actions: seq<Action>, failed: bool)

  function ResetActions(s: Memory, try: ResetTry): seq<Action> {
    if Cooling(s, try.checked) then [] else [Reset]
  }

  /** The Job: deleted when it has succeeded or is exhausted, awaited while it runs, and created,
      after another reset, when there is none. */
  function JobPhase(s: Memory, env: BootEnv): BootOutcome {
    match env.job
    case LookupFailed => BootOutcome(s, [], true)
    case Found(succeeded, failed, limit) =>
      if succeeded > 0 || (limit.Some? && failed > limit.value) then BootOutcome(s, [DeleteJob], false)
      else BootOutcome(s, [], false)
    case NotFound =>
      BootOutcome(AfterReset(s, env.again), ResetActions(s, env.again) + [CreateJob], !env.createOk)
  }

  /** The forced reset of nodes with stale peers; the timer is cleared behind it. */
  function ResetPhase(s: Memory, env: BootEnv): BootOutcome {
    var reset := Cleared(AfterReset(s, env.reset), env.clear);
    var job := JobPhase(reset, env);
    job.(actions := ResetActions(s, env.reset) + job.actions)
  }

  predicate AllReady(results: seq<Readiness>) {
    forall r | r in results :: r == Ready
  }

  /** Every pod that is not ready owns slots. */
  predicate AlreadyFormed(results: seq<Readiness>) {
    forall r | r in results :: r == Ready || r == NotReady(OWNS_SLOTS)
  }

  function Boot(s: Memory, env: BootEnv): BootOutcome {
    if !env.secretOk then BootOutcome(s, [], true)
    else if env.ready < env.total then BootOutcome(s, [], false)
    else if AllReady(env.results) then JobPhase(s, env)
    else if AlreadyFormed(env.results) || NotReady(STALE_PEERS) !in env.results then BootOutcome(s, [], false)
    else if !HasTimedOut(s, env.timer.now, env.timeout) then
      BootOutcome(AfterCheck(s, env.timer.now, env.timer.patch), [], false)
    else ResetPhase(s, env)
  }

  method RunJobPhase(vc: ClusterResource, env: BootEnv) returns (actions: seq<Action>, failed: bool)
    modifies vc
    ensures BootOutcome(vc.State(), actions, failed) == JobPhase(old(vc.State()), env)
  {
    match env.job
    case LookupFailed =>
      return [], true;
    case Found(succeeded, failures, limit) =>
      if succeeded > 0 {
        return [DeleteJob], false;
      }
      if limit.Some? && failures > limit.value {
        return [DeleteJob], false;
      }
      return [], false;
    case NotFound =>
      actions := [];
      var issued := ResetAllNodes(vc, env.again);
      if issued {
        actions := actions + [Reset];
      }
      actions := actions + [CreateJob];
      return actions, !env.createOk;
  }

  /** Whether all reasons are the first, and whether one of them is the second. */
  method ClassifyReasons(reasons: seq<string>) returns (alreadyFormed: bool, hasStalePeers: bool)
    ensures alreadyFormed <==> forall r | r in reasons :: r == OWNS_SLOTS
    ensures hasStalePeers <==> STALE_PEERS in reasons
  {
    alreadyFormed := true;
    for i := 0 to |reasons|
      invariant alreadyFormed && forall j | 0 <= j < i :: reasons[j] == OWNS_SLOTS
    {
      if reasons[i] != OWNS_SLOTS {
        assert reasons[i] in reasons;
        alreadyFormed := false;
        break;
      }
    }
    hasStalePeers := false;
    for i := 0 to |reasons|
      invariant !hasStalePeers && forall j | 0 <= j < i :: reasons[j] != STALE_PEERS
    {
      if reasons[i] == STALE_PEERS {
        hasStalePeers := true;
        break;
      }
    }
  }

  lemma ReasonsClassified(results: seq<Readiness>)
    ensures (forall r | r in Reasons(results) :: r == OWNS_SLOTS) <==> AlreadyFormed(results)
    ensures STALE_PEERS in Reasons(results) <==> NotReady(STALE_PEERS) in results
  {
    forall reason ensures reason in Reasons(results) <==> NotReady(reason) in results {
      ReasonsMean(results, reason);
    }
    if forall r | r in Reasons(results) :: r == OWNS_SLOTS {
      forall r | r in results ensures r == Ready || r == NotReady(OWNS_SLOTS) {
        assert r.NotReady? ==> r.reason in Reasons(results);
      }
    } else {
      var r :| r in Reasons(results) && r != OWNS_SLOTS;
      assert NotReady(r) in results;
    }
  }

  method ReconcileBootstrapJob(vc: ClusterResource, env: BootEnv) returns (actions: seq<Action>, failed: bool)
    modifies vc
    ensures BootOutcome(vc.State(), actions, failed) == Boot(old(vc.State()), env)
  {
    if !env.secretOk {
      return [], true;
    }
    if env.ready < env.total {
      return [], false;
    }
    var allReady, reasons := AllNodesBootstrapReady(env.results);
    actions := [];
    if !allReady {
      var alreadyFormed, hasStalePeers := ClassifyReasons(reasons);
      ReasonsClassified(env.results);
      if alreadyFormed {
        return [], false;
      }
      if !hasStalePeers {
        return [], false;
      }
      var timedOut := ClusterNotOkTimedOut(vc, env.timer.now, env.timeout, env.timer.patch);
      if !timedOut {
        return [], false;
      }
      var issued := ResetAllNodes(vc, env.reset);
      if issued {
        actions := [Reset];
      }
      ClearClusterNotOk(vc, env.clear);
    }
    var more, jobFailed := RunJobPhase(vc, env);
    return actions + more, jobFailed;
  }

  // ----------------------------------------------------------------- when it acts

  /** Nothing is reset and no Job is created before all pods are there and either every pod is
      ready or one of them has stale peers; and no Job is created while one exists. */
  lemma ActsOnlyWhenComplete(s: Memory, env: BootEnv)
    requires Reset in Boot(s, env).actions || CreateJob in Boot(s, env).actions
    ensures env.ready >= env.total
    ensures AllReady(env.results) || NotReady(STALE_PEERS) in env.results
    ensures CreateJob in Boot(s, env).actions ==> env.job == NotFound
  {
  }

  /** The forced reset: all pods are there, one has stale peers, and the timer has run out. */
  predicate Forces(s: Memory, env: BootEnv) {
    && env.secretOk && env.ready >= env.total
    && NotReady(STALE_PEERS) in env.results && HasTimedOut(s, env.timer.now, env.timeout)
  }

  /** All pods are there and ready. */
  predicate Starts(env: BootEnv) {
    env.secretOk && env.ready >= env.total && AllReady(env.results)
  }

  /** The two ways to the resets; they exclude each other. */
  lemma BootPaths(s: Memory, env: BootEnv)
    ensures Forces(s, env) ==> Boot(s, env) == ResetPhase(s, env)
    ensures Starts(env) ==> Boot(s, env) == JobPhase(s, env) && !Forces(s, env)
    ensures !Forces(s, env) && !Starts(env) ==> Boot(s, env).actions == []
  {
    if NotReady(STALE_PEERS) in env.results {
      assert !AllReady(env.results) && !AlreadyFormed(env.results);
    }
  }

  /** Clearing the timer erases the cooldown, the one that the reset in front of it has recorded
      included. */
  lemma ClearedAfterReset(s: Memory, reset: ResetTry, clear: PatchOutcome, now: int)
    ensures !Cooling(Cleared(AfterReset(s, reset), clear), now)
  {
    var after := AfterReset(s, reset);
    if !Cooling(s, reset.checked) && reset.patch.Accepted? {
      PatchedAt(s.(mem := s.mem[LastResetTime := Printed(reset.recorded)]), s.mem, reset.patch.kept, LastResetTime);
    }
    ClearForgetsReset(after, clear, now);
  }

  /** The resets of a pass, in order, by the calls that issue them. */
  function Resets(s: Memory, env: BootEnv): seq<ResetTry> {
    if Forces(s, env) then
      (if Cooling(s, env.reset.checked) then [] else [env.reset]) + (if env.job == NotFound then [env.again] else [])
    else if Starts(env) && env.job == NotFound && !Cooling(s, env.again.checked) then [env.again]
    else []
  }

  /** The Job has succeeded, or has failed more often than its limit allows. */
  predicate JobOver(job: JobLookup) {
    job.Found? && (job.succeeded > 0 || (job.backoffLimit.Some? && job.failed > job.backoffLimit.value))
  }

  lemma JobActions(s: Memory, env: BootEnv)
    ensures env.job != NotFound && JobOver(env.job) ==> JobPhase(s, env).actions == [DeleteJob]
    ensures env.job != NotFound && !JobOver(env.job) ==> JobPhase(s, env).actions == []
    ensures env.job == NotFound ==> JobPhase(s, env).actions == ResetActions(s, env.again) + [CreateJob]
    ensures JobPhase(s, env).failed <==> env.job == LookupFailed || (env.job == NotFound && !env.createOk)
  {
  }

  /** What a forced reset leads to. */
  lemma ForcedActions(s: Memory, env: BootEnv)
    requires Forces(s, env)
    ensures env.job != NotFound && JobOver(env.job) ==>
              Boot(s, env).actions == ResetActions(s, env.reset) + [DeleteJob]
    ensures env.job != NotFound && !JobOver(env.job) ==> Boot(s, env).actions == ResetActions(s, env.reset)
    ensures env.job == NotFound ==> Boot(s, env).actions == ResetActions(s, env.reset) + [Reset, CreateJob]
  {
    BootPaths(s, env);
    ClearedAfterReset(s, env.reset, env.clear, env.again.checked);
    JobActions(Cleared(AfterReset(s, env.reset), env.clear), env);
  }

  lemma ForcedResets(s: Memory, env: BootEnv)
    requires Forces(s, env)
    ensures multiset(Boot(s, env).actions)[Reset] == |Resets(s, env)|
    ensures CreateJob in Boot(s, env).actions <==> env.job == NotFound
  {
    ForcedActions(s, env);
  }

  /** The state machine resets exactly so often, and in front of every new Job. */
  lemma ResetsAre(s: Memory, env: BootEnv)
    ensures multiset(Boot(s, env).actions)[Reset] == |Resets(s, env)|
    ensures CreateJob in Boot(s, env).actions <==> env.job == NotFound && (Forces(s, env) || Starts(env))
  {
    if Forces(s, env) {
      ForcedResets(s, env);
    } else {
      BootPaths(s, env);
      JobActions(s, env);
    }
  }

  /** A Job is deleted exactly when the state machine gets to it and it is over; so a Job that still
      runs is left alone. */
  lemma DeletesExactly(s: Memory, env: BootEnv)
    ensures DeleteJob in Boot(s, env).actions <==>
            && (Forces(s, env) || Starts(env)) && env.job.Found?
            && (env.job.succeeded > 0 || (env.job.backoffLimit.Some? && env.job.failed > env.job.backoffLimit.value))
  {
    BootPaths(s, env);
    JobActions(s, env);
    if Forces(s, env) {
      ForcedActions(s, env);
    }
  }

  /** The step fails without the secret, and when it gets to the Job and can neither read nor create
      it. */
  lemma FailsExactly(s: Memory, env: BootEnv)
    ensures Boot(s, env).failed <==>
            || !env.secretOk
            || ((Forces(s, env) || Starts(env)) && (env.job == LookupFailed || (env.job == NotFound && !env.createOk)))
  {
    BootPaths(s, env);
    JobActions(s, env);
    JobActions(Cleared(AfterReset(s, env.reset), env.clear), env);
  }

  /** One pass resets all nodes twice exactly when it forces a reset that the cooldown does not
      stop and finds no Job. */
  lemma ResetTwice(s: Memory, env: BootEnv)
    ensures multiset(Boot(s, env).actions)[Reset] >= 2 <==>
            Forces(s, env) && env.job == NotFound && !Cooling(s, env.reset.checked)
    ensures multiset(Boot(s, env).actions)[Reset] <= 2
  {
    ResetsAre(s, env);
  }

  lemma ResetIssued(s: Memory, env: BootEnv)
    ensures Reset in Boot(s, env).actions <==> Resets(s, env) != []
  {
    ResetsAre(s, env);
  }

  /** It does happen: one pod, with stale peers, a timer that ran out, and no Job. */
  lemma ResetTwiceHappens(s: Memory, env: BootEnv)
    requires s.mem == map[ClusterNotOkSince := Stamp(0)] && env.secretOk && env.ready == env.total == 1
    requires env.results == [Verdict("cluster", 0, 2)] && env.job == NotFound
    requires env.timer.now == 120 * SECOND && env.timeout == 30 * SECOND
    ensures multiset(Boot(s, env).actions)[Reset] == 2
  {
    assert env.results[0] == NotReady(STALE_PEERS);
    ResetTwice(s, env);
  }
}
