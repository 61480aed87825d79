/** `reconcileClusterTopology` (internal/controller/cluster.go): asks every ready pod, and either
    reports a formed cluster, waits for gossip or pushes the topology, or bootstraps. */
module ClusterTopology {
  import opened Options
  import opened Annotations
  import opened RecoveryTimer
  import opened Aggregation
  import opened Bootstrap

  /** Gossip recovery: the pods cannot be listed, none is running, or the payload goes out. */
  datatype Push = ListFailed | NoneRunning | Pushed(at: int, accepted: bool)

  datatype TopologyEnv = TopologyEnv(
    secretOk: bool,
    listOk: bool,
    answers: seq<Answer>,
    timeout: int,
    timer: Try,
    clear: PatchOutcome,
    push: Push,
    boot: BootEnv)

  /** What the step does: a push of the topology at some time, and bootstrap actions. */
  datatype TopologyOutcome = TopologyOutcome(
    state: Memory,
    pushed: Option<int>,
    actions: seq<Action>,
    failed: bool,
    bootstrapped: bool)

  /** The view that the step acts on. */
  datatype View = Formed | Diverged | Unformed

  function ViewOf(answers: seq<Answer>): View {
    match Aggregate(answers)
    case None => Unformed
    case Some(best) =>
      if best.slots > 0 && best.state == "ok" then Formed
      else if best.slots > 0 && best.state == "fail" then Diverged
      else Unformed
  }

  /** Formed when an answer with the most slots says ok; not formed when no answer has slots. */
  lemma ViewMeans(answers: seq<Answer>)
    requires AllRegular(answers)
    ensures ViewOf(answers) == Formed <==>
            exists a | a in answers :: a.slots > 0 && a.state == "ok" && forall b | b in answers :: b.slots <= a.slots
    ensures ViewOf(answers) == Unformed <==> forall a | a in answers :: a.slots == 0
  {
    FoldIsMost(answers);
    FoldState(answers);
    assert forall a | a in answers :: Regular(a);
    if Fold(answers).slots > 0 {
      var a :| a in answers && a.slots == Fold(answers).slots;
      assert a != NO_ANSWER;
    }
  }

  function PushTime(push: Push): Option<int> {
    if push.Pushed? then Some(push.at) else None
  }

  function PushFailed(push: Push): bool {
    push.ListFailed? || (push.Pushed? && !push.accepted)
  }

  /** The timer is cleared in front of the push. */
  function Recover(s: Memory, env: TopologyEnv): TopologyOutcome {
    var checked := AfterCheck(s, env.timer.now, env.timer.patch);
    if HasTimedOut(s, env.timer.now, env.timeout) then
      TopologyOutcome(Cleared(checked, env.clear), PushTime(env.push), [], PushFailed(env.push), false)
    else TopologyOutcome(checked, None, [], false, false)
  }

  function Topology(s: Memory, env: TopologyEnv): TopologyOutcome {
    if !env.secretOk || !env.listOk then TopologyOutcome(s, None, [], true, false)
    else if |env.answers| == 0 then TopologyOutcome(s, None, [], false, false)
    else
      match ViewOf(env.answers)
      case Formed => TopologyOutcome(Cleared(s, env.clear), None, [], false, true)
      case Diverged => Recover(s, env)
      case Unformed =>
        var boot := Boot(s, env.boot);
        TopologyOutcome(boot.state, None, boot.actions, boot.failed, false)
  }

  method ReconcileClusterTopology(vc: ClusterResource, env: TopologyEnv)
    returns (pushed: Option<int>, actions: seq<Action>, failed: bool, bootstrapped: bool)
    modifies vc
    ensures TopologyOutcome(vc.State(), pushed, actions, failed, bootstrapped) == Topology(old(vc.State()), env)
  {
    if !env.secretOk || !env.listOk {
      return None, [], true, false;
    }
    if |env.answers| == 0 {
      return None, [], false, false;
    }
    var best := QueryClusterInfo(env.answers);
    if best.Some? && best.value.slots > 0 && best.value.state == "ok" {
      ClearClusterNotOk(vc, env.clear);
      return None, [], false, true;
    }
    if best.Some? && best.value.slots > 0 && best.value.state == "fail" {
      var timedOut := ClusterNotOkTimedOut(vc, env.timer.now, env.timeout, env.timer.patch);
      if timedOut {
        ClearClusterNotOk(vc, env.clear);
        return PushTime(env.push), [], PushFailed(env.push), false;
      }
      return None, [], false, false;
    }
    var acts, bootFailed := ReconcileBootstrapJob(vc, env.boot);
    return None, acts, bootFailed, false;
  }

  /** The step fails when it cannot ask, when a push that was due cannot be made or is not accepted,
      and when the bootstrap path fails. */
  lemma TopologyFailsExactly(s: Memory, env: TopologyEnv)
    ensures Topology(s, env).failed <==>
            || !env.secretOk || !env.listOk
            || (&& |env.answers| > 0 && ViewOf(env.answers) == Diverged
                && HasTimedOut(s, env.timer.now, env.timeout)
                && (env.push == ListFailed || (env.push.Pushed? && !env.push.accepted)))
            || (|env.answers| > 0 && ViewOf(env.answers) == Unformed && Boot(s, env.boot).failed)
  {
  }

  // ----------------------------------------------------------------- bootstrap safety

  /** What a ready pod says, all of it read at the same moment. */
  datatype Report = Unreachable | Report(state: string, slots: int, knownNodes: int, serverMode: string)

  function AnswerOf(r: Report): Answer {
    match r
    case Unreachable => NO_ANSWER
    case Report(state, slots, _, _) => Answer(state, slots)
  }

  function ReadinessOf(r: Report): Readiness {
    match r
    case Unreachable => NotReady("unreachable")
    case Report(_, slots, known, mode) => Verdict(mode, slots, known)
  }

  /** The answers to both questions come from one snapshot; they may arrive in different orders. */
  ghost predicate OneSnapshot(env: TopologyEnv, pods: seq<Report>) {
    && env.boot.ready == |pods|
    && multiset(env.answers) == multiset(seq(|pods|, i requires 0 <= i < |pods| => AnswerOf(pods[i])))
    && multiset(env.boot.results) == multiset(seq(|pods|, i requires 0 <= i < |pods| => ReadinessOf(pods[i])))
  }

  /** The states a pod can report. */
  predicate Plain(r: Report) {
    r.Report? ==> (r.state == "ok" || r.state == "fail") && r.slots >= 0
  }

  lemma NoSlotsAnywhere(answers: seq<Answer>)
    requires AllRegular(answers) && ViewOf(answers) == Unformed
    ensures forall a | a in answers :: a.slots == 0
  {
    FoldIsMost(answers);
    FoldState(answers);
    forall a | a in answers ensures a.slots == 0 {
      assert Regular(a);
    }
  }

  lemma AnswerIn(env: TopologyEnv, pods: seq<Report>, i: nat)
    requires OneSnapshot(env, pods) && i < |pods|
    ensures AnswerOf(pods[i]) in env.answers
  {
    var all := seq(|pods|, i requires 0 <= i < |pods| => AnswerOf(pods[i]));
    assert all[i] in multiset(all);
    assert AnswerOf(pods[i]) in multiset(env.answers);
  }

  lemma AnswersFrom(env: TopologyEnv, pods: seq<Report>, a: Answer)
    requires OneSnapshot(env, pods) && a in env.answers
    ensures exists i | 0 <= i < |pods| :: AnswerOf(pods[i]) == a
  {
    var all := seq(|pods|, i requires 0 <= i < |pods| => AnswerOf(pods[i]));
    assert a in multiset(env.answers);
    assert a in all;
  }

  lemma SnapshotRegular(env: TopologyEnv, pods: seq<Report>)
    requires OneSnapshot(env, pods) && forall r | r in pods :: Plain(r)
    ensures AllRegular(env.answers)
  {
    forall a | a in env.answers ensures Regular(a) {
      AnswersFrom(env, pods, a);
      var i :| 0 <= i < |pods| && AnswerOf(pods[i]) == a;
      assert Plain(pods[i]);
    }
  }

  lemma ReadinessIn(env: TopologyEnv, pods: seq<Report>, r: Readiness)
    requires OneSnapshot(env, pods)
    ensures r in env.boot.results <==> exists i | 0 <= i < |pods| :: ReadinessOf(pods[i]) == r
  {
    var all := seq(|pods|, i requires 0 <= i < |pods| => ReadinessOf(pods[i]));
    assert r in env.boot.results <==> r in multiset(env.boot.results);
    if r in all {
      var i :| 0 <= i < |all| && all[i] == r;
      assert ReadinessOf(pods[i]) == r;
    }
    if i :| 0 <= i < |pods| && ReadinessOf(pods[i]) == r {
      assert all[i] == r;
    }
  }

  /** On one snapshot: the state machine starts a fresh cluster exactly when all pods are there and
      all of them answer, in cluster mode, without slots and without peers. */
  lemma StartsExactly(env: TopologyEnv, pods: seq<Report>)
    requires OneSnapshot(env, pods)
    ensures Starts(env.boot) <==>
            && env.boot.secretOk && |pods| >= env.boot.total
            && forall r | r in pods :: r.Report? && r.serverMode == "cluster" && r.slots <= 0 && r.knownNodes <= 1
  {
    forall x ensures x in env.boot.results <==> exists i | 0 <= i < |pods| :: ReadinessOf(pods[i]) == x {
      ReadinessIn(env, pods, x);
    }
    forall r | r in pods ensures ReadinessOf(r) in env.boot.results {
      var i :| 0 <= i < |pods| && pods[i] == r;
      assert ReadinessOf(pods[i]) == ReadinessOf(r);
    }
    forall x | x in env.boot.results ensures exists r | r in pods :: ReadinessOf(r) == x {
      var i :| 0 <= i < |pods| && ReadinessOf(pods[i]) == x;
      assert pods[i] in pods;
    }
  }

  /** And it forces a reset exactly when all pods are there, the timer has run out, and a pod answers,
      in cluster mode, that it has no slots but knows other nodes. */
  lemma ForcesExactly(s: Memory, env: TopologyEnv, pods: seq<Report>)
    requires OneSnapshot(env, pods)
    ensures Forces(s, env.boot) <==>
            && env.boot.secretOk && |pods| >= env.boot.total && HasTimedOut(s, env.boot.timer.now, env.boot.timeout)
            && exists r | r in pods :: r.Report? && r.serverMode == "cluster" && r.slots <= 0 && r.knownNodes > 1
  {
    ReadinessIn(env, pods, NotReady(STALE_PEERS));
    if i :| 0 <= i < |pods| && ReadinessOf(pods[i]) == NotReady(STALE_PEERS) {
      ReasonsDiffer();
      assert pods[i] in pods;
    }
    if r :| r in pods && r.Report? && r.serverMode == "cluster" && r.slots <= 0 && r.knownNodes > 1 {
      var i :| 0 <= i < |pods| && pods[i] == r;
      assert ReadinessOf(pods[i]) == NotReady(STALE_PEERS);
    }
  }

  lemma ReasonsDiffer()
    ensures STALE_PEERS != OWNS_SLOTS && STALE_PEERS != NOT_CLUSTER && STALE_PEERS != "unreachable"
  {
    assert |STALE_PEERS| > |OWNS_SLOTS| > |NOT_CLUSTER| > |"unreachable"|;
  }

  /** A reset or a new bootstrap Job only with all pods there, no pod that answers holding slots,
      and no Job existing. */
  lemma BootstrapSafety(s: Memory, env: TopologyEnv, pods: seq<Report>)
    requires OneSnapshot(env, pods) && forall r | r in pods :: Plain(r)
    requires Reset in Topology(s, env).actions || CreateJob in Topology(s, env).actions
    ensures |pods| >= env.boot.total
    ensures forall r | r in pods :: r.Report? ==> r.slots == 0
    ensures CreateJob in Topology(s, env).actions ==> env.boot.job == NotFound
  {
    ActsOnlyWhenComplete(s, env.boot);
    SnapshotRegular(env, pods);
    NoSlotsAnywhere(env.answers);
    forall r | r in pods && r.Report? ensures r.slots == 0 {
      var i :| 0 <= i < |pods| && pods[i] == r;
      AnswerIn(env, pods, i);
    }
  }

  /** The pod holds slots. */
  predicate Owner(r: Report) {
    r.Report? && r.slots > 0
  }

  predicate Destructive(actions: seq<Action>) {
    Reset in actions || CreateJob in actions
  }

  /** The best answer has slots and a state that is neither ok nor fail. */
  predicate Unclear(answers: seq<Answer>) {
    Fold(answers).slots > 0 && Fold(answers).state != "ok" && Fold(answers).state != "fail"
  }

  /** A forced reset that goes out: the cooldown does not stop it, or the missing Job brings the
      second one about. */
  predicate ForcedOut(s: Memory, env: BootEnv) {
    Forces(s, env) && (!Cooling(s, env.reset.checked) || env.job == NotFound)
  }

  lemma DestructiveMeans(s: Memory, env: BootEnv)
    ensures Forces(s, env) ==> (Destructive(Boot(s, env).actions) <==> ForcedOut(s, env))
    ensures Destructive(Boot(s, env).actions) ==> Forces(s, env) || Starts(env)
  {
    ResetsAre(s, env);
    ResetIssued(s, env);
    BootPaths(s, env);
  }

  lemma OwnerAnswers(env: TopologyEnv, pods: seq<Report>)
    requires OneSnapshot(env, pods)
    ensures Fold(env.answers).slots > 0 <==> exists r | r in pods :: Owner(r)
  {
    FoldIsMost(env.answers);
    if Fold(env.answers).slots > 0 {
      var a :| a in env.answers && a.slots == Fold(env.answers).slots;
      AnswersFrom(env, pods, a);
      var i :| 0 <= i < |pods| && AnswerOf(pods[i]) == a;
      assert pods[i] in pods && Owner(pods[i]);
    }
    if r :| r in pods && Owner(r) {
      var i :| 0 <= i < |pods| && pods[i] == r;
      AnswerIn(env, pods, i);
    }
  }

  /** With an owner among the pods, not all are ready. */
  lemma OwnerNotReady(env: TopologyEnv, pods: seq<Report>, r: Report)
    requires OneSnapshot(env, pods) && r in pods && Owner(r)
    ensures !Starts(env.boot)
  {
    var i :| 0 <= i < |pods| && pods[i] == r;
    var all := seq(|pods|, i requires 0 <= i < |pods| => ReadinessOf(pods[i]));
    assert all[i] in multiset(all);
    assert ReadinessOf(r) in multiset(env.boot.results);
    assert ReadinessOf(r) in env.boot.results && ReadinessOf(r) != Ready;
  }

  /** The step when some answer has slots and not all pods are ready. */
  lemma UnclearMeans(s: Memory, env: TopologyEnv)
    requires Fold(env.answers).slots > 0 && Responded(env.answers) && !Starts(env.boot)
    ensures Destructive(Topology(s, env).actions) <==>
            env.secretOk && env.listOk && Unclear(env.answers) && ForcedOut(s, env.boot)
  {
    DestructiveMeans(s, env.boot);
  }

  /** A slot owner is reset, or a Job created over it, exactly when the best answer is unclear and
      the bootstrap path forces a reset that goes out. Nothing is assumed of the states. */
  lemma OwnerAtRisk(s: Memory, env: TopologyEnv, pods: seq<Report>)
    requires OneSnapshot(env, pods)
    ensures Destructive(Topology(s, env).actions) && (exists r | r in pods :: Owner(r)) <==>
            env.secretOk && env.listOk && Unclear(env.answers) && ForcedOut(s, env.boot)
  {
    OwnerAnswers(env, pods);
    if r :| r in pods && Owner(r) {
      OwnerNotReady(env, pods, r);
      var i :| 0 <= i < |pods| && pods[i] == r;
      AnswerIn(env, pods, i);
      assert AnswerOf(r) != NO_ANSWER;
      UnclearMeans(s, env);
    }
  }

  /** It does happen: a slot owner whose reply lacks the state line, next to a pod with stale peers. */
  lemma BlankStateUnsafe(s: Memory, env: TopologyEnv, pods: seq<Report>)
    requires pods == [Report("", 5, 2, "cluster"), Report("fail", 0, 2, "cluster")]
    requires env.secretOk && env.listOk && env.boot.secretOk && env.boot.total <= 2 && env.boot.ready == 2
    requires env.answers == [AnswerOf(pods[0]), AnswerOf(pods[1])]
    requires env.boot.results == [ReadinessOf(pods[0]), ReadinessOf(pods[1])]
    requires HasTimedOut(s, env.boot.timer.now, env.boot.timeout) && !Cooling(s, env.boot.reset.checked)
    ensures OneSnapshot(env, pods) && Owner(pods[0]) && Destructive(Topology(s, env).actions)
  {
    assert env.answers == seq(|pods|, i requires 0 <= i < |pods| => AnswerOf(pods[i]));
    assert env.boot.results == seq(|pods|, i requires 0 <= i < |pods| => ReadinessOf(pods[i]));
    var a, b := Answer("", 5), Answer("fail", 0);
    assert [a][..0] == [] && Fold([a]) == a;
    assert env.answers[..1] == [a] && env.answers[1] == b;
    assert Fold(env.answers) == Better(a, b);
    assert env.boot.results[1] == NotReady(STALE_PEERS);
    OwnerAtRisk(s, env, pods);
  }
}
