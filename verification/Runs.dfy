/** Whole runs: any number of passes over the annotations that the passes before them have left. */
module Runs {
  import opened Options
  import opened Annotations
  import opened PersistedTimer
  import opened ClusterTopology
  import opened Reconcile
  import Bootstrap
  import CrashLoop
  import StaleNodes

  /** A run: `states[i]` are the server's annotations in front of pass `i`. */
  ghost predicate IsRun(states: seq<Entries>, passes: seq<PassEnv>) {
    && |states| == |passes| + 1
    && forall i | 0 <= i < |passes| :: states[i + 1] == Pass(states[i], passes[i]).stored
  }

  /** No run has a reset from the health step: all resets come from the bootstrap path. */
  lemma ResetsComeFromBootstrap(states: seq<Entries>, passes: seq<PassEnv>, n: nat)
    requires IsRun(states, passes) && n < |passes|
    ensures !Pass(states[n], passes[n]).healthReset
    ensures ViewOf(passes[n].topology.answers) == Formed ==> Bootstrap.Reset !in Pass(states[n], passes[n]).boot
  {
    HealthNeverResets(states[n], passes[n]);
  }

  /** In every run, the bootstrap Job is deleted by exactly the passes that bootstrap, get to it and
      find that it has succeeded or is exhausted. */
  lemma JobDeletedExactly(states: seq<Entries>, passes: seq<PassEnv>, n: nat)
    requires IsRun(states, passes) && n < |passes|
    ensures var env, s := passes[n].topology, CrashState(states[n], passes[n]);
            Bootstrap.DeleteJob in Pass(states[n], passes[n]).boot <==>
            && !passes[n].early && env.secretOk && env.listOk && |env.answers| > 0 && ViewOf(env.answers) == Unformed
            && (Bootstrap.Forces(s, env.boot) || Bootstrap.Starts(env.boot)) && env.boot.job.Found?
            && (|| env.boot.job.succeeded > 0
                || (env.boot.job.backoffLimit.Some? && env.boot.job.failed > env.boot.job.backoffLimit.value))
  {
    Bootstrap.DeletesExactly(CrashState(states[n], passes[n]), passes[n].topology.boot);
  }

  const BLIND := Event(0, false, false, false)

  // ----------------------------------------------------------------- stale nodes

  /** The pass as an event in the life of a node's stamp. */
  function StaleEvent(stored: Entries, env: PassEnv, id: string): Event {
    if ReachesHealth(stored, env) && Observes(env.health) then StaleNodes.EventOf(env.health.forget, id) else BLIND
  }

  lemma StaleStep(stored: Entries, env: PassEnv, id: string)
    ensures Step(Lookup(stored, StaleSince(id)), Lookup(Pass(stored, env).stored, StaleSince(id)),
                 StaleEvent(stored, env, id))
    ensures id in Pass(stored, env).forgotten ==>
              && env.health.forget.reached && StaleEvent(stored, env, id).failing
              && StaleNodes.Overdue(Lookup(stored, StaleSince(id)), env.health.forget.now)
  {
    var k := StaleSince(id);
    CrashAgrees(stored, env, k);
    TopologyLeaves(CrashState(stored, env), env.topology, k);
    if ReachesHealth(stored, env) {
      var s := TopologyOf(stored, env).state;
      AfterStateLeaves(s, env.health, k);
      StaleNodes.ForgetStep(AfterState(s, env.health), env.health.forget, id);
    }
  }

  /** What the passes of a run find under one key. */
  function Stamps(states: seq<Entries>, k: Key): seq<Option<Value>> {
    seq(|states|, i requires 0 <= i < |states| => Lookup(states[i], k))
  }

  function StaleEvents(states: seq<Entries>, passes: seq<PassEnv>, id: string): seq<Event>
    requires |passes| <= |states|
  {
    seq(|passes|, i requires 0 <= i < |passes| => StaleEvent(states[i], passes[i], id))
  }

  lemma StaleSteps(states: seq<Entries>, passes: seq<PassEnv>, id: string)
    requires IsRun(states, passes)
    ensures Steps(Stamps(states, StaleSince(id)), StaleEvents(states, passes, id))
  {
    forall i | 0 <= i < |passes|
      ensures Step(Lookup(states[i], StaleSince(id)), Lookup(states[i + 1], StaleSince(id)),
                   StaleEvent(states[i], passes[i], id))
    {
      StaleStep(states[i], passes[i], id);
    }
  }

  /** CLUSTER FORGET only for a node that an earlier pass persisted as lost more than 29 seconds
      before, and that no pass in between persisted as well. Guarded passes, passes that do not
      get that far and passes with rejected patches may come in between in any number. */
  lemma StaleSafety(states: seq<Entries>, passes: seq<PassEnv>, n: nat, id: string) returns (i: nat)
    requires IsRun(states, passes) && n < |passes| && StaleSince(id) !in states[0]
    requires id in Pass(states[n], passes[n]).forgotten
    ensures i < n
    ensures var first := StaleEvent(states[i], passes[i], id);
            && first.failing && first.accepted
            && passes[n].health.forget.now - first.now > 29 * SECOND
    ensures forall j | i < j < n ::
              var e := StaleEvent(states[j], passes[j], id);
              !(e.healthy && e.accepted)
    ensures StaleEvent(states[n], passes[n], id).failing && passes[n].health.forget.reached
  {
    StaleStep(states[n], passes[n], id);
    var stamps, events := Stamps(states, StaleSince(id)), StaleEvents(states, passes, id);
    StaleSteps(states, passes, id);
    i := Origin(stamps, events, n, stamps[n].value);
    assert events[i] == StaleEvent(states[i], passes[i], id);
    forall j | i < j < n
      ensures var e := StaleEvent(states[j], passes[j], id); !(e.healthy && e.accepted)
    {
      assert events[j] == StaleEvent(states[j], passes[j], id);
    }
  }

  /** The pass gets to the stale nodes, sees this one lost and nothing else, its patch is accepted,
      and a pod takes the commands. */
  predicate PressesStale(stored: Entries, env: PassEnv, id: string) {
    ReachesHealth(stored, env) && Observes(env.health) && StaleNodes.PressesOn(env.health.forget, id)
  }

  lemma StalePresses(stored: Entries, env: PassEnv, id: string)
    requires PressesStale(stored, env, id)
    ensures Presses(Lookup(stored, StaleSince(id)), Lookup(Pass(stored, env).stored, StaleSince(id)),
                    env.health.forget.now, id in Pass(stored, env).forgotten)
    ensures id in Pass(stored, env).forgotten <==>
            StaleNodes.Overdue(Lookup(stored, StaleSince(id)), env.health.forget.now)
  {
    var k := StaleSince(id);
    CrashAgrees(stored, env, k);
    TopologyLeaves(CrashState(stored, env), env.topology, k);
    var s := TopologyOf(stored, env).state;
    AfterStateLeaves(s, env.health, k);
    StaleNodes.ForgetPresses(AfterState(s, env.health), env.health.forget, id);
  }

  /** The other direction: a node that every pass of a stretch sees lost, with accepted patches, is
      forgotten by the time 30 seconds have passed since the first of them. */
  lemma StaleProgress(states: seq<Entries>, passes: seq<PassEnv>, i: nat, n: nat, id: string) returns (m: nat)
    requires IsRun(states, passes) && i < n < |passes|
    requires forall j | i <= j <= n :: PressesStale(states[j], passes[j], id)
    requires StaleSince(id) !in states[i]
             || NoLaterThan(Lookup(states[i], StaleSince(id)), passes[i].health.forget.now)
    requires passes[n].health.forget.now - passes[i].health.forget.now >= 30 * SECOND
    ensures i <= m <= n && id in Pass(states[m], passes[m]).forgotten
  {
    if m' :| i <= m' < n && id in Pass(states[m'], passes[m']).forgotten {
      m := m';
    } else {
      m := n;
      var stamps := Stamps(states, StaleSince(id));
      var nows := seq(|passes|, j requires 0 <= j < |passes| => passes[j].health.forget.now);
      forall j | i <= j < n ensures Presses(stamps[j], stamps[j + 1], nows[j], false) {
        StalePresses(states[j], passes[j], id);
      }
      Lasts(stamps, nows, i, n);
      StalePresses(states[n], passes[n], id);
    }
  }

  /** A pass behind which the node's stamp is gone: it has forgotten the node, with an accepted
      patch. */
  lemma ForgottenInPass(stored: Entries, env: PassEnv, id: string)
    requires id in Pass(stored, env).forgotten && env.health.forget.patch.Accepted?
    ensures Lookup(Pass(stored, env).stored, StaleSince(id)) == None
  {
    var k := StaleSince(id);
    CrashAgrees(stored, env, k);
    TopologyLeaves(CrashState(stored, env), env.topology, k);
    var s := TopologyOf(stored, env).state;
    AfterStateLeaves(s, env.health, k);
    StaleNodes.ForgottenDrops(AfterState(s, env.health), env.health.forget, id);
  }

  /** A node that was forgotten and is lost again gets the full time once more: it is not forgotten
      again within 29 seconds. */
  lemma ForgetsSpaced(states: seq<Entries>, passes: seq<PassEnv>, i: nat, n: nat, id: string)
    requires IsRun(states, passes) && i < n < |passes|
    requires id in Pass(states[i], passes[i]).forgotten && passes[i].health.forget.patch.Accepted?
    requires forall m | i < m < n :: passes[m].health.forget.now >= passes[i].health.forget.now
    ensures id in Pass(states[n], passes[n]).forgotten ==>
              passes[n].health.forget.now - passes[i].health.forget.now > 29 * SECOND
  {
    ForgottenInPass(states[i], passes[i], id);
    if id in Pass(states[n], passes[n]).forgotten {
      NotBefore(states, passes, i, n, id);
    }
  }

  /** A pass that finds the time of a lost node run out but reaches no pod forgets nothing, and drops
      the stamp all the same: the node has to be lost for the full time once more. */
  lemma UnreachedRestarts(states: seq<Entries>, passes: seq<PassEnv>, i: nat, n: nat, id: string)
    requires IsRun(states, passes) && i < n < |passes| && id in Pass(states[n], passes[n]).forgotten
    requires var e := StaleEvent(states[i], passes[i], id); e.failing && !e.healthy && e.accepted
    requires StaleNodes.Overdue(Lookup(states[i], StaleSince(id)), passes[i].health.forget.now)
    requires !passes[i].health.forget.reached
    requires forall m | i < m < n :: passes[m].health.forget.now >= passes[i].health.forget.now
    ensures id !in Pass(states[i], passes[i]).forgotten
    ensures passes[n].health.forget.now - passes[i].health.forget.now > 29 * SECOND
  {
    StaleStep(states[i], passes[i], id);
    OverdueInPass(states[i], passes[i], id);
    NotBefore(states, passes, i, n, id);
  }

  lemma OverdueInPass(stored: Entries, env: PassEnv, id: string)
    requires var e := StaleEvent(stored, env, id); e.failing && !e.healthy && e.accepted
    requires StaleNodes.Overdue(Lookup(stored, StaleSince(id)), env.health.forget.now)
    ensures Lookup(Pass(stored, env).stored, StaleSince(id)) == None
  {
    var k := StaleSince(id);
    CrashAgrees(stored, env, k);
    TopologyLeaves(CrashState(stored, env), env.topology, k);
    var s := TopologyOf(stored, env).state;
    AfterStateLeaves(s, env.health, k);
    StaleNodes.OverdueDrops(AfterState(s, env.health), env.health.forget, id);
  }

  /** Behind a pass that leaves no stamp, a node is not forgotten within 29 seconds. */
  lemma NotBefore(states: seq<Entries>, passes: seq<PassEnv>, i: nat, n: nat, id: string)
    requires IsRun(states, passes) && i < n < |passes|
    requires StaleSince(id) !in states[i + 1] && id in Pass(states[n], passes[n]).forgotten
    requires forall m | i < m < n :: passes[m].health.forget.now >= passes[i].health.forget.now
    ensures passes[n].health.forget.now - passes[i].health.forget.now > 29 * SECOND
  {
    var stamps, events := Stamps(states, StaleSince(id)), StaleEvents(states, passes, id);
    StaleSteps(states, passes, id);
    assert stamps[i + 1] == None;
    forall m | i + 1 <= m < n ensures events[m].failing ==> events[m].now >= passes[i].health.forget.now {
      assert events[m] == StaleEvent(states[m], passes[m], id);
    }
    StaysYounger(stamps, events, i + 1, n, passes[i].health.forget.now);
    StaleStep(states[n], passes[n], id);
  }

  /** A pass during an update or a scaling, or with a terminating pod, forgets nothing and leaves
      every stamp of a node. */
  lemma GuardedPass(stored: Entries, env: PassEnv, id: string)
    requires || (env.health.forget.sts.Status? && (env.health.forget.sts.rolling || env.health.forget.sts.scaling))
             || !env.health.forget.listOk
             || exists p | p in env.health.forget.pods :: p.terminating
    ensures Pass(stored, env).forgotten == []
    ensures Lookup(Pass(stored, env).stored, StaleSince(id)) == Lookup(stored, StaleSince(id))
  {
    var k := StaleSince(id);
    CrashAgrees(stored, env, k);
    TopologyLeaves(CrashState(stored, env), env.topology, k);
    if ReachesHealth(stored, env) {
      var s := TopologyOf(stored, env).state;
      AfterStateLeaves(s, env.health, k);
      StaleNodes.GuardsHold(AfterState(s, env.health), env.health.forget);
    }
  }

  // ----------------------------------------------------------------- crash loops

  function CrashEvent(env: PassEnv, pod: string): Event {
    if env.early then BLIND else CrashLoop.EventOf(env.crash, pod)
  }

  /** Only the crash-loop step touches the stamp of a pod. */
  lemma CrashStampOfPass(stored: Entries, env: PassEnv, pod: string)
    ensures Lookup(Pass(stored, env).stored, CrashSince(pod)) ==
            Lookup(if env.early then stored else CrashState(stored, env).stored, CrashSince(pod))
  {
    var k := CrashSince(pod);
    TopologyLeaves(CrashState(stored, env), env.topology, k);
    if ReachesHealth(stored, env) {
      var s := TopologyOf(stored, env).state;
      AfterStateLeaves(s, env.health, k);
      StaleNodes.ForgetLeaves(AfterState(s, env.health), env.health.forget, k);
    }
  }

  lemma CrashStepOfPass(stored: Entries, env: PassEnv, pod: string)
    ensures Step(Lookup(stored, CrashSince(pod)), Lookup(Pass(stored, env).stored, CrashSince(pod)),
                 CrashEvent(env, pod))
  {
    CrashLoop.CrashStepAt(Memory(stored, stored), env.crash, pod);
    CrashStampOfPass(stored, env, pod);
  }

  function CrashEvents(passes: seq<PassEnv>, pod: string): seq<Event> {
    seq(|passes|, i requires 0 <= i < |passes| => CrashEvent(passes[i], pod))
  }

  lemma CrashSteps(states: seq<Entries>, passes: seq<PassEnv>, pod: string)
    requires IsRun(states, passes)
    ensures Steps(Stamps(states, CrashSince(pod)), CrashEvents(passes, pod))
  {
    forall i | 0 <= i < |passes|
      ensures Step(Lookup(states[i], CrashSince(pod)), Lookup(states[i + 1], CrashSince(pod)),
                   CrashEvent(passes[i], pod))
    {
      CrashStepOfPass(states[i], passes[i], pod);
    }
  }

  /** A pod is deleted only in a pass that found its recovery Job running or finished, without
      failures, and did not create it; the crash was persisted more than 179 seconds earlier, and
      no pass in between persisted that the pod had recovered. */
  lemma CrashSafety(states: seq<Entries>, passes: seq<PassEnv>, n: nat, pod: string) returns (i: nat)
    requires IsRun(states, passes) && n < |passes| && CrashSince(pod) !in states[0]
    requires CrashLoop.DeletePod(pod) in Pass(states[n], passes[n]).crash
    ensures pod in passes[n].crash.jobs && passes[n].crash.jobs[pod].failed == 0
    ensures passes[n].crash.jobs[pod].active > 0 || passes[n].crash.jobs[pod].succeeded > 0
    ensures CrashLoop.CreateJob(pod) !in Pass(states[n], passes[n]).crash
    ensures i < n && CrashEvent(passes[i], pod).failing && CrashEvent(passes[i], pod).accepted
    ensures passes[n].crash.now - passes[i].crash.now > 179 * SECOND
    ensures forall j | i < j < n :: !(CrashEvent(passes[j], pod).healthy && CrashEvent(passes[j], pod).accepted)
    ensures CrashEvent(passes[n], pod).failing
  {
    var stored := states[n];
    CrashLoop.DeletesOnlyWithJob(Memory(stored, stored), passes[n].crash, pod);
    var stamps, events := Stamps(states, CrashSince(pod)), CrashEvents(passes, pod);
    CrashSteps(states, passes, pod);
    i := Origin(stamps, events, n, stamps[n].value);
    assert events[i] == CrashEvent(passes[i], pod);
    forall j | i < j < n ensures !(CrashEvent(passes[j], pod).healthy && CrashEvent(passes[j], pod).accepted) {
      assert events[j] == CrashEvent(passes[j], pod);
    }
  }

  predicate PressesCrash(env: PassEnv, pod: string) {
    !env.early && CrashLoop.PressesOn(env.crash, pod)
  }

  /** There is no Job for the pod, and one can be created. */
  predicate JobMissing(env: PassEnv, pod: string) {
    pod !in env.crash.jobs && pod !in env.crash.lookupFails && pod !in env.crash.createFails
  }

  lemma CrashPresses(stored: Entries, env: PassEnv, pod: string)
    requires PressesCrash(env, pod)
    ensures Presses(Lookup(stored, CrashSince(pod)), Lookup(Pass(stored, env).stored, CrashSince(pod)), env.crash.now,
                    CrashLoop.DeletePod(pod) in Pass(stored, env).crash && pod !in env.crash.deleteFails)
    ensures CrashLoop.DeletePod(pod) in Pass(stored, env).crash <==>
            CrashLoop.JobWorks(env.crash, pod) && CrashLoop.Overdue(Lookup(stored, CrashSince(pod)), env.crash.now)
    ensures CrashLoop.CreateJob(pod) in Pass(stored, env).crash <==>
            JobMissing(env, pod) && CrashLoop.Overdue(Lookup(stored, CrashSince(pod)), env.crash.now)
  {
    CrashLoop.CrashPresses(Memory(stored, stored), env.crash, pod);
    CrashStampOfPass(stored, env, pod);
  }

  /** Along a stretch of passes that see the pod crashing, with accepted patches, and do not get rid
      of it, the crash becomes overdue. */
  lemma CrashAges(states: seq<Entries>, passes: seq<PassEnv>, i: nat, n: nat, pod: string)
    requires IsRun(states, passes) && i < n < |passes|
    requires forall j | i <= j <= n :: PressesCrash(passes[j], pod)
    requires CrashSince(pod) !in states[i] || NoLaterThan(Lookup(states[i], CrashSince(pod)), passes[i].crash.now)
    requires passes[n].crash.now - passes[i].crash.now >= 180 * SECOND
    requires forall j | i <= j < n :: CrashLoop.DeletePod(pod) !in Pass(states[j], passes[j]).crash
    ensures CrashLoop.Overdue(Lookup(states[n], CrashSince(pod)), passes[n].crash.now)
  {
    var stamps := Stamps(states, CrashSince(pod));
    var nows := seq(|passes|, j requires 0 <= j < |passes| => passes[j].crash.now);
    forall j | i <= j < n ensures Presses(stamps[j], stamps[j + 1], nows[j], false) {
      CrashPresses(states[j], passes[j], pod);
    }
    Lasts(stamps, nows, i, n);
  }

  /** The other direction: a pod that every pass of a stretch sees crashing, with accepted patches,
      is deleted by the time 180 seconds have passed since the first of them and its Job works. */
  lemma CrashProgress(states: seq<Entries>, passes: seq<PassEnv>, i: nat, n: nat, pod: string) returns (m: nat)
    requires IsRun(states, passes) && i < n < |passes|
    requires forall j | i <= j <= n :: PressesCrash(passes[j], pod)
    requires CrashSince(pod) !in states[i] || NoLaterThan(Lookup(states[i], CrashSince(pod)), passes[i].crash.now)
    requires passes[n].crash.now - passes[i].crash.now >= 180 * SECOND
    requires CrashLoop.JobWorks(passes[n].crash, pod)
    ensures i <= m <= n && CrashLoop.DeletePod(pod) in Pass(states[m], passes[m]).crash
  {
    if m' :| i <= m' < n && CrashLoop.DeletePod(pod) in Pass(states[m'], passes[m']).crash {
      m := m';
    } else {
      m := n;
      CrashAges(states, passes, i, n, pod);
      CrashPresses(states[n], passes[n], pod);
    }
  }

  /** And before that it gets its Job: along such a stretch in which no pass finds one, the Job is
      created by the time 180 seconds have passed and the API allows it. */
  lemma CrashCreates(states: seq<Entries>, passes: seq<PassEnv>, i: nat, n: nat, pod: string)
    requires IsRun(states, passes) && i < n < |passes|
    requires forall j | i <= j <= n :: PressesCrash(passes[j], pod) && pod !in passes[j].crash.jobs
    requires CrashSince(pod) !in states[i] || NoLaterThan(Lookup(states[i], CrashSince(pod)), passes[i].crash.now)
    requires passes[n].crash.now - passes[i].crash.now >= 180 * SECOND
    requires pod !in passes[n].crash.lookupFails && pod !in passes[n].crash.createFails
    ensures CrashLoop.CreateJob(pod) in Pass(states[n], passes[n]).crash
  {
    forall j | i <= j < n ensures CrashLoop.DeletePod(pod) !in Pass(states[j], passes[j]).crash {
      CrashPresses(states[j], passes[j], pod);
    }
    CrashAges(states, passes, i, n, pod);
    CrashPresses(states[n], passes[n], pod);
  }

  /** A pod that was deleted and crashes again gets the full time once more: it is not deleted again
      within 179 seconds. */
  lemma DeletionsSpaced(states: seq<Entries>, passes: seq<PassEnv>, i: nat, n: nat, pod: string)
    requires IsRun(states, passes) && i < n < |passes|
    requires CrashLoop.DeletePod(pod) in Pass(states[i], passes[i]).crash && pod !in passes[i].crash.deleteFails
    requires CrashLoop.DeletePod(pod) in Pass(states[n], passes[n]).crash && passes[i].crash.patch.Accepted?
    requires forall m | i < m < n :: passes[m].crash.now >= passes[i].crash.now
    ensures passes[n].crash.now - passes[i].crash.now > 179 * SECOND
  {
    var stamps, events := Stamps(states, CrashSince(pod)), CrashEvents(passes, pod);
    CrashLoop.DeletionDrops(Memory(states[i], states[i]), passes[i].crash, pod);
    CrashStampOfPass(states[i], passes[i], pod);
    CrashSteps(states, passes, pod);
    assert stamps[i + 1] in {None, Some(Printed(passes[i].crash.now))};
    forall m | i + 1 <= m < n ensures events[m].failing ==> events[m].now >= passes[i].crash.now {
      assert events[m] == CrashEvent(passes[m], pod);
    }
    StaysYounger(stamps, events, i + 1, n, passes[i].crash.now);
    CrashLoop.DeletesOnlyWithJob(Memory(states[n], states[n]), passes[n].crash, pod);
  }
}
