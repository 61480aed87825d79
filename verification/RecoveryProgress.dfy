/** The other direction of the not-ok timer (internal/controller/cluster.go): what happens by the time
    it runs out. The passes that wait for it also start it and keep it. */
module RecoveryProgress {
  import opened Options
  import opened Annotations
  import opened RecoveryTimer
  import opened ClusterTopology
  import opened Reconcile
  import opened Runs
  import opened PersistedTimer
  import opened PushSpacing
  import Bootstrap
  import CrashLoop

  /** A check that finds no timer starts it; one that finds a timer leaves it. */
  lemma CheckPresses(s: Memory, now: int, patch: PatchOutcome)
    requires Agree(s, ClusterNotOkSince) && patch.Accepted?
    ensures Presses(Timer(s.stored), Timer(AfterCheck(s, now, patch).stored), now, false)
  {
    if ClusterNotOkSince !in s.mem {
      PatchedAt(s.(mem := s.mem[ClusterNotOkSince := Printed(now)]), s.mem, patch.kept, ClusterNotOkSince);
    }
  }

  // ----------------------------------------------------------------- pushes

  /** The pass finds the cluster diverged, and the timer it may start is persisted. */
  predicate WaitsForGossip(env: PassEnv) {
    Asks(env) && ViewOf(env.topology.answers) == Diverged && env.topology.timer.patch.Accepted?
  }

  /** Such a pass starts the timer, keeps it, or pushes, which it does exactly when the timer has
      run out. */
  lemma GossipPresses(stored: Entries, env: PassEnv)
    requires WaitsForGossip(env)
    ensures Presses(Timer(stored), Timer(Pass(stored, env).stored), env.topology.timer.now,
                    Aged(Timer(stored), env.topology.timer.now, env.topology.timeout))
    ensures Pass(stored, env).pushed ==
            if Aged(Timer(stored), env.topology.timer.now, env.topology.timeout) && env.topology.push.Pushed?
            then Some(env.topology.push.at) else None
  {
    CrashAgrees(stored, env, ClusterNotOkSince);
    CheckPresses(CrashState(stored, env), env.topology.timer.now, env.topology.timer.patch);
  }

  /** In every run, a stretch of passes that find the cluster diverged pushes the topology by the
      time the timeout has passed since the first of them. */
  lemma PushProgress(states: seq<Entries>, passes: seq<PassEnv>, i: nat, n: nat) returns (m: nat)
    requires IsRun(states, passes) && i < n < |passes|
    requires forall j | i <= j <= n :: WaitsForGossip(passes[j]) && passes[j].topology.push.Pushed?
    requires Timer(states[i]) == None || NoLaterThan(Timer(states[i]), passes[i].topology.timer.now)
    requires passes[n].topology.timer.now - passes[i].topology.timer.now >= passes[n].topology.timeout
    ensures i <= m <= n && Pass(states[m], passes[m]).pushed == Some(passes[m].topology.push.at)
  {
    if m' :| i <= m' < n && Pass(states[m'], passes[m']).pushed.Some? {
      m := m';
      GossipPresses(states[m], passes[m]);
    } else {
      m := n;
      var nows := seq(|passes|, j requires 0 <= j < |passes| => passes[j].topology.timer.now);
      forall j | i <= j < n ensures Presses(Timers(states)[j], Timers(states)[j + 1], nows[j], false) {
        assert Pass(states[j], passes[j]).pushed.None?;
        GossipPresses(states[j], passes[j]);
      }
      Lasts(Timers(states), nows, i, n);
      GossipPresses(states[n], passes[n]);
    }
  }

  // ----------------------------------------------------------------- forced resets

  /** The pass bootstraps, finds all pods and stale peers in one of them, and the timer it may start
      is persisted. */
  predicate WaitsForPeers(env: PassEnv) {
    && Asks(env) && ViewOf(env.topology.answers) == Unformed
    && env.topology.boot.secretOk && env.topology.boot.ready >= env.topology.boot.total
    && Bootstrap.NotReady(Bootstrap.STALE_PEERS) in env.topology.boot.results
    && env.topology.boot.timer.patch.Accepted?
  }

  /** Such a pass starts the timer, keeps it, or forces a reset, which it does exactly when the timer
      has run out. Without a Job it then resets and creates one. */
  lemma PeersPress(stored: Entries, env: PassEnv)
    requires WaitsForPeers(env)
    ensures Presses(Timer(stored), Timer(Pass(stored, env).stored), env.topology.boot.timer.now,
                    ForcesOn(stored, env.topology.boot))
    ensures Bootstrap.CreateJob in Pass(stored, env).boot <==>
            ForcesOn(stored, env.topology.boot) && env.topology.boot.job == Bootstrap.NotFound
    ensures Bootstrap.CreateJob in Pass(stored, env).boot ==> Bootstrap.Reset in Pass(stored, env).boot
  {
    var s, boot := CrashState(stored, env), env.topology.boot;
    CrashAgrees(stored, env, ClusterNotOkSince);
    CheckPresses(s, boot.timer.now, boot.timer.patch);
    assert Bootstrap.Forces(s, boot) == ForcesOn(stored, boot);
    assert !Bootstrap.Starts(boot) && !Bootstrap.AlreadyFormed(boot.results);
    Bootstrap.ResetsAre(s, boot);
    Bootstrap.ResetIssued(s, boot);
    Bootstrap.BootPaths(s, boot);
  }

  /** In every run, a stretch of passes that find stale peers and no Job resets the nodes and creates
      the Job by the time the timeout has passed since the first of them. */
  lemma ResetProgress(states: seq<Entries>, passes: seq<PassEnv>, i: nat, n: nat) returns (m: nat)
    requires IsRun(states, passes) && i < n < |passes|
    requires forall j | i <= j <= n :: WaitsForPeers(passes[j]) && passes[j].topology.boot.job == Bootstrap.NotFound
    requires Timer(states[i]) == None || NoLaterThan(Timer(states[i]), passes[i].topology.boot.timer.now)
    requires passes[n].topology.boot.timer.now - passes[i].topology.boot.timer.now >= passes[n].topology.boot.timeout
    ensures i <= m <= n
    ensures Bootstrap.Reset in Pass(states[m], passes[m]).boot && Bootstrap.CreateJob in Pass(states[m], passes[m]).boot
  {
    if m' :| i <= m' < n && Bootstrap.CreateJob in Pass(states[m'], passes[m']).boot {
      m := m';
      PeersPress(states[m], passes[m]);
    } else {
      m := n;
      var nows := seq(|passes|, j requires 0 <= j < |passes| => passes[j].topology.boot.timer.now);
      forall j | i <= j < n ensures Presses(Timers(states)[j], Timers(states)[j + 1], nows[j], false) {
        PeersPress(states[j], passes[j]);
      }
      Lasts(Timers(states), nows, i, n);
      PeersPress(states[n], passes[n]);
    }
  }

  // ----------------------------------------------------------------- stamps that cannot be read

  // A stamp that does not parse holds everything back that waits for it.

  /** No push and no forced reset. */
  lemma MalformedTimer(stored: Entries, env: PassEnv)
    requires Timer(stored) == Some(Malformed)
    ensures Pass(stored, env).pushed == None && !Bootstrap.Forces(CrashState(stored, env), env.topology.boot)
  {
    CrashAgrees(stored, env, ClusterNotOkSince);
  }

  /** No CLUSTER FORGET of the node. */
  lemma MalformedStale(stored: Entries, env: PassEnv, id: string)
    requires Lookup(stored, StaleSince(id)) == Some(Malformed)
    ensures id !in Pass(stored, env).forgotten
  {
    StaleStep(stored, env, id);
  }

  /** Neither Job nor deletion for the pod. */
  lemma MalformedCrash(stored: Entries, env: PassEnv, action: CrashLoop.Action)
    requires Lookup(stored, CrashSince(action.pod)) == Some(Malformed)
    ensures action !in Pass(stored, env).crash
  {
    if action in CrashLoop.CrashStep(Memory(stored, stored), env.crash).actions {
      CrashLoop.SweepActs(stored, env.crash.pods, env.crash, action);
    }
  }
}
