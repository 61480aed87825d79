/** `reconcileCrashLoopRecovery` (internal/controller/recovery.go): a pod that has been crash-looping
    beyond the threshold gets a Job that wipes its volume; once the Job runs, the pod is deleted. */
module CrashLoop {
  import opened Options
  import opened Annotations
  import opened PersistedTimer

  const CRASH_THRESHOLD: int := 180 * SECOND

  datatype Container = Container(name: string, waiting: Option<string>, restarts: nat)

  datatype Pod = Pod(name: string, containers: seq<Container>)

  datatype Job = Job(failed: nat, active: nat, succeeded: nat)

  const NEW_JOB := Job(0, 0, 0)

  /** The recovery Jobs by pod when the step starts, and the API calls that fail. */
  datatype CrashEnv = CrashEnv(
    listOk: bool,
    pods: seq<Pod>,
    jobs: map<string, Job>,
    lookupFails: set<string>,
    createFails: set<string>,
    deleteFails: set<string>,
    now: int,
    patch: PatchOutcome)

  datatype Action = CreateJob(pod: string) | DeletePod(pod: string)

  predicate Stuck(c: Container) {
    c.name == "valkey" && c.waiting == Some("CrashLoopBackOff") && c.restarts >= 3
  }

  predicate Crashing(pod: Pod) {
    exists c | c in pod.containers :: Stuck(c)
  }

  method IsCrashLoopBackOff(pod: Pod) returns (r: bool)
    ensures r <==> exists c | c in pod.containers ::
                     c.name == "valkey" && c.waiting == Some("CrashLoopBackOff") && c.restarts >= 3
  {
    for i := 0 to |pod.containers|
      invariant forall j | 0 <= j < i :: !Stuck(pod.containers[j])
    {
      var c := pod.containers[i];
      if c.name != "valkey" {
        continue;
      }
      if c.waiting == Some("CrashLoopBackOff") && c.restarts >= 3 {
        assert c in pod.containers && Stuck(c);
        return true;
      }
    }
    return false;
  }

  // ----------------------------------------------------------------- recovery of one pod

  /** The Jobs afterwards, the API call made if any, and whether the pod is gone. */
  datatype Recovery = Recovery(jobs: map<string, Job>, actions: seq<Action>, deleted: bool)

  /** A Job that runs or has finished, without failures. */
  predicate Working(job: Job) {
    job.failed == 0 && (job.active > 0 || job.succeeded > 0)
  }

  function Recover(jobs: map<string, Job>, pod: string, env: CrashEnv): Recovery {
    if pod in env.lookupFails then Recovery(jobs, [], false)
    else if pod !in jobs then
      if pod in env.createFails then Recovery(jobs, [], false)
      else Recovery(jobs[pod := NEW_JOB], [CreateJob(pod)], false)
    else if Working(jobs[pod]) then Recovery(jobs, [DeletePod(pod)], pod !in env.deleteFails)
    else Recovery(jobs, [], false)
  }

  /** At most one call is made, and it is for this pod: a deletion exactly when the Job was there
      and works, a creation exactly when there was none. The Jobs change only by the creation, and
      the pod is gone only if its deletion has not failed. */
  method RecoverCorruptedPod(jobs: map<string, Job>, pod: string, env: CrashEnv) returns (r: Recovery)
    ensures |r.actions| <= 1 && forall a | a in r.actions :: a.pod == pod
    ensures DeletePod(pod) in r.actions <==>
            && pod !in env.lookupFails && pod in jobs
            && jobs[pod].failed == 0 && (jobs[pod].active > 0 || jobs[pod].succeeded > 0)
    ensures CreateJob(pod) in r.actions <==> pod !in env.lookupFails && pod !in jobs && pod !in env.createFails
    ensures CreateJob(pod) in r.actions ==> r.jobs == jobs[pod := NEW_JOB]
    ensures CreateJob(pod) !in r.actions ==> r.jobs == jobs
    ensures r.deleted <==> DeletePod(pod) in r.actions && pod !in env.deleteFails
  {
    if pod in env.lookupFails {
      return Recovery(jobs, [], false);
    }
    if pod !in jobs {
      if pod in env.createFails {
        return Recovery(jobs, [], false);
      }
      return Recovery(jobs[pod := NEW_JOB], [CreateJob(pod)], false);
    }
    var job := jobs[pod];
    if job.failed > 0 {
      return Recovery(jobs, [], false);
    } else if job.active > 0 || job.succeeded > 0 {
      if pod in env.deleteFails {
        return Recovery(jobs, [DeletePod(pod)], false);
      }
      return Recovery(jobs, [DeletePod(pod)], true);
    } else {
      return Recovery(jobs, [], false);
    }
  }

  /** These promises leave one outcome. */
  lemma RecoveryIs(jobs: map<string, Job>, pod: string, env: CrashEnv, r: Recovery)
    requires |r.actions| <= 1 && forall a | a in r.actions :: a.pod == pod
    requires DeletePod(pod) in r.actions <==> pod !in env.lookupFails && pod in jobs && Working(jobs[pod])
    requires CreateJob(pod) in r.actions <==> pod !in env.lookupFails && pod !in jobs && pod !in env.createFails
    requires CreateJob(pod) in r.actions ==> r.jobs == jobs[pod := NEW_JOB]
    requires CreateJob(pod) !in r.actions ==> r.jobs == jobs
    requires r.deleted <==> DeletePod(pod) in r.actions && pod !in env.deleteFails
    ensures r == Recover(jobs, pod, env)
  {
    if |r.actions| == 1 {
      assert r.actions[0] in r.actions;
      assert r.actions == [r.actions[0]];
    }
  }

  // ----------------------------------------------------------------- the loop over the pods

  datatype Sweep = Sweep(mem: Entries, jobs: map<string, Job>, actions: seq<Action>, changed: bool)

  function Visit(a: Sweep, pod: Pod, env: CrashEnv): Sweep {
    var key := CrashSince(pod.name);
    if !Crashing(pod) then
      if key in a.mem then a.(mem := a.mem - {key}, changed := true) else a
    else
      match Lookup(a.mem, key)
      case None => a.(mem := a.mem[key := Printed(env.now)], changed := true)
      case Some(Malformed) => a
      case Some(Stamp(t)) =>
        if env.now - t < CRASH_THRESHOLD then a
        else
          var r := Recover(a.jobs, pod.name, env);
          Sweep(if r.deleted then a.mem - {key} else a.mem, r.jobs, a.actions + r.actions, a.changed || r.deleted)
  }

  function SweepAll(mem: Entries, pods: seq<Pod>, env: CrashEnv): Sweep {
    if |pods| == 0 then Sweep(mem, env.jobs, [], false)
    else Visit(SweepAll(mem, pods[..|pods| - 1], env), pods[|pods| - 1], env)
  }

  datatype CrashOutcome = CrashOutcome(state: Memory, actions: seq<Action>)

  function CrashStep(s: Memory, env: CrashEnv): CrashOutcome {
    if !env.listOk then CrashOutcome(s, [])
    else
      var sweep := SweepAll(s.mem, env.pods, env);
      var swept := s.(mem := sweep.mem);
      CrashOutcome(if sweep.changed then Patched(swept, s.mem, env.patch) else swept, sweep.actions)
  }

  method ReconcileCrashLoopRecovery(vc: ClusterResource, env: CrashEnv) returns (actions: seq<Action>)
    modifies vc
    ensures CrashOutcome(vc.State(), actions) == CrashStep(old(vc.State()), env)
  {
    actions := [];
    if !env.listOk {
      return;
    }
    var base, jobs, changed := vc.annotations, env.jobs, false;
    for i := 0 to |env.pods|
      invariant vc.stored == old(vc.stored)
      invariant Sweep(vc.annotations, jobs, actions, changed) == SweepAll(base, env.pods[..i], env)
    {
      assert env.pods[..i + 1][..i] == env.pods[..i];
      var pod := env.pods[i];
      var key := CrashSince(pod.name);
      var crashing := IsCrashLoopBackOff(pod);
      if !crashing {
        if key in vc.annotations {
          vc.annotations := vc.annotations - {key};
          changed := true;
        }
        continue;
      }
      if key !in vc.annotations {
        vc.annotations := vc.annotations[key := Printed(env.now)];
        changed := true;
        continue;
      }
      var since := vc.annotations[key];
      if since.Malformed? || env.now - since.at < CRASH_THRESHOLD {
        continue;
      }
      var r := RecoverCorruptedPod(jobs, pod.name, env);
      RecoveryIs(jobs, pod.name, env, r);
      jobs, actions := r.jobs, actions + r.actions;
      if r.deleted {
        vc.annotations := vc.annotations - {key};
        changed := true;
      }
    }
    assert env.pods[..|env.pods|] == env.pods;
    if changed {
      var _ := vc.Patch(base, env.patch);
    }
  }

  // ----------------------------------------------------------------- one pod

  predicate SawCrashing(pods: seq<Pod>, name: string) {
    exists p | p in pods :: p.name == name && Crashing(p)
  }

  predicate SawRecovered(pods: seq<Pod>, name: string) {
    exists p | p in pods :: p.name == name && !Crashing(p)
  }

  /** The crash is old enough for the recovery. */
  predicate Overdue(v: Option<Value>, now: int) {
    Aged(v, now, CRASH_THRESHOLD)
  }

  lemma SawNext(pods: seq<Pod>, p: Pod, name: string)
    ensures SawCrashing(pods + [p], name) <==> SawCrashing(pods, name) || (p.name == name && Crashing(p))
    ensures SawRecovered(pods + [p], name) <==> SawRecovered(pods, name) || (p.name == name && !Crashing(p))
  {
    assert p in pods + [p] && forall q | q in pods :: q in pods + [p];
  }

  /** What the sweep does to the annotation of one pod. */
  lemma {:induction false} SweepKey(mem: Entries, pods: seq<Pod>, env: CrashEnv, name: string)
    ensures var sweep := SweepAll(mem, pods, env);
            var before, after := Lookup(mem, CrashSince(name)), Lookup(sweep.mem, CrashSince(name));
            && (after == before || after == None || (after == Some(Printed(env.now)) && SawCrashing(pods, name)))
            && (SawRecovered(pods, name) ==>
                  after == None || (after == Some(Printed(env.now)) && SawCrashing(pods, name)))
            && (!sweep.changed ==> sweep.mem == mem)
  {
    if |pods| > 0 {
      var init, p := pods[..|pods| - 1], pods[|pods| - 1];
      SweepKey(mem, init, env, name);
      assert pods == init + [p];
      SawNext(init, p, name);
    }
  }

  /** During the sweep, the Job of a pod is the one from the start, or was created on the way. */
  lemma {:induction false} SweepJobs(mem: Entries, pods: seq<Pod>, env: CrashEnv, name: string)
    ensures var jobs := SweepAll(mem, pods, env).jobs;
            if name in env.jobs then name in jobs && jobs[name] == env.jobs[name]
            else name in jobs ==> jobs[name] == NEW_JOB
  {
    if |pods| > 0 {
      SweepJobs(mem, pods[..|pods| - 1], env, name);
    }
  }

  lemma VisitActs(a: Sweep, p: Pod, env: CrashEnv, action: Action)
    requires action in Visit(a, p, env).actions && action !in a.actions
    ensures action.pod == p.name && Crashing(p) && Overdue(Lookup(a.mem, CrashSince(p.name)), env.now)
    ensures action.pod !in env.lookupFails
    ensures action.DeletePod? ==> p.name in a.jobs && Working(a.jobs[p.name])
    ensures action.CreateJob? ==> p.name !in a.jobs && p.name !in env.createFails
  {
  }

  lemma {:induction false} SweepActs(mem: Entries, pods: seq<Pod>, env: CrashEnv, action: Action)
    requires action in SweepAll(mem, pods, env).actions
    ensures SawCrashing(pods, action.pod) && Overdue(Lookup(mem, CrashSince(action.pod)), env.now)
    ensures action.pod !in env.lookupFails
    ensures action.DeletePod? ==> action.pod in env.jobs && Working(env.jobs[action.pod])
    ensures action.CreateJob? ==> action.pod !in env.jobs && action.pod !in env.createFails
  {
    if |pods| > 0 {
      var init, p := pods[..|pods| - 1], pods[|pods| - 1];
      assert pods == init + [p];
      SawNext(init, p, action.pod);
      if action in SweepAll(mem, init, env).actions {
        SweepActs(mem, init, env, action);
      } else {
        VisitActs(SweepAll(mem, init, env), p, env, action);
        SweepKey(mem, init, env, action.pod);
        SweepJobs(mem, init, env, action.pod);
      }
    }
  }

  /** A crash that is overdue leads to the deletion once the Job works, whatever else is listed. */
  lemma {:induction false} SweepDeletes(mem: Entries, pods: seq<Pod>, env: CrashEnv, name: string)
    requires Overdue(Lookup(mem, CrashSince(name)), env.now) && !SawRecovered(pods, name)
    requires name !in env.lookupFails && name in env.jobs && Working(env.jobs[name])
    ensures var sweep := SweepAll(mem, pods, env);
            if SawCrashing(pods, name) then DeletePod(name) in sweep.actions
            else Lookup(sweep.mem, CrashSince(name)) == Lookup(mem, CrashSince(name))
  {
    if |pods| > 0 {
      var init, p := pods[..|pods| - 1], pods[|pods| - 1];
      assert pods == init + [p];
      SawNext(init, p, name);
      SweepDeletes(mem, init, env, name);
      SweepJobs(mem, init, env, name);
    }
  }

  /** A crash that is overdue gets its Job if there is none, whatever else is listed. */
  lemma {:induction false} SweepCreates(mem: Entries, pods: seq<Pod>, env: CrashEnv, name: string)
    requires Overdue(Lookup(mem, CrashSince(name)), env.now) && !SawRecovered(pods, name)
    requires name !in env.lookupFails && name !in env.jobs && name !in env.createFails
    ensures var sweep := SweepAll(mem, pods, env);
            && Lookup(sweep.mem, CrashSince(name)) == Lookup(mem, CrashSince(name))
            && (SawCrashing(pods, name) ==> CreateJob(name) in sweep.actions)
            && (!SawCrashing(pods, name) ==> name !in sweep.jobs)
  {
    if |pods| > 0 {
      var init, p := pods[..|pods| - 1], pods[|pods| - 1];
      assert pods == init + [p];
      SawNext(init, p, name);
      SweepCreates(mem, init, env, name);
      SweepJobs(mem, init, env, name);
    }
  }

  /** A pod that is gone takes its stamp along; only this pass may have written a new one. */
  lemma {:induction false} SweepDrops(mem: Entries, pods: seq<Pod>, env: CrashEnv, name: string)
    requires name !in env.deleteFails && DeletePod(name) in SweepAll(mem, pods, env).actions
    ensures Lookup(SweepAll(mem, pods, env).mem, CrashSince(name)) in {None, Some(Printed(env.now))}
  {
    var init, p := pods[..|pods| - 1], pods[|pods| - 1];
    if DeletePod(name) in SweepAll(mem, init, env).actions {
      SweepDrops(mem, init, env, name);
    } else {
      VisitActs(SweepAll(mem, init, env), p, env, DeletePod(name));
    }
  }

  lemma {:induction false} SweepLeaves(mem: Entries, pods: seq<Pod>, env: CrashEnv, k: Key)
    requires !k.CrashSince?
    ensures Lookup(SweepAll(mem, pods, env).mem, k) == Lookup(mem, k)
  {
    if |pods| > 0 {
      SweepLeaves(mem, pods[..|pods| - 1], env, k);
    }
  }

  /** The step leaves every other annotation alone. */
  lemma CrashLeaves(s: Memory, env: CrashEnv, k: Key)
    requires !k.CrashSince?
    ensures Leaves(s, CrashStep(s, env).state, k)
  {
    if env.listOk {
      SweepLeaves(s.mem, env.pods, env, k);
      PatchLeaves(s.(mem := SweepAll(s.mem, env.pods, env).mem), s.mem, env.patch, k);
    }
  }

  /** The step as an event in the life of one pod's stamp. */
  function EventOf(env: CrashEnv, name: string): Event {
    if !env.listOk then Event(env.now, false, false, false)
    else Event(env.now, SawCrashing(env.pods, name), SawRecovered(env.pods, name), env.patch.Accepted?)
  }

  lemma CrashStepAt(s: Memory, env: CrashEnv, name: string)
    requires Agree(s, CrashSince(name))
    ensures var after := CrashStep(s, env).state;
            Step(Lookup(s.stored, CrashSince(name)), Lookup(after.stored, CrashSince(name)), EventOf(env, name))
  {
    if env.listOk {
      SweepKey(s.mem, env.pods, env, name);
      var sweep := SweepAll(s.mem, env.pods, env);
      if sweep.changed && env.patch.Accepted? {
        PatchWrites(s.(mem := sweep.mem), s.mem, env.patch.kept, CrashSince(name));
      }
    }
  }

  /** A pod is deleted only when its Job already existed, without failures and running or
      finished; the Job is never created in the same pass; and the crash is overdue. */
  lemma DeletesOnlyWithJob(s: Memory, env: CrashEnv, name: string)
    requires Agree(s, CrashSince(name)) && DeletePod(name) in CrashStep(s, env).actions
    ensures name in env.jobs && env.jobs[name].failed == 0
    ensures env.jobs[name].active > 0 || env.jobs[name].succeeded > 0
    ensures CreateJob(name) !in CrashStep(s, env).actions
    ensures EventOf(env, name).failing && Overdue(Lookup(s.stored, CrashSince(name)), env.now)
  {
    SweepActs(s.mem, env.pods, env, DeletePod(name));
    if CreateJob(name) in CrashStep(s, env).actions {
      SweepActs(s.mem, env.pods, env, CreateJob(name));
    }
  }

  /** Listed as crashing and nothing else, a pod gets a stamp or keeps the one it has, unless it is
      gone. */
  lemma {:induction false} SweepPresses(mem: Entries, pods: seq<Pod>, env: CrashEnv, name: string)
    requires !SawRecovered(pods, name)
    ensures var sweep := SweepAll(mem, pods, env);
            var before, after := Lookup(mem, CrashSince(name)), Lookup(sweep.mem, CrashSince(name));
            || (DeletePod(name) in sweep.actions && name !in env.deleteFails)
            || after == (if before == None && SawCrashing(pods, name) then Some(Printed(env.now)) else before)
  {
    if |pods| > 0 {
      var init, p := pods[..|pods| - 1], pods[|pods| - 1];
      assert pods == init + [p];
      SawNext(init, p, name);
      SweepPresses(mem, init, env, name);
    }
  }

  /** The step sees the pod crashing and nothing else, and its patch is accepted. */
  predicate PressesOn(env: CrashEnv, name: string) {
    EventOf(env, name).failing && !EventOf(env, name).healthy && EventOf(env, name).accepted
  }

  /** The recovery Job of the pod can be read and works. */
  predicate JobWorks(env: CrashEnv, name: string) {
    name !in env.lookupFails && name in env.jobs && Working(env.jobs[name])
  }

  /** Such a step starts the stamp, keeps it, or ends it with the pod. Once the crash is overdue it
      creates the Job if there is none, and deletes the pod if the Job works. */
  lemma CrashPresses(s: Memory, env: CrashEnv, name: string)
    requires Agree(s, CrashSince(name)) && PressesOn(env, name)
    ensures var out := CrashStep(s, env);
            && Presses(Lookup(s.stored, CrashSince(name)), Lookup(out.state.stored, CrashSince(name)), env.now,
                       DeletePod(name) in out.actions && name !in env.deleteFails)
            && (DeletePod(name) in out.actions <==>
                  JobWorks(env, name) && Overdue(Lookup(s.stored, CrashSince(name)), env.now))
            && (CreateJob(name) in out.actions <==>
                  && name !in env.jobs && name !in env.lookupFails && name !in env.createFails
                  && Overdue(Lookup(s.stored, CrashSince(name)), env.now))
  {
    var sweep := SweepAll(s.mem, env.pods, env);
    SweepPresses(s.mem, env.pods, env, name);
    SweepKey(s.mem, env.pods, env, name);
    if DeletePod(name) in sweep.actions {
      SweepActs(s.mem, env.pods, env, DeletePod(name));
    }
    if CreateJob(name) in sweep.actions {
      SweepActs(s.mem, env.pods, env, CreateJob(name));
    }
    if Overdue(Lookup(s.stored, CrashSince(name)), env.now) && name !in env.lookupFails {
      if JobWorks(env, name) {
        SweepDeletes(s.mem, env.pods, env, name);
      } else if name !in env.jobs && name !in env.createFails {
        SweepCreates(s.mem, env.pods, env, name);
      }
    }
    if sweep.changed {
      PatchWrites(s.(mem := sweep.mem), s.mem, env.patch.kept, CrashSince(name));
    }
  }

  /** What the event says, in terms of the pods that are listed. */
  lemma EventMeans(env: CrashEnv, name: string)
    ensures EventOf(env, name).failing <==>
            env.listOk && exists p | p in env.pods ::
              p.name == name && exists c | c in p.containers ::
                c.name == "valkey" && c.waiting == Some("CrashLoopBackOff") && c.restarts >= 3
    ensures EventOf(env, name).healthy <==>
            env.listOk && exists p | p in env.pods ::
              p.name == name && forall c | c in p.containers ::
                c.name != "valkey" || c.waiting != Some("CrashLoopBackOff") || c.restarts < 3
    ensures EventOf(env, name).accepted <==> env.listOk && env.patch.Accepted?
  {
    assert forall p: Pod :: Crashing(p) <==> exists c | c in p.containers ::
                       c.name == "valkey" && c.waiting == Some("CrashLoopBackOff") && c.restarts >= 3;
  }

  /** A step that gets rid of the pod leaves no stamp from before. */
  lemma DeletionDrops(s: Memory, env: CrashEnv, name: string)
    requires Agree(s, CrashSince(name)) && env.patch.Accepted?
    requires DeletePod(name) in CrashStep(s, env).actions && name !in env.deleteFails
    ensures Lookup(CrashStep(s, env).state.stored, CrashSince(name)) in {None, Some(Printed(env.now))}
  {
    var sweep := SweepAll(s.mem, env.pods, env);
    SweepDrops(s.mem, env.pods, env, name);
    SweepKey(s.mem, env.pods, env, name);
    if sweep.changed {
      PatchWrites(s.(mem := sweep.mem), s.mem, env.patch.kept, CrashSince(name));
    }
  }
}
