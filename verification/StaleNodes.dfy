/** `forgetStaleNodes` (internal/controller/health.go): a node that has been failing with an
    unknown address for the timeout is removed from the cluster with CLUSTER FORGET. */
module StaleNodes {
  import opened Options
  import opened Text
  import opened ClusterNodes
  import opened Annotations
  import opened PersistedTimer

  const STALE_TIMEOUT: int := 30 * SECOND

  datatype Pod = Pod(ip: string, terminating: bool)

  /** The StatefulSet cannot be read, or it says whether an update or a scaling is under way. */
  datatype StatefulSet = Unreadable | Status(rolling: bool, scaling: bool)

  /** `reached` says whether a ready pod takes the CLUSTER FORGET commands. */
  datatype ForgetEnv = ForgetEnv(
    sts: StatefulSet,
    listOk: bool,
    pods: seq<Pod>,
    reached: bool,
    nodes: seq<NodeState>,
    now: int,
    patch: PatchOutcome)

  /** The pass does not look at the nodes. */
  predicate Guarded(env: ForgetEnv) {
    || (env.sts.Status? && (env.sts.rolling || env.sts.scaling))
    || !env.listOk
    || exists p | p in env.pods :: p.terminating
  }

  function KnownIps(pods: seq<Pod>): set<string> {
    set p | p in pods && p.ip != "" :: p.ip
  }

  predicate Failing(n: NodeState) {
    Contains(n.flags, "fail") || Contains(n.flags, "noaddr")
  }

  /** Failing, and at an address that no pod has. */
  predicate Lost(n: NodeState, known: set<string>) {
    Failing(n) && n.ip !in known
  }

  // ----------------------------------------------------------------- the scan over the nodes

  datatype Scan = Scan(mem: Entries, stale: seq<string>, changed: bool)

  function ScanNode(a: Scan, n: NodeState, known: set<string>, now: int): Scan {
    var key := StaleSince(n.id);
    if !Lost(n, known) then
      if key in a.mem then Scan(a.mem - {key}, a.stale, true) else a
    else
      match Lookup(a.mem, key)
      case None => Scan(a.mem[key := Printed(now)], a.stale, true)
      case Some(Malformed) => a
      case Some(Stamp(t)) => if now - t < STALE_TIMEOUT then a else a.(stale := a.stale + [n.id])
  }

  function ScanAll(mem: Entries, nodes: seq<NodeState>, known: set<string>, now: int): Scan {
    if |nodes| == 0 then Scan(mem, [], false)
    else ScanNode(ScanAll(mem, nodes[..|nodes| - 1], known, now), nodes[|nodes| - 1], known, now)
  }

  function StaleKeys(ids: seq<string>): set<Key> {
    set id | id in ids :: StaleSince(id)
  }

  datatype ForgetOutcome = ForgetOutcome(state: Memory, forgotten: seq<string>)

  function Forget(s: Memory, env: ForgetEnv): ForgetOutcome {
    if Guarded(env) then ForgetOutcome(s, [])
    else
      var scan := ScanAll(s.mem, env.nodes, KnownIps(env.pods), env.now);
      var swept := s.(mem := scan.mem - StaleKeys(scan.stale));
      ForgetOutcome(
        if scan.changed || scan.stale != [] then Patched(swept, s.mem, env.patch) else swept,
        if env.reached then scan.stale else [])
  }

  /** The scan cuts the id to 8 characters for the log: when it starts a stamp, and when a node is
      forgotten. Cutting a shorter id would panic. */
  predicate CutsId(a: Scan, n: NodeState, known: set<string>, now: int, reached: bool) {
    && Lost(n, known)
    && match Lookup(a.mem, StaleSince(n.id))
       case None => true
       case Some(Malformed) => false
       case Some(Stamp(t)) => reached && now - t >= STALE_TIMEOUT
  }

  /** No id that is cut is too short. */
  predicate IdsLongEnough(mem: Entries, nodes: seq<NodeState>, known: set<string>, now: int, reached: bool) {
    forall i | 0 <= i < |nodes| ::
      CutsId(ScanAll(mem, nodes[..i], known, now), nodes[i], known, now, reached) ==> |nodes[i].id| >= 8
  }

  predicate MayForget(mem: Entries, env: ForgetEnv) {
    Guarded(env) || IdsLongEnough(mem, env.nodes, KnownIps(env.pods), env.now, env.reached)
  }

  // ----------------------------------------------------------------- the code

  method CollectIps(pods: seq<Pod>) returns (known: set<string>)
    ensures known == KnownIps(pods)
  {
    known := {};
    for i := 0 to |pods|
      invariant known == KnownIps(pods[..i])
    {
      assert pods[..i + 1] == pods[..i] + [pods[i]];
      if pods[i].ip != "" {
        known := known + {pods[i].ip};
      }
    }
    assert pods[..|pods|] == pods;
  }

  /** The loop over the nodes, on the annotations of the copy. */
  method ScanNodes(vc: ClusterResource, nodes: seq<NodeState>, known: set<string>, now: int)
    returns (stale: seq<string>, changed: bool)
    modifies vc
    ensures vc.stored == old(vc.stored)
    ensures Scan(vc.annotations, stale, changed) == ScanAll(old(vc.annotations), nodes, known, now)
  {
    stale, changed := [], false;
    for i := 0 to |nodes|
      invariant vc.stored == old(vc.stored)
      invariant Scan(vc.annotations, stale, changed) == ScanAll(old(vc.annotations), nodes[..i], known, now)
    {
      assert nodes[..i + 1][..i] == nodes[..i];
      var n := nodes[i];
      var key := StaleSince(n.id);
      if !Failing(n) || n.ip in known {
        if key in vc.annotations {
          vc.annotations := vc.annotations - {key};
          changed := true;
        }
        continue;
      }
      if key !in vc.annotations {
        vc.annotations := vc.annotations[key := Printed(now)];
        changed := true;
        continue;
      }
      match vc.annotations[key] {
        case Malformed =>
        case Stamp(t) =>
          if now - t >= STALE_TIMEOUT {
            stale := stale + [n.id];
          }
      }
    }
    assert nodes[..|nodes|] == nodes;
  }

  method DropStale(vc: ClusterResource, ids: seq<string>)
    modifies vc
    ensures vc.stored == old(vc.stored) && vc.annotations == old(vc.annotations) - StaleKeys(ids)
  {
    for i := 0 to |ids|
      invariant vc.stored == old(vc.stored) && vc.annotations == old(vc.annotations) - StaleKeys(ids[..i])
    {
      assert StaleKeys(ids[..i + 1]) == StaleKeys(ids[..i]) + {StaleSince(ids[i])} by {
        assert ids[..i + 1] == ids[..i] + [ids[i]];
      }
      vc.annotations := vc.annotations - {StaleSince(ids[i])};
    }
    assert ids[..|ids|] == ids;
  }

  method AnyTerminating(pods: seq<Pod>) returns (any: bool)
    ensures any <==> exists p | p in pods :: p.terminating
  {
    for i := 0 to |pods|
      invariant forall j | 0 <= j < i :: !pods[j].terminating
    {
      if pods[i].terminating {
        return true;
      }
    }
    return false;
  }

  /** The nodes that are forgotten. */
  method ForgetStaleNodes(vc: ClusterResource, env: ForgetEnv) returns (forgotten: seq<string>)
    requires MayForget(vc.annotations, env)
    modifies vc
    ensures ForgetOutcome(vc.State(), forgotten) == Forget(old(vc.State()), env)
  {
    if env.sts.Status? && (env.sts.rolling || env.sts.scaling) {
      return [];
    }
    if !env.listOk {
      return [];
    }
    var terminating := AnyTerminating(env.pods);
    if terminating {
      return [];
    }
    var known := CollectIps(env.pods);
    var base := vc.annotations;
    var stale, changed := ScanNodes(vc, env.nodes, known, env.now);
    DropStale(vc, stale);
    if |stale| > 0 {
      changed := true;
    }
    if changed {
      var _ := vc.Patch(base, env.patch);
    }
    if !env.reached {
      return [];
    }
    return stale;
  }

  // ----------------------------------------------------------------- one node

  predicate SawLost(nodes: seq<NodeState>, known: set<string>, id: string) {
    exists n | n in nodes :: n.id == id && Lost(n, known)
  }

  predicate SawWell(nodes: seq<NodeState>, known: set<string>, id: string) {
    exists n | n in nodes :: n.id == id && !Lost(n, known)
  }

  /** The stamp is old enough for the node to be forgotten. */
  predicate Overdue(v: Option<Value>, now: int) {
    Aged(v, now, STALE_TIMEOUT)
  }

  lemma SawNext(nodes: seq<NodeState>, n: NodeState, known: set<string>, id: string)
    ensures SawLost(nodes + [n], known, id) <==> SawLost(nodes, known, id) || (n.id == id && Lost(n, known))
    ensures SawWell(nodes + [n], known, id) <==> SawWell(nodes, known, id) || (n.id == id && !Lost(n, known))
  {
    assert n in nodes + [n] && forall m | m in nodes :: m in nodes + [n];
  }

  /** What the scan does to the annotation of one node. */
  lemma {:induction false} ScanKey(mem: Entries, nodes: seq<NodeState>, known: set<string>, now: int, id: string)
    ensures var scan := ScanAll(mem, nodes, known, now);
            var before, after := Lookup(mem, StaleSince(id)), Lookup(scan.mem, StaleSince(id));
            && (after == before || after == None || (after == Some(Printed(now)) && SawLost(nodes, known, id)))
            && (SawWell(nodes, known, id) ==>
                  after == None || (after == Some(Printed(now)) && SawLost(nodes, known, id)))
            && (SawWell(nodes, known, id) || before == None || after == before)
            && (SawLost(nodes, known, id) && !SawWell(nodes, known, id) && before == None ==>
                  after == Some(Printed(now)))
            && (id in scan.stale ==> Overdue(before, now) && SawLost(nodes, known, id))
            && (SawLost(nodes, known, id) && !SawWell(nodes, known, id) && Overdue(before, now) ==> id in scan.stale)
            && (!scan.changed ==> scan.mem == mem)
  {
    if |nodes| > 0 {
      var init, n := nodes[..|nodes| - 1], nodes[|nodes| - 1];
      ScanKey(mem, init, known, now, id);
      assert nodes == init + [n];
      SawNext(init, n, known, id);
    }
  }

  /** The scan leaves every other annotation alone. */
  lemma {:induction false} ScanLeaves(mem: Entries, nodes: seq<NodeState>, known: set<string>, now: int, k: Key)
    requires !k.StaleSince?
    ensures Lookup(ScanAll(mem, nodes, known, now).mem, k) == Lookup(mem, k)
  {
    if |nodes| > 0 {
      ScanLeaves(mem, nodes[..|nodes| - 1], known, now, k);
    }
  }

  lemma ForgetLeaves(s: Memory, env: ForgetEnv, k: Key)
    requires !k.StaleSince?
    ensures Leaves(s, Forget(s, env).state, k)
  {
    if !Guarded(env) {
      var known := KnownIps(env.pods);
      ScanLeaves(s.mem, env.nodes, known, env.now, k);
      var scan := ScanAll(s.mem, env.nodes, known, env.now);
      var swept := s.(mem := scan.mem - StaleKeys(scan.stale));
      PatchLeaves(swept, s.mem, env.patch, k);
    }
  }

  /** The step as an event in the life of one node's stamp. */
  function EventOf(env: ForgetEnv, id: string): Event {
    if Guarded(env) then Event(env.now, false, false, false)
    else
      var known := KnownIps(env.pods);
      Event(env.now, SawLost(env.nodes, known, id), SawWell(env.nodes, known, id), env.patch.Accepted?)
  }

  /** A node is forgotten only when it is seen lost and its stamp is overdue; and then it is
      forgotten unless the same text also lists it in good health. */
  lemma ForgetStep(s: Memory, env: ForgetEnv, id: string)
    requires Agree(s, StaleSince(id))
    ensures var out := Forget(s, env);
            && Step(Lookup(s.stored, StaleSince(id)), Lookup(out.state.stored, StaleSince(id)), EventOf(env, id))
            && (id in out.forgotten ==>
                  env.reached && EventOf(env, id).failing && Overdue(Lookup(s.stored, StaleSince(id)), env.now))
            && (EventOf(env, id).failing && !EventOf(env, id).healthy && env.reached ==>
                  Overdue(Lookup(s.stored, StaleSince(id)), env.now) ==> id in out.forgotten)
  {
    var key := StaleSince(id);
    if !Guarded(env) {
      var known := KnownIps(env.pods);
      ScanKey(s.mem, env.nodes, known, env.now, id);
      var scan := ScanAll(s.mem, env.nodes, known, env.now);
      var swept := s.(mem := scan.mem - StaleKeys(scan.stale));
      assert key in StaleKeys(scan.stale) <==> id in scan.stale;
      if (scan.changed || scan.stale != []) && env.patch.Accepted? {
        PatchWrites(swept, s.mem, env.patch.kept, key);
      }
    }
  }

  /** The step looks, sees the node lost and nothing else, its patch is accepted, and a pod takes
      the commands. */
  predicate PressesOn(env: ForgetEnv, id: string) {
    EventOf(env, id).failing && !EventOf(env, id).healthy && EventOf(env, id).accepted && env.reached
  }

  /** Such a step starts the stamp, keeps it, or forgets the node, which it does if the stamp is
      overdue. */
  lemma ForgetPresses(s: Memory, env: ForgetEnv, id: string)
    requires Agree(s, StaleSince(id)) && PressesOn(env, id)
    ensures var out := Forget(s, env);
            && Presses(Lookup(s.stored, StaleSince(id)), Lookup(out.state.stored, StaleSince(id)), env.now,
                       id in out.forgotten)
            && (id in out.forgotten <==> Overdue(Lookup(s.stored, StaleSince(id)), env.now))
  {
    var key, known := StaleSince(id), KnownIps(env.pods);
    ScanKey(s.mem, env.nodes, known, env.now, id);
    var scan := ScanAll(s.mem, env.nodes, known, env.now);
    var swept := s.(mem := scan.mem - StaleKeys(scan.stale));
    assert key in StaleKeys(scan.stale) <==> id in scan.stale;
    if scan.changed || scan.stale != [] {
      PatchWrites(swept, s.mem, env.patch.kept, key);
    }
  }

  /** What the event says, in terms of what the step is told: it looks when the pods can be listed,
      none is terminating, and no update or scaling is under way; a node is lost when it is flagged
      fail or noaddr and its address is that of no pod. */
  lemma EventMeans(env: ForgetEnv, id: string)
    ensures EventOf(env, id).failing <==>
            && env.listOk && (env.sts.Status? ==> !env.sts.rolling && !env.sts.scaling)
            && (forall p | p in env.pods :: !p.terminating)
            && exists n | n in env.nodes ::
                 && n.id == id && (Contains(n.flags, "fail") || Contains(n.flags, "noaddr"))
                 && forall p | p in env.pods :: p.ip == "" || p.ip != n.ip
    ensures EventOf(env, id).healthy <==>
            && env.listOk && (env.sts.Status? ==> !env.sts.rolling && !env.sts.scaling)
            && (forall p | p in env.pods :: !p.terminating)
            && exists n | n in env.nodes ::
                 && n.id == id
                 && (|| (!Contains(n.flags, "fail") && !Contains(n.flags, "noaddr"))
                     || exists p | p in env.pods :: p.ip != "" && p.ip == n.ip)
    ensures EventOf(env, id).accepted ==> env.patch.Accepted?
  {
    var known := KnownIps(env.pods);
    assert forall ip :: ip in known <==> exists p | p in env.pods :: p.ip != "" && p.ip == ip;
  }

  /** While an update or a scaling is under way, or a pod is terminating, or the pods cannot be
      listed, nothing is forgotten and no annotation changes. */
  lemma GuardsHold(s: Memory, env: ForgetEnv)
    requires || (env.sts.Status? && (env.sts.rolling || env.sts.scaling))
             || !env.listOk
             || exists p | p in env.pods :: p.terminating
    ensures Forget(s, env) == ForgetOutcome(s, [])
  {
  }

  /** A node whose time has run out loses its stamp, whether or not a pod takes the command. */
  lemma OverdueDrops(s: Memory, env: ForgetEnv, id: string)
    requires Agree(s, StaleSince(id)) && env.patch.Accepted?
    requires EventOf(env, id).failing && !EventOf(env, id).healthy && Overdue(Lookup(s.stored, StaleSince(id)), env.now)
    ensures Lookup(Forget(s, env).state.stored, StaleSince(id)) == None
  {
    ScanKey(s.mem, env.nodes, KnownIps(env.pods), env.now, id);
    StaleDrops(s, env, id);
  }

  lemma StaleDrops(s: Memory, env: ForgetEnv, id: string)
    requires Agree(s, StaleSince(id)) && env.patch.Accepted? && !Guarded(env)
    requires id in ScanAll(s.mem, env.nodes, KnownIps(env.pods), env.now).stale
    ensures Lookup(Forget(s, env).state.stored, StaleSince(id)) == None
  {
    var scan := ScanAll(s.mem, env.nodes, KnownIps(env.pods), env.now);
    var swept := s.(mem := scan.mem - StaleKeys(scan.stale));
    assert StaleSince(id) in StaleKeys(scan.stale);
    PatchWrites(swept, s.mem, env.patch.kept, StaleSince(id));
  }

  /** A node that is forgotten takes its stamp along. */
  lemma ForgottenDrops(s: Memory, env: ForgetEnv, id: string)
    requires Agree(s, StaleSince(id)) && env.patch.Accepted? && id in Forget(s, env).forgotten
    ensures Lookup(Forget(s, env).state.stored, StaleSince(id)) == None
  {
    StaleDrops(s, env, id);
  }
}
