/** The assignment loop of `reconcileReplicaRoles` (internal/controller/repair.go): every healthy
    primary without slots is made a replica of the shard that has the fewest. The cluster view is
    read again before each assignment, so every pick sees the assignments before it. */
module Assignment {
  import opened Options
  import opened Text
  import opened ClusterNodes
  import opened Counting
  import opened Allocator
  import opened NodesFormat
  import opened TopologyPayload
  import opened TopologySet
  import opened TopologyFixpoint
  import opened Reintegration

  /** Replicas that the node is short of; nodes that are not shards lack none. */
  function Lack(nodes: seq<NodeState>, n: NodeState, expected: int): int {
    if Shard(n) && ReplicaCount(nodes, n.id) < expected then expected - ReplicaCount(nodes, n.id) else 0
  }

  /** The total number of missing replicas. */
  function Deficit(nodes: seq<NodeState>, expected: int): int {
    Sum(nodes, n => Lack(nodes, n, expected))
  }

  function NotBelowZero(x: int): int {
    if x > 0 then x else 0
  }

  predicate DistinctIds(nodes: seq<NodeState>) {
    forall i, j | 0 <= i < j < |nodes| :: nodes[i].id != nodes[j].id
  }

  /** A node has one role, and an id that a "no primary" field cannot be taken for. */
  predicate Regular(n: NodeState) {
    n.id != "" && n.id != "-" && !(Contains(n.flags, "master") && Contains(n.flags, "slave"))
  }

  predicate Sound(nodes: seq<NodeState>) {
    DistinctIds(nodes) && forall n | n in nodes :: Regular(n)
  }

  /** Flags of a node that has become a replica. */
  predicate ReplicaFlags(flags: string) {
    Contains(flags, "slave") && !Contains(flags, "master")
  }

  function Demoted(n: NodeState, target: string, flags: string): NodeState {
    n.(flags := flags, masterId := target)
  }

  // ----------------------------------------------------------------- one assignment

  lemma CountAfter(nodes: seq<NodeState>, i: nat, target: string, flags: string, id: string)
    requires i < |nodes| && Spare(nodes[i]) && Regular(nodes[i])
    requires ReplicaFlags(flags) && target != "" && target != "-"
    ensures ReplicaCount(nodes[i := Demoted(nodes[i], target, flags)], id)
            == ReplicaCount(nodes, id) + if id == target then 1 else 0
  {
    CountUpdate(nodes, i, Demoted(nodes[i], target, flags), n => Replicates(n, id));
  }

  lemma SoundAfter(nodes: seq<NodeState>, i: nat, target: string, flags: string)
    requires i < |nodes| && Sound(nodes) && ReplicaFlags(flags)
    ensures Sound(nodes[i := Demoted(nodes[i], target, flags)])
  {
    var after := nodes[i := Demoted(nodes[i], target, flags)];
    forall n | n in after ensures Regular(n) {
      var k :| 0 <= k < |after| && after[k] == n;
      assert Regular(nodes[k]);
    }
  }

  /** Only the target's own term changes. */
  lemma LackAfter(nodes: seq<NodeState>, i: nat, target: string, flags: string, expected: int, k: nat)
    requires i < |nodes| && k < |nodes| && Sound(nodes) && Spare(nodes[i])
    requires ReplicaFlags(flags) && target != "" && target != "-"
    ensures var after := nodes[i := Demoted(nodes[i], target, flags)];
            Lack(after, after[k], expected) ==
            if Shard(nodes[k]) && nodes[k].id == target then NotBelowZero(Lack(nodes, nodes[k], expected) - 1)
            else Lack(nodes, nodes[k], expected)
  {
    assert Regular(nodes[i]) && nodes[i] in nodes;
    CountAfter(nodes, i, target, flags, nodes[k].id);
  }

  lemma DeficitChange(nodes: seq<NodeState>, i: nat, m: nat, target: string, flags: string, expected: int)
    requires i < |nodes| && m < |nodes| && Sound(nodes) && Spare(nodes[i])
    requires ReplicaFlags(flags) && Shard(nodes[m]) && nodes[m].id == target
    ensures var after := nodes[i := Demoted(nodes[i], target, flags)];
            var lack := Lack(nodes, nodes[m], expected);
            Deficit(after, expected) == Deficit(nodes, expected) - lack + NotBelowZero(lack - 1)
  {
    assert Regular(nodes[m]);
    var after := nodes[i := Demoted(nodes[i], target, flags)];
    forall k: nat | k < |nodes| && k != m ensures Lack(after, after[k], expected) == Lack(nodes, nodes[k], expected) {
      LackAfter(nodes, i, target, flags, expected, k);
    }
    LackAfter(nodes, i, target, flags, expected, m);
    SumChange(after, n => Lack(after, n, expected), nodes, n => Lack(nodes, n, expected), m);
  }

  lemma NoDeficit(nodes: seq<NodeState>, expected: int)
    ensures Deficit(nodes, expected) >= 0
    ensures Deficit(nodes, expected) == 0 <==>
            forall n | n in nodes :: Shard(n) ==> ReplicaCount(nodes, n.id) >= expected
  {
    SumZero(nodes, n => Lack(nodes, n, expected));
    if forall k | 0 <= k < |nodes| :: Lack(nodes, nodes[k], expected) == 0 {
      forall n | n in nodes && Shard(n) ensures ReplicaCount(nodes, n.id) >= expected {
        var k :| 0 <= k < |nodes| && nodes[k] == n;
        assert Lack(nodes, nodes[k], expected) == 0;
      }
    }
  }

  /** A pick that already has its replicas means that nothing is missing anywhere. */
  lemma FullPick(nodes: seq<NodeState>, expected: int, r: Option<string>)
    requires IsPick(nodes, nodes, expected, r)
    requires r.None? || ReplicaCount(nodes, r.value) >= expected
    ensures Deficit(nodes, expected) == 0
  {
    forall n | n in nodes && Shard(n) ensures ReplicaCount(nodes, n.id) >= expected {
      assert Eligible(nodes, n, expected) || ReplicaCount(nodes, n.id) > expected;
    }
    NoDeficit(nodes, expected);
  }

  /** Every assignment to the pick lowers the deficit by one while there is any. */
  lemma DeficitAfter(nodes: seq<NodeState>, i: nat, target: string, flags: string, expected: int)
    requires i < |nodes| && Sound(nodes) && Spare(nodes[i])
    requires ReplicaFlags(flags) && IsPick(nodes, nodes, expected, Some(target))
    ensures var after := nodes[i := Demoted(nodes[i], target, flags)];
            Deficit(after, expected) == NotBelowZero(Deficit(nodes, expected) - 1)
  {
    var n :| n in nodes && n.id == target && Eligible(nodes, n, expected);
    var m :| 0 <= m < |nodes| && nodes[m] == n;
    DeficitChange(nodes, i, m, target, flags, expected);
    NoDeficit(nodes, expected);
    if ReplicaCount(nodes, target) >= expected {
      FullPick(nodes, expected, Some(target));
    }
  }

  /** No shard has more than the expected number of replicas. */
  predicate AtMost(nodes: seq<NodeState>, expected: int) {
    forall n | n in nodes :: Shard(n) ==> ReplicaCount(nodes, n.id) <= expected
  }

  /** Every shard has exactly the expected number of replicas. */
  predicate Even(nodes: seq<NodeState>, expected: int) {
    forall n | n in nodes :: Shard(n) ==> ReplicaCount(nodes, n.id) == expected
  }

  /** If both are shards, the first has at most one replica more than the second. */
  predicate Close(nodes: seq<NodeState>, m: NodeState, n: NodeState) {
    m in nodes && n in nodes && Shard(m) && Shard(n) ==> ReplicaCount(nodes, m.id) <= ReplicaCount(nodes, n.id) + 1
  }

  /** The replica counts of any two shards differ by at most one. */
  ghost predicate Level(nodes: seq<NodeState>) {
    forall m, n :: Close(nodes, m, n)
  }

  /** The pick has the fewest replicas of all shards, and no more than expected. */
  lemma PickIsFewest(nodes: seq<NodeState>, expected: int, target: string, n: NodeState)
    requires IsPick(nodes, nodes, expected, Some(target)) && n in nodes && Shard(n)
    ensures ReplicaCount(nodes, target) <= ReplicaCount(nodes, n.id) && ReplicaCount(nodes, target) <= expected
  {
    assert Eligible(nodes, n, expected) || ReplicaCount(nodes, n.id) > expected;
  }

  lemma ShardsAfter(nodes: seq<NodeState>, i: nat, target: string, flags: string, n: NodeState)
    requires i < |nodes| && ReplicaFlags(flags) && n in nodes[i := Demoted(nodes[i], target, flags)] && Shard(n)
    ensures n in nodes
  {
  }

  /** An assignment to the pick never puts a shard more than one above the expected number, and
      keeps the shards level. */
  lemma LevelAfter(nodes: seq<NodeState>, i: nat, target: string, flags: string, expected: int)
    requires i < |nodes| && Sound(nodes) && Spare(nodes[i])
    requires ReplicaFlags(flags) && IsPick(nodes, nodes, expected, Some(target))
    ensures var after := nodes[i := Demoted(nodes[i], target, flags)];
            && (AtMost(nodes, expected + 1) ==> AtMost(after, expected + 1))
            && (Level(nodes) ==> Level(after))
  {
    var after := nodes[i := Demoted(nodes[i], target, flags)];
    var pick :| pick in nodes && pick.id == target && Eligible(nodes, pick, expected);
    assert Regular(pick) && Regular(nodes[i]);
    forall n | n in after && Shard(n)
      ensures n in nodes && ReplicaCount(nodes, target) <= ReplicaCount(nodes, n.id)
      ensures ReplicaCount(after, n.id) == ReplicaCount(nodes, n.id) + if n.id == target then 1 else 0
    {
      ShardsAfter(nodes, i, target, flags, n);
      PickIsFewest(nodes, expected, target, n);
      CountAfter(nodes, i, target, flags, n.id);
    }
    PickIsFewest(nodes, expected, target, pick);
    if Level(nodes) {
      forall m, n ensures Close(after, m, n) {
        assert Close(nodes, m, n);
      }
    }
  }

  /** While something is missing, an assignment does not overfill a shard. */
  lemma AtMostAfter(nodes: seq<NodeState>, i: nat, target: string, flags: string, expected: int)
    requires i < |nodes| && Sound(nodes) && Spare(nodes[i]) && AtMost(nodes, expected)
    requires ReplicaFlags(flags) && IsPick(nodes, nodes, expected, Some(target))
    requires Deficit(nodes, expected) > 0
    ensures AtMost(nodes[i := Demoted(nodes[i], target, flags)], expected)
  {
    var after := nodes[i := Demoted(nodes[i], target, flags)];
    NoDeficit(nodes, expected);
    var short :| short in nodes && Shard(short) && ReplicaCount(nodes, short.id) < expected;
    PickIsShort(nodes, expected, Some(target), short);
    var pick :| pick in nodes && pick.id == target && Shard(pick) && Short(nodes, pick, expected);
    assert Regular(pick) && Regular(nodes[i]);
    forall n | n in after && Shard(n) ensures ReplicaCount(after, n.id) <= expected {
      assert n in nodes;
      CountAfter(nodes, i, target, flags, n.id);
    }
  }

  // ----------------------------------------------------------------- the loop

  /** A node to be assigned: a spare primary that runs in one of the ready pods. */
  predicate Candidate(n: NodeState, podIps: set<string>) {
    Spare(n) && n.ip in podIps
  }

  function Candidates(nodes: seq<NodeState>, podIps: set<string>): nat {
    Count(nodes, n => Candidate(n, podIps))
  }

  /** How one attempt goes: the view cannot be read; the pod cannot be reached; or the pod runs the
      command. `after` are the nodes that the pod itself lists behind its MEETs, and `flags` are
      those that it shows once it is a replica. */
  datatype Attempt =
    | Unreadable
    | Unreached
    | Ran(server: Server, after: seq<NodeLine>, flags: string)

  datatype Push = Push(node: string, target: string)

  /** The cluster, as CLUSTER NODES shows it, and the positions of the nodes that run in the pods,
      by the addresses of the pods. */
  class ClusterView {
    var nodes: seq<NodeState>
    var podAt: map<string, nat>

    /** The node in the pod at this address accepts its new primary; the next read shows it as a
        replica. */
    method BecomeReplica(podIp: string, target: string, flags: string)
      requires podIp in podAt && podAt[podIp] < |nodes|
      modifies `nodes
      ensures nodes == old(nodes)[podAt[podIp] := Demoted(old(nodes)[podAt[podIp]], target, flags)]
    {
      var i := podAt[podIp];
      nodes := nodes[i := Demoted(nodes[i], target, flags)];
    }
  }

  /** The pod at the address of a candidate is that candidate. */
  predicate RunsAt(nodes: seq<NodeState>, podIps: set<string>, podAt: map<string, nat>) {
    forall k | 0 <= k < |nodes| && Candidate(nodes[k], podIps) :: nodes[k].ip in podAt && podAt[nodes[k].ip] == k
  }

  /** Then no two candidates share an address. */
  lemma CandidatesApart(nodes: seq<NodeState>, podIps: set<string>, podAt: map<string, nat>, j: nat, k: nat)
    requires RunsAt(nodes, podIps, podAt) && j < |nodes| && k < |nodes| && j != k
    requires Candidate(nodes[j], podIps) && Candidate(nodes[k], podIps)
    ensures nodes[j].ip != nodes[k].ip
  {
  }

  /** The nodes in front of position `i` that have changed, with the primaries that they now have. */
  ghost function Moves(was: seq<NodeState>, now: seq<NodeState>, i: nat): seq<Push>
    requires i <= |was| == |now|
  {
    if i == 0 then []
    else Moves(was, now, i - 1) + if now[i - 1] != was[i - 1] then [Push(was[i - 1].id, now[i - 1].masterId)] else []
  }

  /** The pushes up to position `i` are the moves up to there. */
  ghost predicate Logged(was: seq<NodeState>, now: seq<NodeState>, i: nat, pushes: seq<Push>) {
    i <= |was| == |now| && pushes == Moves(was, now, i)
  }

  lemma {:induction false} MovesFrame(was: seq<NodeState>, a: seq<NodeState>, b: seq<NodeState>, i: nat)
    requires i <= |was| == |a| == |b| && forall k | 0 <= k < i :: a[k] == b[k]
    ensures Moves(was, a, i) == Moves(was, b, i)
  {
    if i > 0 {
      MovesFrame(was, a, b, i - 1);
    }
  }

  lemma LoggedSkip(was: seq<NodeState>, now: seq<NodeState>, i: nat, pushes: seq<Push>)
    requires Logged(was, now, i, pushes) && i < |was| && now[i] == was[i]
    ensures Logged(was, now, i + 1, pushes)
  {
  }

  /** A push is a move: the candidate was a primary and is one no more. */
  lemma LoggedNext(was: seq<NodeState>, now: seq<NodeState>, i: nat, pushes: seq<Push>, target: string, flags: string)
    requires Logged(was, now, i, pushes) && i < |was| && now[i] == was[i] && Spare(was[i]) && ReplicaFlags(flags)
    ensures Logged(was, now[i := Demoted(now[i], target, flags)], i + 1, pushes + [Push(was[i].id, target)])
  {
    MovesFrame(was, now, now[i := Demoted(now[i], target, flags)], i);
  }

  lemma {:induction false} LoggedEnd(was: seq<NodeState>, now: seq<NodeState>, i: nat, pushes: seq<Push>)
    requires Logged(was, now, i, pushes) && forall k | i <= k < |was| :: now[k] == was[k]
    ensures Logged(was, now, |was|, pushes)
    decreases |was| - i
  {
    if i < |was| {
      LoggedSkip(was, now, i, pushes);
      LoggedEnd(was, now, i + 1, pushes);
    }
  }

  /** What has changed behind position `i` of the loop: nothing; and in front of it, candidates
      have become replicas. */
  ghost predicate Progress(was: seq<NodeState>, now: seq<NodeState>, i: nat, podIps: set<string>) {
    && |now| == |was|
    && (forall k | 0 <= k < |was| ::
          now[k] == was[k] || (k < i && Candidate(was[k], podIps) && JoinsShard(was, was[k], now[k])))
  }

  /** The node has become a replica of one of the shards; nothing else about it has changed. */
  ghost predicate JoinsShard(was: seq<NodeState>, n: NodeState, after: NodeState) {
    && after == Demoted(n, after.masterId, after.flags) && ReplicaFlags(after.flags)
    && exists m | m in was :: Shard(m) && m.id == after.masterId
  }

  /** Whatever the loop changes was a primary in good health, without slots, in one of the ready pods;
      and it is now a replica of a primary in good health with slots. */
  lemma ChangedMeans(was: seq<NodeState>, now: seq<NodeState>, i: nat, podIps: set<string>, k: nat)
    requires Progress(was, now, i, podIps) && k < |was| && now[k] != was[k]
    ensures k < i && was[k].ip in podIps && was[k].slots == ""
    ensures Contains(was[k].flags, "master") && !Contains(was[k].flags, "fail") && !Contains(was[k].flags, "noaddr")
    ensures now[k] == was[k].(flags := now[k].flags, masterId := now[k].masterId)
    ensures Contains(now[k].flags, "slave") && !Contains(now[k].flags, "master")
    ensures exists m | m in was ::
              && m.id == now[k].masterId && m.slots != "" && Contains(m.flags, "master")
              && !Contains(m.flags, "fail") && !Contains(m.flags, "noaddr")
  {
    var m :| m in was && Shard(m) && m.id == now[k].masterId;
  }

  lemma PickWasShard(was: seq<NodeState>, now: seq<NodeState>, i: nat, podIps: set<string>, expected: int, id: string)
    requires Progress(was, now, i, podIps) && IsPick(now, now, expected, Some(id))
    ensures exists m | m in was :: Shard(m) && m.id == id
  {
    var n :| n in now && n.id == id && Eligible(now, n, expected);
    var k :| 0 <= k < |now| && now[k] == n;
    assert now[k] == was[k];
  }

  lemma ProgressGrows(was: seq<NodeState>, now: seq<NodeState>, i: nat, podIps: set<string>)
    requires Progress(was, now, i, podIps)
    ensures Progress(was, now, i + 1, podIps)
  {
  }

  lemma ProgressNext(was: seq<NodeState>, now: seq<NodeState>, i: nat, podIps: set<string>, expected: int,
                     target: string, flags: string)
    requires Progress(was, now, i, podIps) && i < |was| && Candidate(was[i], podIps)
    requires ReplicaFlags(flags) && IsPick(now, now, expected, Some(target))
    ensures Progress(was, now[i := Demoted(now[i], target, flags)], i + 1, podIps)
  {
    PickWasShard(was, now, i, podIps, expected, target);
    assert now[i] == was[i];
    assert JoinsShard(was, was[i], Demoted(was[i], target, flags));
  }

  /** The bookkeeping of the loop: the deficit has gone down by the number of pushes, nothing was
      overfilled as long as something was missing, nor by more than one afterwards, and level
      shards have stayed level. */
  ghost predicate Tally(was: seq<NodeState>, now: seq<NodeState>, expected: int, pushes: nat) {
    && Sound(now)
    && Deficit(now, expected) == NotBelowZero(Deficit(was, expected) - pushes)
    && (AtMost(was, expected) && pushes <= Deficit(was, expected) ==> AtMost(now, expected))
    && (AtMost(was, expected + 1) ==> AtMost(now, expected + 1))
    && (Level(was) ==> Level(now))
  }

  lemma TallyNext(was: seq<NodeState>, now: seq<NodeState>, expected: int, pushes: nat, i: nat, target: string,
                  flags: string)
    requires Tally(was, now, expected, pushes)
    requires i < |now| && Spare(now[i]) && ReplicaFlags(flags) && IsPick(now, now, expected, Some(target))
    ensures Tally(was, now[i := Demoted(now[i], target, flags)], expected, pushes + 1)
  {
    SoundAfter(now, i, target, flags);
    DeficitAfter(now, i, target, flags, expected);
    LevelAfter(now, i, target, flags, expected);
    if AtMost(was, expected) && pushes + 1 <= Deficit(was, expected) {
      AtMostAfter(now, i, target, flags, expected);
    }
  }

  predicate Addressed(nodes: seq<NodeState>) {
    forall n | n in nodes :: Shard(n) ==> n.ip != ""
  }

  lemma CandidatesNext(nodes: seq<NodeState>, i: nat, podIps: set<string>)
    requires i < |nodes|
    ensures Candidates(nodes[..i + 1], podIps)
            == Candidates(nodes[..i], podIps) + if Candidate(nodes[i], podIps) then 1 else 0
  {
    assert nodes[..i + 1] == nodes[..i] + [nodes[i]];
    CountNext(nodes[..i], nodes[i], n => Candidate(n, podIps));
    assert (nodes[..i] + [nodes[i]])[..|nodes[..i]|] == nodes[..i];
  }

  lemma {:induction false} CandidatesGrow(nodes: seq<NodeState>, i: nat, podIps: set<string>)
    requires i <= |nodes|
    ensures Candidates(nodes[..i], podIps) <= Candidates(nodes, podIps)
    decreases |nodes| - i
  {
    if i < |nodes| {
      CandidatesNext(nodes, i, podIps);
      CandidatesGrow(nodes, i + 1, podIps);
    } else {
      assert nodes[..i] == nodes;
    }
  }

  /** A shard that is picked has an address when all shards have had one from the start. */
  lemma PickHasIp(was: seq<NodeState>, now: seq<NodeState>, i: nat, podIps: set<string>, expected: int, id: string)
    requires Progress(was, now, i, podIps) && Addressed(was) && DistinctIds(now)
    requires IsPick(now, now, expected, Some(id))
    ensures FirstIp(now, id) != ""
  {
    var n :| n in now && n.id == id && Eligible(now, n, expected);
    var k :| 0 <= k < |now| && now[k] == n;
    FirstIpIs(now, k);
    assert now[k] == was[k];
  }

  // ----------------------------------------------------------------- why the addresses must differ

  lemma CountAfterMove(nodes: seq<NodeState>, i: nat, from: string, n: NodeState, id: string)
    requires i < |nodes| && Replicates(nodes[i], from) && Contains(n.flags, "slave")
    ensures ReplicaCount(nodes[i := n], id) == ReplicaCount(nodes, id) - (if id == from then 1 else 0)
                                               + (if Replicates(n, id) then 1 else 0)
  {
    CountUpdate(nodes, i, n, m => Replicates(m, id));
  }

  /** Two views that differ in what one node lacks. */
  lemma DeficitDiffers(a: seq<NodeState>, b: seq<NodeState>, m: nat, expected: int)
    requires |a| == |b| && m < |a|
    requires forall k | 0 <= k < |a| && k != m :: Lack(b, b[k], expected) == Lack(a, a[k], expected)
    ensures Deficit(b, expected) - Lack(b, b[m], expected) == Deficit(a, expected) - Lack(a, a[m], expected)
  {
    SumChange(b, n => Lack(b, n, expected), a, n => Lack(a, n, expected), m);
  }

  /** Taking a replica away from a shard that has no more than expected. */
  lemma DeficitOfLoss(nodes: seq<NodeState>, i: nat, p: nat, expected: int)
    requires Sound(nodes) && i < |nodes| && p < |nodes| && Shard(nodes[p]) && Replicates(nodes[i], nodes[p].id)
    requires ReplicaCount(nodes, nodes[p].id) <= expected
    ensures Deficit(nodes[i := nodes[i].(masterId := "-")], expected) == Deficit(nodes, expected) + 1
  {
    var lost := nodes[i].(masterId := "-");
    var after := nodes[i := lost];
    assert Regular(nodes[i]);
    forall k | 0 <= k < |nodes| && k != p ensures Lack(after, after[k], expected) == Lack(nodes, nodes[k], expected) {
      CountAfterMove(nodes, i, nodes[p].id, lost, nodes[k].id);
    }
    CountAfterMove(nodes, i, nodes[p].id, lost, nodes[p].id);
    assert i != p;
    DeficitDiffers(nodes, after, p, expected);
  }

  /** A second push to a pod that replicates a shard only moves it: what one shard gains another
      loses. So two candidates must not share a pod. */
  lemma MovedInVain(nodes: seq<NodeState>, i: nat, p: nat, q: nat, flags: string, expected: int)
    requires Sound(nodes) && i < |nodes| && p < |nodes| && q < |nodes| && p != q
    requires Shard(nodes[p]) && Shard(nodes[q]) && Replicates(nodes[i], nodes[p].id) && ReplicaFlags(flags)
    requires ReplicaCount(nodes, nodes[p].id) <= expected && ReplicaCount(nodes, nodes[q].id) < expected
    ensures Deficit(nodes[i := Demoted(nodes[i], nodes[q].id, flags)], expected) == Deficit(nodes, expected)
  {
    var mid := nodes[i := nodes[i].(masterId := "-")];
    var moved := Demoted(nodes[i], nodes[q].id, flags);
    var after := nodes[i := moved];
    DeficitOfLoss(nodes, i, p, expected);
    assert Regular(nodes[i]) && Regular(nodes[q]);
    forall k | 0 <= k < |nodes|
      ensures ReplicaCount(after, nodes[k].id) == ReplicaCount(mid, nodes[k].id) + if k == q then 1 else 0
    {
      CountAfterMove(nodes, i, nodes[p].id, moved, nodes[k].id);
      CountAfterMove(nodes, i, nodes[p].id, nodes[i].(masterId := "-"), nodes[k].id);
    }
    CountAfterMove(nodes, i, nodes[p].id, nodes[i].(masterId := "-"), nodes[q].id);
    assert i != q && i != p;
    DeficitDiffers(mid, after, q, expected);
  }

  // ----------------------------------------------------------------- the push

  /** The addresses of the view can be printed and fit the module's buffer. */
  predicate Printable(nodes: seq<NodeState>, port: string) {
    forall n | n in nodes :: n.ip != "" ==> FitsBuffer(At(n.ip, port))
  }

  /** What the pod lists behind its MEETs, if that can be read, agrees with the operator's view:
      every shard under the address that the operator knows, and no address twice. */
  ghost predicate Knows(attempt: Attempt, was: seq<NodeState>, port: string) {
    attempt.Ran? ==>
      && ReplicaFlags(attempt.flags)
      && (attempt.server.nodesAfterMeet.None? || Agrees(attempt.server, attempt.after, was, port))
  }

  ghost predicate Agrees(server: Server, after: seq<NodeLine>, was: seq<NodeState>, port: string) {
    && ShowsAfter(server, after) && DistinctEndpoints(after)
    && forall n | n in was :: Shard(n) && n.ip != "" ==> ListsAs(after, n.id, At(n.ip, port))
  }

  predicate ListsAs(lines: seq<NodeLine>, id: string, endpoint: string) {
    exists k | 0 <= k < |lines| :: lines[k].id == id && Endpoint(lines[k]) == endpoint
  }

  /** The pod runs the command, reads its nodes behind the MEETs, does not replicate a shard's
      address yet, and its server accepts the REPLICATE. */
  ghost predicate Willing(attempt: Attempt, was: seq<NodeState>, port: string) {
    && attempt.Ran? && attempt.server.nodesAfterMeet.Some? && attempt.server.replicateReply.StatusReply?
    && forall n | n in was :: Shard(n) ==> !InPlace(attempt.server.info, At(n.ip, port))
  }

  /** A push to this pod takes effect: it is willing, and all shards have addresses. */
  ghost predicate Moving(attempt: Attempt, was: seq<NodeState>, port: string) {
    Addressed(was) && Willing(attempt, was, port)
  }

  /** What the pod does with the order: the id that it now replicates, if it answers ok. */
  function Landed(view: seq<NodeState>, ip: string, port: string, server: Server): Option<string> {
    var out := Run(PayloadFor(PrintedPeers(PeersOf(view, port)), At(ip, port)), server);
    if out.reply.ok then out.replicate else None
  }

  lemma {:induction false} PeersPrintable(nodes: seq<NodeState>, port: string)
    requires Printable(nodes, port)
    ensures AllEndpoints(PeersOf(nodes, port))
  {
    if |nodes| > 0 {
      PeersPrintable(nodes[..|nodes| - 1], port);
      assert nodes[|nodes| - 1] in nodes;
    }
  }

  lemma PrintableStill(was: seq<NodeState>, now: seq<NodeState>, i: nat, podIps: set<string>, port: string)
    requires Progress(was, now, i, podIps) && Printable(was, port)
    ensures Printable(now, port)
  {
    forall n | n in now && n.ip != "" ensures FitsBuffer(At(n.ip, port)) {
      var k :| 0 <= k < |now| && now[k] == n;
      assert was[k] in was && was[k].ip == n.ip;
    }
  }

  /** The picked shard, with its address in the view. */
  lemma PickedShard(was: seq<NodeState>, now: seq<NodeState>, i: nat, podIps: set<string>, expected: int, id: string)
    returns (n: NodeState)
    requires Progress(was, now, i, podIps) && DistinctIds(now) && IsPick(now, now, expected, Some(id))
    ensures n in was && n in now && Shard(n) && n.id == id && FirstIp(now, id) == n.ip
  {
    n :| n in now && n.id == id && Eligible(now, n, expected);
    var k :| 0 <= k < |now| && now[k] == n;
    FirstIpIs(now, k);
    assert now[k] == was[k];
  }

  /** The push lands on the pick: whatever the pod comes to replicate is the operator's pick, and
      a willing pod comes to replicate it. */
  lemma LandsOnPick(was: seq<NodeState>, now: seq<NodeState>, i: nat, podIps: set<string>, expected: int, id: string,
                    port: string, attempt: Attempt)
    requires Progress(was, now, i, podIps) && DistinctIds(now) && Printable(was, port)
    requires IsPick(now, now, expected, Some(id)) && FirstIp(now, id) != ""
    requires attempt.Ran? && Knows(attempt, was, port)
    ensures Landed(now, FirstIp(now, id), port, attempt.server) in {None, Some(id)}
    ensures Willing(attempt, was, port) ==> Landed(now, FirstIp(now, id), port, attempt.server) == Some(id)
  {
    var n := PickedShard(was, now, i, podIps, expected, id);
    PrintableStill(was, now, i, podIps, port);
    PeersPrintable(now, port);
    var order := Order(id, PayloadFor(PrintedPeers(PeersOf(now, port)), At(n.ip, port)));
    assert IsOrder(now, expected, port, Some(order));
    if attempt.server.nodesAfterMeet.None? {
      PayloadIs(PeersOf(now, port), At(n.ip, port));
      NoTarget(PeersOf(now, port), At(n.ip, port), attempt.server);
      return;
    }
    OrderRun(now, expected, port, order, attempt.server, attempt.after);
    assert ListsAs(attempt.after, id, At(n.ip, port));
    var k :| 0 <= k < |attempt.after| && attempt.after[k].id == id && Endpoint(attempt.after[k]) == At(n.ip, port);
    OnlyOneWith(attempt.after, k);
  }

  /** Prints the order and sends it to the pod; returns what the pod comes to replicate. */
  method SendOrder(view: seq<NodeState>, ip: string, port: string, attempt: Attempt, ghost was: seq<NodeState>,
                   ghost i: nat, ghost podIps: set<string>, ghost expected: int, ghost id: string)
    returns (target: Option<string>)
    requires Progress(was, view, i, podIps) && DistinctIds(view) && Printable(was, port)
    requires IsPick(view, view, expected, Some(id)) && ip == FirstIp(view, id) && ip != ""
    requires attempt.Ran? && Knows(attempt, was, port)
    ensures target == None || target == Some(id)
    ensures Willing(attempt, was, port) ==> target == Some(id)
  {
    LandsOnPick(was, view, i, podIps, expected, id, port, attempt);
    var peers := CollectPeers(view, port);
    var json := BuildPeersJson(peers);
    var out := Run(PayloadFor(json, At(ip, port)), attempt.server);
    if out.reply.ok {
      return out.replicate;
    }
    return None;
  }

  /** How the loop goes on after a candidate: it ends, it leaves the node as it is, or the node now
      replicates `target`. */
  datatype Step = Stop | Skip | Done(target: string)

  /** The loop body for one candidate: read, pick, send. A push that takes effect takes the
      candidate to the pick. The loop ends exactly when the view cannot be read or there is no pick;
      a willing pod is not passed over if all shards have addresses. */
  method TryAssign(view: seq<NodeState>, expected: int, port: string, attempt: Attempt, ghost was: seq<NodeState>,
                   ghost i: nat, ghost podIps: set<string>) returns (step: Step, pick: Option<string>)
    requires Progress(was, view, i, podIps) && Sound(view)
    requires Printable(was, port) && Knows(attempt, was, port)
    ensures IsPick(view, view, expected, pick)
    ensures step.Done? ==> attempt.Ran? && pick == Some(step.target)
    ensures step.Stop? <==> attempt.Unreadable? || pick.None?
    ensures Moving(attempt, was, port) ==> !step.Skip?
  {
    pick := PickAmong(view, expected);
    if attempt.Unreadable? || pick.None? {
      return Stop, pick;
    }
    var ip := PrimaryIp(view, pick.value);
    if Addressed(was) {
      PickHasIp(was, view, i, podIps, expected, pick.value);
    }
    if ip == "" || attempt.Unreached? {
      return Skip, pick;
    }
    var target := SendOrder(view, ip, port, attempt, was, i, podIps, expected, pick.value);
    if target.None? {
      return Skip, pick;
    }
    return Done(target.value), pick;
  }

  ghost predicate AllKnow(attempts: seq<Attempt>, was: seq<NodeState>, port: string) {
    forall i | 0 <= i < |attempts| :: Knows(attempts[i], was, port)
  }

  /** Nothing holds a push up: all pods are willing, and all shards have addresses. */
  ghost predicate AllWilling(attempts: seq<Attempt>, was: seq<NodeState>, port: string) {
    forall i | 0 <= i < |attempts| :: Moving(attempts[i], was, port)
  }

  /** The candidates in front of position `i` whose pods are willing. */
  ghost function WillingIn(was: seq<NodeState>, attempts: seq<Attempt>, podIps: set<string>, port: string, i: nat): nat
    requires i <= |was| == |attempts|
  {
    if i == 0 then 0
    else
      WillingIn(was, attempts, podIps, port, i - 1)
      + if Candidate(was[i - 1], podIps) && Moving(attempts[i - 1], was, port) then 1 else 0
  }

  lemma {:induction false} AllAreWilling(was: seq<NodeState>, attempts: seq<Attempt>, podIps: set<string>, port: string,
                                         i: nat)
    requires i <= |was| == |attempts| && AllWilling(attempts, was, port)
    ensures WillingIn(was, attempts, podIps, port, i) == Candidates(was[..i], podIps)
  {
    if i > 0 {
      AllAreWilling(was, attempts, podIps, port, i - 1);
      CandidatesNext(was, i - 1, podIps);
    } else {
      assert was[..0] == [];
    }
  }

  // ----------------------------------------------------------------- exact filling

  /** The node replicates one of the shards in `part`. */
  predicate Follows(part: seq<NodeState>, n: NodeState) {
    exists p | p in part :: Shard(p) && Replicates(n, p.id)
  }

  /** Replicas of the shards in `part`, shard by shard. */
  function Load(part: seq<NodeState>, nodes: seq<NodeState>): int {
    Sum(part, p => if Shard(p) then ReplicaCount(nodes, p.id) else 0)
  }

  function Shards(part: seq<NodeState>): nat {
    Count(part, p => Shard(p))
  }

  /** One more node adds one replica to the load exactly when it follows one of the shards. */
  lemma {:induction false} LoadNext(part: seq<NodeState>, nodes: seq<NodeState>, n: NodeState)
    requires DistinctIds(part)
    ensures Load(part, nodes + [n]) == Load(part, nodes) + if Follows(part, n) then 1 else 0
  {
    if |part| > 0 {
      var init, last := part[..|part| - 1], part[|part| - 1];
      LoadNext(init, nodes, n);
      ReplicaCountNext(nodes, n, last.id);
      assert part == init + [last];
      if Shard(last) && Replicates(n, last.id) {
        assert forall k | 0 <= k < |init| :: init[k].id != last.id;
        assert !Follows(init, n);
      }
      assert Follows(part, n) == (Follows(init, n) || (Shard(last) && Replicates(n, last.id)));
    }
  }

  /** Counting replicas shard by shard or node by node gives the same number. */
  lemma {:induction false} LoadIsFollowers(part: seq<NodeState>, nodes: seq<NodeState>)
    requires DistinctIds(part)
    ensures Load(part, nodes) == Count(nodes, n => Follows(part, n))
  {
    if |nodes| == 0 {
      SumZero(part, p => if Shard(p) then ReplicaCount(nodes, p.id) else 0);
    } else {
      var init, last := nodes[..|nodes| - 1], nodes[|nodes| - 1];
      assert nodes == init + [last];
      LoadNext(part, init, last);
      LoadIsFollowers(part, init);
    }
  }

  lemma {:induction false} LackSum(part: seq<NodeState>, nodes: seq<NodeState>, expected: int)
    requires forall p | p in part :: Shard(p) ==> ReplicaCount(nodes, p.id) <= expected
    ensures Sum(part, p => Lack(nodes, p, expected)) == expected * Shards(part) - Load(part, nodes)
  {
    if |part| > 0 {
      var init, last := part[..|part| - 1], part[|part| - 1];
      assert last in part;
      LackSum(init, nodes, expected);
      var lack := Lack(nodes, last, expected);
      if Shard(last) {
        assert Shards(part) == Shards(init) + 1;
        assert expected * (Shards(init) + 1) == expected * Shards(init) + expected;
      } else {
        assert Shards(part) == Shards(init);
      }
    }
  }

  /** Every node is a shard, a candidate, or a replica of a shard. */
  predicate Accounted(nodes: seq<NodeState>, podIps: set<string>) {
    forall n | n in nodes :: Shard(n) || Candidate(n, podIps) || Follows(nodes, n)
  }

  lemma {:induction false} Partition(part: seq<NodeState>, nodes: seq<NodeState>, podIps: set<string>)
    requires forall n | n in part :: Regular(n) && (Shard(n) || Candidate(n, podIps) || Follows(nodes, n))
    ensures |part| == Shards(part) + Candidates(part, podIps) + Count(part, n => Follows(nodes, n))
  {
    if |part| > 0 {
      var init, last := part[..|part| - 1], part[|part| - 1];
      assert last in part;
      Partition(init, nodes, podIps);
      assert Shards(part) == Shards(init) + if Shard(last) then 1 else 0;
      assert Candidates(part, podIps) == Candidates(init, podIps) + if Candidate(last, podIps) then 1 else 0;
    }
  }

  /** The nodes are exactly enough for all shards, and no shard has too many already. */
  predicate Filled(nodes: seq<NodeState>, podIps: set<string>, expected: int) {
    && Accounted(nodes, podIps) && AtMost(nodes, expected)
    && |nodes| == Shards(nodes) * (1 + expected)
  }

  lemma Balance(shards: int, expected: int, candidates: int, replicas: int)
    requires shards * (1 + expected) == shards + candidates + replicas
    ensures expected * shards - replicas == candidates
  {
  }

  lemma FilledDeficit(nodes: seq<NodeState>, podIps: set<string>, expected: int)
    requires Sound(nodes) && Filled(nodes, podIps, expected)
    ensures Deficit(nodes, expected) == Candidates(nodes, podIps)
  {
    LackSum(nodes, nodes, expected);
    LoadIsFollowers(nodes, nodes);
    Partition(nodes, nodes, podIps);
    Balance(Shards(nodes), expected, Candidates(nodes, podIps), Load(nodes, nodes));
  }

  /** Where the loop ends up when no push is refused. */
  lemma Converges(was: seq<NodeState>, now: seq<NodeState>, podIps: set<string>, expected: int, pushes: nat)
    requires Sound(was) && Tally(was, now, expected, pushes) && pushes <= Candidates(was, podIps)
    requires pushes == Candidates(was, podIps) || Deficit(now, expected) == 0
    ensures Deficit(now, expected) == NotBelowZero(Deficit(was, expected) - Candidates(was, podIps))
    ensures Filled(was, podIps, expected) ==> Even(now, expected)
  {
    if Filled(was, podIps, expected) {
      FilledDeficit(was, podIps, expected);
      NoDeficit(now, expected);
    }
  }

  // ----------------------------------------------------------------- the whole pass

  /** Everything the loop keeps in front of position `i`; there are at least `floor` pushes. */
  ghost predicate Books(was: seq<NodeState>, now: seq<NodeState>, i: nat, podIps: set<string>, expected: int,
                        pushes: seq<Push>, floor: nat)
  {
    && Progress(was, now, i, podIps) && Tally(was, now, expected, |pushes|) && Logged(was, now, i, pushes)
    && floor <= |pushes| <= Candidates(was[..i], podIps)
  }

  lemma BooksOpen(was: seq<NodeState>, podIps: set<string>, expected: int)
    requires Sound(was)
    ensures Books(was, was, 0, podIps, expected, [], 0)
  {
    NoDeficit(was, expected);
    assert was[..0] == [];
  }

  lemma BooksPassOver(was: seq<NodeState>, now: seq<NodeState>, i: nat, podIps: set<string>, expected: int,
                      pushes: seq<Push>, floor: nat)
    requires i < |was| && Books(was, now, i, podIps, expected, pushes, floor)
    ensures Books(was, now, i + 1, podIps, expected, pushes, floor)
  {
    CandidatesNext(was, i, podIps);
    LoggedSkip(was, now, i, pushes);
    ProgressGrows(was, now, i, podIps);
  }

  lemma BooksClosed(was: seq<NodeState>, now: seq<NodeState>, i: nat, podIps: set<string>, expected: int,
                    pushes: seq<Push>, floor: nat)
    requires Books(was, now, i, podIps, expected, pushes, floor)
    ensures Progress(was, now, |was|, podIps) && Tally(was, now, expected, |pushes|)
    ensures Logged(was, now, |was|, pushes) && floor <= |pushes| <= Candidates(was, podIps)
  {
    CandidatesGrow(was, i, podIps);
    LoggedEnd(was, now, i, pushes);
  }

  /** The books behind a push to the pick. */
  lemma BooksDone(was: seq<NodeState>, now: seq<NodeState>, i: nat, podIps: set<string>, expected: int,
                  pushes: seq<Push>, floor: nat, target: string, flags: string)
    requires i < |was| && Candidate(was[i], podIps) && Books(was, now, i, podIps, expected, pushes, floor)
    requires ReplicaFlags(flags) && IsPick(now, now, expected, Some(target))
    ensures Books(was, now[i := Demoted(now[i], target, flags)], i + 1, podIps, expected,
                  pushes + [Push(was[i].id, target)], floor + 1)
  {
    assert now[i] == was[i];
    TallyNext(was, now, expected, |pushes|, i, target, flags);
    ProgressNext(was, now, i, podIps, expected, target, flags);
    LoggedNext(was, now, i, pushes, target, flags);
    CandidatesNext(was, i, podIps);
  }

  lemma BooksLower(was: seq<NodeState>, now: seq<NodeState>, i: nat, podIps: set<string>, expected: int,
                   pushes: seq<Push>, floor: nat, lower: nat)
    requires Books(was, now, i, podIps, expected, pushes, floor) && lower <= floor
    ensures Books(was, now, i, podIps, expected, pushes, lower)
  {
  }

  /** One candidate: the push goes to the pod at its address. A willing pod adds a push; the loop
      ends only when the view cannot be read or nothing is missing. */
  method AssignAt(cluster: ClusterView, i: nat, expected: int, port: string, attempt: Attempt, pushes: seq<Push>,
                  ghost was: seq<NodeState>, ghost podIps: set<string>, ghost floor: nat)
    returns (stop: bool, pushes': seq<Push>)
    requires i < |was| && Candidate(was[i], podIps)
    requires Books(was, cluster.nodes, i, podIps, expected, pushes, floor)
    requires Printable(was, port) && Knows(attempt, was, port) && RunsAt(was, podIps, cluster.podAt)
    modifies cluster`nodes
    ensures !stop ==> Books(was, cluster.nodes, i + 1, podIps, expected, pushes',
                            if Moving(attempt, was, port) then floor + 1 else floor)
    ensures stop ==> Books(was, cluster.nodes, i, podIps, expected, pushes', floor)
    ensures stop && !attempt.Unreadable? ==> Deficit(cluster.nodes, expected) == 0
  {
    var view := cluster.nodes;
    var step, pick := TryAssign(view, expected, port, attempt, was, i, podIps);
    match step {
      case Stop =>
        if !attempt.Unreadable? {
          FullPick(view, expected, pick);
        }
        return true, pushes;
      case Skip =>
        BooksPassOver(was, view, i, podIps, expected, pushes, floor);
        return false, pushes;
      case Done(target) =>
        BooksDone(was, view, i, podIps, expected, pushes, floor, target, attempt.flags);
        assert view[i] == was[i];
        cluster.BecomeReplica(view[i].ip, target, attempt.flags);
        BooksLower(was, cluster.nodes, i + 1, podIps, expected, pushes + [Push(was[i].id, target)], floor + 1, floor);
        return false, pushes + [Push(view[i].id, target)];
    }
  }

  predicate AllReadable(attempts: seq<Attempt>) {
    forall i | 0 <= i < |attempts| :: !attempts[i].Unreadable?
  }

  /** The loop over the nodes of the first read; `attempts[i]` is what happens at position `i`. */
  method AssignAll(cluster: ClusterView, podIps: set<string>, expected: int, port: string, attempts: seq<Attempt>)
    returns (pushes: seq<Push>)
    requires Sound(cluster.nodes) && |attempts| == |cluster.nodes|
    requires Printable(cluster.nodes, port) && AllKnow(attempts, cluster.nodes, port)
    requires RunsAt(cluster.nodes, podIps, cluster.podAt)
    modifies cluster`nodes
    ensures Progress(old(cluster.nodes), cluster.nodes, |attempts|, podIps)
    ensures Tally(old(cluster.nodes), cluster.nodes, expected, |pushes|)
    ensures Logged(old(cluster.nodes), cluster.nodes, |attempts|, pushes)
    ensures |pushes| <= Candidates(old(cluster.nodes), podIps)
    ensures AllReadable(attempts) ==>
              || |pushes| >= WillingIn(old(cluster.nodes), attempts, podIps, port, |attempts|)
              || Deficit(cluster.nodes, expected) == 0
  {
    var snapshot := cluster.nodes;
    ghost var floor: nat := 0;
    pushes := [];
    BooksOpen(snapshot, podIps, expected);
    for i := 0 to |snapshot|
      invariant floor == WillingIn(snapshot, attempts, podIps, port, i)
      invariant Books(snapshot, cluster.nodes, i, podIps, expected, pushes, floor)
    {
      var n := snapshot[i];
      if !Healthy(n) || n.slots != "" || n.ip !in podIps {
        BooksPassOver(snapshot, cluster.nodes, i, podIps, expected, pushes, floor);
        continue;
      }
      var stop: bool;
      stop, pushes := AssignAt(cluster, i, expected, port, attempts[i], pushes, snapshot, podIps, floor);
      if stop {
        BooksClosed(snapshot, cluster.nodes, i, podIps, expected, pushes, floor);
        return;
      }
      floor := WillingIn(snapshot, attempts, podIps, port, i + 1);
    }
    BooksClosed(snapshot, cluster.nodes, |snapshot|, podIps, expected, pushes, floor);
  }

  /** What one pass achieves:
      - each push is recorded with the node and its new primary, and there is at most one per
        candidate;
      - each push lowers the deficit by one while there is any;
      - no shard is raised more than one above the expected number, and level shards stay level;
      - as long as the view can be read, every candidate whose pod is willing counts, whatever the
        other pods do;
      - when no push is refused, `k` candidates leave max(0, deficit - k) missing replicas, and if
        the nodes are exactly enough, every shard ends with exactly the expected number. */
  ghost predicate Achieves(was: seq<NodeState>, now: seq<NodeState>, podIps: set<string>, expected: int, port: string,
                           attempts: seq<Attempt>, pushes: seq<Push>)
    requires |attempts| == |was| == |now|
  {
    && pushes == Moves(was, now, |was|) && |pushes| <= Candidates(was, podIps)
    && Deficit(now, expected) == NotBelowZero(Deficit(was, expected) - |pushes|)
    && (AtMost(was, expected + 1) ==> AtMost(now, expected + 1))
    && (Level(was) ==> Level(now))
    && (AllReadable(attempts) ==>
          Deficit(now, expected) <=
          NotBelowZero(Deficit(was, expected) - WillingIn(was, attempts, podIps, port, |was|)))
    && (AllWilling(attempts, was, port) ==>
          && Deficit(now, expected) == NotBelowZero(Deficit(was, expected) - Candidates(was, podIps))
          && (Filled(was, podIps, expected) ==> Even(now, expected)))
  }

  lemma Achieved(was: seq<NodeState>, now: seq<NodeState>, podIps: set<string>, expected: int, port: string,
                 attempts: seq<Attempt>, pushes: seq<Push>)
    requires |attempts| == |was| == |now| && Sound(was) && Tally(was, now, expected, |pushes|)
    requires Logged(was, now, |was|, pushes) && |pushes| <= Candidates(was, podIps)
    requires AllReadable(attempts) ==>
               |pushes| >= WillingIn(was, attempts, podIps, port, |was|) || Deficit(now, expected) == 0
    ensures Achieves(was, now, podIps, expected, port, attempts, pushes)
  {
    if AllWilling(attempts, was, port) {
      AllAreWilling(was, attempts, podIps, port, |was|);
      assert was[..|was|] == was;
      Converges(was, now, podIps, expected, |pushes|);
    }
  }

  /** One pass. Only candidates change, each into a replica of a shard. */
  method AssignReplicas(cluster: ClusterView, podIps: set<string>, expected: int, port: string, attempts: seq<Attempt>)
    returns (pushes: seq<Push>)
    requires Sound(cluster.nodes) && |attempts| == |cluster.nodes|
    requires Printable(cluster.nodes, port) && AllKnow(attempts, cluster.nodes, port)
    requires RunsAt(cluster.nodes, podIps, cluster.podAt)
    modifies cluster`nodes
    ensures Progress(old(cluster.nodes), cluster.nodes, |attempts|, podIps)
    ensures Achieves(old(cluster.nodes), cluster.nodes, podIps, expected, port, attempts, pushes)
  {
    ghost var was := cluster.nodes;
    pushes := AssignAll(cluster, podIps, expected, port, attempts);
    Achieved(was, cluster.nodes, podIps, expected, port, attempts, pushes);
  }
}
