/** The replica allocator: which primary gets the next replica (`pickMasterForReplica` in
    internal/controller/repair.go) and which shards are reported short of replicas
    (`detectUnderReplicatedShards` in internal/controller/health.go). */
module Allocator {
  import opened Options
  import opened Text
  import opened ClusterNodes
  import opened Counting
  import opened Order

  /** The node replicates the node with this id. */
  predicate Replicates(n: NodeState, id: string) {
    Contains(n.flags, "slave") && n.masterId != "-" && n.masterId != "" && n.masterId == id
  }

  function ReplicaCount(nodes: seq<NodeState>, id: string): nat {
    Count(nodes, n => Replicates(n, id))
  }

  lemma ReplicaCountNext(nodes: seq<NodeState>, n: NodeState, id: string)
    ensures ReplicaCount(nodes + [n], id) == ReplicaCount(nodes, id) + if Replicates(n, id) then 1 else 0
  {
    CountNext(nodes, n, m => Replicates(m, id));
    assert (nodes + [n])[..|nodes|] == nodes;
  }

  predicate Healthy(n: NodeState) {
    Contains(n.flags, "master") && !Contains(n.flags, "fail") && !Contains(n.flags, "noaddr")
  }

  /** A healthy primary that owns slots: a shard that replicas can be given to. */
  predicate Shard(n: NodeState) {
    Healthy(n) && n.slots != ""
  }

  /** A healthy primary without slots: a node to be made a replica. */
  predicate Spare(n: NodeState) {
    Healthy(n) && n.slots == ""
  }

  /** The primary is reported short of replicas. */
  predicate Short(nodes: seq<NodeState>, n: NodeState, expected: int) {
    Healthy(n) && ReplicaCount(nodes, n.id) < expected
  }

  predicate Eligible(nodes: seq<NodeState>, n: NodeState, expected: int) {
    Shard(n) && ReplicaCount(nodes, n.id) <= expected
  }

  /** Fewer replicas first; the smaller id among equals. */
  predicate Ahead(nodes: seq<NodeState>, a: string, b: string) {
    || ReplicaCount(nodes, a) < ReplicaCount(nodes, b)
    || (ReplicaCount(nodes, a) == ReplicaCount(nodes, b) && Less(a, b))
  }

  /** `id` is the least eligible id of `part`. */
  predicate IsLeast(nodes: seq<NodeState>, part: seq<NodeState>, expected: int, id: string) {
    && (exists n | n in part :: n.id == id && Eligible(nodes, n, expected))
    && (forall n | n in part :: Eligible(nodes, n, expected) ==> n.id == id || Ahead(nodes, id, n.id))
  }

  predicate IsPick(nodes: seq<NodeState>, part: seq<NodeState>, expected: int, r: Option<string>) {
    match r
    case None => forall n | n in part :: !Eligible(nodes, n, expected)
    case Some(id) => IsLeast(nodes, part, expected, id)
  }

  // ----------------------------------------------------------------- the code

  function Lookup(counts: map<string, nat>, id: string): nat {
    if id in counts then counts[id] else 0
  }

  method CountReplicas(nodes: seq<NodeState>) returns (counts: map<string, nat>)
    ensures forall id :: Lookup(counts, id) == ReplicaCount(nodes, id)
  {
    counts := map[];
    for i := 0 to |nodes|
      invariant forall id :: Lookup(counts, id) == ReplicaCount(nodes[..i], id)
    {
      var n := nodes[i];
      assert nodes[..i + 1] == nodes[..i] + [n];
      forall id
        ensures ReplicaCount(nodes[..i + 1], id) == ReplicaCount(nodes[..i], id) + if Replicates(n, id) then 1 else 0
      {
        ReplicaCountNext(nodes[..i], n, id);
      }
      if Contains(n.flags, "slave") && n.masterId != "-" && n.masterId != "" {
        counts := counts[n.masterId := Lookup(counts, n.masterId) + 1];
      }
    }
    assert nodes[..|nodes|] == nodes;
  }

  /** The primaries of `part` that are short, in order. */
  function ShortOf(nodes: seq<NodeState>, part: seq<NodeState>, expected: int): seq<NodeState> {
    if |part| == 0 then []
    else
      var last := part[|part| - 1];
      ShortOf(nodes, part[..|part| - 1], expected) + if Short(nodes, last, expected) then [last] else []
  }

  /** The text "id(have/want replicas)" of the report, by its parts; the id is cut to 8 characters. */
  datatype Shortage = Shortage(shard: string, have: nat, want: int)

  predicate Reports(nodes: seq<NodeState>, expected: int, short: seq<NodeState>, reports: seq<Shortage>) {
    && |reports| == |short|
    && forall k | 0 <= k < |short| ::
         reports[k] == Shortage(Prefix(short[k].id, 8), ReplicaCount(nodes, short[k].id), expected)
  }

  /** Cutting an id shorter than 8 characters would panic. */
  method DetectUnderReplicatedShards(nodes: seq<NodeState>, expected: int) returns (reports: seq<Shortage>)
    requires forall n | n in nodes :: Short(nodes, n, expected) ==> |n.id| >= 8
    ensures Reports(nodes, expected, ShortOf(nodes, nodes, expected), reports)
  {
    var counts := CountReplicas(nodes);
    reports := [];
    for i := 0 to |nodes|
      invariant Reports(nodes, expected, ShortOf(nodes, nodes[..i], expected), reports)
    {
      var n := nodes[i];
      assert nodes[..i + 1] == nodes[..i] + [n];
      if !Contains(n.flags, "master") {
        continue;
      }
      if Contains(n.flags, "fail") || Contains(n.flags, "noaddr") {
        continue;
      }
      var count := Lookup(counts, n.id);
      if count < expected {
        reports := reports + [Shortage(n.id[..8], count, expected)];
      }
    }
    assert nodes[..|nodes|] == nodes;
  }

  lemma BetterPick(nodes: seq<NodeState>, part: seq<NodeState>, n: NodeState, expected: int, r: Option<string>)
    requires IsPick(nodes, part, expected, r) && Eligible(nodes, n, expected)
    requires r.None? || Ahead(nodes, n.id, r.value)
    ensures IsPick(nodes, part + [n], expected, Some(n.id))
  {
    assert n in part + [n];
    if r.Some? {
      forall m | m in part && Eligible(nodes, m, expected) ensures m.id == n.id || Ahead(nodes, n.id, m.id) {
        if m.id != r.value && ReplicaCount(nodes, n.id) == ReplicaCount(nodes, m.id) {
          LessTransitive(n.id, r.value, m.id);
        }
      }
    }
  }

  lemma SamePick(nodes: seq<NodeState>, part: seq<NodeState>, n: NodeState, expected: int, r: Option<string>)
    requires IsPick(nodes, part, expected, r)
    requires Eligible(nodes, n, expected) ==> r.Some? && !Ahead(nodes, n.id, r.value)
    ensures IsPick(nodes, part + [n], expected, r)
  {
    match r
    case None =>
    case Some(id) =>
      var w :| w in part && w.id == id && Eligible(nodes, w, expected);
      assert w in part + [n];
      LessTotal(n.id, id);
  }

  method PickAmong(nodes: seq<NodeState>, expected: int) returns (r: Option<string>)
    requires forall n | n in nodes :: n.id != ""
    ensures IsPick(nodes, nodes, expected, r)
  {
    var counts := CountReplicas(nodes);
    var bestId, bestCount := "", expected + 1;
    ghost var best: Option<string> := None;
    for i := 0 to |nodes|
      invariant IsPick(nodes, nodes[..i], expected, best)
      invariant best.None? ==> bestId == "" && bestCount == expected + 1
      invariant best.Some? ==> bestId != "" && best.value == bestId && bestCount == ReplicaCount(nodes, bestId)
      invariant bestCount <= expected + 1
    {
      var n := nodes[i];
      assert nodes[..i + 1] == nodes[..i] + [n];
      if Contains(n.flags, "master") && !Contains(n.flags, "fail") && !Contains(n.flags, "noaddr") && n.slots != "" {
        var count := Lookup(counts, n.id);
        if count < bestCount || (count == bestCount && Less(n.id, bestId)) {
          BetterPick(nodes, nodes[..i], n, expected, best);
          bestCount, bestId := count, n.id;
          best := Some(n.id);
        } else {
          SamePick(nodes, nodes[..i], n, expected, best);
        }
      } else {
        SamePick(nodes, nodes[..i], n, expected, best);
      }
    }
    assert nodes[..|nodes|] == nodes;
    if bestId == "" {
      return None;
    }
    return Some(bestId);
  }

  // ----------------------------------------------------------------- what the pick means

  /** Nodes parsed from a text have ids. */
  lemma {:induction false} FieldsNonEmpty(s: string)
    ensures forall t | t in Fields(s) :: t != ""
    decreases |s|
  {
    var t := SkipSpaces(s);
    if t != "" && TokenLen(t) > 0 {
      FieldsNonEmpty(t[TokenLen(t)..]);
    }
  }

  predicate NoneEmpty(row: seq<string>) {
    forall t | t in row :: t != ""
  }

  lemma {:induction false} RowsNonEmpty(lines: seq<string>)
    ensures forall row | row in RowsOf(lines) :: NoneEmpty(row)
  {
    if |lines| > 0 {
      RowsNonEmpty(lines[..|lines| - 1]);
      FieldsNonEmpty(TrimSpace(lines[|lines| - 1]));
    }
  }

  lemma {:induction false} IdsOfRows(rows: seq<seq<string>>)
    requires forall row | row in rows :: NoneEmpty(row)
    ensures forall n | n in NodesOfRows(rows) :: n.id != ""
  {
    if |rows| > 0 {
      IdsOfRows(rows[..|rows| - 1]);
      var last := rows[|rows| - 1];
      assert NoneEmpty(last);
      assert |last| >= 8 ==> last[0] in last;
    }
  }

  lemma IdsNonEmpty(raw: string)
    ensures forall n | n in NodesOf(raw) :: n.id != ""
  {
    RowsNonEmpty(Split(StripVerbatimPrefix(raw), '\n'));
    IdsOfRows(Rows(raw));
  }

  /** The primary for the next replica: least loaded, then smallest id; none exactly when no
      healthy primary with slots has room. */
  method PickMasterForReplica(raw: string, expected: int) returns (r: Option<string>)
    ensures IsPick(NodesOf(raw), NodesOf(raw), expected, r)
  {
    var nodes := ParseClusterNodes(raw);
    IdsNonEmpty(raw);
    r := PickAmong(nodes, expected);
  }

  /** The positions of the nodes flagged slave that name this primary. */
  function Followers(nodes: seq<NodeState>, id: string): set<int> {
    set i | 0 <= i < |nodes| && Contains(nodes[i].flags, "slave") && nodes[i].masterId == id
  }

  lemma ReplicaCountMeans(nodes: seq<NodeState>, id: string)
    requires id != "" && id != "-"
    ensures ReplicaCount(nodes, id) == |Followers(nodes, id)|
  {
    CountMeans(nodes, n => Replicates(n, id));
    assert Positions(nodes, n => Replicates(n, id)) == Followers(nodes, id);
  }

  /** There is a pick unless every primary with slots and in good health has too many replicas. */
  lemma NoPick(nodes: seq<NodeState>, expected: int, r: Option<string>)
    requires IsPick(nodes, nodes, expected, r)
    ensures r.None? <==>
            forall n | n in nodes && Contains(n.flags, "master") && !Contains(n.flags, "fail")
                       && !Contains(n.flags, "noaddr") && n.slots != "" ::
              ReplicaCount(nodes, n.id) > expected
  {
  }

  /** The pick against any other primary that could be picked: it has no more replicas; with as
      many, it has the smaller character where the ids first differ, or it is the shorter. */
  lemma PickMeans(nodes: seq<NodeState>, expected: int, id: string, n: NodeState, k: nat)
    requires IsPick(nodes, nodes, expected, Some(id))
    requires n in nodes && Contains(n.flags, "master") && !Contains(n.flags, "fail") && !Contains(n.flags, "noaddr")
    requires n.slots != "" && n.id != id && ReplicaCount(nodes, n.id) <= expected
    ensures ReplicaCount(nodes, id) <= ReplicaCount(nodes, n.id)
    ensures ReplicaCount(nodes, id) == ReplicaCount(nodes, n.id) && k < |n.id| && k < |id| && n.id[..k] == id[..k] ==>
              id[k] <= n.id[k]
    ensures ReplicaCount(nodes, id) == ReplicaCount(nodes, n.id) ==> !(n.id <= id)
  {
    assert Eligible(nodes, n, expected);
    if ReplicaCount(nodes, id) == ReplicaCount(nodes, n.id) {
      FirstDifference(id, n.id, k);
    }
  }

  lemma FirstDifference(a: string, b: string, k: nat)
    requires Less(a, b)
    ensures k < |a| && k < |b| && a[..k] == b[..k] ==> a[k] <= b[k]
    ensures !(b <= a)
  {
    LessMeans(a, b);
    var i :| 0 <= i <= |a| && i < |b| && a[..i] == b[..i] && (i == |a| || a[i] < b[i]);
    forall j | i < j <= |a| && j <= |b| ensures a[..j] != b[..j] {
      assert a[..j][i] == a[i] && b[..j][i] == b[i];
    }
    assert k < i ==> a[..i][k] == a[k] && b[..i][k] == b[k];
  }

  lemma ReplicaCountPermuted(a: seq<NodeState>, b: seq<NodeState>, id: string)
    requires multiset(a) == multiset(b)
    ensures ReplicaCount(a, id) == ReplicaCount(b, id)
  {
    CountPermuted(a, b, n => Replicates(n, id));
  }

  lemma SameElements(a: seq<NodeState>, b: seq<NodeState>)
    requires multiset(a) == multiset(b)
    ensures forall n :: n in a <==> n in b
  {
    assert forall n :: n in a <==> n in multiset(a);
    assert forall n :: n in b <==> n in multiset(b);
  }

  /** The order of the lines does not matter: there is one pick for all of them. */
  lemma PickPermuted(a: seq<NodeState>, b: seq<NodeState>, expected: int, ra: Option<string>, rb: Option<string>)
    requires multiset(a) == multiset(b)
    requires IsPick(a, a, expected, ra) && IsPick(b, b, expected, rb)
    ensures ra == rb
  {
    SameElements(a, b);
    forall id ensures ReplicaCount(a, id) == ReplicaCount(b, id) {
      ReplicaCountPermuted(a, b, id);
    }
    if ra.Some? && rb.Some? && ra != rb {
      assert Ahead(a, ra.value, rb.value);
      assert Ahead(a, rb.value, ra.value);
      LessTransitive(ra.value, rb.value, ra.value);
      LessIrreflexive(ra.value);
    }
  }

  // The same for texts: lines in another order give rows, and rows give nodes, in another order.

  lemma RowsAround(a: seq<string>, x: string, b: seq<string>)
    ensures multiset(RowsOf(a + [x] + b)) == multiset(RowsOf(a + b)) + multiset(RowOf(x))
  {
    RowsOfConcat(a + [x], b);
    RowsOfConcat(a, [x]);
    RowsOfConcat(a, b);
    assert [x][..0] == [] && RowsOf([x]) == RowOf(x);
  }

  lemma {:induction false} RowsPermuted(a: seq<string>, b: seq<string>)
    requires multiset(a) == multiset(b)
    ensures multiset(RowsOf(a)) == multiset(RowsOf(b))
  {
    if |a| == 0 {
      assert |multiset(b)| == 0;
    } else {
      var init, x := a[..|a| - 1], a[|a| - 1];
      assert a == init + [x] && x in multiset(b);
      var l, r := Locate(b, x);
      Cancel(l, x, r, init);
      RowsPermuted(init, l + r);
      RowsAround(l, x, r);
      RowsAround(init, x, []);
      assert init + [x] + [] == a && init + [] == init;
    }
  }

  function NodesOfRow(row: seq<string>): seq<NodeState> {
    if |row| >= 8 then [StateOfRow(row)] else []
  }

  lemma NodesAround(a: seq<seq<string>>, x: seq<string>, b: seq<seq<string>>)
    ensures multiset(NodesOfRows(a + [x] + b)) == multiset(NodesOfRows(a + b)) + multiset(NodesOfRow(x))
  {
    NodesOfConcat(a + [x], b);
    NodesOfNext(a, x);
    NodesOfConcat(a, b);
  }

  lemma {:induction false} NodesPermuted(a: seq<seq<string>>, b: seq<seq<string>>)
    requires multiset(a) == multiset(b)
    ensures multiset(NodesOfRows(a)) == multiset(NodesOfRows(b))
  {
    if |a| == 0 {
      assert |multiset(b)| == 0;
    } else {
      var init, x := a[..|a| - 1], a[|a| - 1];
      assert a == init + [x] && x in multiset(b);
      var l, r := Locate(b, x);
      Cancel(l, x, r, init);
      NodesPermuted(init, l + r);
      NodesAround(l, x, r);
      NodesAround(init, x, []);
      assert init + [x] + [] == a && init + [] == init;
    }
  }

  function Lines(raw: string): seq<string> {
    Split(StripVerbatimPrefix(raw), '\n')
  }

  /** Two texts with the same lines in any order have the same pick. */
  lemma LinesPermuted(a: string, b: string, expected: int, ra: Option<string>, rb: Option<string>)
    requires multiset(Lines(a)) == multiset(Lines(b))
    requires IsPick(NodesOf(a), NodesOf(a), expected, ra) && IsPick(NodesOf(b), NodesOf(b), expected, rb)
    ensures ra == rb
  {
    RowsPermuted(Lines(a), Lines(b));
    NodesPermuted(Rows(a), Rows(b));
    PickPermuted(NodesOf(a), NodesOf(b), expected, ra, rb);
  }

  /** Whenever a shard is short of replicas, the pick is one that is short. */
  lemma PickIsShort(nodes: seq<NodeState>, expected: int, r: Option<string>, n: NodeState)
    requires IsPick(nodes, nodes, expected, r)
    requires n in nodes && Shard(n) && Short(nodes, n, expected)
    ensures r.Some?
    ensures exists m | m in nodes :: m.id == r.value && Shard(m) && Short(nodes, m, expected)
  {
    assert Eligible(nodes, n, expected);
    var m :| m in nodes && m.id == r.value && Eligible(nodes, m, expected);
    assert Short(nodes, m, expected);
  }

  lemma {:induction false} ShortOfMeans(nodes: seq<NodeState>, part: seq<NodeState>, expected: int, n: NodeState)
    ensures n in ShortOf(nodes, part, expected) <==>
            && n in part && Contains(n.flags, "master") && !Contains(n.flags, "fail") && !Contains(n.flags, "noaddr")
            && ReplicaCount(nodes, n.id) < expected
  {
    if |part| > 0 {
      ShortOfMeans(nodes, part[..|part| - 1], expected, n);
    }
  }

  // ----------------------------------------------------------------- its address

  /** The address of the first node with this id; nothing when there is none. */
  function FirstIp(nodes: seq<NodeState>, id: string): string {
    if |nodes| == 0 then "" else if nodes[0].id == id then nodes[0].ip else FirstIp(nodes[1..], id)
  }

  lemma {:induction false} FirstIpIs(nodes: seq<NodeState>, k: nat)
    requires k < |nodes| && forall j | 0 <= j < k :: nodes[j].id != nodes[k].id
    ensures FirstIp(nodes, nodes[k].id) == nodes[k].ip
  {
    if k > 0 {
      FirstIpIs(nodes[1..], k - 1);
    }
  }

  lemma {:induction false} FirstIpNone(nodes: seq<NodeState>, id: string)
    requires forall n | n in nodes :: n.id != id
    ensures FirstIp(nodes, id) == ""
  {
    if |nodes| > 0 {
      FirstIpNone(nodes[1..], id);
    }
  }

  method PrimaryIp(nodes: seq<NodeState>, id: string) returns (ip: string)
    ensures ip == FirstIp(nodes, id)
  {
    for k := 0 to |nodes|
      invariant FirstIp(nodes[k..], id) == FirstIp(nodes, id)
    {
      if nodes[k].id == id {
        return nodes[k].ip;
      }
      assert nodes[k..][1..] == nodes[k + 1..];
    }
    return "";
  }
}
