/** OPERATOR.CLUSTER.SAFE (server/cluster_safe.c): may this node be stopped now?

    The command walks the CLUSTER NODES text line by line, cuts the flags out of each line and
    counts the primaries that would remain. The count is that of the Go parser on the same text;
    the verdict compares it with the constant 2, which is a majority of three shards and of no
    more. */
module ClusterSafe {
  import opened Options
  import opened Text
  import opened ClusterNodes
  import opened NodesFormat
  import opened Counting

  const FLAGS_LEN := 64
  const QUORUM := 2

  // ----------------------------------------------------------------- one line

  /** The third of the fields that single spaces separate. */
  function ThirdField(line: string): Option<string> {
    var i := FindFrom(line, ' ', 0);
    if i < 0 then None
    else
      var j := FindFrom(line, ' ', i + 1);
      if j < 0 then None
      else
        var k := FindFrom(line, ' ', j + 1);
        if k < 0 then Some(line[j + 1..]) else Some(line[j + 1..k])
  }

  /** What the buffer for the flags holds. */
  function Clipped(flags: string): string {
    Prefix(flags, FLAGS_LEN - 1)
  }

  /** A primary other than this node, in good health. The test for "fail" also catches "fail?". */
  predicate Remains(flags: string) {
    && !Contains(flags, "myself")
    && Contains(flags, "master")
    && !Contains(flags, "fail") && !Contains(flags, "noaddr")
  }

  predicate LineRemains(line: string) {
    match ThirdField(line)
    case None => false
    case Some(flags) => Remains(Clipped(flags))
  }

  /** Lines whose node remains. */
  function CountText(t: string): nat
    decreases |t|
  {
    if t == "" then 0
    else (if LineRemains(FirstLine(t)) then 1 else 0) + CountText(NextLine(t))
  }

  /** Walks the line and remembers what lies between its second and third space. */
  method ExtractFlags(line: string) returns (flags: Option<string>)
    ensures flags == ThirdField(line)
  {
    var p, spaces, flagsStart := 0, 0, 0;
    ghost var first := -1;
    while p < |line|
      invariant 0 <= p <= |line| && 0 <= spaces <= 2
      invariant spaces == 0 ==> FindFrom(line, ' ', p) == FindFrom(line, ' ', 0)
      invariant spaces >= 1 ==> 0 <= first < p && FindFrom(line, ' ', 0) == first
      invariant spaces == 1 ==> FindFrom(line, ' ', p) == FindFrom(line, ' ', first + 1)
      invariant spaces == 2 ==> first + 1 < flagsStart <= p && FindFrom(line, ' ', first + 1) == flagsStart - 1
      invariant spaces == 2 ==> FindFrom(line, ' ', p) == FindFrom(line, ' ', flagsStart)
    {
      if line[p] == ' ' {
        if spaces == 0 {
          first := p;
        } else if spaces == 1 {
          flagsStart := p + 1;
        } else {
          return Some(line[flagsStart..p]);
        }
        spaces := spaces + 1;
      }
      p := p + 1;
    }
    if spaces < 2 {
      return None;
    }
    return Some(line[flagsStart..]);
  }

  method CountHealthyOtherPrimaries(nodes: string) returns (healthy: nat)
    ensures healthy == CountText(nodes)
  {
    healthy := 0;
    var line := nodes;
    while line != ""
      invariant healthy + CountText(line) == CountText(nodes)
      decreases |line|
    {
      var flags := ExtractFlags(FirstLine(line));
      if flags.Some? && Remains(Clipped(flags.value)) {
        healthy := healthy + 1;
      }
      line := NextLine(line);
    }
  }

  // ----------------------------------------------------------------- the count on well-formed texts

  lemma ThirdFieldIs(a: string, b: string, f: string, more: string)
    requires ' ' !in a && ' ' !in b && ' ' !in f
    ensures ThirdField(a + [' '] + b + [' '] + f + [' '] + more) == Some(f)
  {
    var line := a + [' '] + b + [' '] + f + [' '] + more;
    var i, j := |a|, |a| + 1 + |b|;
    FindFromIs(line, ' ', 0, i);
    FindFromIs(line, ' ', i + 1, j);
    FindFromIs(line, ' ', j + 1, j + 1 + |f|);
    assert line[j + 1..j + 1 + |f|] == f;
  }

  lemma FlagsOfLine(n: NodeLine)
    requires WellFormed(n)
    ensures ThirdField(RenderLine(n)) == Some(n.flags)
  {
    var toks := Tokens(n);
    JoinHead(toks, " ");
    JoinHead(toks[1..], " ");
    JoinHead(toks[2..], " ");
    assert toks[1..][1..] == toks[2..] && toks[2..][1..] == toks[3..];
    var more := Join(toks[3..], " ");
    assert RenderLine(n) == n.id + [' '] + Address(n) + [' '] + n.flags + [' '] + more;
    AddressIsToken(n);
    ThirdFieldIs(n.id, Address(n), n.flags, more);
  }

  lemma CountOfLine(n: NodeLine, rest: string)
    requires WellFormed(n) && |n.flags| < FLAGS_LEN
    ensures CountText(RenderLine(n) + "\n" + rest) == (if Remains(n.flags) then 1 else 0) + CountText(rest)
  {
    LineOfRender(n, rest);
    FlagsOfLine(n);
    assert Clipped(n.flags) == n.flags;
  }

  /** Number of nodes that remain, counted on parsed nodes. */
  function CountRemaining(nodes: seq<NodeState>): nat {
    if |nodes| == 0 then 0 else (if Remains(nodes[0].flags) then 1 else 0) + CountRemaining(nodes[1..])
  }

  predicate FlagsFit(ns: seq<NodeLine>) {
    forall n | n in ns :: |n.flags| < FLAGS_LEN
  }

  lemma {:induction false} CountOfRender(ns: seq<NodeLine>)
    requires AllWellFormed(ns) && FlagsFit(ns)
    ensures CountText(Render(ns)) == CountRemaining(StatesOf(ns))
  {
    if |ns| > 0 {
      assert WellFormed(ns[0]);
      CountOfLine(ns[0], Render(ns[1..]));
      CountOfRender(ns[1..]);
      assert StatesOf(ns)[1..] == StatesOf(ns[1..]);
    }
  }

  /** The C counter and the Go parser agree on every well-formed text. */
  lemma CountsAgree(ns: seq<NodeLine>)
    requires AllWellFormed(ns) && FlagsFit(ns)
    ensures CountText(Render(ns)) == CountRemaining(NodesOf(Render(ns)))
  {
    CountOfRender(ns);
    RoundTrip(ns);
  }

  // ----------------------------------------------------------------- the verdict

  /** The decision, from the fields already read out of CLUSTER INFO and INFO replication. */
  function Verdict(clusterState: string, role: string, connectedReplicas: int, nodes: Option<string>): bool {
    if clusterState != "ok" then false
    else if role == "slave" then true
    else if connectedReplicas <= 0 || nodes.None? then false
    else CountText(nodes.value) >= QUORUM
  }

  /** Safe exactly in an ok cluster, for a replica, or for a primary with a replica of its own and
      two other primaries in good health. */
  lemma SafeExactly(clusterState: string, role: string, connectedReplicas: int, ns: seq<NodeLine>)
    requires AllWellFormed(ns) && FlagsFit(ns)
    ensures Verdict(clusterState, role, connectedReplicas, Some(Render(ns))) <==>
            && clusterState == "ok"
            && (|| role == "slave"
                || (connectedReplicas > 0 && |Others(NodesOf(Render(ns)))| >= 2))
    ensures Verdict(clusterState, role, connectedReplicas, None) <==> clusterState == "ok" && role == "slave"
  {
    CountsAgree(ns);
    RemainingMeans(NodesOf(Render(ns)));
  }

  /** The positions of the other primaries in good health. */
  function Others(nodes: seq<NodeState>): set<int> {
    set i | 0 <= i < |nodes| && Contains(nodes[i].flags, "master") && !Contains(nodes[i].flags, "myself")
            && !Contains(nodes[i].flags, "fail") && !Contains(nodes[i].flags, "noaddr")
  }

  lemma {:induction false} RemainingIsCount(nodes: seq<NodeState>)
    ensures CountRemaining(nodes) == Count(nodes, (n: NodeState) => Remains(n.flags))
  {
    if |nodes| > 0 {
      RemainingIsCount(nodes[1..]);
      assert nodes == [nodes[0]] + nodes[1..];
      CountConcat([nodes[0]], nodes[1..], (n: NodeState) => Remains(n.flags));
      CountNext([], nodes[0], (n: NodeState) => Remains(n.flags));
      assert [] + [nodes[0]] == [nodes[0]];
    }
  }

  lemma RemainingMeans(nodes: seq<NodeState>)
    ensures CountRemaining(nodes) == |Others(nodes)|
  {
    RemainingIsCount(nodes);
    CountMeans(nodes, (n: NodeState) => Remains(n.flags));
    assert Positions(nodes, (n: NodeState) => Remains(n.flags)) == Others(nodes);
  }

  function CountMasters(nodes: seq<NodeState>): nat {
    if |nodes| == 0 then 0 else (if Contains(nodes[0].flags, "master") then 1 else 0) + CountMasters(nodes[1..])
  }

  /** The primaries that stay behind are a strict majority of the listed primaries. */
  predicate KeepsMajority(nodes: seq<NodeState>) {
    2 * CountRemaining(nodes) > CountMasters(nodes)
  }

  /** Up to three listed primaries, a "safe" verdict on a primary leaves a strict majority. */
  lemma SafeKeepsMajority(ns: seq<NodeLine>, role: string, connectedReplicas: int)
    requires AllWellFormed(ns) && FlagsFit(ns)
    requires role != "slave" && Verdict("ok", role, connectedReplicas, Some(Render(ns)))
    requires CountMasters(NodesOf(Render(ns))) <= 3
    ensures KeepsMajority(NodesOf(Render(ns)))
  {
    CountsAgree(ns);
  }

  // ----------------------------------------------------------------- how far the constant reaches

  /** A text without one of the pattern's characters does not contain the pattern. */
  lemma LacksCharacter(s: string, pat: string, j: nat)
    requires j < |pat| && pat[j] !in s
    ensures !Contains(s, pat)
  {
    forall i | 0 <= i <= |s| - |pat| ensures !OccursAt(s, pat, i) {
      assert s[i..i + |pat|][j] == s[i + j];
    }
  }

  const SELF := "myself,master"
  const HEALTHY := "master"
  const FAILED := "master,fail"

  lemma SelfFlags()
    ensures Contains(SELF, "myself") && Contains(SELF, "master") && !Contains(SELF, "fail") && !Remains(SELF)
  {
    assert OccursAt(SELF, "myself", 0) by {
      assert SELF[0..6] == "myself";
    }
    assert OccursAt(SELF, "master", 7) by {
      assert SELF[7..13] == "master";
    }
    LacksCharacter(SELF, "fail", 2);
  }

  lemma HealthyFlags()
    ensures !Contains(HEALTHY, "myself") && Contains(HEALTHY, "master") && Remains(HEALTHY)
  {
    assert HEALTHY[0..6] == HEALTHY;
    assert OccursAt(HEALTHY, "master", 0);
    LacksCharacter(HEALTHY, "myself", 1);
    LacksCharacter(HEALTHY, "fail", 0);
    LacksCharacter(HEALTHY, "noaddr", 0);
  }

  lemma FailedFlags()
    ensures !Contains(FAILED, "myself") && Contains(FAILED, "master") && !Remains(FAILED)
  {
    assert OccursAt(FAILED, "master", 0) by {
      assert FAILED[0..6] == "master";
    }
    assert OccursAt(FAILED, "fail", 7) by {
      assert FAILED[7..11] == "fail";
    }
    LacksCharacter(FAILED, "myself", 1);
  }

  function Ones(n: nat): string {
    seq(n, _ => '1')
  }

  /** The `k`-th primary of a view: its own id, its own address and a slot of its own. */
  function Primary(k: nat, flags: string): NodeLine {
    NodeLine("node" + Ones(k), "10." + Ones(k), "1", "2", [], flags, "-", "0", "0", "1", "up", [Ones(k + 1)])
  }

  /** This node, then `healthy` primaries in good health, then failed ones. */
  function FlagsAt(k: nat, healthy: nat): string {
    if k == 0 then SELF else if k <= healthy then HEALTHY else FAILED
  }

  function Tabulate(from: nat, end: nat, line: nat -> NodeLine): seq<NodeLine>
    decreases end - from
  {
    if from >= end then [] else [line(from)] + Tabulate(from + 1, end, line)
  }

  lemma {:induction false} TabulateLength(from: nat, end: nat, line: nat -> NodeLine)
    requires from <= end
    ensures |Tabulate(from, end, line)| == end - from
    decreases end - from
  {
    if from < end {
      TabulateLength(from + 1, end, line);
    }
  }

  lemma {:induction false} TabulateAt(from: nat, end: nat, line: nat -> NodeLine, i: nat)
    requires from + i < end && |Tabulate(from, end, line)| == end - from
    ensures Tabulate(from, end, line)[i] == line(from + i)
    decreases i
  {
    if i > 0 {
      TabulateLength(from + 1, end, line);
      TabulateAt(from + 1, end, line, i - 1);
    }
  }

  function Numbered(healthy: nat): nat -> NodeLine {
    (k: nat) => Primary(k, FlagsAt(k, healthy))
  }

  function View(from: nat, masters: nat, healthy: nat): seq<NodeLine> {
    Tabulate(from, masters, Numbered(healthy))
  }

  lemma ViewAt(masters: nat, healthy: nat, i: nat)
    requires i < masters
    ensures |View(0, masters, healthy)| == masters
    ensures View(0, masters, healthy)[i] == Primary(i, FlagsAt(i, healthy))
  {
    TabulateLength(0, masters, Numbered(healthy));
    TabulateAt(0, masters, Numbered(healthy), i);
  }

  lemma FlagTokens(k: nat, healthy: nat)
    ensures IsToken(FlagsAt(k, healthy)) && |FlagsAt(k, healthy)| < FLAGS_LEN
  {
    assert IsToken(SELF) && IsToken(HEALTHY) && IsToken(FAILED);
  }

  lemma OnesAreTokens(n: nat)
    ensures Bare(Ones(n)) && '@' !in Ones(n) && IsToken("node" + Ones(n)) && IsToken(Ones(n + 1))
    ensures Bare("10." + Ones(n)) && '@' !in "10." + Ones(n)
  {
    assert Ones(n + 1)[0] == '1' && IsToken("node") && Bare("10.");
  }

  lemma PrimaryWellFormed(k: nat, flags: string)
    requires IsToken(flags)
    ensures WellFormed(Primary(k, flags))
  {
    var n := Primary(k, flags);
    OnesAreTokens(k);
    assert n.id[3] == 'e';
    assert IsToken("-") && IsToken("0") && IsToken("1") && IsToken("up") && Bare("2");
    assert ',' !in "2" && ':' !in "1" && '@' !in "1";
  }

  lemma WellFormedCons(n: NodeLine, ns: seq<NodeLine>)
    requires WellFormed(n) && |n.flags| < FLAGS_LEN && AllWellFormed(ns) && FlagsFit(ns)
    ensures AllWellFormed([n] + ns) && FlagsFit([n] + ns)
  {
  }

  lemma {:induction false} ViewWellFormed(from: nat, masters: nat, healthy: nat)
    ensures AllWellFormed(View(from, masters, healthy)) && FlagsFit(View(from, masters, healthy))
    decreases masters - from
  {
    if from < masters {
      FlagTokens(from, healthy);
      PrimaryWellFormed(from, FlagsAt(from, healthy));
      ViewWellFormed(from + 1, masters, healthy);
      WellFormedCons(Primary(from, FlagsAt(from, healthy)), View(from + 1, masters, healthy));
    }
  }

  lemma CountsOfCons(n: NodeLine, ns: seq<NodeLine>)
    ensures CountMasters(StatesOf([n] + ns)) ==
            (if Contains(n.flags, "master") then 1 else 0) + CountMasters(StatesOf(ns))
    ensures CountRemaining(StatesOf([n] + ns)) == (if Remains(n.flags) then 1 else 0) + CountRemaining(StatesOf(ns))
  {
    assert ([n] + ns)[1..] == ns;
    assert StatesOf([n] + ns)[1..] == StatesOf(ns);
  }

  lemma {:induction false} ViewCounts(from: nat, masters: nat, healthy: nat)
    requires from <= masters && healthy < masters
    ensures CountMasters(StatesOf(View(from, masters, healthy))) == masters - from
    ensures CountRemaining(StatesOf(View(from, masters, healthy))) ==
            if from == 0 then healthy else if from <= healthy then healthy + 1 - from else 0
    decreases masters - from
  {
    if from < masters {
      SelfFlags();
      HealthyFlags();
      FailedFlags();
      CountsOfCons(Primary(from, FlagsAt(from, healthy)), View(from + 1, masters, healthy));
      ViewCounts(from + 1, masters, healthy);
    }
  }

  /** Exactly one record is this node's own, and it is a primary in good health. */
  ghost predicate ListsItself(ns: seq<NodeLine>) {
    exists k | 0 <= k < |ns| ::
      && Contains(ns[k].flags, "myself") && Contains(ns[k].flags, "master") && !Contains(ns[k].flags, "fail")
      && forall j | 0 <= j < |ns| && j != k :: !Contains(ns[j].flags, "myself")
  }

  ghost predicate Distinct(ns: seq<NodeLine>) {
    forall i, j | 0 <= i < j < |ns| :: ns[i].id != ns[j].id && Endpoint(ns[i]) != Endpoint(ns[j])
  }

  /** This node and the primaries that remain without it are a strict majority: the cluster is ok. */
  predicate HasMajority(nodes: seq<NodeState>) {
    2 * (CountRemaining(nodes) + 1) > CountMasters(nodes)
  }

  /** A view with `masters` primaries that a primary of an ok cluster can answer with, and on
      which it is told that it is safe to stop. */
  ghost predicate SafeView(ns: seq<NodeLine>, masters: nat) {
    && AllWellFormed(ns) && FlagsFit(ns) && Distinct(ns) && ListsItself(ns)
    && CountMasters(StatesOf(ns)) == masters && HasMajority(StatesOf(ns))
    && Verdict("ok", "master", 1, Some(Render(ns)))
  }

  lemma ViewDistinct(masters: nat, healthy: nat)
    ensures Distinct(View(0, masters, healthy))
  {
    var ns := View(0, masters, healthy);
    TabulateLength(0, masters, Numbered(healthy));
    forall i, j | 0 <= i < j < |ns| ensures ns[i].id != ns[j].id && Endpoint(ns[i]) != Endpoint(ns[j]) {
      ViewAt(masters, healthy, i);
      ViewAt(masters, healthy, j);
      assert |ns[i].id| == 4 + i && |ns[j].id| == 4 + j;
      assert |Endpoint(ns[i])| == 5 + i && |Endpoint(ns[j])| == 5 + j;
    }
  }

  lemma ViewListsItself(masters: nat, healthy: nat)
    requires masters > 0
    ensures ListsItself(View(0, masters, healthy))
  {
    var ns := View(0, masters, healthy);
    TabulateLength(0, masters, Numbered(healthy));
    SelfFlags();
    HealthyFlags();
    FailedFlags();
    ViewAt(masters, healthy, 0);
    forall j | 0 <= j < |ns| && j != 0 ensures !Contains(ns[j].flags, "myself") {
      ViewAt(masters, healthy, j);
    }
  }

  /** This node, half of the primaries in good health and the rest failed: a majority, until this
      node stops. */
  lemma MajorityLost(masters: nat) returns (ns: seq<NodeLine>)
    requires masters > 3
    ensures SafeView(ns, masters) && !KeepsMajority(StatesOf(ns))
  {
    var healthy := masters / 2;
    ns := View(0, masters, healthy);
    ViewWellFormed(0, masters, healthy);
    ViewDistinct(masters, healthy);
    ViewListsItself(masters, healthy);
    ViewCounts(0, masters, healthy);
    CountOfRender(ns);
  }

  lemma MajorityKept(masters: nat, ns: seq<NodeLine>)
    requires masters <= 3 && SafeView(ns, masters)
    ensures KeepsMajority(StatesOf(ns))
  {
    CountOfRender(ns);
  }

  /** The constant 2 protects the majority for up to three primaries and for no larger number. */
  lemma MajorityExactly(masters: nat)
    ensures (forall ns :: SafeView(ns, masters) ==> KeepsMajority(StatesOf(ns))) <==> masters <= 3
  {
    if masters <= 3 {
      forall ns | SafeView(ns, masters) ensures KeepsMajority(StatesOf(ns)) {
        MajorityKept(masters, ns);
      }
    } else {
      var ns := MajorityLost(masters);
    }
  }
}
