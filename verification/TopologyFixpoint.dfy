/** OPERATOR.TOPOLOGY.SET on well-formed CLUSTER NODES texts: which MEETs and which REPLICATE it
    sends, and that it falls silent once the node is where the payload wants it. */
module TopologyFixpoint {
  import opened Options
  import opened Text
  import opened NodesFormat
  import opened TopologyPayload
  import PayloadRoundTrip
  import opened TopologySet

  // ----------------------------------------------------------------- the shape of a line

  /** A line as the address scanners see it: id, ip:port, the rest of the address field, and the
      remaining fields. */
  datatype Cut = Cut(id: string, endpoint: string, bus: string, more: string)

  predicate Clean(c: Cut) {
    && ' ' !in c.id && '\n' !in c.id
    && |c.endpoint| > 0 && '@' !in c.endpoint && ' ' !in c.endpoint && '\n' !in c.endpoint
    && ' ' !in c.bus && '\n' !in c.bus && '\n' !in c.more
  }

  /** Everything behind the address field. */
  function Behind(c: Cut, rest: string): string {
    [' '] + (c.more + ['\n'] + rest)
  }

  function AddrText(c: Cut, rest: string): string {
    c.endpoint + ['@'] + (c.bus + Behind(c, rest))
  }

  function LineText(c: Cut, rest: string): string {
    c.id + [' '] + AddrText(c, rest)
  }

  function CutText(cs: seq<Cut>): string {
    if |cs| == 0 then "" else LineText(cs[0], CutText(cs[1..]))
  }

  function CutOf(n: NodeLine): Cut {
    Cut(n.id, Endpoint(n), n.busPort + Commas(n.names), Join(Tokens(n)[2..], " "))
  }

  function CutsOf(ns: seq<NodeLine>): seq<Cut> {
    if |ns| == 0 then [] else [CutOf(ns[0])] + CutsOf(ns[1..])
  }

  lemma TokenLacks(t: string)
    requires Bare(t)
    ensures ' ' !in t && '\n' !in t
  {
  }

  lemma CutOfIsClean(n: NodeLine)
    requires WellFormed(n)
    ensures Clean(CutOf(n))
  {
    TokensAreTokens(n);
    var toks := Tokens(n)[2..];
    assert forall t | t in toks :: t in Tokens(n);
    RowOfTokens(toks);
    TokenLacks(n.id);
    TokenLacks(n.ip);
    TokenLacks(n.port);
    CommasBare(n.names);
    TokenLacks(n.busPort + Commas(n.names));
  }

  lemma CutOfLine(n: NodeLine, rest: string)
    ensures RenderLine(n) + "\n" + rest == LineText(CutOf(n), rest)
  {
    var toks := Tokens(n);
    JoinHead(toks, " ");
    JoinHead(toks[1..], " ");
    assert toks[1..][1..] == toks[2..];
    var j := Join(toks[2..], " ");
    assert n.id + " " + (Address(n) + " " + j) + "\n" + rest
        == n.id + [' '] + (Address(n) + ([' '] + (j + ['\n'] + rest)));
    var bus := n.busPort + Commas(n.names);
    assert Address(n) + Behind(CutOf(n), rest) == Endpoint(n) + ['@'] + (bus + Behind(CutOf(n), rest));
  }

  lemma {:induction false} CutTextOfRender(ns: seq<NodeLine>)
    requires AllWellFormed(ns)
    ensures Render(ns) == CutText(CutsOf(ns))
    ensures forall c | c in CutsOf(ns) :: Clean(c)
  {
    if |ns| > 0 {
      CutOfLine(ns[0], Render(ns[1..]));
      CutTextOfRender(ns[1..]);
      CutOfIsClean(ns[0]);
    }
  }

  lemma LineStart(c: Cut, rest: string)
    requires Clean(c)
    ensures var t := LineText(c, rest);
            Find(t, ' ') == |c.id| && t[..|c.id|] == c.id && t[|c.id| + 1..] == AddrText(c, rest)
  {
    FindAt(c.id, ' ', AddrText(c, rest));
  }

  lemma AddrStart(c: Cut, rest: string)
    requires Clean(c)
    ensures var a := AddrText(c, rest);
            Find(a, '@') == |c.endpoint| && a[..|c.endpoint|] == c.endpoint
  {
    FindAt(c.endpoint, '@', c.bus + Behind(c, rest));
  }

  lemma AddrFieldEnd(c: Cut, rest: string)
    requires Clean(c)
    ensures var a := AddrText(c, rest);
            var n := |c.endpoint| + 1 + |c.bus|;
            Find(a, ' ') == n && a[n..] == Behind(c, rest)
  {
    var head := c.endpoint + ['@'] + c.bus;
    assert AddrText(c, rest) == head + [' '] + (c.more + ['\n'] + rest);
    FindAt(head, ' ', c.more + ['\n'] + rest);
  }

  lemma LineEnd(c: Cut, rest: string)
    requires Clean(c)
    ensures NextLine(LineText(c, rest)) == rest
    ensures NextLine(Behind(c, rest)) == rest
  {
    var line := c.id + [' '] + (c.endpoint + ['@'] + (c.bus + ([' '] + c.more)));
    assert LineText(c, rest) == line + ['\n'] + rest;
    FindAt(line, '\n', rest);
    assert Behind(c, rest) == ([' '] + c.more) + ['\n'] + rest;
    FindAt([' '] + c.more, '\n', rest);
  }

  // ----------------------------------------------------------------- known addresses

  /** The endpoints that fit the buffer, at most `room` of them. */
  function EndpointsOf(cs: seq<Cut>, room: nat): seq<string> {
    if |cs| == 0 || room == 0 then []
    else if |cs[0].endpoint| < MAX_ADDR_LEN then [cs[0].endpoint] + EndpointsOf(cs[1..], room - 1)
    else EndpointsOf(cs[1..], room)
  }

  lemma AddrOfLine(c: Cut, rest: string)
    requires Clean(c)
    ensures Find(LineText(c, rest), ' ') >= 0
    ensures AddrHere(LineText(c, rest)) == if |c.endpoint| < MAX_ADDR_LEN then Some(c.endpoint) else None
  {
    LineStart(c, rest);
    AddrStart(c, rest);
  }

  lemma KnownOfFit(c: Cut, rest: string, room: nat)
    requires Clean(c) && room > 0 && |c.endpoint| < MAX_ADDR_LEN
    ensures KnownAddrs(LineText(c, rest), room) == [c.endpoint] + KnownAddrs(rest, room - 1)
  {
    AddrOfLine(c, rest);
    LineEnd(c, rest);
  }

  lemma KnownOfOversize(c: Cut, rest: string, room: nat)
    requires Clean(c) && room > 0 && |c.endpoint| >= MAX_ADDR_LEN
    ensures KnownAddrs(LineText(c, rest), room) == KnownAddrs(rest, room)
  {
    AddrOfLine(c, rest);
    LineEnd(c, rest);
  }

  lemma KnownOfFirst(cs: seq<Cut>, room: nat)
    requires |cs| > 0 && Clean(cs[0]) && room > 0
    ensures |cs[0].endpoint| < MAX_ADDR_LEN ==>
              KnownAddrs(CutText(cs), room) == [cs[0].endpoint] + KnownAddrs(CutText(cs[1..]), room - 1)
    ensures |cs[0].endpoint| >= MAX_ADDR_LEN ==>
              KnownAddrs(CutText(cs), room) == KnownAddrs(CutText(cs[1..]), room)
  {
    if |cs[0].endpoint| < MAX_ADDR_LEN {
      KnownOfFit(cs[0], CutText(cs[1..]), room);
    } else {
      KnownOfOversize(cs[0], CutText(cs[1..]), room);
    }
  }

  lemma {:induction false} KnownOfCuts(cs: seq<Cut>, room: nat)
    requires forall c | c in cs :: Clean(c)
    ensures KnownAddrs(CutText(cs), room) == EndpointsOf(cs, room)
  {
    if |cs| > 0 && room > 0 {
      KnownOfFirst(cs, room);
      KnownOfCuts(cs[1..], if |cs[0].endpoint| < MAX_ADDR_LEN then room - 1 else room);
    }
  }

  predicate Lists(ns: seq<NodeLine>, endpoint: string) {
    exists n :: n in ns && Endpoint(n) == endpoint
  }

  lemma ListsSplit(ns: seq<NodeLine>, p: string)
    requires |ns| > 0
    ensures Lists(ns, p) <==> Endpoint(ns[0]) == p || Lists(ns[1..], p)
  {
    if Endpoint(ns[0]) == p {
      assert ns[0] in ns;
    } else if m :| m in ns[1..] && Endpoint(m) == p {
      assert m in ns;
    }
  }

  /** With enough room, an endpoint is known exactly when some line has it and it fits. */
  lemma {:induction false} KnownExactly(ns: seq<NodeLine>, room: nat, p: string)
    requires |ns| <= room
    ensures p in EndpointsOf(CutsOf(ns), room) <==> Lists(ns, p) && |p| < MAX_ADDR_LEN
  {
    if |ns| > 0 {
      KnownExactly(ns[1..], if |Endpoint(ns[0])| < MAX_ADDR_LEN then room - 1 else room, p);
      ListsSplit(ns, p);
      assert CutsOf(ns)[1..] == CutsOf(ns[1..]);
    }
  }

  /** The peers with a port of which no line is listed, in order. */
  function Unlisted(peers: seq<string>, ns: seq<NodeLine>): seq<string> {
    if |peers| == 0 then []
    else
      var p := peers[|peers| - 1];
      Unlisted(peers[..|peers| - 1], ns) + if !Lists(ns, p) && ':' in p then [p] else []
  }

  lemma ShortIsMeetable(p: string)
    requires |p| < MAX_ADDR_LEN
    ensures Meetable(p) <==> ':' in p
  {
    SplitMeans(p);
    FindLastMeans(p, ':');
  }

  lemma {:induction false} UnknownAreUnlisted(peers: seq<string>, ns: seq<NodeLine>)
    requires |ns| <= MAX_PEERS
    requires forall p | p in peers :: |p| < MAX_ADDR_LEN
    ensures Unknown(peers, EndpointsOf(CutsOf(ns), MAX_PEERS)) == Unlisted(peers, ns)
  {
    if |peers| > 0 {
      UnknownAreUnlisted(peers[..|peers| - 1], ns);
      KnownExactly(ns, MAX_PEERS, peers[|peers| - 1]);
      ShortIsMeetable(peers[|peers| - 1]);
    }
  }

  // ----------------------------------------------------------------- the id to replicate

  /** The id of the first line with that endpoint. */
  function FirstWith(ns: seq<NodeLine>, endpoint: string): Option<string> {
    if |ns| == 0 then None
    else if Endpoint(ns[0]) == endpoint then Some(ns[0].id)
    else FirstWith(ns[1..], endpoint)
  }

  lemma FromAddrOfLine(c: Cut, rest: string)
    requires Clean(c)
    ensures Find(LineText(c, rest), ' ') >= 0
    ensures FromAddr(LineText(c, rest)) == AddrText(c, rest)
  {
    LineStart(c, rest);
  }

  lemma AddrTail(c: Cut, rest: string)
    requires Clean(c)
    ensures var a := AddrText(c, rest); Find(a, ' ') >= 0 && NextLine(a[Find(a, ' ')..]) == rest
  {
    AddrFieldEnd(c, rest);
    LineEnd(c, rest);
  }

  lemma AddrLenOfLine(c: Cut, rest: string)
    requires Clean(c) && Find(AddrText(c, rest), ' ') >= 0
    ensures var a := AddrText(c, rest); AddrLen(a) == |c.endpoint| && a[..AddrLen(a)] == c.endpoint
  {
    AddrStart(c, rest);
  }

  lemma MatchesLine(c: Cut, rest: string, target: string)
    requires Clean(c) && |target| < MAX_ADDR_LEN
    ensures var t := LineText(c, rest);
            && Find(t, ' ') >= 0 && Find(FromAddr(t), ' ') >= 0
            && LineMatches(t, target) == (c.endpoint == target)
            && NextLine(FromAddr(t)[Find(FromAddr(t), ' ')..]) == rest
  {
    FromAddrOfLine(c, rest);
    AddrTail(c, rest);
    AddrLenOfLine(c, rest);
  }

  function FirstCutWith(cs: seq<Cut>, endpoint: string): Option<string> {
    if |cs| == 0 then None
    else if cs[0].endpoint == endpoint then Some(cs[0].id)
    else FirstCutWith(cs[1..], endpoint)
  }

  lemma {:induction false} NodeIdOfCuts(cs: seq<Cut>, target: string)
    requires forall c | c in cs :: Clean(c) && |c.id| < NODE_ID_LEN
    requires |target| < MAX_ADDR_LEN
    ensures NodeIdFor(CutText(cs), target) == FirstCutWith(cs, target)
  {
    if |cs| > 0 {
      var rest := CutText(cs[1..]);
      MatchesLine(cs[0], rest, target);
      LineStart(cs[0], rest);
      NodeIdOfCuts(cs[1..], target);
    } else {
      assert Find("", ' ') == -1;
    }
  }

  lemma {:induction false} FirstOfCuts(ns: seq<NodeLine>, target: string)
    ensures FirstCutWith(CutsOf(ns), target) == FirstWith(ns, target)
    ensures forall c | c in CutsOf(ns) :: exists n :: n in ns && c.id == n.id
  {
    if |ns| > 0 {
      FirstOfCuts(ns[1..], target);
      assert CutsOf(ns)[1..] == CutsOf(ns[1..]);
      forall c | c in CutsOf(ns) ensures exists n :: n in ns && c.id == n.id {
        if c == CutOf(ns[0]) {
          assert ns[0] in ns;
        } else {
          var n :| n in ns[1..] && c.id == n.id;
          assert n in ns;
        }
      }
    }
  }

  lemma NodeIdOfRender(ns: seq<NodeLine>, target: string)
    requires AllWellFormed(ns) && |target| < MAX_ADDR_LEN
    requires forall n | n in ns :: |n.id| < NODE_ID_LEN
    ensures NodeIdFor(Render(ns), target) == FirstWith(ns, target)
  {
    CutTextOfRender(ns);
    FirstOfCuts(ns, target);
    NodeIdOfCuts(CutsOf(ns), target);
  }

  // ----------------------------------------------------------------- the command

  /** What the server lists behind the MEETs. */
  predicate ShowsAfter(server: Server, after: seq<NodeLine>) {
    && AllWellFormed(after) && (forall n | n in after :: |n.id| < NODE_ID_LEN)
    && server.nodesAfterMeet == Some(Render(after))
  }

  /** What the server says of itself before and after the MEETs. */
  predicate Shows(server: Server, before: seq<NodeLine>, after: seq<NodeLine>) {
    && AllWellFormed(before) && |before| <= MAX_PEERS && server.nodes == Some(Render(before))
    && ShowsAfter(server, after)
  }

  predicate FitsBuffer(p: string) {
    IsEndpoint(p) && |p| < MAX_ADDR_LEN
  }

  /** Outcome of running the command on a payload. */
  function Run(json: string, server: Server): Outcome {
    Execute(FieldRead(json, "role", ROLE_LEN), FieldRead(json, "primary_addr", MAX_ADDR_LEN),
            PeersSeen(json), server)
  }

  lemma {:induction false} KeptFits(peers: seq<string>, room: nat)
    ensures forall p | p in PayloadRoundTrip.Kept(peers, room) :: |p| < MAX_ADDR_LEN
    ensures (forall p | p in peers :: |p| < MAX_ADDR_LEN) ==>
              forall p | p in PayloadRoundTrip.Kept(peers, room) :: p in peers
  {
    if |peers| > 0 && room > 0 {
      KeptFits(peers[1..], room - 1);
      assert peers[0] in peers;
    }
  }

  lemma ReplicaDecoded(peers: seq<string>, primaryAddr: string, server: Server)
    requires AllEndpoints(peers) && FitsBuffer(primaryAddr)
    ensures Run(ReplicaPayload(peers, primaryAddr), server) ==
            Execute("replica", primaryAddr, PayloadRoundTrip.Kept(peers, MAX_PEERS), server)
  {
    PayloadRoundTrip.RoundTrip(peers, primaryAddr);
  }

  lemma MeetsOfRender(peers: seq<string>, ns: seq<NodeLine>)
    requires AllWellFormed(ns) && |ns| <= MAX_PEERS
    ensures var kept := PayloadRoundTrip.Kept(peers, MAX_PEERS);
            MeetsEach(MeetsFor(kept, KnownAddrs(Render(ns), MAX_PEERS)), Unlisted(kept, ns))
  {
    CutTextOfRender(ns);
    KnownOfCuts(CutsOf(ns), MAX_PEERS);
    KeptFits(peers, MAX_PEERS);
    var kept := PayloadRoundTrip.Kept(peers, MAX_PEERS);
    UnknownAreUnlisted(kept, ns);
    MeetsUnknown(kept, KnownAddrs(Render(ns), MAX_PEERS));
  }

  /** Why the command answers with an error: no node to replicate, or the answer to REPLICATE. */
  function Refusal(target: Option<string>, reply: ReplicateReply): string {
    if target.None? then PRIMARY_UNKNOWN else if reply.ErrorReply? then reply.text else "call failed"
  }

  /** An incomplete payload is refused, and nothing is sent. */
  lemma Refuses(json: string, server: Server)
    requires var role := FieldRead(json, "role", ROLE_LEN);
             role == "" || (role == "replica" && FieldRead(json, "primary_addr", MAX_ADDR_LEN) == "")
    ensures var out := Run(json, server);
            && !out.reply.ok && out.meets == [] && out.replicate == None
            && out.reply.message ==
               if FieldRead(json, "role", ROLE_LEN) == "" then "missing required field: role"
               else "missing required field: primary_addr (required for replica)"
  {
  }

  /** Only the role "replica" leads to a REPLICATE. */
  lemma OtherRolesNeverReplicate(json: string, server: Server)
    requires FieldRead(json, "role", ROLE_LEN) != "replica"
    ensures Run(json, server).replicate == None
  {
  }

  /** What the replication half answers and sends. */
  lemma ReplicateTarget(primaryAddr: string, server: Server, meets: seq<Meet>, count: nat, after: seq<NodeLine>)
    requires FitsBuffer(primaryAddr)
    requires server.nodesAfterMeet == Some(Render(after))
    requires NodeIdFor(Render(after), primaryAddr) == FirstWith(after, primaryAddr)
    ensures var out := Replicate(primaryAddr, server, meets, count);
            && out.meets == meets && out.reply.meetCount == count
            && out.replicate == (if InPlace(server.info, primaryAddr) then None else FirstWith(after, primaryAddr))
            && (out.reply.ok <==> InPlace(server.info, primaryAddr)
                                  || (out.replicate.Some? && server.replicateReply.StatusReply?))
            && out.reply.message == (if out.reply.ok then "ok" else Refusal(out.replicate, server.replicateReply))
  {
    if !InPlace(server.info, primaryAddr) {
      match FirstWith(after, primaryAddr)
      case None =>
      case Some(id) =>
        match server.replicateReply
        case NoReply =>
        case ErrorReply(text) =>
        case StatusReply =>
    }
  }

  /** The addresses known from the first read; none when it fails. */
  function KnownTo(server: Server): seq<string> {
    if server.nodes.Some? then KnownAddrs(server.nodes.value, MAX_PEERS) else []
  }

  lemma ExecuteReplica(primaryAddr: string, peers: seq<string>, server: Server)
    requires primaryAddr != ""
    ensures var meets := MeetsFor(peers, KnownTo(server));
            Execute("replica", primaryAddr, peers, server) ==
            Replicate(primaryAddr, server, meets, Answered(server.meetAnswered, |meets|))
  {
  }

  /** The replication half of the payload, whatever the first read says: the node is told to
      replicate the first node listed behind the MEETs with the primary's address, unless it
      already replicates that address. */
  lemma ReplicaTarget(peers: seq<string>, primaryAddr: string, server: Server, after: seq<NodeLine>)
    requires AllEndpoints(peers) && FitsBuffer(primaryAddr) && ShowsAfter(server, after)
    ensures var out := Run(ReplicaPayload(peers, primaryAddr), server);
            && out.replicate == (if InPlace(server.info, primaryAddr) then None else FirstWith(after, primaryAddr))
            && (out.reply.ok <==> InPlace(server.info, primaryAddr)
                                  || (out.replicate.Some? && server.replicateReply.StatusReply?))
  {
    var kept := PayloadRoundTrip.Kept(peers, MAX_PEERS);
    ReplicaDecoded(peers, primaryAddr, server);
    ExecuteReplica(primaryAddr, kept, server);
    NodeIdOfRender(after, primaryAddr);
    var meets := MeetsFor(kept, KnownTo(server));
    ReplicateTarget(primaryAddr, server, meets, Answered(server.meetAnswered, |meets|), after);
  }

  /** Without a second read no node is replicated. */
  lemma NoTarget(peers: seq<string>, primaryAddr: string, server: Server)
    requires AllEndpoints(peers) && FitsBuffer(primaryAddr) && server.nodesAfterMeet.None?
    ensures Run(ReplicaPayload(peers, primaryAddr), server).replicate == None
  {
    var kept := PayloadRoundTrip.Kept(peers, MAX_PEERS);
    ReplicaDecoded(peers, primaryAddr, server);
    ExecuteReplica(primaryAddr, kept, server);
  }

  /** The replica payload, taken apart: the peers that are not listed are met, one MEET per
      position, and the node is told to replicate the first listed node with the primary's
      address unless it already replicates that address. */
  lemma ReplicaRun(peers: seq<string>, primaryAddr: string, server: Server, before: seq<NodeLine>, after: seq<NodeLine>)
    requires AllEndpoints(peers) && FitsBuffer(primaryAddr)
    requires Shows(server, before, after)
    ensures var out := Run(ReplicaPayload(peers, primaryAddr), server);
            && MeetsEach(out.meets, Unlisted(PayloadRoundTrip.Kept(peers, MAX_PEERS), before))
            && out.reply.meetCount == Answered(server.meetAnswered, |out.meets|)
            && out.replicate == (if InPlace(server.info, primaryAddr) then None else FirstWith(after, primaryAddr))
            && (out.reply.ok <==> InPlace(server.info, primaryAddr)
                                  || (out.replicate.Some? && server.replicateReply.StatusReply?))
            && out.reply.message == (if out.reply.ok then "ok" else Refusal(out.replicate, server.replicateReply))
  {
    ReplicaDecoded(peers, primaryAddr, server);
    ExecuteReplica(primaryAddr, PayloadRoundTrip.Kept(peers, MAX_PEERS), server);
    MeetsOfRender(peers, before);
    NodeIdOfRender(after, primaryAddr);
    var meets := MeetsFor(PayloadRoundTrip.Kept(peers, MAX_PEERS), KnownTo(server));
    ReplicateTarget(primaryAddr, server, meets, Answered(server.meetAnswered, |meets|), after);
  }

  lemma {:induction false} NothingUnlisted(peers: seq<string>, ns: seq<NodeLine>)
    requires forall p | p in peers :: Lists(ns, p)
    ensures Unlisted(peers, ns) == []
  {
    if |peers| > 0 {
      assert Lists(ns, peers[|peers| - 1]);
      NothingUnlisted(peers[..|peers| - 1], ns);
    }
  }

  /** The fixed point: when every peer is listed and the node replicates the target address, the
      same payload sends no MEET and no REPLICATE and answers ok. */
  lemma Silent(peers: seq<string>, primaryAddr: string, server: Server, before: seq<NodeLine>, after: seq<NodeLine>)
    requires FitsBuffer(primaryAddr)
    requires forall p | p in peers :: FitsBuffer(p) && Lists(before, p)
    requires Shows(server, before, after) && InPlace(server.info, primaryAddr)
    ensures Run(ReplicaPayload(peers, primaryAddr), server) == Outcome(Reply(true, "ok", 0), [], None)
  {
    ReplicaRun(peers, primaryAddr, server, before, after);
    KeptFits(peers, MAX_PEERS);
    NothingUnlisted(PayloadRoundTrip.Kept(peers, MAX_PEERS), before);
  }

  /** Gossip recovery never replicates; it meets the peers that are not listed and answers ok. */
  lemma GossipRun(peers: seq<string>, server: Server, before: seq<NodeLine>, after: seq<NodeLine>)
    requires AllEndpoints(peers)
    requires Shows(server, before, after)
    ensures var out := Run(GossipPayload(peers), server);
            && MeetsEach(out.meets, Unlisted(PayloadRoundTrip.Kept(peers, MAX_PEERS), before))
            && out.replicate == None
            && out.reply == Reply(true, "ok", Answered(server.meetAnswered, |out.meets|))
  {
    PayloadRoundTrip.RoundTrip(peers, "");
    MeetsOfRender(peers, before);
  }
}
