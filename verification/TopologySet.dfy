/** OPERATOR.TOPOLOGY.SET (server/topology.c): CLUSTER MEET for the peers the node does not know,
    then CLUSTER REPLICATE when the payload asks for a replica.

    The replies of the server to the calls that the command makes are inputs. */
module TopologySet {
  import opened Options
  import opened Text
  import opened TopologyPayload

  const NODE_ID_LEN := 64
  const PORT_LEN := 16

  datatype Meet = Meet(ip: string, port: string)

  datatype ReplicateReply = NoReply | ErrorReply(text: string) | StatusReply

  /** Replies of the server, in the order of the calls. A missing text is a call that failed or
      did not answer with a string. `meetAnswered(k)` tells whether the k-th MEET got a reply. */
  datatype Server = Server(
    nodes: Option<string>,
    meetAnswered: nat -> bool,
    info: Option<string>,
    nodesAfterMeet: Option<string>,
    replicateReply: ReplicateReply)

  datatype Reply = Reply(ok: bool, message: string, meetCount: nat)

  /** The reply together with the commands that were sent. */
  datatype Outcome = Outcome(reply: Reply, meets: seq<Meet>, replicate: Option<string>)

  const MISSING_ROLE := "missing required field: role"
  const MISSING_PRIMARY := "missing required field: primary_addr (required for replica)"
  const PRIMARY_UNKNOWN := "primary node ID not yet known — retry after gossip converges"

  // ----------------------------------------------------------------- what the node knows

  /** The address that a line contributes: the text between its first space and the next '@'. */
  function AddrHere(line: string): Option<string> {
    var sp := Find(line, ' ');
    if sp < 0 then None
    else
      var addr := line[sp + 1..];
      var at := Find(addr, '@');
      if 0 < at < MAX_ADDR_LEN then Some(addr[..at]) else None
  }

  /** The "ip:port" texts collected from CLUSTER NODES, at most `room` of them. */
  function KnownAddrs(t: string, room: nat): seq<string>
    decreases |t|
  {
    if t == "" || room == 0 || Find(t, ' ') < 0 then []
    else
      match AddrHere(t)
      case None => KnownAddrs(NextLine(t), room)
      case Some(addr) => [addr] + KnownAddrs(NextLine(t), room - 1)
  }

  /** `known` is what has been collected of `all`; the rest is still in `t`. */
  ghost predicate Collecting(all: seq<string>, known: seq<string>, t: string, room: nat) {
    all == known + KnownAddrs(t, room)
  }

  lemma CollectOne(all: seq<string>, known: seq<string>, t: string, room: nat)
    requires Collecting(all, known, t, room)
    requires room > 0 && Find(t, ' ') >= 0 && AddrHere(t).Some?
    ensures Collecting(all, known + [AddrHere(t).value], NextLine(t), room - 1)
  {
    assert known + ([AddrHere(t).value] + KnownAddrs(NextLine(t), room - 1))
        == known + [AddrHere(t).value] + KnownAddrs(NextLine(t), room - 1);
  }

  lemma CollectNone(all: seq<string>, known: seq<string>, t: string, room: nat)
    requires Collecting(all, known, t, room)
    requires room > 0 && Find(t, ' ') >= 0 && AddrHere(t).None?
    ensures Collecting(all, known, NextLine(t), room)
  {
  }

  lemma Collected(all: seq<string>, known: seq<string>, t: string, room: nat)
    requires Collecting(all, known, t, room)
    requires room == 0 || Find(t, ' ') < 0
    ensures known == all
  {
  }

  /** One turn of the line loop. */
  method CollectFrom(line: string, known: seq<string>, room: nat, ghost all: seq<string>)
    returns (known': seq<string>, line': string, room': nat)
    requires line != "" && room > 0 && Find(line, ' ') >= 0
    requires Collecting(all, known, line, room)
    ensures Collecting(all, known', line', room')
    ensures |line'| < |line|
  {
    var addr := AddrHere(line);
    line' := NextLine(line);
    if addr.Some? {
      CollectOne(all, known, line, room);
      known', room' := known + [addr.value], room - 1;
    } else {
      CollectNone(all, known, line, room);
      known', room' := known, room;
    }
  }

  method CollectKnownAddrs(nodes: string) returns (known: seq<string>)
    ensures known == KnownAddrs(nodes, MAX_PEERS)
  {
    known := [];
    var line, room: nat := nodes, MAX_PEERS;
    ghost var all := KnownAddrs(nodes, MAX_PEERS);
    while line != "" && room > 0 && Find(line, ' ') >= 0
      invariant Collecting(all, known, line, room)
      decreases |line|
    {
      known, line, room := CollectFrom(line, known, room, all);
    }
    Collected(all, known, line, room);
  }

  /** "ip:port" split at the last colon; the port is cut to its buffer. */
  function SplitAddr(addr: string): Option<Meet> {
    var colon := FindLast(addr, ':');
    if colon < 0 || colon >= MAX_ADDR_LEN then None
    else Some(Meet(addr[..colon], addr[colon + 1..][..Min(|addr| - colon - 1, PORT_LEN - 1)]))
  }

  /** The peer is "ip:port", with the port behind the last colon, and this is the MEET for it: the
      port is cut to its buffer, and an ip that does not fit its buffer cannot be met. */
  ghost predicate Addresses(m: Meet, peer: string) {
    exists port ::
      ':' !in port && peer == m.ip + ":" + port && m.port == Prefix(port, PORT_LEN - 1) && |m.ip| < MAX_ADDR_LEN
  }

  ghost predicate Meetable(peer: string) {
    exists m :: Addresses(m, peer)
  }

  /** Splitting undoes the join: whatever the ip looks like, IPv6 included. */
  lemma SplitJoined(ip: string, port: string)
    requires ':' !in port
    ensures SplitAddr(ip + ":" + port) ==
            if |ip| < MAX_ADDR_LEN then Some(Meet(ip, Prefix(port, PORT_LEN - 1))) else None
  {
    var addr := ip + [':'] + port;
    assert addr == ip + ":" + port;
    FindLastAt(ip, ':', port);
    assert addr[..|ip|] == ip && addr[|ip| + 1..] == port;
  }

  /** An address is split into the MEET for it, and into nothing exactly when there is none. */
  lemma SplitMeans(peer: string)
    ensures match SplitAddr(peer)
            case None => !Meetable(peer)
            case Some(m) => Addresses(m, peer)
  {
    FindLastMeans(peer, ':');
    if ':' in peer {
      var colon := FindLast(peer, ':');
      var ip, port := peer[..colon], peer[colon + 1..];
      assert peer == ip + ":" + port;
      SplitJoined(ip, port);
    }
    if m :| Addresses(m, peer) {
      var port :| ':' !in port && peer == m.ip + ":" + port && m.port == Prefix(port, PORT_LEN - 1);
      SplitJoined(m.ip, port);
    }
  }

  /** The peers that can be met and are not known, in order. */
  ghost function Unknown(peers: seq<string>, known: seq<string>): seq<string> {
    if |peers| == 0 then []
    else
      var p := peers[|peers| - 1];
      Unknown(peers[..|peers| - 1], known) + if p !in known && Meetable(p) then [p] else []
  }

  /** One MEET for each peer, in order. */
  ghost predicate MeetsEach(meets: seq<Meet>, peers: seq<string>) {
    |meets| == |peers| && forall k | 0 <= k < |peers| :: Addresses(meets[k], peers[k])
  }

  /** The MEETs that are sent: one per unknown peer that can be met, to its own ip and port. */
  lemma {:induction false} MeetsUnknown(peers: seq<string>, known: seq<string>)
    ensures MeetsEach(MeetsFor(peers, known), Unknown(peers, known))
  {
    if |peers| > 0 {
      MeetsUnknown(peers[..|peers| - 1], known);
      SplitMeans(peers[|peers| - 1]);
    }
  }

  /** The MEETs for the peers that are not known, in the order of the peers. */
  function MeetsFor(peers: seq<string>, known: seq<string>): seq<Meet> {
    if |peers| == 0 then []
    else
      MeetsFor(peers[..|peers| - 1], known) + MeetFor(peers[|peers| - 1], known)
  }

  function MeetFor(peer: string, known: seq<string>): (r: seq<Meet>)
    ensures |r| <= 1
  {
    if peer in known || SplitAddr(peer).None? then [] else [SplitAddr(peer).value]
  }

  /** How many of the first `n` MEETs got a reply. */
  function Answered(answered: nat -> bool, n: nat): (r: nat)
    ensures r <= n
  {
    if n == 0 then 0 else Answered(answered, n - 1) + if answered(n - 1) then 1 else 0
  }

  function AnsweredOnes(answered: nat -> bool, n: nat): set<nat> {
    set k: nat | k < n && answered(k)
  }

  lemma AnsweredNext(answered: nat -> bool, n: nat)
    ensures answered(n) ==> AnsweredOnes(answered, n + 1) == AnsweredOnes(answered, n) + {n}
    ensures !answered(n) ==> AnsweredOnes(answered, n + 1) == AnsweredOnes(answered, n)
  {
  }

  /** It is the number of the MEETs that got one. */
  lemma {:induction false} AnsweredMeans(answered: nat -> bool, n: nat)
    ensures Answered(answered, n) == |AnsweredOnes(answered, n)|
  {
    if n > 0 {
      AnsweredMeans(answered, n - 1);
      AnsweredNext(answered, n - 1);
    }
  }

  method IsKnown(peer: string, known: seq<string>) returns (alreadyKnown: bool)
    ensures alreadyKnown <==> peer in known
  {
    alreadyKnown := false;
    for k := 0 to |known|
      invariant alreadyKnown <==> peer in known[..k]
    {
      if peer == known[k] {
        alreadyKnown := true;
      }
    }
    assert known[..|known|] == known;
  }

  method MeetPeers(peers: seq<string>, known: seq<string>, answered: nat -> bool)
    returns (meets: seq<Meet>, meetCount: nat)
    ensures meets == MeetsFor(peers, known)
    ensures meetCount == Answered(answered, |meets|)
  {
    meets, meetCount := [], 0;
    for i := 0 to |peers|
      invariant meets == MeetsFor(peers[..i], known)
      invariant meetCount == Answered(answered, |meets|)
    {
      assert peers[..i + 1][..i] == peers[..i];
      var alreadyKnown := IsKnown(peers[i], known);
      if alreadyKnown {
        continue;
      }
      var split := SplitAddr(peers[i]);
      if split.None? {
        continue;
      }
      if answered(|meets|) {
        meetCount := meetCount + 1;
      }
      meets := meets + [split.value];
    }
    assert peers[..|peers|] == peers;
  }

  // ----------------------------------------------------------------- replication

  predicate HasLine(info: string, line: string) {
    FindSub(info, "\n" + line + "\r") >= 0 || FindSub(info, "\n" + line + "\n") >= 0
  }

  /** INFO replication says that the node replicates that address. */
  predicate AlreadyReplicaOf(info: Option<string>, primaryIp: string) {
    info.Some? && HasLine(info.value, "role:slave") && HasLine(info.value, "master_host:" + primaryIp)
  }

  /** The node already replicates the address in front of the port of `primaryAddr`. */
  predicate InPlace(info: Option<string>, primaryAddr: string) {
    match SplitAddr(primaryAddr)
    case None => false
    case Some(m) => m.ip != "" && AlreadyReplicaOf(info, m.ip)
  }

  lemma HasLineMeans(info: string, line: string)
    ensures HasLine(info, line) <==> Contains(info, "\n" + line + "\r") || Contains(info, "\n" + line + "\n")
  {
    FindSubMeans(info, "\n" + line + "\r");
    FindSubMeans(info, "\n" + line + "\n");
  }

  /** The node is in place exactly when INFO has both lines, each between a line feed and a line
      feed or carriage return; the port does not matter. */
  lemma InPlaceMeans(info: Option<string>, ip: string, port: string)
    requires ':' !in port
    ensures InPlace(info, ip + ":" + port) <==>
            && ip != "" && |ip| < MAX_ADDR_LEN && info.Some?
            && (Contains(info.value, "\n" + "role:slave" + "\r") || Contains(info.value, "\n" + "role:slave" + "\n"))
            && (|| Contains(info.value, "\n" + ("master_host:" + ip) + "\r")
                || Contains(info.value, "\n" + ("master_host:" + ip) + "\n"))
  {
    SplitJoined(ip, port);
    if info.Some? {
      HasLineMeans(info.value, "role:slave");
      HasLineMeans(info.value, "master_host:" + ip);
    }
  }

  /** The second field of a line and everything behind it. */
  function FromAddr(line: string): string {
    line[Find(line, ' ') + 1..]
  }

  /** Length of the address in front of the '@', or of the field when no '@' follows. */
  function AddrLen(addr: string): (n: nat)
    requires Find(addr, ' ') >= 0
    ensures n <= |addr|
  {
    var at := Find(addr, '@');
    if at >= 0 then at else Find(addr, ' ')
  }

  predicate LineMatches(line: string, target: string)
    requires Find(FromAddr(line), ' ') >= 0
  {
    var addr := FromAddr(line);
    AddrLen(addr) < MAX_ADDR_LEN && addr[..AddrLen(addr)] == target
  }

  /** The id of the first listed node with that "ip:port". */
  function NodeIdFor(t: string, target: string): Option<string>
    decreases |t|
  {
    if Find(t, ' ') < 0 || Find(FromAddr(t), ' ') < 0 then None
    else if LineMatches(t, target) then
      if Find(t, ' ') < NODE_ID_LEN then Some(t[..Find(t, ' ')]) else None
    else
      NodeIdFor(NextLine(FromAddr(t)[Find(FromAddr(t), ' ')..]), target)
  }

  method GetNodeIdForAddr(nodes: string, target: string) returns (id: Option<string>)
    ensures id == NodeIdFor(nodes, target)
  {
    var line := nodes;
    while line != ""
      invariant NodeIdFor(line, target) == NodeIdFor(nodes, target)
      decreases |line|
    {
      var idEnd := Find(line, ' ');
      if idEnd < 0 {
        return None;
      }
      var addr := line[idEnd + 1..];
      var addrEnd := Find(addr, ' ');
      if addrEnd < 0 {
        return None;
      }
      var at := Find(addr, '@');
      var len := if at >= 0 then at else addrEnd;
      if len < MAX_ADDR_LEN && addr[..len] == target {
        return if idEnd < NODE_ID_LEN then Some(line[..idEnd]) else None;
      }
      line := NextLine(addr[addrEnd..]);
    }
    return None;
  }

  // ----------------------------------------------------------------- the command

  /** What the command does with a decoded payload. */
  function Execute(role: string, primaryAddr: string, peers: seq<string>, server: Server): Outcome {
    if role == "" then Outcome(Reply(false, MISSING_ROLE, 0), [], None)
    else if role == "replica" && primaryAddr == "" then Outcome(Reply(false, MISSING_PRIMARY, 0), [], None)
    else
      var known := if server.nodes.Some? then KnownAddrs(server.nodes.value, MAX_PEERS) else [];
      var meets := MeetsFor(peers, known);
      var count := Answered(server.meetAnswered, |meets|);
      if role != "replica" then Outcome(Reply(true, "ok", count), meets, None)
      else Replicate(primaryAddr, server, meets, count)
  }

  function Replicate(primaryAddr: string, server: Server, meets: seq<Meet>, count: nat): Outcome {
    if InPlace(server.info, primaryAddr) then
      Outcome(Reply(true, "ok", count), meets, None)
    else
      var id := if server.nodesAfterMeet.Some? then NodeIdFor(server.nodesAfterMeet.value, primaryAddr) else None;
      if id.None? then Outcome(Reply(false, PRIMARY_UNKNOWN, count), meets, None)
      else
        match server.replicateReply
        case NoReply => Outcome(Reply(false, "call failed", count), meets, id)
        case ErrorReply(text) => Outcome(Reply(false, text, count), meets, id)
        case StatusReply => Outcome(Reply(true, "ok", count), meets, id)
  }

  /** A buffer that the scanner may leave alone, because the field is absent, starts out empty. */
  method ReadField(json: string, field: string, cap: nat) returns (value: string)
    requires '\0' !in json && cap > 0 && |field| + 2 < 128
    ensures value == FieldRead(json, field, cap)
  {
    var buf := new char[cap](_ => '\0');
    assert CText(buf[..]) == "" by {
      assert buf[..][0] == '\0';
    }
    var rc := JsonExtractString(json, field, buf);
    value := CText(buf[..]);
  }

  method TopologySetCommand(json: string, server: Server) returns (out: Outcome)
    requires '\0' !in json
    ensures out == Execute(FieldRead(json, "role", ROLE_LEN), FieldRead(json, "primary_addr", MAX_ADDR_LEN),
                           PeersSeen(json), server)
  {
    var role := ReadField(json, "role", ROLE_LEN);
    var primaryAddr := ReadField(json, "primary_addr", MAX_ADDR_LEN);
    var peerCount, peers := JsonExtractArrayStrings(json, "peers", MAX_PEERS);

    if role == "" {
      return Outcome(Reply(false, MISSING_ROLE, 0), [], None);
    }
    if role == "replica" && primaryAddr == "" {
      return Outcome(Reply(false, MISSING_PRIMARY, 0), [], None);
    }

    var known := [];
    if server.nodes.Some? {
      known := CollectKnownAddrs(server.nodes.value);
    }
    var meets, meetCount := MeetPeers(peers, known, server.meetAnswered);

    if role == "replica" {
      if InPlace(server.info, primaryAddr) {
        return Outcome(Reply(true, "ok", meetCount), meets, None);
      }
      var id := None;
      if server.nodesAfterMeet.Some? {
        id := GetNodeIdForAddr(server.nodesAfterMeet.value, primaryAddr);
      }
      if id.None? {
        return Outcome(Reply(false, PRIMARY_UNKNOWN, meetCount), meets, None);
      }
      match server.replicateReply
      case NoReply => return Outcome(Reply(false, "call failed", meetCount), meets, id);
      case ErrorReply(text) => return Outcome(Reply(false, text, meetCount), meets, id);
      case StatusReply =>
        return Outcome(Reply(true, "ok", meetCount), meets, id);
    }
    out := Outcome(Reply(true, "ok", meetCount), meets, None);
  }
}
