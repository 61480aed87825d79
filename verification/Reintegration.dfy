/** Giving a pod its primary, end to end: the operator picks a primary from its view of the cluster
    and prints a payload (`reintegratePod` and the assignment loop in
    internal/controller/repair.go); the pod's module reads the payload and looks the primary up by
    address in the pod's own view (server/topology.c). */
module Reintegration {
  import opened Options
  import opened Text
  import opened ClusterNodes
  import opened NodesFormat
  import opened Allocator
  import opened TopologyPayload
  import opened TopologySet
  import opened TopologyFixpoint
  import PayloadRoundTrip

  function At(ip: string, port: string): string {
    ip + ":" + port
  }

  predicate Reachable(n: NodeState) {
    n.ip != "" && !Contains(n.flags, "noaddr")
  }

  /** The nodes that the pod should meet. */
  function PeersOf(nodes: seq<NodeState>, port: string): seq<string> {
    if |nodes| == 0 then []
    else
      var last := nodes[|nodes| - 1];
      PeersOf(nodes[..|nodes| - 1], port) + if Reachable(last) then [At(last.ip, port)] else []
  }

  /** The peers are the addresses of the listed nodes that have one and are not flagged noaddr. */
  lemma {:induction false} PeersMean(nodes: seq<NodeState>, port: string, peer: string)
    ensures peer in PeersOf(nodes, port) <==>
            exists n | n in nodes :: n.ip != "" && !Contains(n.flags, "noaddr") && peer == n.ip + ":" + port
  {
    if |nodes| > 0 {
      var init, last := nodes[..|nodes| - 1], nodes[|nodes| - 1];
      assert nodes == init + [last];
      PeersMean(init, port, peer);
      assert last in nodes && forall n | n in init :: n in nodes;
    }
  }

  method CollectPeers(nodes: seq<NodeState>, port: string) returns (peers: seq<string>)
    ensures peers == PeersOf(nodes, port)
  {
    peers := [];
    for i := 0 to |nodes|
      invariant peers == PeersOf(nodes[..i], port)
    {
      assert nodes[..i + 1] == nodes[..i] + [nodes[i]];
      if nodes[i].ip != "" && !Contains(nodes[i].flags, "noaddr") {
        peers := peers + [At(nodes[i].ip, port)];
      }
    }
    assert nodes[..|nodes|] == nodes;
  }

  datatype Order = Order(target: string, payload: string)

  /** The payload for a primary at `addr`, around the printed peers. */
  function PayloadFor(json: string, addr: string): string {
    "{" + Member("peers", json, "," + Member("role", Quote("replica"), "," + Member("primary_addr", Quote(addr), "}")))
  }

  lemma PayloadIs(peers: seq<string>, addr: string)
    requires AllEndpoints(peers)
    ensures PayloadFor(PrintedPeers(peers), addr) == ReplicaPayload(peers, addr)
  {
    EndpointsPrinted(peers);
  }

  /** The order that is sent for this view: the pick, addressed by the first node with its id. */
  ghost predicate IsOrder(nodes: seq<NodeState>, expected: int, port: string, r: Option<Order>) {
    exists pick ::
      && IsPick(nodes, nodes, expected, pick)
      && match pick
         case None => r.None?
         case Some(id) =>
           var ip := FirstIp(nodes, id);
           if ip == "" then r.None?
           else r == Some(Order(id, PayloadFor(PrintedPeers(PeersOf(nodes, port)), At(ip, port))))
  }

  /** An order goes out exactly when there is a pick and its address is known. */
  lemma OrderMeans(nodes: seq<NodeState>, expected: int, port: string, r: Option<Order>)
    requires IsOrder(nodes, expected, port, r)
    ensures r.Some? <==> exists id :: IsPick(nodes, nodes, expected, Some(id)) && FirstIp(nodes, id) != ""
    ensures r.Some? ==> IsPick(nodes, nodes, expected, Some(r.value.target)) && FirstIp(nodes, r.value.target) != ""
  {
    var pick :| IsPick(nodes, nodes, expected, pick)
                && (pick.None? || FirstIp(nodes, pick.value) == "" ==> r.None?)
                && (pick.Some? && FirstIp(nodes, pick.value) != "" ==> r.Some? && r.value.target == pick.value);
    forall id | IsPick(nodes, nodes, expected, Some(id)) ensures pick == Some(id) {
      PickPermuted(nodes, nodes, expected, pick, Some(id));
    }
  }

  method PrepareOrder(raw: string, expected: int, port: string) returns (r: Option<Order>)
    ensures IsOrder(NodesOf(raw), expected, port, r)
  {
    var nodes := ParseClusterNodes(raw);
    IdsNonEmpty(raw);
    r := OrderFor(nodes, expected, port);
  }

  /** The same on parsed nodes. */
  method OrderFor(nodes: seq<NodeState>, expected: int, port: string) returns (r: Option<Order>)
    requires forall n | n in nodes :: n.id != ""
    ensures IsOrder(nodes, expected, port, r)
  {
    var pick := PickAmong(nodes, expected);
    if pick.None? {
      return None;
    }
    var ip := PrimaryIp(nodes, pick.value);
    if ip == "" {
      return None;
    }
    var peers := CollectPeers(nodes, port);
    var json := BuildPeersJson(peers);
    return Some(Order(pick.value, PayloadFor(json, At(ip, port))));
  }

  /** What the order does in a pod that is not yet a replica of that address: it is told to
      replicate the first node that its own view lists with the primary's address, whatever the
      first read says; and if the first read lists at most 64 nodes, it meets the unlisted peers. */
  lemma OrderRun(nodes: seq<NodeState>, expected: int, port: string, order: Order, server: Server,
                 after: seq<NodeLine>)
    requires AllEndpoints(PeersOf(nodes, port)) && IsOrder(nodes, expected, port, Some(order))
    requires FitsBuffer(At(FirstIp(nodes, order.target), port))
    requires ShowsAfter(server, after)
    ensures var addr := At(FirstIp(nodes, order.target), port);
            var out := Run(order.payload, server);
            && out.replicate == (if InPlace(server.info, addr) then None else FirstWith(after, addr))
            && (out.reply.ok <==> InPlace(server.info, addr)
                                  || (out.replicate.Some? && server.replicateReply.StatusReply?))
    ensures forall before | Shows(server, before, after) ::
              MeetsEach(Run(order.payload, server).meets,
                        Unlisted(PayloadRoundTrip.Kept(PeersOf(nodes, port), MAX_PEERS), before))
  {
    var peers, addr := PeersOf(nodes, port), At(FirstIp(nodes, order.target), port);
    var pick :| IsPick(nodes, nodes, expected, pick) && pick == Some(order.target)
                && order.payload == PayloadFor(PrintedPeers(peers), addr);
    PayloadIs(peers, addr);
    ReplicaTarget(peers, addr, server, after);
    forall before | Shows(server, before, after)
      ensures MeetsEach(Run(order.payload, server).meets,
                        Unlisted(PayloadRoundTrip.Kept(peers, MAX_PEERS), before))
    {
      ReplicaRun(peers, addr, server, before, after);
    }
  }

  predicate DistinctEndpoints(ns: seq<NodeLine>) {
    forall i, j | 0 <= i < j < |ns| :: Endpoint(ns[i]) != Endpoint(ns[j])
  }

  lemma {:induction false} OnlyOneWith(ns: seq<NodeLine>, k: nat)
    requires k < |ns| && DistinctEndpoints(ns)
    ensures FirstWith(ns, Endpoint(ns[k])) == Some(ns[k].id)
  {
    if k > 0 {
      OnlyOneWith(ns[1..], k - 1);
    }
  }

  /** The pod ends up with the operator's pick when its view lists the pick under the address
      that the operator knows and no other node under that address. */
  lemma OrderReachesPick(nodes: seq<NodeState>, expected: int, port: string, order: Order, server: Server,
                         after: seq<NodeLine>, k: nat)
    requires AllEndpoints(PeersOf(nodes, port)) && IsOrder(nodes, expected, port, Some(order))
    requires FitsBuffer(At(FirstIp(nodes, order.target), port))
    requires ShowsAfter(server, after) && DistinctEndpoints(after)
    requires k < |after| && after[k].id == order.target && Endpoint(after[k]) == At(FirstIp(nodes, order.target), port)
    ensures !InPlace(server.info, Endpoint(after[k])) ==> Run(order.payload, server).replicate == Some(order.target)
    ensures IsPick(nodes, nodes, expected, Some(order.target))
  {
    OrderRun(nodes, expected, port, order, server, after);
    OnlyOneWith(after, k);
  }
}
