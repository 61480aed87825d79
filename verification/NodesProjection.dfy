/** The narrower CLUSTER NODES parsers as projections of `ParseClusterNodes`.

    `parseNodeRoles`, `parseReplicaAddrsForMaster` and `buildKnownAddrSets` re-parse the text with
    weaker demands on the number of fields (3, 4 and 3 instead of 8). They agree with the node
    parser exactly when the lines in between add nothing; on texts whose lines are blank or have
    at least eight fields there are none.
  */
module NodesProjection {
  import opened Text
  import opened ClusterNodes

  /** Every line of the text is blank or has the eight fixed fields. */
  predicate FullLines(raw: string) {
    FullRows(Rows(raw))
  }

  predicate FullRows(rows: seq<seq<string>>) {
    forall row | row in rows :: |row| >= 8
  }

  function RolesOfNodes(nodes: seq<NodeState>): seq<RoleEntry> {
    if |nodes| == 0 then []
    else
      var n := nodes[|nodes| - 1];
      RolesOfNodes(nodes[..|nodes| - 1]) + RoleEntriesOf(n.flags, n.ip, n.hostname)
  }

  /** A line too short for `parseClusterNodes` that still gives a role. */
  predicate ShortRoleRow(row: seq<string>) {
    3 <= |row| < 8 && (Contains(row[2], "master") || Contains(row[2], "slave"))
  }

  /** The role parser sees what the node parser sees, plus one entry per short role line. */
  lemma {:induction false} RolesProject(rows: seq<seq<string>>)
    ensures (forall row | row in rows :: !ShortRoleRow(row)) ==>
              RolesOfRows(rows) == RolesOfNodes(NodesOfRows(rows))
    ensures (exists row | row in rows :: ShortRoleRow(row)) ==>
              |RolesOfRows(rows)| > |RolesOfNodes(NodesOfRows(rows))|
  {
    if |rows| > 0 {
      var rows', last := rows[..|rows| - 1], rows[|rows| - 1];
      assert rows == rows' + [last];
      NodesOfNext(rows', last);
      var nodes := NodesOfRows(rows');
      RolesProject(rows');
      RolesOfNext(rows', last);
      if |last| >= 8 {
        assert (nodes + [StateOfRow(last)])[..|nodes|] == nodes;
      } else {
        assert NodesOfRows(rows) == nodes;
        assert !ShortRoleRow(last) ==> RolesOfRows(rows) == RolesOfRows(rows');
      }
    }
  }

  /** The parsed nodes are those of the rows with all fixed fields. */
  lemma {:induction false} NodesAreFullRows(rows: seq<seq<string>>, n: NodeState)
    ensures n in NodesOfRows(rows) <==> exists row | row in rows :: |row| >= 8 && StateOfRow(row) == n
  {
    if |rows| > 0 {
      var init, last := rows[..|rows| - 1], rows[|rows| - 1];
      assert rows == init + [last];
      NodesOfNext(init, last);
      NodesAreFullRows(init, n);
      assert last in rows && forall row | row in init :: row in rows;
    }
  }

  /** A line with two to seven fields whose ip no full line gives. */
  predicate ShortAddsIp(rows: seq<seq<string>>, keep: seq<string> -> bool, row: seq<string>) {
    && 2 <= |row| < 8 && keep(row) && AddrIp(row[1]) != ""
    && forall full | full in rows :: |full| >= 8 && keep(full) ==> AddrIp(full[1]) != AddrIp(row[1])
  }

  predicate ShortAddsHostname(rows: seq<seq<string>>, keep: seq<string> -> bool, row: seq<string>) {
    && 2 <= |row| < 8 && keep(row) && AddrHostname(row[1]) != ""
    && forall full | full in rows :: |full| >= 8 && keep(full) ==> AddrHostname(full[1]) != AddrHostname(row[1])
  }

  function NodeIps(nodes: seq<NodeState>, keep: NodeState -> bool): set<string> {
    set n | n in nodes && keep(n) && n.ip != "" :: n.ip
  }

  function NodeHostnames(nodes: seq<NodeState>, keep: NodeState -> bool): set<string> {
    set n | n in nodes && keep(n) && n.hostname != "" :: n.hostname
  }

  /** `keep` on rows and `keepNode` on nodes are the same test. */
  ghost predicate SameTest(rows: seq<seq<string>>, keep: seq<string> -> bool, keepNode: NodeState -> bool) {
    forall row | row in rows :: |row| >= 8 ==> keep(row) == keepNode(StateOfRow(row))
  }

  lemma NodeIpMeans(rows: seq<seq<string>>, keep: seq<string> -> bool, keepNode: NodeState -> bool, ip: string)
    requires SameTest(rows, keep, keepNode)
    ensures ip in NodeIps(NodesOfRows(rows), keepNode) <==>
            ip != "" && exists row | row in rows :: |row| >= 8 && keep(row) && AddrIp(row[1]) == ip
  {
    if ip in NodeIps(NodesOfRows(rows), keepNode) {
      var n :| n in NodesOfRows(rows) && keepNode(n) && n.ip == ip;
      NodesAreFullRows(rows, n);
    }
    if row :| row in rows && |row| >= 8 && keep(row) && AddrIp(row[1]) == ip {
      NodesAreFullRows(rows, StateOfRow(row));
    }
  }

  lemma NodeHostnameMeans(rows: seq<seq<string>>, keep: seq<string> -> bool, keepNode: NodeState -> bool, name: string)
    requires SameTest(rows, keep, keepNode)
    ensures name in NodeHostnames(NodesOfRows(rows), keepNode) <==>
            name != "" && exists row | row in rows :: |row| >= 8 && keep(row) && AddrHostname(row[1]) == name
  {
    if name in NodeHostnames(NodesOfRows(rows), keepNode) {
      var n :| n in NodesOfRows(rows) && keepNode(n) && n.hostname == name;
      NodesAreFullRows(rows, n);
    }
    if row :| row in rows && |row| >= 8 && keep(row) && AddrHostname(row[1]) == name {
      NodesAreFullRows(rows, StateOfRow(row));
    }
  }

  /** The ips of the kept rows are those of the kept nodes exactly when no short line adds one. */
  lemma IpsProject(rows: seq<seq<string>>, keep: seq<string> -> bool, keepNode: NodeState -> bool)
    requires SameTest(rows, keep, keepNode)
    ensures IpsOf(rows, keep) == NodeIps(NodesOfRows(rows), keepNode) <==>
            forall row | row in rows :: !ShortAddsIp(rows, keep, row)
  {
    forall ip
      ensures ip in NodeIps(NodesOfRows(rows), keepNode) <==>
              ip != "" && exists row | row in rows :: |row| >= 8 && keep(row) && AddrIp(row[1]) == ip
    {
      NodeIpMeans(rows, keep, keepNode, ip);
    }
    if row :| row in rows && ShortAddsIp(rows, keep, row) {
      assert AddrIp(row[1]) in IpsOf(rows, keep);
    }
  }

  lemma HostnamesProject(rows: seq<seq<string>>, keep: seq<string> -> bool, keepNode: NodeState -> bool)
    requires SameTest(rows, keep, keepNode)
    ensures HostnamesOf(rows, keep) == NodeHostnames(NodesOfRows(rows), keepNode) <==>
            forall row | row in rows :: !ShortAddsHostname(rows, keep, row)
  {
    forall name
      ensures name in NodeHostnames(NodesOfRows(rows), keepNode) <==>
              name != "" && exists row | row in rows :: |row| >= 8 && keep(row) && AddrHostname(row[1]) == name
    {
      NodeHostnameMeans(rows, keep, keepNode, name);
    }
    if row :| row in rows && ShortAddsHostname(rows, keep, row) {
      assert AddrHostname(row[1]) in HostnamesOf(rows, keep);
    }
  }

  /** `parseNodeRoles` lists, in order, the role by flag of every parsed node, exactly when no
      line of three to seven fields carries a role flag. */
  lemma NodeRolesProject(raw: string)
    ensures RolesOfRows(Rows(raw)) == RolesOfNodes(NodesOf(raw)) <==>
            forall row | row in Rows(raw) :: !ShortRoleRow(row)
  {
    RolesProject(Rows(raw));
  }

  predicate IsReplicaOf(n: NodeState, masterId: string) {
    Contains(n.flags, "slave") && n.masterId == masterId
  }

  /** `parseReplicaAddrsForMaster` collects the addresses of the parsed replicas of that master,
      exactly when no short line adds one. */
  lemma ReplicaAddrsProject(raw: string, masterId: string)
    ensures IpsOf(Rows(raw), row => ReplicaRow(row, masterId)) == NodeIps(NodesOf(raw), n => IsReplicaOf(n, masterId))
            <==> forall row | row in Rows(raw) :: !ShortAddsIp(Rows(raw), row => ReplicaRow(row, masterId), row)
    ensures HostnamesOf(Rows(raw), row => ReplicaRow(row, masterId))
            == NodeHostnames(NodesOf(raw), n => IsReplicaOf(n, masterId))
            <==> forall row | row in Rows(raw) :: !ShortAddsHostname(Rows(raw), row => ReplicaRow(row, masterId), row)
  {
    IpsProject(Rows(raw), row => ReplicaRow(row, masterId), n => IsReplicaOf(n, masterId));
    HostnamesProject(Rows(raw), row => ReplicaRow(row, masterId), n => IsReplicaOf(n, masterId));
  }

  predicate HasAddress(n: NodeState) {
    !Contains(n.flags, "noaddr")
  }

  /** `buildKnownAddrSets` collects the addresses of the parsed nodes not flagged noaddr, exactly
      when no short line adds one. */
  lemma KnownAddrsProject(raw: string)
    ensures IpsOf(Rows(raw), AddressedRow) == NodeIps(NodesOf(raw), HasAddress)
            <==> forall row | row in Rows(raw) :: !ShortAddsIp(Rows(raw), AddressedRow, row)
    ensures HostnamesOf(Rows(raw), AddressedRow) == NodeHostnames(NodesOf(raw), HasAddress)
            <==> forall row | row in Rows(raw) :: !ShortAddsHostname(Rows(raw), AddressedRow, row)
  {
    IpsProject(Rows(raw), AddressedRow, HasAddress);
    HostnamesProject(Rows(raw), AddressedRow, HasAddress);
  }

  /** With full lines all four parsers agree. */
  lemma FullLinesAgree(raw: string, masterId: string)
    requires FullLines(raw)
    ensures RolesOfRows(Rows(raw)) == RolesOfNodes(NodesOf(raw))
    ensures IpsOf(Rows(raw), row => ReplicaRow(row, masterId)) == NodeIps(NodesOf(raw), n => IsReplicaOf(n, masterId))
    ensures HostnamesOf(Rows(raw), row => ReplicaRow(row, masterId))
            == NodeHostnames(NodesOf(raw), n => IsReplicaOf(n, masterId))
    ensures IpsOf(Rows(raw), AddressedRow) == NodeIps(NodesOf(raw), HasAddress)
    ensures HostnamesOf(Rows(raw), AddressedRow) == NodeHostnames(NodesOf(raw), HasAddress)
  {
    NodeRolesProject(raw);
    ReplicaAddrsProject(raw, masterId);
    KnownAddrsProject(raw);
  }
}
