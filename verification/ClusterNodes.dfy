/** The Go parsers of CLUSTER NODES (internal/controller/helpers_parse.go).

    Each parser walks the lines of the text and appends to a slice or inserts into sets. Its
    method carries that loop; its contract says what the loop computes of `Rows(raw)`, the
    white-space separated fields of the lines that are not blank.
  */
module ClusterNodes {
  import opened Text

  /** One node as the operator sees it (clusterNodeState). */
  datatype NodeState = NodeState(
    id: string,
    ip: string,
    hostname: string,
    flags: string,
    masterId: string,
    slots: string)

  datatype Role = Primary | Replica

  datatype RoleEntry = RoleEntry(role: Role, ip: string, hostname: string)

  // ----------------------------------------------------------------- pieces of one line

  /** Drops the RESP3 verbatim-string header such as "txt:". */
  function StripVerbatimPrefix(s: string): string {
    if |s| > 4 && s[3] == ':' && '\n' !in s[..3] then s[4..] else s
  }

  /** The address in front of the last colon: IPv4 and IPv6 alike. */
  function SplitAddrIp(atPart: string): string {
    var i := FindLast(atPart, ':');
    if i >= 0 then atPart[..i] else atPart
  }

  /** The ip of an "ip:port@busport[,hostname[,...]]" field. */
  function AddrIp(addr: string): string {
    SplitAddrIp(Split(addr, '@')[0])
  }

  /** The host name between the first and the second comma of the bus part, or "". */
  function BusHostname(bus: string): string {
    var comma := Find(bus, ',');
    if comma < 0 then ""
    else
      var after := bus[comma + 1..];
      var next := Find(after, ',');
      if next < 0 then after else after[..next]
  }

  /** The host name of an address field, or "". */
  function AddrHostname(addr: string): string {
    var at := Find(addr, '@');
    if at < 0 then "" else BusHostname(addr[at + 1..])
  }

  // ----------------------------------------------------------------- rows

  /** The fields of a line, or nothing for a blank line. */
  function RowOf(line: string): (rows: seq<seq<string>>)
    ensures |rows| <= 1
  {
    if TrimSpace(line) == "" then [] else [Fields(TrimSpace(line))]
  }

  function RowsOf(lines: seq<string>): seq<seq<string>> {
    if |lines| == 0 then [] else RowsOf(lines[..|lines| - 1]) + RowOf(lines[|lines| - 1])
  }

  function Rows(raw: string): seq<seq<string>> {
    RowsOf(Split(StripVerbatimPrefix(raw), '\n'))
  }

  lemma {:induction false} RowsOfConcat(a: seq<string>, b: seq<string>)
    ensures RowsOf(a + b) == RowsOf(a) + RowsOf(b)
  {
    if |b| == 0 {
      assert a + b == a;
    } else {
      var b' := b[..|b| - 1];
      assert (a + b)[..|a + b| - 1] == a + b' && (a + b)[|a + b| - 1] == b[|b| - 1];
      RowsOfConcat(a, b');
    }
  }

  /** Reading one more line. */
  lemma RowsOfNext(lines: seq<string>, i: nat)
    requires i < |lines|
    ensures TrimSpace(lines[i]) == "" ==> RowsOf(lines[..i + 1]) == RowsOf(lines[..i])
    ensures TrimSpace(lines[i]) != "" ==>
              RowsOf(lines[..i + 1]) == RowsOf(lines[..i]) + [Fields(TrimSpace(lines[i]))]
  {
    assert lines[..i + 1][..i] == lines[..i];
  }

  /** The node that a row of at least eight fields describes. */
  function StateOfRow(row: seq<string>): NodeState
    requires |row| >= 8
  {
    NodeState(row[0], AddrIp(row[1]), AddrHostname(row[1]), row[2], row[3], Join(row[8..], " "))
  }

  function NodesOfRows(rows: seq<seq<string>>): seq<NodeState> {
    if |rows| == 0 then []
    else
      var last := rows[|rows| - 1];
      NodesOfRows(rows[..|rows| - 1]) + if |last| >= 8 then [StateOfRow(last)] else []
  }

  lemma NodesOfNext(rows: seq<seq<string>>, row: seq<string>)
    ensures NodesOfRows(rows + [row]) == NodesOfRows(rows) + if |row| >= 8 then [StateOfRow(row)] else []
  {
    assert (rows + [row])[..|rows|] == rows;
  }

  lemma {:induction false} NodesOfConcat(a: seq<seq<string>>, b: seq<seq<string>>)
    ensures NodesOfRows(a + b) == NodesOfRows(a) + NodesOfRows(b)
  {
    if |b| == 0 {
      assert a + b == a;
    } else {
      var b', last := b[..|b| - 1], b[|b| - 1];
      assert a + b == (a + b') + [last] && b == b' + [last];
      NodesOfNext(a + b', last);
      NodesOfNext(b', last);
      NodesOfConcat(a, b');
    }
  }

  /** What `parseClusterNodes` returns. */
  function NodesOf(raw: string): seq<NodeState> {
    NodesOfRows(Rows(raw))
  }

  // ----------------------------------------------------------------- parseClusterNodes

  method ParseClusterNodes(raw: string) returns (nodes: seq<NodeState>)
    ensures nodes == NodesOf(raw)
  {
    var lines := Split(StripVerbatimPrefix(raw), '\n');
    nodes := [];
    for i := 0 to |lines|
      invariant nodes == NodesOfRows(RowsOf(lines[..i]))
    {
      RowsOfNext(lines, i);
      var line := TrimSpace(lines[i]);
      if line == "" {
        continue;
      }
      var parts := Fields(line);
      NodesOfNext(RowsOf(lines[..i]), parts);
      if |parts| < 8 {
        continue;
      }
      var slots := "";
      if |parts| > 8 {
        slots := Join(parts[8..], " ");
      }
      nodes := nodes +
      [NodeState(parts[0], AddrIp(parts[1]), AddrHostname(parts[1]), parts[2], parts[3], slots)];
    }
    assert lines[..|lines|] == lines;
  }

  // ----------------------------------------------------------------- parseNodeRoles

  /** Role by flag; "master" wins over "slave"; other nodes give no entry. */
  function RoleEntriesOf(flags: string, ip: string, hostname: string): seq<RoleEntry> {
    if Contains(flags, "master") then [RoleEntry(Primary, ip, hostname)]
    else if Contains(flags, "slave") then [RoleEntry(Replica, ip, hostname)]
    else []
  }

  function RolesOfRows(rows: seq<seq<string>>): seq<RoleEntry> {
    if |rows| == 0 then []
    else
      var last := rows[|rows| - 1];
      RolesOfRows(rows[..|rows| - 1]) +
      if |last| < 3 then [] else RoleEntriesOf(last[2], AddrIp(last[1]), AddrHostname(last[1]))
  }

  lemma RolesOfNext(rows: seq<seq<string>>, row: seq<string>)
    ensures RolesOfRows(rows + [row]) == RolesOfRows(rows) +
            if |row| < 3 then [] else RoleEntriesOf(row[2], AddrIp(row[1]), AddrHostname(row[1]))
  {
    assert (rows + [row])[..|rows|] == rows;
  }

  /** The line gives this entry: flags with "master" make a primary, otherwise "slave" a replica. */
  predicate GivesRole(row: seq<string>, e: RoleEntry) {
    && |row| >= 3 && AddrIp(row[1]) == e.ip && AddrHostname(row[1]) == e.hostname
    && match e.role
       case Primary => Contains(row[2], "master")
       case Replica => !Contains(row[2], "master") && Contains(row[2], "slave")
  }

  lemma {:induction false} RolesMean(rows: seq<seq<string>>, e: RoleEntry)
    ensures e in RolesOfRows(rows) <==> exists row | row in rows :: GivesRole(row, e)
  {
    if |rows| > 0 {
      var init, last := rows[..|rows| - 1], rows[|rows| - 1];
      assert rows == init + [last];
      RolesMean(init, e);
      RolesOfNext(init, last);
      assert (exists row | row in rows :: GivesRole(row, e)) <==>
             (exists row | row in init :: GivesRole(row, e)) || GivesRole(last, e);
    }
  }

  method ParseNodeRoles(raw: string) returns (entries: seq<RoleEntry>)
    ensures entries == RolesOfRows(Rows(raw))
  {
    var lines := Split(StripVerbatimPrefix(raw), '\n');
    entries := [];
    for i := 0 to |lines|
      invariant entries == RolesOfRows(RowsOf(lines[..i]))
    {
      RowsOfNext(lines, i);
      var line := TrimSpace(lines[i]);
      if line == "" {
        continue;
      }
      var parts := Fields(line);
      RolesOfNext(RowsOf(lines[..i]), parts);
      if |parts| < 3 {
        continue;
      }
      var flags := parts[2];
      if Contains(flags, "master") {
        entries := entries + [RoleEntry(Primary, AddrIp(parts[1]), AddrHostname(parts[1]))];
      } else if Contains(flags, "slave") {
        entries := entries + [RoleEntry(Replica, AddrIp(parts[1]), AddrHostname(parts[1]))];
      }
    }
    assert lines[..|lines|] == lines;
  }

  // ----------------------------------------------------------------- address sets

  predicate ReplicaRow(row: seq<string>, masterId: string) {
    |row| >= 4 && Contains(row[2], "slave") && row[3] == masterId
  }

  predicate AddressedRow(row: seq<string>) {
    |row| >= 3 && !Contains(row[2], "noaddr")
  }

  /** Non-empty ips of the rows for which `keep` holds. */
  function IpsOf(rows: seq<seq<string>>, keep: seq<string> -> bool): set<string> {
    set row | row in rows && |row| >= 2 && keep(row) && AddrIp(row[1]) != "" :: AddrIp(row[1])
  }

  /** Non-empty host names of the rows for which `keep` holds. */
  function HostnamesOf(rows: seq<seq<string>>, keep: seq<string> -> bool): set<string> {
    set row | row in rows && |row| >= 2 && keep(row) && AddrHostname(row[1]) != "" :: AddrHostname(row[1])
  }

  lemma AddrsOfNext(rows: seq<seq<string>>, row: seq<string>, keep: seq<string> -> bool)
    requires |row| >= 2
    ensures IpsOf(rows + [row], keep) == IpsOf(rows, keep) +
            if keep(row) && AddrIp(row[1]) != "" then {AddrIp(row[1])} else {}
    ensures HostnamesOf(rows + [row], keep) == HostnamesOf(rows, keep) +
            if keep(row) && AddrHostname(row[1]) != "" then {AddrHostname(row[1])} else {}
  {
  }

  lemma ShortRowAddsNothing(rows: seq<seq<string>>, row: seq<string>, keep: seq<string> -> bool)
    requires |row| < 2 || !keep(row)
    ensures IpsOf(rows + [row], keep) == IpsOf(rows, keep)
    ensures HostnamesOf(rows + [row], keep) == HostnamesOf(rows, keep)
  {
  }

  /** The sets hold the addresses of the kept rows of `lines`. */
  ghost predicate Gathered(lines: seq<string>, keep: seq<string> -> bool, ips: set<string>, hostnames: set<string>) {
    ips == IpsOf(RowsOf(lines), keep) && hostnames == HostnamesOf(RowsOf(lines), keep)
  }

  lemma GatheredBlank(lines: seq<string>, i: nat, keep: seq<string> -> bool, ips: set<string>, hostnames: set<string>)
    requires i < |lines| && Gathered(lines[..i], keep, ips, hostnames) && TrimSpace(lines[i]) == ""
    ensures Gathered(lines[..i + 1], keep, ips, hostnames)
  {
    RowsOfNext(lines, i);
  }

  lemma GatheredSkipped(lines: seq<string>, i: nat, keep: seq<string> -> bool, ips: set<string>, hostnames: set<string>)
    requires i < |lines| && Gathered(lines[..i], keep, ips, hostnames) && TrimSpace(lines[i]) != ""
    requires var row := Fields(TrimSpace(lines[i])); |row| < 2 || !keep(row)
    ensures Gathered(lines[..i + 1], keep, ips, hostnames)
  {
    RowsOfNext(lines, i);
    ShortRowAddsNothing(RowsOf(lines[..i]), Fields(TrimSpace(lines[i])), keep);
  }

  lemma GatheredKept(lines: seq<string>, i: nat, keep: seq<string> -> bool, ips: set<string>, hostnames: set<string>)
    requires i < |lines| && Gathered(lines[..i], keep, ips, hostnames) && TrimSpace(lines[i]) != ""
    requires var row := Fields(TrimSpace(lines[i])); |row| >= 2 && keep(row)
    ensures var addr := Fields(TrimSpace(lines[i]))[1];
            Gathered(lines[..i + 1], keep, ips + NonEmpty(AddrIp(addr)), hostnames + NonEmpty(AddrHostname(addr)))
  {
    RowsOfNext(lines, i);
    AddrsOfNext(RowsOf(lines[..i]), Fields(TrimSpace(lines[i])), keep);
  }

  function NonEmpty(s: string): set<string> {
    if s != "" then {s} else {}
  }

  /** Adds the parts of an address field to the sets. */
  method AddAddress(addr: string, ips: set<string>, hostnames: set<string>)
    returns (ips': set<string>, hostnames': set<string>)
    ensures ips' == ips + NonEmpty(AddrIp(addr)) && hostnames' == hostnames + NonEmpty(AddrHostname(addr))
  {
    ips', hostnames' := ips, hostnames;
    var ip := AddrIp(addr);
    if ip != "" {
      ips' := ips' + {ip};
    }
    var hostname := AddrHostname(addr);
    if hostname != "" {
      hostnames' := hostnames' + {hostname};
    }
  }

  method ParseReplicaAddrsForMaster(raw: string, masterId: string)
    returns (ips: set<string>, hostnames: set<string>)
    ensures ips == IpsOf(Rows(raw), row => ReplicaRow(row, masterId))
    ensures hostnames == HostnamesOf(Rows(raw), row => ReplicaRow(row, masterId))
  {
    var lines := Split(StripVerbatimPrefix(raw), '\n');
    ips, hostnames := {}, {};
    ghost var keep := (row: seq<string>) => ReplicaRow(row, masterId);
    for i := 0 to |lines|
      invariant Gathered(lines[..i], keep, ips, hostnames)
    {
      var line := TrimSpace(lines[i]);
      if line == "" {
        GatheredBlank(lines, i, keep, ips, hostnames);
        continue;
      }
      var parts := Fields(line);
      if |parts| < 4 || !Contains(parts[2], "slave") || parts[3] != masterId {
        GatheredSkipped(lines, i, keep, ips, hostnames);
        continue;
      }
      GatheredKept(lines, i, keep, ips, hostnames);
      ips, hostnames := AddAddress(parts[1], ips, hostnames);
    }
    assert lines[..|lines|] == lines;
  }

  method BuildKnownAddrSets(raw: string) returns (ips: set<string>, hostnames: set<string>)
    ensures ips == IpsOf(Rows(raw), AddressedRow)
    ensures hostnames == HostnamesOf(Rows(raw), AddressedRow)
  {
    var lines := Split(StripVerbatimPrefix(raw), '\n');
    ips, hostnames := {}, {};
    for i := 0 to |lines|
      invariant Gathered(lines[..i], AddressedRow, ips, hostnames)
    {
      var line := TrimSpace(lines[i]);
      if line == "" {
        GatheredBlank(lines, i, AddressedRow, ips, hostnames);
        continue;
      }
      var parts := Fields(line);
      if |parts| < 3 || Contains(parts[2], "noaddr") {
        GatheredSkipped(lines, i, AddressedRow, ips, hostnames);
        continue;
      }
      GatheredKept(lines, i, AddressedRow, ips, hostnames);
      ips, hostnames := AddAddress(parts[1], ips, hostnames);
    }
    assert lines[..|lines|] == lines;
  }
}
