/** The CLUSTER NODES line format and its relation to the Go parsers.

    `Render` prints node records the way a Valkey node does. Parsing a rendered text gives the
    records back.
  */
module NodesFormat {
  import opened Text
  import opened ClusterNodes

  /** A line of CLUSTER NODES, field by field. `names` holds the host name and any further
      comma-separated parts that follow the bus port. */
  datatype NodeLine = NodeLine(
    id: string,
    ip: string,
    port: string,
    busPort: string,
    names: seq<string>,
    flags: string,
    masterId: string,
    pingSent: string,
    pongReceived: string,
    epoch: string,
    linkState: string,
    slots: seq<string>)

  predicate Bare(s: string) {
    forall c | c in s :: !IsSpace(c)
  }

  /** What every line of the format satisfies. The ip may be empty (a node without address) and
      may hold colons (IPv6). Node ids are 40 hexadecimal digits in Valkey; all that is needed
      here is that the fourth character exists and is not a colon. */
  predicate WellFormed(n: NodeLine) {
    && IsToken(n.id) && |n.id| > 3 && n.id[3] != ':'
    && Bare(n.ip) && '@' !in n.ip
    && Bare(n.port) && ':' !in n.port && '@' !in n.port
    && Bare(n.busPort) && ',' !in n.busPort
    && (forall name | name in n.names :: Bare(name) && ',' !in name)
    && IsToken(n.flags) && IsToken(n.masterId)
    && IsToken(n.pingSent) && IsToken(n.pongReceived) && IsToken(n.epoch) && IsToken(n.linkState)
    && (forall t | t in n.slots :: IsToken(t))
  }

  predicate AllWellFormed(ns: seq<NodeLine>) {
    forall n | n in ns :: WellFormed(n)
  }

  /** "ip:port", the part of the address field in front of the '@'. */
  function Endpoint(n: NodeLine): string {
    n.ip + ":" + n.port
  }

  function Commas(names: seq<string>): string {
    if |names| == 0 then "" else "," + names[0] + Commas(names[1..])
  }

  function Address(n: NodeLine): string {
    Endpoint(n) + "@" + (n.busPort + Commas(n.names))
  }

  function Tokens(n: NodeLine): seq<string> {
    [n.id, Address(n), n.flags, n.masterId, n.pingSent, n.pongReceived, n.epoch, n.linkState] + n.slots
  }

  function RenderLine(n: NodeLine): string {
    Join(Tokens(n), " ")
  }

  function Render(ns: seq<NodeLine>): string {
    if |ns| == 0 then "" else RenderLine(ns[0]) + "\n" + Render(ns[1..])
  }

  /** The record that the operator keeps of a line. */
  function StateOf(n: NodeLine): NodeState {
    NodeState(n.id, n.ip, if n.names == [] then "" else n.names[0], n.flags, n.masterId, Join(n.slots, " "))
  }

  function StatesOf(ns: seq<NodeLine>): (r: seq<NodeState>)
    ensures |r| == |ns|
    ensures forall i | 0 <= i < |ns| :: r[i] == StateOf(ns[i])
  {
    if |ns| == 0 then [] else [StateOf(ns[0])] + StatesOf(ns[1..])
  }

  // ----------------------------------------------------------------- the address field

  lemma {:induction false} CommasBare(names: seq<string>)
    requires forall name | name in names :: Bare(name) && ',' !in name
    ensures Bare(Commas(names))
  {
    if |names| > 0 {
      CommasBare(names[1..]);
      assert names[0] in names;
      assert Bare(",");
    }
  }

  lemma AddressIsToken(n: NodeLine)
    requires WellFormed(n)
    ensures IsToken(Address(n))
  {
    CommasBare(n.names);
    assert Address(n)[|n.ip|] == ':';
  }

  lemma AddressIp(n: NodeLine)
    requires WellFormed(n)
    ensures AddrIp(Address(n)) == n.ip
  {
    assert Endpoint(n) + "@" == Endpoint(n) + ['@'];
    SplitStep(Endpoint(n), '@', n.busPort + Commas(n.names));
    assert n.ip + ":" + n.port == n.ip + [':'] + n.port;
    FindLastAt(n.ip, ':', n.port);
    assert Endpoint(n)[..|n.ip|] == n.ip;
  }

  /** The text in front of the first comma of a comma-separated list is its first part. */
  lemma FirstNameEnds(names: seq<string>)
    requires names != [] && ',' !in names[0]
    ensures var after := names[0] + Commas(names[1..]);
            var next := Find(after, ',');
            names[0] == if next < 0 then after else after[..next]
  {
    var after := names[0] + Commas(names[1..]);
    if |names| == 1 {
      assert after == names[0];
      FindMeans(after, ',');
    } else {
      FindSkip(names[0], Commas(names[1..]), ',');
      assert Commas(names[1..])[0] == ',';
      assert Find(after, ',') == |names[0]|;
    }
  }

  lemma BusHostnameIs(busPort: string, names: seq<string>)
    requires ',' !in busPort
    requires names != [] ==> ',' !in names[0]
    ensures BusHostname(busPort + Commas(names)) == if names == [] then "" else names[0]
  {
    if names == [] {
      assert busPort + Commas(names) == busPort;
      FindMeans(busPort, ',');
    } else {
      var after := names[0] + Commas(names[1..]);
      assert busPort + Commas(names) == busPort + [','] + after;
      FindAt(busPort, ',', after);
      assert (busPort + [','] + after)[|busPort| + 1..] == after;
      FirstNameEnds(names);
    }
  }

  lemma AddressHostname(n: NodeLine)
    requires WellFormed(n)
    ensures AddrHostname(Address(n)) == if n.names == [] then "" else n.names[0]
  {
    var bus := n.busPort + Commas(n.names);
    assert Address(n) == Endpoint(n) + ['@'] + bus;
    FindAt(Endpoint(n), '@', bus);
    assert Address(n)[|Endpoint(n)| + 1..] == bus;
    BusHostnameIs(n.busPort, n.names);
  }

  // ----------------------------------------------------------------- round trip

  lemma TokensAreTokens(n: NodeLine)
    requires WellFormed(n)
    ensures forall t | t in Tokens(n) :: IsToken(t)
  {
    AddressIsToken(n);
  }

  lemma RowOfTokens(toks: seq<string>)
    requires |toks| > 0 && forall t | t in toks :: IsToken(t)
    ensures '\n' !in Join(toks, " ")
    ensures RowOf(Join(toks, " ")) == [toks]
  {
    JoinLacks(toks, " ", '\n');
    JoinEnds(toks);
    FieldsOfJoin(toks);
  }

  lemma LineOfRender(n: NodeLine, rest: string)
    requires WellFormed(n)
    ensures FirstLine(RenderLine(n) + "\n" + rest) == RenderLine(n)
    ensures NextLine(RenderLine(n) + "\n" + rest) == rest
  {
    TokensAreTokens(n);
    RowOfTokens(Tokens(n));
    LinesStep(RenderLine(n), rest);
  }

  lemma StateOfTokens(n: NodeLine)
    requires WellFormed(n)
    ensures StateOfRow(Tokens(n)) == StateOf(n)
  {
    AddressIp(n);
    AddressHostname(n);
    assert Tokens(n)[8..] == n.slots;
  }

  function RowsFor(ns: seq<NodeLine>): seq<seq<string>> {
    if |ns| == 0 then [] else [Tokens(ns[0])] + RowsFor(ns[1..])
  }

  lemma {:induction false} RowsOfRender(ns: seq<NodeLine>)
    requires AllWellFormed(ns)
    ensures RowsOf(Split(Render(ns), '\n')) == RowsFor(ns)
  {
    if |ns| == 0 {
      assert Split("", '\n') == [""];
      assert RowsOf([""]) == RowsOf([""][..0]) + RowOf("");
    } else {
      assert WellFormed(ns[0]);
      TokensAreTokens(ns[0]);
      RowOfTokens(Tokens(ns[0]));
      var rest := Render(ns[1..]);
      assert Render(ns) == RenderLine(ns[0]) + ['\n'] + rest;
      SplitStep(RenderLine(ns[0]), '\n', rest);
      RowsOfConcat([RenderLine(ns[0])], Split(rest, '\n'));
      assert RowsOf([RenderLine(ns[0])]) == RowOf(RenderLine(ns[0])) by {
        assert [RenderLine(ns[0])][..0] == [];
      }
      RowsOfRender(ns[1..]);
    }
  }

  lemma {:induction false} NodesOfRowsFor(ns: seq<NodeLine>)
    requires AllWellFormed(ns)
    ensures NodesOfRows(RowsFor(ns)) == StatesOf(ns)
  {
    if |ns| > 0 {
      assert WellFormed(ns[0]);
      NodesOfConcat([Tokens(ns[0])], RowsFor(ns[1..]));
      NodesOfNext([], Tokens(ns[0]));
      assert [] + [Tokens(ns[0])] == [Tokens(ns[0])];
      StateOfTokens(ns[0]);
      NodesOfRowsFor(ns[1..]);
    }
  }

  /** A rendered text does not look like a verbatim string. */
  lemma RenderKeepsPrefix(ns: seq<NodeLine>)
    requires AllWellFormed(ns)
    ensures StripVerbatimPrefix(Render(ns)) == Render(ns)
  {
    if |ns| > 0 {
      var n := ns[0];
      assert n in ns;
      JoinHead(Tokens(n), " ");
      assert Render(ns)[3] == n.id[3];
    }
  }

  lemma RowsOfPlain(ns: seq<NodeLine>)
    requires AllWellFormed(ns)
    ensures Rows(Render(ns)) == RowsFor(ns)
  {
    RenderKeepsPrefix(ns);
    RowsOfRender(ns);
  }

  lemma HeaderStripped(t: string)
    requires t != ""
    ensures StripVerbatimPrefix("txt:" + t) == t
  {
  }

  /** A text of a single field describes no node. */
  lemma LoneTokenHasNoNodes(s: string)
    requires IsToken(s) && StripVerbatimPrefix(s) == s
    ensures NodesOf(s) == []
  {
    FindMeans(s, '\n');
    assert Split(s, '\n') == [s];
    RowsOfNext([s], 0);
    assert [s][..1] == [s] && [s][..0] == [];
    assert Join([s], " ") == s;
    RowOfTokens([s]);
    NodesOfNext([], [s]);
    assert [] + [[s]] == [[s]];
  }

  lemma VerbatimNodes(ns: seq<NodeLine>)
    requires AllWellFormed(ns)
    ensures NodesOf("txt:" + Render(ns)) == StatesOf(ns)
  {
    if |ns| == 0 {
      assert "txt:" + Render(ns) == "txt:";
      LoneTokenHasNoNodes("txt:");
    } else {
      HeaderStripped(Render(ns));
      RowsOfRender(ns);
      NodesOfRowsFor(ns);
    }
  }

  /** Rendering and parsing are inverse, with and without the RESP3 header. */
  lemma RoundTrip(ns: seq<NodeLine>)
    requires AllWellFormed(ns)
    ensures NodesOf(Render(ns)) == StatesOf(ns)
    ensures NodesOf("txt:" + Render(ns)) == StatesOf(ns)
  {
    RowsOfPlain(ns);
    NodesOfRowsFor(ns);
    VerbatimNodes(ns);
  }
}
