/** The payload of OPERATOR.TOPOLOGY.SET.

    The operator prints a JSON object in Go (internal/controller/repair.go, cluster.go); the
    module reads it with a hand-written scanner over fixed buffers (server/topology.c). The
    scanner searches for a quoted field name anywhere in the text, so the round trip rests on the
    printed peers never looking like a field name.
  */
module TopologyPayload {
  import opened Options
  import opened Text

  const MAX_PEERS := 64
  const MAX_ADDR_LEN := 64
  const ROLE_LEN := 16

  // ----------------------------------------------------------------- printing (Go)

  /** Characters of a peer address: printable, and neither quoting, escaping nor separating. */
  predicate AddrChar(c: char) {
    '!' <= c <= '~' && c != '"' && c != '\\' && c != ','
  }

  /** An "ip:port" text as the operator prints it. */
  predicate IsEndpoint(p: string) {
    ':' in p && forall c | c in p :: AddrChar(c)
  }

  predicate AllEndpoints(peers: seq<string>) {
    forall p | p in peers :: IsEndpoint(p)
  }

  /** Go's %q on a text that needs no escapes, and the quoted form of a JSON string. */
  function Quote(p: string): string {
    "\"" + p + "\""
  }

  function Elements(peers: seq<string>): string {
    if |peers| == 0 then ""
    else if |peers| == 1 then Quote(peers[0])
    else Quote(peers[0]) + "," + Elements(peers[1..])
  }

  function PeersJson(peers: seq<string>): string {
    "[" + Elements(peers) + "]"
  }

  const HEX := "0123456789abcdef"

  /** Go's %q for one character: quotes, backslashes and control characters are escaped. */
  function Escape(c: char): string {
    if c == '"' || c == '\\' then ['\\', c]
    else if c == 7 as char then "\\a"
    else if c == 8 as char then "\\b"
    else if c == '\t' then "\\t"
    else if c == '\n' then "\\n"
    else if c == 11 as char then "\\v"
    else if c == 12 as char then "\\f"
    else if c == '\r' then "\\r"
    else if c < ' ' || c == 127 as char then "\\x" + [HEX[c as int / 16 % 16], HEX[c as int % 16]]
    else [c]
  }

  function Escaped(p: string): string {
    if p == "" then "" else Escape(p[0]) + Escaped(p[1..])
  }

  /** Go's %q on ASCII text. */
  function GoQuote(p: string): string {
    "\"" + Escaped(p) + "\""
  }

  lemma {:induction false} NothingEscaped(p: string)
    requires forall c | c in p :: AddrChar(c)
    ensures Escaped(p) == p
  {
    if p != "" {
      NothingEscaped(p[1..]);
      assert p[0] in p && Escape(p[0]) == [p[0]];
      assert p == [p[0]] + p[1..];
    }
  }

  function GoQuotes(peers: seq<string>): (r: seq<string>)
    ensures |r| == |peers| && forall i | 0 <= i < |peers| :: r[i] == GoQuote(peers[i])
  {
    if |peers| == 0 then [] else [GoQuote(peers[0])] + GoQuotes(peers[1..])
  }

  /** The array as Go prints it. */
  function PrintedPeers(peers: seq<string>): string {
    "[" + Join(GoQuotes(peers), ",") + "]"
  }

  /** Endpoints need no escapes. */
  lemma {:induction false} EndpointsPrinted(peers: seq<string>)
    requires AllEndpoints(peers)
    ensures Join(GoQuotes(peers), ",") == Elements(peers) && PrintedPeers(peers) == PeersJson(peers)
  {
    if |peers| > 0 {
      assert IsEndpoint(peers[0]);
      NothingEscaped(peers[0]);
      EndpointsPrinted(peers[1..]);
      assert GoQuotes(peers)[1..] == GoQuotes(peers[1..]);
    }
  }

  /** The text in front of element `i` of the array. */
  function Opened(parts: seq<string>, i: nat): string
    requires i <= |parts|
  {
    "[" + Join(parts[..i], ",")
  }

  lemma OpenedNext(parts: seq<string>, i: nat)
    requires i < |parts|
    ensures i == 0 ==> Opened(parts, i + 1) == Opened(parts, i) + parts[i]
    ensures i > 0 ==> Opened(parts, i + 1) == Opened(parts, i) + "," + parts[i]
  {
    assert parts[..i + 1] == parts[..i] + [parts[i]];
    JoinNext(parts[..i], parts[i], ",");
  }

  lemma OpenedWhole(parts: seq<string>)
    ensures Opened(parts, |parts|) == "[" + Join(parts, ",")
  {
    assert parts[..|parts|] == parts;
  }

  /** The string built by appending, as both printers do. */
  method BuildPeersJson(peers: seq<string>) returns (s: string)
    ensures s == PrintedPeers(peers)
  {
    s := "[";
    ghost var quotes := GoQuotes(peers);
    for i := 0 to |peers|
      invariant s == Opened(quotes, i)
    {
      OpenedNext(quotes, i);
      if i > 0 {
        s := s + ",";
      }
      s := s + GoQuote(peers[i]);
    }
    OpenedWhole(quotes);
    s := s + "]";
  }

  /** `"key":value` followed by the rest of the object. */
  function Member(key: string, value: string, rest: string): string {
    Quote(key) + (":" + (value + rest))
  }

  /** Payload that makes a node a replica of the primary at `primaryAddr`:
      {"peers":[...],"role":"replica","primary_addr":"ip:port"} */
  function ReplicaPayload(peers: seq<string>, primaryAddr: string): string {
    "{" + Member("peers", PeersJson(peers),
                 "," + Member("role", Quote("replica"),
                              "," + Member("primary_addr", Quote(primaryAddr), "}")))
  }

  /** Payload of gossip recovery, peers to meet and no replication:
      {"peers":[...],"role":"primary"} */
  function GossipPayload(peers: seq<string>): string {
    "{" + Member("peers", PeersJson(peers), "," + Member("role", Quote("primary"), "}"))
  }

  // ----------------------------------------------------------------- scanning (C)

  /** The text behind the first occurrence of `pat`. */
  function After(s: string, pat: string): Option<string> {
    var r := FindSub(s, pat);
    if r < 0 then None else Some(s[r + |pat|..])
  }

  predicate IsBlank(c: char) { c == ' ' || c == '\t' || c == ':' }

  predicate IsSeparator(c: char) { c == ' ' || c == '\t' || c == '\n' || c == ',' }

  function SkipBlanks(s: string): string {
    if s != "" && IsBlank(s[0]) then SkipBlanks(s[1..]) else s
  }

  function SkipSeparators(s: string): (r: string)
    ensures |r| <= |s|
  {
    if s != "" && IsSeparator(s[0]) then SkipSeparators(s[1..]) else s
  }

  /** Characters in front of the next quote, or all of them. */
  function QuoteLen(s: string): (n: nat)
    ensures n <= |s|
  {
    var q := Find(s, '"');
    if q < 0 then |s| else q
  }

  /** The text behind the opening character of a field's value: a quote or a bracket. */
  function ValueText(json: string, field: string, open: char): Option<string> {
    match After(json, Quote(field))
    case None => None
    case Some(t) =>
      var u := SkipBlanks(t);
      if u == "" || u[0] != open then None else Some(u[1..])
  }

  /** What a buffer of `cap` characters holds after copying up to the closing quote. */
  function Copied(t: string, cap: nat): string
    requires cap > 0
  {
    t[..Min(QuoteLen(t), cap - 1)]
  }

  /** The strings read from the inside of an array, at most `room` of them. */
  function ScanList(s: string, room: nat): (r: seq<string>)
    ensures |r| <= room
    decreases |s|
  {
    if s == "" || s[0] == ']' || room == 0 then []
    else
      var t := SkipSeparators(s);
      if t == "" || t[0] != '"' then []
      else
        var k := Min(QuoteLen(t[1..]), MAX_ADDR_LEN - 1);
        var rest := t[1..][k..];
        [t[1..][..k]] + ScanList(if rest != "" && rest[0] == '"' then rest[1..] else rest, room - 1)
  }

  /** What the command reads of a string field; an absent field leaves the buffer empty. */
  function FieldRead(json: string, field: string, cap: nat): string
    requires cap > 0
  {
    match ValueText(json, field, '"')
    case None => ""
    case Some(t) => Copied(t, cap)
  }

  /** The peers that the command reads; a missing array counts as none. */
  function PeersSeen(json: string): seq<string> {
    match ValueText(json, "peers", '[')
    case None => []
    case Some(t) => ScanList(t, MAX_PEERS)
  }

  // A `const char *` is modelled as the text it points at: `*p` is p[0], or the terminating zero
  // when p is "", and `p++` is p := p[1..].

  /** Finds the field name, skips blanks and the colon, and steps over the opening character.
      Returns nothing when the field is absent or its value opens differently. */
  method FindValue(json: string, field: string, open: char) returns (r: Option<string>)
    requires |field| + 2 < 128
    ensures r == ValueText(json, field, open)
  {
    var pattern := "\"" + field + "\"";
    var at := FindSub(json, pattern);
    if at < 0 {
      return None;
    }
    var p := json[at + |pattern|..];
    while p != "" && IsBlank(p[0])
      invariant SkipBlanks(p) == SkipBlanks(json[at + |pattern|..])
      decreases |p|
    {
      p := p[1..];
    }
    if p == "" || p[0] != open {
      return None;
    }
    return Some(p[1..]);
  }

  /** The copying loop stops where `Copied` says. */
  lemma CopiedLen(t: string, i: nat, cap: nat)
    requires i <= |t| && i <= cap - 1
    requires '"' !in t[..i]
    requires i == |t| || t[i] == '"' || i == cap - 1
    ensures i == |Copied(t, cap)|
  {
    assert t == t[..i] + t[i..];
    FindSkip(t[..i], t[i..], '"');
  }

  /** Copies up to the next quote into the buffer and terminates it. */
  method CopyQuoted(start: string, buf: array<char>) returns (p: string)
    requires '\0' !in start
    requires buf.Length > 0
    modifies buf
    ensures CText(buf[..]) == Copied(start, buf.Length)
    ensures p == start[|Copied(start, buf.Length)|..]
  {
    p := start;
    var i := 0;
    while p != "" && p[0] != '"' && i < buf.Length - 1
      invariant 0 <= i <= buf.Length - 1 && i <= |start| && p == start[i..]
      invariant '"' !in start[..i] && buf[..i] == start[..i]
      decreases |p|
    {
      assert start[..i + 1] == start[..i] + [p[0]];
      buf[i] := p[0];
      i, p := i + 1, p[1..];
    }
    CopiedLen(start, i, buf.Length);
    buf[i] := '\0';
    assert forall c | c in start[..i] :: c in start;
    CTextIs(buf[..], start[..i]);
  }

  method JsonExtractString(json: string, field: string, buf: array<char>) returns (rc: int)
    requires '\0' !in json
    requires |field| + 2 < 128
    requires buf.Length > 0
    modifies buf
    ensures ValueText(json, field, '"').None? ==> rc == -1 && buf[..] == old(buf[..])
    ensures ValueText(json, field, '"').Some? ==>
              var t := ValueText(json, field, '"').value;
              && CText(buf[..]) == Copied(t, buf.Length)
              && rc == if |Copied(t, buf.Length)| < |t| && t[|Copied(t, buf.Length)|] == '"' then 0 else -1
  {
    var value := FindValue(json, field, '"');
    if value.None? {
      return -1;
    }
    ValueTextWithin(json, field, '"');
    var p := CopyQuoted(value.value, buf);
    rc := if p != "" && p[0] == '"' then 0 else -1;
  }

  lemma {:induction false} SkipBlanksWithin(s: string)
    ensures forall c | c in SkipBlanks(s) :: c in s
  {
    if s != "" && IsBlank(s[0]) {
      SkipBlanksWithin(s[1..]);
    }
  }

  lemma ValueTextWithin(json: string, field: string, open: char)
    requires ValueText(json, field, open).Some?
    ensures forall c | c in ValueText(json, field, open).value :: c in json
  {
    var t := After(json, Quote(field)).value;
    SkipBlanksWithin(t);
    assert forall c | c in t :: c in json;
    assert forall c | c in SkipBlanks(t)[1..] :: c in SkipBlanks(t);
  }

  /** What is left after an element: its closing quote is consumed when it is there. */
  function PastElement(t: string): string {
    var rest := t[|Copied(t, MAX_ADDR_LEN)|..];
    if rest != "" && rest[0] == '"' then rest[1..] else rest
  }

  lemma ScanListStep(s: string, t: string, room: nat)
    requires s != "" && s[0] != ']' && room > 0
    requires SkipSeparators(s) == "\"" + t
    ensures ScanList(s, room) == [Copied(t, MAX_ADDR_LEN)] + ScanList(PastElement(t), room - 1)
  {
    assert SkipSeparators(s)[1..] == t;
  }

  lemma ScanListStop(s: string, room: nat)
    requires s == "" || s[0] == ']' || room == 0 || SkipSeparators(s) == "" || SkipSeparators(s)[0] != '"'
    ensures ScanList(s, room) == []
  {
  }

  /** Reads one array element, from behind its opening quote. */
  method ScanAddr(start: string) returns (addr: string, p: string)
    ensures addr == Copied(start, MAX_ADDR_LEN)
    ensures p == PastElement(start) && |p| <= |start|
  {
    addr, p := "", start;
    while p != "" && p[0] != '"' && |addr| < MAX_ADDR_LEN - 1
      invariant |addr| <= |start| && |addr| <= MAX_ADDR_LEN - 1
      invariant addr == start[..|addr|] && p == start[|addr|..]
      invariant '"' !in addr
      decreases |p|
    {
      assert start[..|addr| + 1] == addr + [p[0]];
      addr, p := addr + [p[0]], p[1..];
    }
    CopiedLen(start, |addr|, MAX_ADDR_LEN);
    if p != "" && p[0] == '"' {
      p := p[1..];
    }
  }

  method SkipSeparatorsFrom(start: string) returns (p: string)
    ensures p == SkipSeparators(start)
  {
    p := start;
    while p != "" && IsSeparator(p[0])
      invariant SkipSeparators(p) == SkipSeparators(start)
      decreases |p|
    {
      p := p[1..];
    }
  }

  /** `addrs` is what has been read of `all`; the rest is still in `t`. */
  ghost predicate Reading(all: seq<string>, addrs: seq<string>, t: string, room: nat) {
    all == addrs + ScanList(t, room)
  }

  lemma ReadOne(all: seq<string>, addrs: seq<string>, s: string, t: string, room: nat)
    requires Reading(all, addrs, s, room)
    requires s != "" && s[0] != ']' && room > 0
    requires SkipSeparators(s) == "\"" + t
    ensures Reading(all, addrs + [Copied(t, MAX_ADDR_LEN)], PastElement(t), room - 1)
  {
    ScanListStep(s, t, room);
    assert addrs + ([Copied(t, MAX_ADDR_LEN)] + ScanList(PastElement(t), room - 1))
        == addrs + [Copied(t, MAX_ADDR_LEN)] + ScanList(PastElement(t), room - 1);
  }

  /** One turn of the element loop: reads an element, or finds that there is none to read. */
  method ScanElement(s: string, addrs: seq<string>, room: nat, ghost all: seq<string>)
    returns (more: bool, read: seq<string>, next: string)
    requires s != "" && s[0] != ']' && room > 0
    requires Reading(all, addrs, s, room)
    ensures !more ==> read == all
    ensures more ==> |next| < |s| && Reading(all, read, next, room - 1)
  {
    var p := SkipSeparatorsFrom(s);
    if p == "" || p[0] != '"' {
      ScanListStop(s, room);
      return false, addrs, p;
    }
    ReadOne(all, addrs, s, p[1..], room);
    more := true;
    var addr;
    addr, next := ScanAddr(p[1..]);
    read := addrs + [addr];
  }

  /** The element loop, from behind the opening bracket. */
  method ScanElements(start: string, maxCount: nat) returns (addrs: seq<string>)
    ensures addrs == ScanList(start, maxCount)
  {
    addrs := [];
    var p, room, more := start, maxCount, true;
    ghost var all := ScanList(start, maxCount);
    while more && p != "" && p[0] != ']' && room > 0
      invariant if more then Reading(all, addrs, p, room) else addrs == all
      decreases more, |p|
    {
      more, addrs, p := ScanElement(p, addrs, room, all);
      if more {
        room := room - 1;
      }
    }
    if more {
      ScanListStop(p, room);
    }
  }

  method JsonExtractArrayStrings(json: string, field: string, maxCount: nat)
    returns (count: int, addrs: seq<string>)
    requires |field| + 2 < 128
    ensures ValueText(json, field, '[').None? ==> count == -1 && addrs == []
    ensures ValueText(json, field, '[').Some? ==>
              addrs == ScanList(ValueText(json, field, '[').value, maxCount) && count == |addrs|
  {
    var value := FindValue(json, field, '[');
    if value.None? {
      return -1, [];
    }
    addrs := ScanElements(value.value, maxCount);
    count := |addrs|;
  }
}
