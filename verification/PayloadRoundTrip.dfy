/** The C scanner undoes the Go printer of the OPERATOR.TOPOLOGY.SET payload. */
module PayloadRoundTrip {
  import opened Options
  import opened Text
  import opened TopologyPayload

  // ----------------------------------------------------------------- searching past text

  lemma AfterStep(s: string, pat: string)
    requires s != "" && !OccursAt(s, pat, 0)
    ensures After(s, pat) == After(s[1..], pat)
  {
    FindSubMeans(s, pat);
    FindSubMeans(s[1..], pat);
    if Contains(s, pat) {
      var r := FindSub(s, pat);
      OccursInTail(s, pat, r - 1);
      assert IsFirstOccurrence(s[1..], pat, r - 1) by {
        forall i | 0 <= i < r - 1 ensures !OccursAt(s[1..], pat, i) {
          OccursInTail(s, pat, i);
        }
      }
      assert s[1..][r - 1 + |pat|..] == s[r + |pat|..];
    } else {
      forall i ensures !OccursAt(s[1..], pat, i) {
        OccursInTail(s, pat, i);
      }
    }
  }

  /** One differing character rules an occurrence out. */
  lemma Mismatch(s: string, pat: string, j: nat)
    requires j < |s| && j < |pat| && s[j] != pat[j]
    ensures !OccursAt(s, pat, 0)
  {
    assert |pat| <= |s| ==> s[0..|pat|][j] == s[j];
  }

  lemma AfterHere(pat: string, t: string)
    ensures After(pat + t, pat) == Some(t)
  {
    assert OccursAt(pat + t, pat, 0);
    assert (pat + t)[|pat|..] == t;
  }

  /** Text without the first character of the pattern is skipped. */
  lemma {:induction false} AfterSkip(a: string, b: string, pat: string)
    requires pat != "" && pat[0] !in a
    ensures After(a + b, pat) == After(b, pat)
  {
    if a == "" {
      assert a + b == b;
    } else {
      assert (a + b)[0] == a[0] && (a + b)[1..] == a[1..] + b;
      Mismatch(a + b, pat, 0);
      AfterStep(a + b, pat);
      AfterSkip(a[1..], b, pat);
    }
  }

  /** A quoted text is not mistaken for another field name. */
  lemma QuotedDiffers(p: string, t: string, key: string)
    requires '"' !in p && '"' !in key && p != key
    ensures !OccursAt(Quote(p) + t, Quote(key), 0)
  {
    var s, k := Quote(p) + t, Quote(key);
    if |key| < |p| {
      assert s[1 + |key|] == p[|key|] && k[1 + |key|] == '"';
      Mismatch(s, k, 1 + |key|);
    } else if |key| > |p| {
      assert s[1 + |p|] == '"' && k[1 + |p|] == key[|p|];
      Mismatch(s, k, 1 + |p|);
    } else {
      var i :| 0 <= i < |p| && p[i] != key[i];
      assert s[1 + i] == p[i] && k[1 + i] == key[i];
      Mismatch(s, k, 1 + i);
    }
  }

  /** A quoted text other than the field name is skipped, up to what follows it. */
  lemma AfterQuoted(p: string, t: string, key: string)
    requires '"' !in p && '"' !in key && p != key
    requires key != "" && t != "" && t[0] != key[0]
    ensures After(Quote(p) + t, Quote(key)) == After(t, Quote(key))
  {
    var k := Quote(key);
    QuotedDiffers(p, t, key);
    AfterStep(Quote(p) + t, k);
    assert (Quote(p) + t)[1..] == p + ("\"" + t);
    AfterSkip(p, "\"" + t, k);
    assert ("\"" + t)[1] == t[0] && k[1] == key[0];
    Mismatch("\"" + t, k, 1);
    AfterStep("\"" + t, k);
    assert ("\"" + t)[1..] == t;
  }

  /** The printed peers followed by `t`, grouped to the right. */
  function ElementsThen(peers: seq<string>, t: string): string {
    if |peers| == 0 then t
    else if |peers| == 1 then Quote(peers[0]) + t
    else Quote(peers[0]) + ("," + ElementsThen(peers[1..], t))
  }

  lemma {:induction false} ElementsThenIs(peers: seq<string>, t: string)
    ensures Elements(peers) + t == ElementsThen(peers, t)
  {
    if |peers| == 0 {
      assert Elements(peers) + t == t;
    } else if |peers| > 1 {
      var p, more := Quote(peers[0]), Elements(peers[1..]);
      ElementsThenIs(peers[1..], t);
      assert (p + "," + more) + t == p + ("," + (more + t));
    }
  }

  /** The printed peers hold no field name. */
  lemma {:induction false} AfterElements(peers: seq<string>, t: string, key: string)
    requires AllEndpoints(peers)
    requires key != "" && '"' !in key && ':' !in key && ',' !in key
    requires t != "" && t[0] != key[0]
    ensures After(ElementsThen(peers, t), Quote(key)) == After(t, Quote(key))
  {
    if |peers| > 0 {
      var p := peers[0];
      assert IsEndpoint(p) && '"' !in p && p != key;
      if |peers| == 1 {
        AfterQuoted(p, t, key);
      } else {
        var rest := ElementsThen(peers[1..], t);
        AfterQuoted(p, "," + rest, key);
        AfterSkip(",", rest, Quote(key));
        AfterElements(peers[1..], t, key);
      }
    }
  }

  // ----------------------------------------------------------------- the fields

  /** A field name: not empty and free of JSON punctuation. */
  predicate FieldName(key: string) {
    key != "" && forall c | c in key :: c == '_' || 'a' <= c <= 'z'
  }

  lemma PeersThen(peers: seq<string>, rest: string)
    ensures PeersJson(peers) + rest == "[" + ElementsThen(peers, "]" + rest)
  {
    var inside := Elements(peers);
    ElementsThenIs(peers, "]" + rest);
    assert ("[" + inside + "]") + rest == "[" + (inside + ("]" + rest));
  }

  lemma AfterPeersValue(peers: seq<string>, rest: string, key: string)
    requires AllEndpoints(peers) && FieldName(key)
    ensures After(PeersJson(peers) + rest, Quote(key)) == After(rest, Quote(key))
  {
    assert key[0] in key;
    PeersThen(peers, rest);
    AfterSkip("[", ElementsThen(peers, "]" + rest), Quote(key));
    AfterElements(peers, "]" + rest, key);
    AfterSkip("]", rest, Quote(key));
  }

  /** The peers member is skipped when searching for another field. */
  lemma AfterPeersMember(peers: seq<string>, rest: string, key: string)
    requires AllEndpoints(peers)
    requires FieldName(key) && key != "peers"
    ensures After("{" + Member("peers", PeersJson(peers), "," + rest), Quote(key)) == After(rest, Quote(key))
  {
    var k := Quote(key);
    assert key[0] in key;
    var value := PeersJson(peers) + ("," + rest);
    AfterSkip("{", Quote("peers") + (":" + value), k);
    AfterQuoted("peers", ":" + value, key);
    AfterSkip(":", value, k);
    AfterPeersValue(peers, "," + rest, key);
    AfterSkip(",", rest, k);
  }

  /** A member with another name and a string value is skipped. */
  lemma AfterStringMember(name: string, v: string, rest: string, key: string)
    requires '"' !in name && '"' !in v && '"' !in key && key != ""
    requires name != key && v != key && ':' !in key
    requires rest != "" && rest[0] != key[0]
    ensures After(Member(name, Quote(v), rest), Quote(key)) == After(rest, Quote(key))
  {
    var value := Quote(v) + rest;
    AfterQuoted(name, ":" + value, key);
    AfterSkip(":", value, Quote(key));
    AfterQuoted(v, rest, key);
  }

  /** The value of the member that the search stops at. */
  lemma MemberHere(key: string, open: char, body: string)
    requires !IsBlank(open)
    ensures After(Quote(key) + (":" + ([open] + body)), Quote(key)) == Some(":" + ([open] + body))
    ensures SkipBlanks(":" + ([open] + body)) == [open] + body
    ensures ([open] + body)[1..] == body
  {
    AfterHere(Quote(key), ":" + ([open] + body));
    assert (":" + ([open] + body))[1..] == [open] + body;
  }

  lemma CopiedIs(v: string, t: string, cap: nat)
    requires '"' !in v && |v| < cap
    ensures Copied(v + "\"" + t, cap) == v
  {
    assert v + "\"" + t == v + ['"'] + t;
    FindAt(v, '"', t);
    assert (v + "\"" + t)[..|v|] == v;
  }

  /** Reading a string member that the search stops at. */
  lemma StringMemberRead(json: string, key: string, v: string, rest: string, cap: nat)
    requires After(json, Quote(key)) == After(Member(key, Quote(v), rest), Quote(key))
    requires '"' !in v && |v| < cap
    ensures FieldRead(json, key, cap) == v
  {
    var body := v + "\"" + rest;
    assert Quote(v) + rest == ['"'] + body;
    MemberHere(key, '"', body);
    CopiedIs(v, rest, cap);
  }

  lemma ReplicaFieldsRead(peers: seq<string>, primaryAddr: string)
    requires AllEndpoints(peers)
    ensures FieldRead(ReplicaPayload(peers, primaryAddr), "role", ROLE_LEN) == "replica"
    ensures IsEndpoint(primaryAddr) && |primaryAddr| < MAX_ADDR_LEN ==>
              FieldRead(ReplicaPayload(peers, primaryAddr), "primary_addr", MAX_ADDR_LEN) == primaryAddr
  {
    var json := ReplicaPayload(peers, primaryAddr);
    var addr := Member("primary_addr", Quote(primaryAddr), "}");
    var role := Member("role", Quote("replica"), "," + addr);
    AfterPeersMember(peers, role, "role");
    StringMemberRead(json, "role", "replica", "," + addr, ROLE_LEN);
    if IsEndpoint(primaryAddr) && |primaryAddr| < MAX_ADDR_LEN {
      AfterPeersMember(peers, role, "primary_addr");
      AfterStringMember("role", "replica", "," + addr, "primary_addr");
      AfterSkip(",", addr, Quote("primary_addr"));
      StringMemberRead(json, "primary_addr", primaryAddr, "}", MAX_ADDR_LEN);
    }
  }

  lemma GossipFieldsRead(peers: seq<string>)
    requires AllEndpoints(peers)
    ensures FieldRead(GossipPayload(peers), "role", ROLE_LEN) == "primary"
    ensures FieldRead(GossipPayload(peers), "primary_addr", MAX_ADDR_LEN) == ""
  {
    var role := Member("role", Quote("primary"), "}");
    AfterPeersMember(peers, role, "role");
    StringMemberRead(GossipPayload(peers), "role", "primary", "}", ROLE_LEN);
    AfterPeersMember(peers, role, "primary_addr");
    AfterStringMember("role", "primary", "}", "primary_addr");
    assert FindSub("}", Quote("primary_addr")) == -1;
  }

  // ----------------------------------------------------------------- the peers

  /** What a buffer of 64 times 64 characters keeps: at most `room` peers, and nothing behind the
      first peer that does not fit its line. */
  function Kept(peers: seq<string>, room: nat): seq<string> {
    if |peers| == 0 || room == 0 then []
    else if |peers[0]| < MAX_ADDR_LEN then [peers[0]] + Kept(peers[1..], room - 1)
    else [peers[0][..MAX_ADDR_LEN - 1]]
  }

  /** An element that fits is read whole. */
  lemma ScanFit(p: string, t: string, room: nat)
    requires IsEndpoint(p) && |p| < MAX_ADDR_LEN && room > 0
    ensures ScanList(Quote(p) + t, room) == [p] + ScanList(t, room - 1)
  {
    var s := Quote(p) + t;
    assert s == "\"" + (p + "\"" + t);
    assert SkipSeparators(s) == s;
    ScanListStep(s, p + "\"" + t, room);
    CopiedIs(p, t, MAX_ADDR_LEN);
    assert (p + "\"" + t)[|p|..] == "\"" + t;
    assert ("\"" + t)[1..] == t;
  }

  /** What copying leaves of an element that does not fit. */
  lemma CutElement(p: string, t: string)
    requires IsEndpoint(p) && |p| >= MAX_ADDR_LEN
    ensures var u := p + "\"" + t;
            && Copied(u, MAX_ADDR_LEN) == p[..MAX_ADDR_LEN - 1]
            && PastElement(u) != "" && PastElement(u)[0] == p[MAX_ADDR_LEN - 1]
  {
    var u := p + "\"" + t;
    assert u[..MAX_ADDR_LEN - 1] == p[..MAX_ADDR_LEN - 1];
    assert '"' !in p;
    assert forall c | c in p[..MAX_ADDR_LEN - 1] :: c in p;
    CopiedLen(u, MAX_ADDR_LEN - 1, MAX_ADDR_LEN);
    assert u[MAX_ADDR_LEN - 1..][0] == p[MAX_ADDR_LEN - 1];
  }

  /** An element that does not fit is cut, and reading stops behind it. */
  lemma ScanOversize(p: string, t: string, room: nat)
    requires IsEndpoint(p) && |p| >= MAX_ADDR_LEN && room > 0
    ensures ScanList(Quote(p) + t, room) == [p[..MAX_ADDR_LEN - 1]]
  {
    var s := Quote(p) + t;
    var u := p + "\"" + t;
    assert s == "\"" + u;
    CutElement(p, t);
    ScanListStep(s, u, room);
    assert AddrChar(p[MAX_ADDR_LEN - 1]);
    ScanListStop(PastElement(u), room - 1);
  }

  /** What follows the element in front of `peers`. */
  function Tail(peers: seq<string>, t: string): string {
    if |peers| == 0 then "]" + t else "," + ElementsThen(peers, "]" + t)
  }

  /** Reading the first element and then the rest. */
  lemma ScanFirst(peers: seq<string>, t: string, room: nat)
    requires |peers| > 0 && IsEndpoint(peers[0]) && room > 0
    requires ScanList(Tail(peers[1..], t), room - 1) == Kept(peers[1..], room - 1)
    ensures ScanList(Quote(peers[0]) + Tail(peers[1..], t), room) == Kept(peers, room)
  {
    var rest := Tail(peers[1..], t);
    if |peers[0]| < MAX_ADDR_LEN {
      ScanFit(peers[0], rest, room);
    } else {
      ScanOversize(peers[0], rest, room);
    }
  }

  lemma ElementsTail(peers: seq<string>, t: string)
    requires |peers| > 0
    ensures ElementsThen(peers, "]" + t) == Quote(peers[0]) + Tail(peers[1..], t)
  {
  }

  /** The same behind a comma. */
  lemma ScanNext(peers: seq<string>, t: string, room: nat)
    requires |peers| > 0 && IsEndpoint(peers[0]) && room > 0
    requires ScanList(Tail(peers[1..], t), room - 1) == Kept(peers[1..], room - 1)
    ensures ScanList(Tail(peers, t), room) == Kept(peers, room)
  {
    ScanFirst(peers, t, room);
    ElementsTail(peers, t);
    LeadingCommaSkipped(Quote(peers[0]) + Tail(peers[1..], t), room);
  }

  lemma {:induction false} ScanTail(peers: seq<string>, t: string, room: nat)
    requires AllEndpoints(peers)
    ensures ScanList(Tail(peers, t), room) == Kept(peers, room)
  {
    if |peers| == 0 || room == 0 {
      ScanListStop(Tail(peers, t), room);
    } else {
      ScanTail(peers[1..], t, room - 1);
      ScanNext(peers, t, room);
    }
  }

  /** The scanner run on a printed list. */
  lemma ScanPrinted(peers: seq<string>, t: string, room: nat)
    requires AllEndpoints(peers)
    ensures ScanList(ElementsThen(peers, "]" + t), room) == Kept(peers, room)
  {
    if |peers| == 0 || room == 0 {
      ScanListStop(ElementsThen(peers, "]" + t), room);
    } else {
      ScanTail(peers[1..], t, room - 1);
      ScanFirst(peers, t, room);
      ElementsTail(peers, t);
    }
  }

  lemma LeadingCommaSkipped(s: string, room: nat)
    requires s != "" && s[0] == '"'
    ensures ScanList("," + s, room) == ScanList(s, room)
  {
    assert ("," + s)[1..] == s;
    assert SkipSeparators("," + s) == SkipSeparators(s);
  }

  lemma PeersRead(peers: seq<string>, rest: string)
    ensures ValueText("{" + Member("peers", PeersJson(peers), rest), "peers", '[') ==
            Some(ElementsThen(peers, "]" + rest))
  {
    var body := ElementsThen(peers, "]" + rest);
    PeersThen(peers, rest);
    assert ['['] == "[";
    AfterSkip("{", Member("peers", PeersJson(peers), rest), Quote("peers"));
    MemberHere("peers", '[', body);
  }

  /** A prefix is kept whole exactly when every peer in it fits its buffer line. */
  lemma {:induction false} KeptWhole(peers: seq<string>, room: nat)
    ensures var n := Min(|peers|, room);
            Kept(peers, room) == peers[..n] <==> forall i | 0 <= i < n :: |peers[i]| < MAX_ADDR_LEN
  {
    var n := Min(|peers|, room);
    if n > 0 {
      KeptWhole(peers[1..], room - 1);
      var m := Min(|peers[1..]|, room - 1);
      if |peers[0]| < MAX_ADDR_LEN {
        assert peers[..n] == [peers[0]] + peers[1..][..m];
        assert Kept(peers, room) == peers[..n] <==> Kept(peers[1..], room - 1) == peers[1..][..m] by {
          assert Kept(peers, room)[1..] == Kept(peers[1..], room - 1) && peers[..n][1..] == peers[1..][..m];
        }
        assert forall i | 0 < i < n :: peers[i] == peers[1..][i - 1];
      } else {
        assert Kept(peers, room)[0] != peers[..n][0];
      }
    }
  }

  /** The scanner gives back what the printers put in: role, primary address and the first 64
      peers, for every list of endpoints. Peers are cut short exactly when one is too long. */
  lemma RoundTrip(peers: seq<string>, primaryAddr: string)
    requires AllEndpoints(peers)
    ensures FieldRead(GossipPayload(peers), "role", ROLE_LEN) == "primary"
    ensures FieldRead(GossipPayload(peers), "primary_addr", MAX_ADDR_LEN) == ""
    ensures PeersSeen(GossipPayload(peers)) == Kept(peers, MAX_PEERS)
    ensures FieldRead(ReplicaPayload(peers, primaryAddr), "role", ROLE_LEN) == "replica"
    ensures IsEndpoint(primaryAddr) && |primaryAddr| < MAX_ADDR_LEN ==>
              FieldRead(ReplicaPayload(peers, primaryAddr), "primary_addr", MAX_ADDR_LEN) == primaryAddr
    ensures PeersSeen(ReplicaPayload(peers, primaryAddr)) == Kept(peers, MAX_PEERS)
    ensures var n := Min(|peers|, MAX_PEERS);
            Kept(peers, MAX_PEERS) == peers[..n] <==> forall i | 0 <= i < n :: |peers[i]| < MAX_ADDR_LEN
  {
    GossipFieldsRead(peers);
    ReplicaFieldsRead(peers, primaryAddr);
    var gossip := "," + Member("role", Quote("primary"), "}");
    PeersRead(peers, gossip);
    ScanPrinted(peers, gossip, MAX_PEERS);
    var replica := "," + Member("role", Quote("replica"), "," + Member("primary_addr", Quote(primaryAddr), "}"));
    PeersRead(peers, replica);
    ScanPrinted(peers, replica, MAX_PEERS);
    KeptWhole(peers, MAX_PEERS);
  }
}
