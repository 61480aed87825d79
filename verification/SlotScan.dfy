/** The two C scanners of the "myself" line of CLUSTER NODES: `extract_myself_slots`
    (server/slot_stats.c) and `parse_myself_line` (server/node_state.c). */
module SlotScan {
  import opened Options
  import opened Text
  import opened NodesFormat

  const LINE_COPY_LEN := 1024

  // ----------------------------------------------------------------- tokens between spaces

  function DropWord(s: string): (r: string)
    ensures |r| <= |s|
    ensures s != "" && s[0] != ' ' ==> |r| < |s|
  {
    if s != "" && s[0] != ' ' then DropWord(s[1..]) else s
  }

  function DropBlanks(s: string): (r: string)
    ensures |r| <= |s|
    ensures s != "" && s[0] == ' ' ==> |r| < |s|
  {
    if s != "" && s[0] == ' ' then DropBlanks(s[1..]) else s
  }

  /** The text behind the next word and the spaces that follow it. */
  function PastWord(s: string): (r: string)
    ensures s != "" ==> |r| < |s|
  {
    DropBlanks(DropWord(s))
  }

  function SkipWords(s: string, k: nat): string
    decreases k
  {
    if k == 0 || s == "" then s else SkipWords(PastWord(s), k - 1)
  }

  /** The next word. */
  function Word(s: string): string {
    s[..|s| - |DropWord(s)|]
  }

  function Words(s: string): seq<string>
    decreases |s|
  {
    if s == "" then [] else [Word(s)] + Words(PastWord(s))
  }

  /** Tokens that are slot ranges and not migration markers. */
  function Kept(toks: seq<string>): seq<string> {
    if |toks| == 0 then []
    else if toks[0] != "" && toks[0][0] != '[' then [toks[0]] + Kept(toks[1..])
    else Kept(toks[1..])
  }

  // ----------------------------------------------------------------- extract_myself_slots

  predicate NamesMyself(line: string) {
    Contains(line, " myself") || Contains(line, ",myself")
  }

  /** The bounded copy of the first line that names this node. */
  function MyselfCopy(t: string): Option<string>
    decreases |t|
  {
    if t == "" then None
    else
      var copy := Prefix(FirstLine(t), LINE_COPY_LEN - 1);
      if NamesMyself(copy) then Some(copy) else MyselfCopy(NextLine(t))
  }

  /** The slot ranges of this node, joined by spaces. */
  function OwnSlots(copy: string): string {
    Join(Kept(Words(SkipWords(copy, 8))), " ")
  }

  /** memcpy into the buffer. */
  method CopyInto(buf: array<char>, at: nat, src: string)
    requires at + |src| <= buf.Length
    modifies buf
    ensures buf[..at + |src|] == old(buf[..at]) + src
  {
    var i := 0;
    while i < |src|
      invariant 0 <= i <= |src|
      invariant buf[..at + i] == old(buf[..at]) + src[..i]
    {
      buf[at + i] := src[i];
      assert buf[..at + i + 1] == buf[..at + i] + [src[i]];
      assert src[..i + 1] == src[..i] + [src[i]];
      i := i + 1;
    }
    assert src[..|src|] == src;
  }

  /** What the buffer holds after one more token. */
  lemma PrefixNext(done: string, tok: string, cap: nat)
    requires done != "" && tok != ""
    ensures |done| >= cap ==> Prefix(done + " " + tok, cap) == Prefix(done, cap)
    ensures |done| < cap ==> Prefix(done + " " + tok, cap) == done + " " + Prefix(tok, cap - |done| - 1)
  {
    var all := done + " " + tok;
    if |done| >= cap {
      assert all[..cap] == done[..cap];
    } else {
      var n := Min(|tok|, cap - |done| - 1);
      assert all[..|done| + 1 + n] == done + " " + tok[..n];
    }
  }

  method AppendToken(buf: array<char>, written: nat, tok: string, ghost done: string) returns (after: nat)
    requires tok != ""
    requires written < buf.Length && buf[..written] == Prefix(done, buf.Length - 1)
    modifies buf
    ensures after < buf.Length
    ensures done == "" ==> buf[..after] == Prefix(tok, buf.Length - 1)
    ensures done != "" ==> buf[..after] == Prefix(done + " " + tok, buf.Length - 1)
  {
    after := written;
    if done != "" {
      PrefixNext(done, tok, buf.Length - 1);
    }
    if after > 0 && after < buf.Length - 1 {
      CopyInto(buf, after, " ");
      after := after + 1;
    }
    var copy := |tok|;
    if after + copy >= buf.Length {
      copy := buf.Length - after - 1;
    }
    ghost var lead := buf[..after];
    CopyInto(buf, after, tok[..copy]);
    after := after + copy;
    assert buf[..after] == lead + tok[..copy];
    if done == "" {
      assert lead == "";
    } else if |done| < buf.Length - 1 {
      assert lead == done + " " && tok[..copy] == Prefix(tok, buf.Length - 1 - |done| - 1);
    }
  }

  method NextWord(s: string) returns (word: string, rest: string)
    ensures word == Word(s) && rest == PastWord(s)
  {
    var p := s;
    while p != "" && p[0] != ' '
      invariant |p| <= |s| && DropWord(p) == DropWord(s)
      decreases |p|
    {
      p := p[1..];
    }
    word := s[..|s| - |p|];
    while p != "" && p[0] == ' '
      invariant DropBlanks(p) == PastWord(s)
      decreases |p|
    {
      p := p[1..];
    }
    rest := p;
  }

  lemma {:induction false} KeptNext(toks: seq<string>, tok: string)
    ensures tok != "" && tok[0] != '[' ==> Kept(toks + [tok]) == Kept(toks) + [tok]
    ensures tok == "" || tok[0] == '[' ==> Kept(toks + [tok]) == Kept(toks)
  {
    if |toks| == 0 {
      assert toks + [tok] == [tok];
    } else {
      assert (toks + [tok])[0] == toks[0] && (toks + [tok])[1..] == toks[1..] + [tok];
      KeptNext(toks[1..], tok);
    }
  }

  lemma {:induction false} KeptNonEmpty(toks: seq<string>)
    ensures Kept(toks) != [] ==> Join(Kept(toks), " ") != ""
  {
    if |toks| > 0 && !(toks[0] != "" && toks[0][0] != '[') {
      KeptNonEmpty(toks[1..]);
    }
  }

  /** The first `written` characters of the buffer are what fits of the ranges among `seen`. */
  ghost predicate Holds(buf: seq<char>, written: int, seen: seq<string>) {
    0 <= written < |buf| && buf[..written] == Prefix(Join(Kept(seen), " "), |buf| - 1)
  }

  /** One token of the slot list. */
  method TakeToken(buf: array<char>, written: nat, tok: string, ghost seen: seq<string>) returns (after: nat)
    requires Holds(buf[..], written, seen)
    modifies buf
    ensures Holds(buf[..], after, seen + [tok])
  {
    KeptNext(seen, tok);
    after := written;
    if tok != "" && tok[0] != '[' {
      JoinNext(Kept(seen), tok, " ");
      KeptNonEmpty(seen);
      assert buf[..][..written] == buf[..written];
      after := AppendToken(buf, written, tok, Join(Kept(seen), " "));
      assert buf[..][..after] == buf[..after];
    }
  }

  lemma WordsNext(all: seq<string>, seen: seq<string>, p: string)
    requires p != "" && seen + Words(p) == all
    ensures seen + [Word(p)] + Words(PastWord(p)) == all
  {
    assert Words(p) == [Word(p)] + Words(PastWord(p));
  }

  /** The token loop. */
  method WriteTokens(start: string, buf: array<char>) returns (written: nat)
    requires buf.Length > 0
    modifies buf
    ensures Holds(buf[..], written, Words(start))
  {
    ghost var all := Words(start);
    var p := start;
    written := 0;
    ghost var seen: seq<string> := [];
    while p != ""
      invariant seen + Words(p) == all && Holds(buf[..], written, seen)
      decreases |p|
    {
      WordsNext(all, seen, p);
      var tok, rest := NextWord(p);
      written := TakeToken(buf, written, tok, seen);
      seen := seen + [tok];
      p := rest;
    }
    assert seen == all;
  }

  predicate Writes(buf: seq<char>, t: string) {
    |t| < |buf| && buf[..|t|] == t && buf[|t|] == '\0'
  }

  /** The buffer gets what fits of the joined slot ranges. */
  method WriteSlots(start: string, buf: array<char>)
    requires buf.Length > 0
    modifies buf
    ensures Writes(buf[..], Prefix(Join(Kept(Words(start)), " "), buf.Length - 1))
  {
    var written := WriteTokens(start, buf);
    ghost var text := buf[..][..written];
    buf[written] := '\0';
    assert buf[..][..written] == text;
  }

  /** Dropping words keeps a suffix, and words are pieces of the text. */
  lemma {:induction false} DropsSuffix(s: string)
    ensures DropWord(s) == s[|s| - |DropWord(s)|..]
    ensures DropBlanks(s) == s[|s| - |DropBlanks(s)|..]
  {
    if s != "" {
      DropsSuffix(s[1..]);
    }
  }

  lemma PastWordLacks(s: string, c: char)
    requires c !in s
    ensures c !in PastWord(s) && c !in Word(s)
  {
    DropsSuffix(s);
    DropsSuffix(DropWord(s));
  }

  lemma {:induction false} SkipWordsLacks(s: string, k: nat, c: char)
    requires c !in s
    ensures c !in SkipWords(s, k)
    decreases k
  {
    if k > 0 && s != "" {
      PastWordLacks(s, c);
      SkipWordsLacks(PastWord(s), k - 1, c);
    }
  }

  lemma {:induction false} KeptWordsLack(s: string, c: char)
    requires c !in s
    ensures forall t | t in Words(s) :: c !in t
    decreases |s|
  {
    if s != "" {
      PastWordLacks(s, c);
      KeptWordsLack(PastWord(s), c);
    }
  }

  lemma {:induction false} KeptIsPart(toks: seq<string>)
    ensures forall t | t in Kept(toks) :: t in toks
  {
    if |toks| > 0 {
      KeptIsPart(toks[1..]);
    }
  }

  lemma OwnSlotsLack(copy: string)
    requires '\0' !in copy
    ensures '\0' !in OwnSlots(copy)
  {
    var s := SkipWords(copy, 8);
    SkipWordsLacks(copy, 8, '\0');
    KeptWordsLack(s, '\0');
    KeptIsPart(Words(s));
    JoinLacks(Kept(Words(s)), " ", '\0');
  }

  /** Steps over the first `count` fields. */
  method SkipFields(copy: string, count: nat) returns (p: string)
    ensures p == SkipWords(copy, count)
  {
    var field := 0;
    p := copy;
    while field < count && p != ""
      invariant 0 <= field <= count && SkipWords(p, count - field) == SkipWords(copy, count)
    {
      var _, rest := NextWord(p);
      field, p := field + 1, rest;
    }
  }

  lemma WrittenText(buf: seq<char>, copy: string)
    requires |buf| > 0 && '\0' !in copy && Writes(buf, Prefix(OwnSlots(copy), |buf| - 1))
    ensures CText(buf) == Prefix(OwnSlots(copy), |buf| - 1)
  {
    OwnSlotsLack(copy);
    CTextIs(buf, Prefix(OwnSlots(copy), |buf| - 1));
  }

  /** `extract_myself_slots` once the line is found. */
  method CollectSlots(copy: string, buf: array<char>)
    requires buf.Length > 0 && '\0' !in copy
    modifies buf
    ensures CText(buf[..]) == Prefix(OwnSlots(copy), buf.Length - 1)
  {
    var p := SkipFields(copy, 8);
    WriteSlots(p, buf);
    WrittenText(buf[..], copy);
  }

  /** Writes the slot ranges of the line that names this node, as far as they fit. */
  method ExtractMyselfSlots(nodes: string, buf: array<char>) returns (rc: int)
    requires buf.Length > 0 && '\0' !in nodes
    modifies buf
    ensures match MyselfCopy(nodes)
            case None => rc == -1 && CText(buf[..]) == ""
            case Some(copy) => rc == 0 && CText(buf[..]) == Prefix(OwnSlots(copy), buf.Length - 1)
  {
    buf[0] := '\0';
    CTextIs(buf[..], "");
    var line := nodes;
    while line != ""
      invariant '\0' !in line && MyselfCopy(line) == MyselfCopy(nodes)
      invariant CText(buf[..]) == ""
      decreases |line|
    {
      var copy := Prefix(FirstLine(line), LINE_COPY_LEN - 1);
      if NamesMyself(copy) {
        CollectSlots(copy, buf);
        return 0;
      }
      line := NextLine(line);
    }
    return -1;
  }

  // ----------------------------------------------------------------- parse_myself_line

  function MyselfLine(t: string): Option<string>
    decreases |t|
  {
    if t == "" then None
    else if Contains(FirstLine(t), "myself") then Some(FirstLine(t))
    else MyselfLine(NextLine(t))
  }

  /** The text behind the first `k` spaces of the line, if they come before its carriage return. */
  function AfterSpaces(s: string, k: nat): Option<string>
    decreases |s|
  {
    if k == 0 then Some(s)
    else if s == "" || s[0] == '\r' then None
    else AfterSpaces(s[1..], if s[0] == ' ' then k - 1 else k)
  }

  /** The `k`-th field, counted from zero, of those that a space ends. */
  function FieldAt(line: string, k: nat): Option<string> {
    match (AfterSpaces(line, k), AfterSpaces(line, k + 1))
    case (Some(from), Some(behind)) => if |behind| < |from| then Some(from[..|from| - |behind| - 1]) else None
    case _ => None
  }

  /** What a buffer of `cap` characters receives as the id of the primary. */
  function MasterIdRead(line: string, cap: nat): string {
    match FieldAt(line, 3)
    case None => ""
    case Some(id) => if |id| < cap && id != "-" then id else ""
  }

  /** Something other than spaces and migration markers comes before the carriage return. */
  predicate RealSlot(s: string)
    decreases |s|
  {
    if s == "" || s[0] == '\r' then false
    else if s[0] == ' ' then RealSlot(s[1..])
    else if s[0] == '[' then
      var close := Find(s, ']');
      close >= 0 && RealSlot(s[close + 1..])
    else true
  }

  predicate OwnsSlots(line: string) {
    match AfterSpaces(line, 8)
    case None => false
    case Some(s) => RealSlot(s)
  }

  method FindRealSlot(start: string) returns (found: bool)
    ensures found == RealSlot(start)
  {
    var s := start;
    while s != "" && s[0] != '\r'
      invariant RealSlot(s) == RealSlot(start)
      decreases |s|
    {
      if s[0] == '[' {
        var close := Find(s, ']');
        s := if close < 0 then "" else s[close + 1..];
      } else if s[0] != ' ' {
        return true;
      } else {
        s := s[1..];
      }
    }
    return false;
  }

  /** Stores a field as the id of the primary; "-" stands for none. */
  method StoreMasterId(id: string, masterId: array<char>)
    requires '\0' !in id
    requires CText(masterId[..]) == ""
    modifies masterId
    ensures CText(masterId[..]) == if |id| < masterId.Length && id != "-" then id else ""
  {
    if 0 < |id| < masterId.Length {
      CopyInto(masterId, 0, id);
      masterId[|id|] := '\0';
      assert masterId[..|id|] == id;
      CTextIs(masterId[..], id);
      if id == "-" {
        masterId[0] := '\0';
        CTextIs(masterId[..], "");
      }
    }
  }

  /** The walk stands at `p` in field `idx`, which starts at `field`. */
  ghost predicate Walking(line: string, p: string, field: string, idx: nat) {
    && idx <= 7
    && AfterSpaces(p, 8 - idx) == AfterSpaces(line, 8)
    && (idx <= 3 ==> AfterSpaces(p, 4 - idx) == AfterSpaces(line, 4))
    && (idx < 3 ==> AfterSpaces(p, 3 - idx) == AfterSpaces(line, 3))
    && (idx == 3 ==> AfterSpaces(line, 3) == Some(field))
  }

  lemma AfterSpacesHead(p: string, k: nat)
    requires k > 0 && p != "" && p[0] != '\r'
    ensures AfterSpaces(p, k) == AfterSpaces(p[1..], if p[0] == ' ' then k - 1 else k)
  {
  }

  lemma WalksOn(line: string, p: string, field: string, idx: nat)
    requires Walking(line, p, field, idx) && p != "" && p[0] != '\r'
    ensures p[0] != ' ' ==> Walking(line, p[1..], field, idx)
    ensures p[0] == ' ' && idx < 7 ==> Walking(line, p[1..], p[1..], idx + 1)
  {
    AfterSpacesHead(p, 8 - idx);
    if idx <= 3 {
      AfterSpacesHead(p, 4 - idx);
    }
    if idx < 3 {
      AfterSpacesHead(p, 3 - idx);
    }
    if p[0] == ' ' && idx == 2 {
      assert AfterSpaces(p[1..], 0) == Some(p[1..]);
    }
  }

  lemma FieldEnds(line: string, p: string, field: string)
    requires Walking(line, p, field, 3) && p != "" && p[0] == ' ' && |p| <= |field|
    ensures FieldAt(line, 3) == Some(field[..|field| - |p|])
  {
    assert AfterSpaces(p[1..], 0) == Some(p[1..]);
    assert AfterSpaces(line, 4) == Some(p[1..]);
  }

  lemma SlotsBegin(line: string, p: string, field: string)
    requires Walking(line, p, field, 7) && p != "" && p[0] == ' '
    ensures OwnsSlots(line) == RealSlot(p[1..])
  {
    assert AfterSpaces(p[1..], 0) == Some(p[1..]);
  }

  lemma WalkEnds(line: string, p: string, field: string, idx: nat)
    requires Walking(line, p, field, idx) && (p == "" || p[0] == '\r')
    ensures !OwnsSlots(line)
    ensures idx <= 3 ==> FieldAt(line, 3) == None
  {
  }

  /** The walk over the fields of the line. */
  method ScanFields(line: string, masterId: array<char>) returns (hasOwnSlots: bool)
    requires '\0' !in line
    requires CText(masterId[..]) == ""
    modifies masterId
    ensures CText(masterId[..]) == MasterIdRead(line, masterId.Length)
    ensures hasOwnSlots == OwnsSlots(line)
  {
    var p, fieldStart, fieldIdx := line, line, 0;
    while p != "" && p[0] != '\r'
      invariant 0 <= fieldIdx && Walking(line, p, fieldStart, fieldIdx)
      invariant '\0' !in fieldStart && |p| <= |fieldStart| && p == fieldStart[|fieldStart| - |p|..]
      invariant fieldIdx <= 3 ==> CText(masterId[..]) == ""
      invariant fieldIdx > 3 ==> CText(masterId[..]) == MasterIdRead(line, masterId.Length)
      decreases |p|
    {
      WalksOn(line, p, fieldStart, fieldIdx);
      if p[0] == ' ' {
        if fieldIdx == 3 {
          FieldEnds(line, p, fieldStart);
          StoreMasterId(fieldStart[..|fieldStart| - |p|], masterId);
        }
        if fieldIdx == 7 {
          SlotsBegin(line, p, fieldStart);
          hasOwnSlots := FindRealSlot(p[1..]);
          return;
        }
        fieldIdx := fieldIdx + 1;
        fieldStart := p[1..];
      }
      p := p[1..];
    }
    WalkEnds(line, p, fieldStart, fieldIdx);
    return false;
  }

  method ParseMyselfLine(nodes: string, masterId: array<char>) returns (hasOwnSlots: bool)
    requires '\0' !in nodes
    modifies masterId
    ensures match MyselfLine(nodes)
            case None => !hasOwnSlots && CText(masterId[..]) == ""
            case Some(line) =>
              hasOwnSlots == OwnsSlots(line) && CText(masterId[..]) == MasterIdRead(line, masterId.Length)
  {
    if masterId.Length > 0 {
      masterId[0] := '\0';
      CTextIs(masterId[..], "");
    }
    var line := nodes;
    while line != ""
      invariant '\0' !in line && MyselfLine(line) == MyselfLine(nodes)
      invariant CText(masterId[..]) == ""
      decreases |line|
    {
      if Contains(FirstLine(line), "myself") {
        hasOwnSlots := ScanFields(FirstLine(line), masterId);
        return;
      }
      line := NextLine(line);
    }
    return false;
  }

  // ----------------------------------------------------------------- agreement on well-formed texts

  lemma {:induction false} DropWordIs(tok: string, rest: string)
    requires ' ' !in tok
    requires rest == "" || rest[0] == ' '
    ensures DropWord(tok + rest) == rest
  {
    if tok == "" {
      assert tok + rest == rest;
    } else {
      assert (tok + rest)[0] == tok[0] && (tok + rest)[1..] == tok[1..] + rest;
      DropWordIs(tok[1..], rest);
    }
  }

  lemma JoinStart(toks: seq<string>)
    requires |toks| > 0 && forall t | t in toks :: IsToken(t)
    ensures var j := Join(toks, " "); j != "" && j[0] != ' '
  {
    JoinEnds(toks);
  }

  lemma WordAt(tok: string, rest: string)
    requires ' ' !in tok
    requires rest == "" || rest[0] == ' '
    ensures Word(tok + rest) == tok && PastWord(tok + rest) == DropBlanks(rest)
  {
    DropWordIs(tok, rest);
  }

  lemma WordBefore(tok: string, more: string)
    requires ' ' !in tok && more != "" && more[0] != ' '
    ensures Word(tok + " " + more) == tok && PastWord(tok + " " + more) == more
  {
    assert tok + " " + more == tok + (" " + more);
    WordAt(tok, " " + more);
    assert (" " + more)[1..] == more;
  }

  lemma WordAlone(tok: string)
    requires ' ' !in tok
    ensures Word(tok) == tok && PastWord(tok) == ""
  {
    assert tok + "" == tok;
    WordAt(tok, "");
  }

  lemma WordOfJoin(toks: seq<string>)
    requires |toks| > 0 && forall t | t in toks :: IsToken(t)
    ensures Word(Join(toks, " ")) == toks[0] && PastWord(Join(toks, " ")) == Join(toks[1..], " ")
  {
    assert IsToken(toks[0]) && ' ' !in toks[0];
    if |toks| == 1 {
      WordAlone(toks[0]);
    } else {
      JoinHead(toks, " ");
      JoinStart(toks[1..]);
      WordBefore(toks[0], Join(toks[1..], " "));
    }
  }

  lemma {:induction false} WordsOfJoin(toks: seq<string>)
    requires forall t | t in toks :: IsToken(t)
    ensures Words(Join(toks, " ")) == toks
  {
    if |toks| > 0 {
      JoinStart(toks);
      WordOfJoin(toks);
      WordsOfJoin(toks[1..]);
    }
  }

  lemma {:induction false} SkipWordsOfJoin(toks: seq<string>, k: nat)
    requires k <= |toks| && forall t | t in toks :: IsToken(t)
    ensures SkipWords(Join(toks, " "), k) == Join(toks[k..], " ")
    decreases k
  {
    if k > 0 {
      JoinStart(toks);
      WordOfJoin(toks);
      SkipWordsOfJoin(toks[1..], k - 1);
      assert toks[1..][k - 1..] == toks[k..];
    } else {
      assert toks[0..] == toks;
    }
  }

  lemma {:induction false} AfterWord(tok: string, rest: string, k: nat)
    requires k > 0 && ' ' !in tok && '\r' !in tok
    ensures AfterSpaces(tok + rest, k) == AfterSpaces(rest, k)
  {
    if tok == "" {
      assert tok + rest == rest;
    } else {
      assert (tok + rest)[0] == tok[0] && (tok + rest)[1..] == tok[1..] + rest;
      AfterWord(tok[1..], rest, k);
    }
  }

  lemma AfterSpacesStep(toks: seq<string>, k: nat)
    requires k > 0 && |toks| > 0 && forall t | t in toks :: IsToken(t)
    ensures |toks| == 1 ==> AfterSpaces(Join(toks, " "), k) == None
    ensures |toks| > 1 ==> AfterSpaces(Join(toks, " "), k) == AfterSpaces(Join(toks[1..], " "), k - 1)
  {
    assert IsToken(toks[0]) && ' ' !in toks[0] && '\r' !in toks[0];
    if |toks| == 1 {
      AfterWord(toks[0], "", k);
      assert toks[0] + "" == toks[0];
    } else {
      var more := Join(toks[1..], " ");
      JoinHead(toks, " ");
      assert toks[0] + " " + more == toks[0] + (" " + more);
      AfterWord(toks[0], " " + more, k);
      assert (" " + more)[1..] == more;
    }
  }

  lemma {:induction false} AfterSpacesOfJoin(toks: seq<string>, k: nat)
    requires |toks| > 0 && forall t | t in toks :: IsToken(t)
    ensures AfterSpaces(Join(toks, " "), k) == if k < |toks| then Some(Join(toks[k..], " ")) else None
  {
    if k == 0 {
      assert toks[0..] == toks;
    } else {
      AfterSpacesStep(toks, k);
      if |toks| > 1 {
        AfterSpacesOfJoin(toks[1..], k - 1);
        assert k < |toks| ==> toks[1..][k - 1..] == toks[k..];
      }
    }
  }

  /** A slot token is a range or a bracketed migration marker that ends with its only closing bracket. */
  predicate SlotToken(t: string) {
    IsToken(t) && (t[0] == '[' ==> Find(t, ']') == |t| - 1)
  }

  lemma RealSlotStep(t: string, rest: string)
    requires SlotToken(t)
    ensures RealSlot(t + rest) == (t[0] != '[' || RealSlot(rest))
  {
    var s := t + rest;
    assert s[0] == t[0] && t[0] in t;
    if t[0] == '[' {
      FindMeans(t, ']');
      FindMeans(s, ']');
      assert IsFirst(s, ']', |t| - 1);
      assert s[|t|..] == rest;
    }
  }

  lemma {:induction false} RealSlotOfJoin(slots: seq<string>)
    requires forall t | t in slots :: SlotToken(t)
    ensures RealSlot(Join(slots, " ")) == (Kept(slots) != [])
  {
    if |slots| == 0 {
    } else if |slots| == 1 {
      assert slots[0] + "" == slots[0];
      RealSlotStep(slots[0], "");
    } else {
      var more := Join(slots[1..], " ");
      JoinHead(slots, " ");
      assert slots[0] + " " + more == slots[0] + (" " + more);
      RealSlotStep(slots[0], " " + more);
      assert (" " + more)[1..] == more;
      RealSlotOfJoin(slots[1..]);
    }
  }

  // ----------------------------------------------------------------- the line of this node

  /** The flags of this node's own line start with "myself" or hold it behind a comma. */
  predicate IsMyself(n: NodeLine) {
    OccursAt(n.flags, "myself", 0) || Contains(n.flags, ",myself")
  }

  lemma ContainsPart(a: string, s: string, b: string, pat: string)
    requires Contains(s, pat)
    ensures Contains(a + s + b, pat)
  {
    var i :| 0 <= i <= |s| - |pat| && OccursAt(s, pat, i);
    assert (a + s + b)[|a| + i..|a| + i + |pat|] == s[i..i + |pat|];
    assert OccursAt(a + s + b, pat, |a| + i);
  }

  lemma ContainsInPrefix(s: string, n: nat, pat: string)
    requires Contains(Prefix(s, n), pat)
    ensures Contains(s, pat)
  {
    ContainsPart("", Prefix(s, n), s[|Prefix(s, n)|..], pat);
    assert "" + Prefix(s, n) + s[|Prefix(s, n)|..] == s;
  }

  /** Both searches for the line need the bare word. */
  lemma MyselfWord(s: string, pat: string)
    requires |pat| == 7 && pat[1..] == "myself" && Contains(s, pat)
    ensures Contains(s, "myself")
  {
    var i :| 0 <= i <= |s| - |pat| && OccursAt(s, pat, i);
    assert s[i + 1..i + 7] == s[i..i + 7][1..] == "myself";
    assert OccursAt(s, "myself", i + 1);
  }

  lemma NamedInCopy(line: string)
    requires NamesMyself(Prefix(line, LINE_COPY_LEN - 1))
    ensures Contains(line, "myself")
  {
    var copy := Prefix(line, LINE_COPY_LEN - 1);
    MyselfWord(copy, if Contains(copy, " myself") then " myself" else ",myself");
    ContainsInPrefix(line, LINE_COPY_LEN - 1, "myself");
  }

  lemma AroundFlags(n: NodeLine) returns (before: string, behind: string)
    ensures RenderLine(n) == before + (" " + n.flags) + behind
  {
    var toks := Tokens(n);
    JoinHead(toks, " ");
    JoinHead(toks[1..], " ");
    JoinHead(toks[2..], " ");
    assert toks[1..][1..] == toks[2..] && toks[2..][1..] == toks[3..];
    before, behind := n.id + " " + Address(n), " " + Join(toks[3..], " ");
  }

  lemma NamedInLine(n: NodeLine)
    requires IsMyself(n)
    ensures NamesMyself(RenderLine(n)) && Contains(RenderLine(n), "myself")
  {
    var before, behind := AroundFlags(n);
    var flags := " " + n.flags;
    if OccursAt(n.flags, "myself", 0) {
      assert flags[0..7] == " " + n.flags[0..6];
      assert OccursAt(flags, " myself", 0);
      ContainsPart(before, flags, behind, " myself");
      MyselfWord(RenderLine(n), " myself");
    } else {
      assert " " + n.flags + "" == flags;
      ContainsPart(" ", n.flags, "", ",myself");
      ContainsPart(before, flags, behind, ",myself");
      MyselfWord(RenderLine(n), ",myself");
    }
  }

  /** Record `i` is this node's own: it says so, and no record in front of it mentions the word. */
  ghost predicate SelfAt(ns: seq<NodeLine>, i: nat) {
    && i < |ns| && IsMyself(ns[i]) && |RenderLine(ns[i])| < LINE_COPY_LEN
    && forall j | 0 <= j < i :: !Contains(RenderLine(ns[j]), "myself")
  }

  /** Both scanners find the same line. */
  lemma {:induction false} FindsLine(ns: seq<NodeLine>, i: nat)
    requires AllWellFormed(ns) && SelfAt(ns, i)
    ensures MyselfCopy(Render(ns)) == Some(RenderLine(ns[i]))
    ensures MyselfLine(Render(ns)) == Some(RenderLine(ns[i]))
  {
    LineOfRender(ns[0], Render(ns[1..]));
    if i == 0 {
      NamedInLine(ns[0]);
      assert Prefix(RenderLine(ns[0]), LINE_COPY_LEN - 1) == RenderLine(ns[0]);
    } else {
      assert !NamesMyself(Prefix(RenderLine(ns[0]), LINE_COPY_LEN - 1)) by {
        if NamesMyself(Prefix(RenderLine(ns[0]), LINE_COPY_LEN - 1)) {
          NamedInCopy(RenderLine(ns[0]));
        }
      }
      assert forall j | 0 <= j < i - 1 :: ns[1..][j] == ns[j + 1];
      FindsLine(ns[1..], i - 1);
    }
  }

  lemma LineScans(n: NodeLine)
    requires WellFormed(n)
    ensures OwnSlots(RenderLine(n)) == Join(Kept(n.slots), " ")
    ensures FieldAt(RenderLine(n), 3) == Some(n.masterId)
    ensures AfterSpaces(RenderLine(n), 8) == if n.slots == [] then None else Some(Join(n.slots, " "))
  {
    var toks := Tokens(n);
    TokensAreTokens(n);
    assert toks[8..] == n.slots;
    SkipWordsOfJoin(toks, 8);
    WordsOfJoin(n.slots);
    AfterSpacesOfJoin(toks, 3);
    AfterSpacesOfJoin(toks, 4);
    AfterSpacesOfJoin(toks, 8);
    JoinHead(toks[3..], " ");
    assert toks[3..][1..] == toks[4..];
    var more := Join(toks[4..], " ");
    assert (n.masterId + " " + more)[..|n.masterId|] == n.masterId;
  }

  /** The two scanners agree on every well-formed text: one reports the joined ranges of this
      node's record, the other says whether there are any, and both stop at migration markers. */
  lemma ScannersAgree(ns: seq<NodeLine>, i: nat)
    requires AllWellFormed(ns) && SelfAt(ns, i)
    requires forall t | t in ns[i].slots :: SlotToken(t)
    ensures match (MyselfCopy(Render(ns)), MyselfLine(Render(ns)))
            case (Some(copy), Some(line)) =>
              && OwnSlots(copy) == Join(Kept(ns[i].slots), " ")
              && OwnsSlots(line) == (Kept(ns[i].slots) != [])
              && (forall cap: nat | cap > 0 :: OwnsSlots(line) == (Prefix(OwnSlots(copy), cap) != ""))
              && (forall cap :: MasterIdRead(line, cap)
                                == if |ns[i].masterId| < cap && ns[i].masterId != "-" then ns[i].masterId else "")
            case _ => false
  {
    var n := ns[i];
    FindsLine(ns, i);
    LineScans(n);
    KeptNonEmpty(n.slots);
    RealSlotOfJoin(n.slots);
  }
}
