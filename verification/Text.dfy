/** String library shared by the Go parsers and the C scanners.

    Text is a sequence of one-byte characters. The functions stand for the library calls both
    sides make: `strings.Index`, `strings.Split`, `strings.Fields`, `strings.Join` and
    `strings.Contains` in Go; `strchr`, `memchr`, `strrchr` and `strstr` in C. An absent match is
    -1 in both worlds (the null pointer in C).
  */
module Text {

  /** The ASCII white space that `strings.TrimSpace` and `strings.Fields` recognise. */
  predicate IsSpace(c: char) {
    c == ' ' || c == '\t' || c == '\n' || c == '\r' || c == 11 as char || c == 12 as char
  }

  /** A field of a line: not empty and free of white space. */
  predicate IsToken(s: string) {
    s != "" && forall c | c in s :: !IsSpace(c)
  }

  // ----------------------------------------------------------------- searching

  // The functions promise only the range of their result; what else they mean is in the lemmas
  // `FindMeans`, `FindLastMeans` and `FindSubMeans`.

  predicate IsFirst(s: string, c: char, r: int) {
    0 <= r < |s| && s[r] == c && forall i | 0 <= i < r :: s[i] != c
  }

  predicate IsLast(s: string, c: char, r: int) {
    0 <= r < |s| && s[r] == c && forall i | r < i < |s| :: s[i] != c
  }

  /** Position of the first `c` in `s` at or behind `i`, or -1. */
  function FindFrom(s: string, c: char, i: nat): (r: int)
    requires i <= |s|
    ensures r == -1 || i <= r < |s|
    decreases |s| - i
  {
    if i == |s| then -1 else if s[i] == c then i else FindFrom(s, c, i + 1)
  }

  /** Position of the last `c` in the first `n` characters, or -1. */
  function FindBefore(s: string, c: char, n: nat): (r: int)
    requires n <= |s|
    ensures -1 <= r < n
  {
    if n == 0 then -1 else if s[n - 1] == c then n - 1 else FindBefore(s, c, n - 1)
  }

  /** Position of the first `c` in `s`, or -1. */
  function Find(s: string, c: char): (r: int)
    ensures -1 <= r < |s|
  {
    FindFrom(s, c, 0)
  }

  /** Position of the last `c` in `s`, or -1. */
  function FindLast(s: string, c: char): (r: int)
    ensures -1 <= r < |s|
  {
    FindBefore(s, c, |s|)
  }

  lemma {:induction false} FindFromMeans(s: string, c: char, i: nat)
    requires i <= |s| && forall j | 0 <= j < i :: s[j] != c
    ensures var r := FindFrom(s, c, i); if c in s then IsFirst(s, c, r) else r == -1
    decreases |s| - i
  {
    if i < |s| && s[i] != c {
      FindFromMeans(s, c, i + 1);
    }
  }

  lemma {:induction false} FindBeforeMeans(s: string, c: char, n: nat)
    requires n <= |s| && forall j | n <= j < |s| :: s[j] != c
    ensures var r := FindBefore(s, c, n); if c in s then IsLast(s, c, r) else r == -1
  {
    if n > 0 && s[n - 1] != c {
      FindBeforeMeans(s, c, n - 1);
    }
  }

  /** The search from `i` is determined by the first hit at or behind `i`. */
  lemma {:induction false} FindFromIs(s: string, c: char, i: nat, k: nat)
    requires i <= k < |s| && s[k] == c
    requires forall j | i <= j < k :: s[j] != c
    ensures FindFrom(s, c, i) == k
    decreases k - i
  {
    if i < k {
      FindFromIs(s, c, i + 1, k);
    }
  }

  lemma FindMeans(s: string, c: char)
    ensures if c in s then IsFirst(s, c, Find(s, c)) else Find(s, c) == -1
  {
    FindFromMeans(s, c, 0);
  }

  lemma FindLastMeans(s: string, c: char)
    ensures if c in s then IsLast(s, c, FindLast(s, c)) else FindLast(s, c) == -1
  {
    FindBeforeMeans(s, c, |s|);
  }

  /** `pat` occurs in `s` at position `i`. */
  predicate OccursAt(s: string, pat: string, i: int) {
    0 <= i <= |s| - |pat| && s[i..i + |pat|] == pat
  }

  predicate Contains(s: string, pat: string) {
    exists i | 0 <= i <= |s| - |pat| :: OccursAt(s, pat, i)
  }

  /** Occurrences behind the first character are occurrences in the tail. */
  lemma OccursInTail(s: string, pat: string, i: int)
    requires s != ""
    ensures OccursAt(s[1..], pat, i) == (i >= 0 && OccursAt(s, pat, i + 1))
  {
    if 0 <= i <= |s| - 1 - |pat| {
      assert s[1..][i..i + |pat|] == s[i + 1..i + 1 + |pat|];
    }
  }

  predicate IsFirstOccurrence(s: string, pat: string, r: int) {
    OccursAt(s, pat, r) && forall i | 0 <= i < r :: !OccursAt(s, pat, i)
  }

  /** Position of the first occurrence of `pat` at or behind `i`, or -1. */
  function FindSubFrom(s: string, pat: string, i: nat): (r: int)
    ensures r == -1 || i <= r <= |s| - |pat|
    decreases |s| - i
  {
    if i + |pat| > |s| then -1 else if OccursAt(s, pat, i) then i else FindSubFrom(s, pat, i + 1)
  }

  /** Position of the first occurrence of `pat` in `s`, or -1. */
  function FindSub(s: string, pat: string): (r: int)
    ensures r == -1 || 0 <= r <= |s| - |pat|
  {
    FindSubFrom(s, pat, 0)
  }

  lemma {:induction false} FindSubFromMeans(s: string, pat: string, i: nat)
    requires forall j | 0 <= j < i :: !OccursAt(s, pat, j)
    ensures var r := FindSubFrom(s, pat, i); if Contains(s, pat) then IsFirstOccurrence(s, pat, r) else r == -1
    decreases |s| - i
  {
    if i + |pat| <= |s| && !OccursAt(s, pat, i) {
      FindSubFromMeans(s, pat, i + 1);
    }
  }

  lemma FindSubMeans(s: string, pat: string)
    ensures if Contains(s, pat) then IsFirstOccurrence(s, pat, FindSub(s, pat)) else FindSub(s, pat) == -1
  {
    FindSubFromMeans(s, pat, 0);
  }

  /** `c` being absent from `a` lets the search skip `a`. */
  lemma FindSkip(a: string, b: string, c: char)
    requires c !in a
    ensures Find(a + b, c) == if Find(b, c) < 0 then -1 else |a| + Find(b, c)
  {
    FindMeans(a + b, c);
    FindMeans(b, c);
    if c in b {
      assert IsFirst(a + b, c, |a| + Find(b, c));
    }
  }

  /** The first `c` of `a + [c] + b` when `a` has none. */
  lemma FindAt(a: string, c: char, b: string)
    requires c !in a
    ensures Find(a + [c] + b, c) == |a|
  {
    FindMeans(a + [c] + b, c);
    assert IsFirst(a + [c] + b, c, |a|);
  }

  /** The last `c` of `a + [c] + b` when `b` has none. */
  lemma FindLastAt(a: string, c: char, b: string)
    requires c !in b
    ensures FindLast(a + [c] + b, c) == |a|
  {
    FindLastMeans(a + [c] + b, c);
    assert IsLast(a + [c] + b, c, |a|);
  }

  // ----------------------------------------------------------------- splitting

  /** `strings.Split` on a one-character separator. */
  function Split(s: string, sep: char): (r: seq<string>)
    ensures |r| >= 1
    decreases |s|
  {
    var i := Find(s, sep);
    if i < 0 then [s] else [s[..i]] + Split(s[i + 1..], sep)
  }

  lemma SplitStep(a: string, sep: char, b: string)
    requires sep !in a
    ensures Split(a + [sep] + b, sep) == [a] + Split(b, sep)
  {
    FindAt(a, sep, b);
    assert (a + [sep] + b)[..|a|] == a;
    assert (a + [sep] + b)[|a| + 1..] == b;
  }

  /** The text in front of the next line end. */
  function FirstLine(t: string): string {
    var nl := Find(t, '\n');
    if nl < 0 then t else t[..nl]
  }

  /** The text behind the next line end; nothing when there is none. */
  function NextLine(t: string): (r: string)
    ensures t != "" ==> |r| < |t|
  {
    var nl := Find(t, '\n');
    if nl < 0 then "" else t[nl + 1..]
  }

  lemma LinesStep(a: string, b: string)
    requires '\n' !in a
    ensures FirstLine(a + ['\n'] + b) == a
    ensures NextLine(a + ['\n'] + b) == b
  {
    FindAt(a, '\n', b);
    assert (a + ['\n'] + b)[..|a|] == a;
    assert (a + ['\n'] + b)[|a| + 1..] == b;
  }

  /** The smaller of two lengths. */
  function Min(a: nat, b: nat): nat { if a <= b then a else b }

  /** The first `n` characters, or all of them. */
  function Prefix(s: string, n: nat): string {
    s[..Min(|s|, n)]
  }

  /** Value of a zero-terminated buffer. */
  function CText(buf: seq<char>): string {
    var z := Find(buf, '\0');
    if z < 0 then buf else buf[..z]
  }

  /** A buffer that starts with `t` and a zero has the value `t`. */
  lemma CTextIs(buf: seq<char>, t: string)
    requires |t| < |buf| && buf[..|t|] == t && buf[|t|] == '\0'
    requires '\0' !in t
    ensures CText(buf) == t
  {
    assert buf == t + ['\0'] + buf[|t| + 1..];
    FindAt(t, '\0', buf[|t| + 1..]);
  }

  /** `strings.Join`. */
  function Join(parts: seq<string>, sep: string): string {
    if |parts| == 0 then ""
    else if |parts| == 1 then parts[0]
    else parts[0] + sep + Join(parts[1..], sep)
  }

  function SkipSpaces(s: string): (r: string)
    ensures |r| <= |s|
  {
    if s != "" && IsSpace(s[0]) then SkipSpaces(s[1..]) else s
  }

  /** Length of the leading stretch without white space. */
  function TokenLen(s: string): (n: nat)
    ensures n <= |s|
  {
    if s == "" || IsSpace(s[0]) then 0 else 1 + TokenLen(s[1..])
  }

  /** `strings.Fields`: the maximal stretches without white space. */
  function Fields(s: string): seq<string>
    decreases |s|
  {
    var t := SkipSpaces(s);
    if t == "" || TokenLen(t) == 0 then [] else [t[..TokenLen(t)]] + Fields(t[TokenLen(t)..])
  }

  /** `strings.TrimSpace`. */
  function TrimSpace(s: string): (r: string)
    ensures |r| <= |s|
    decreases |s|
  {
    if s == "" then ""
    else if IsSpace(s[0]) then TrimSpace(s[1..])
    else if IsSpace(s[|s| - 1]) then TrimSpace(s[..|s| - 1])
    else s
  }

  lemma {:induction false} TokenLenIs(tok: string, rest: string)
    requires forall c | c in tok :: !IsSpace(c)
    requires rest == "" || IsSpace(rest[0])
    ensures TokenLen(tok + rest) == |tok|
  {
    if tok == "" {
      assert tok + rest == rest;
    } else {
      assert (tok + rest)[0] == tok[0] && (tok + rest)[1..] == tok[1..] + rest;
      TokenLenIs(tok[1..], rest);
    }
  }

  lemma FieldsStep(tok: string, rest: string)
    requires IsToken(tok)
    requires rest == "" || IsSpace(rest[0])
    ensures Fields(tok + rest) == [tok] + Fields(rest)
  {
    var s := tok + rest;
    assert s[0] == tok[0];
    assert SkipSpaces(s) == s;
    TokenLenIs(tok, rest);
    assert s[..|tok|] == tok && s[|tok|..] == rest;
  }

  /** Joining tokens with single spaces and splitting into fields are inverse. */
  lemma {:induction false} FieldsOfJoin(toks: seq<string>)
    requires forall t | t in toks :: IsToken(t)
    ensures Fields(Join(toks, " ")) == toks
  {
    if |toks| == 0 {
    } else if |toks| == 1 {
      assert toks[0] + "" == toks[0];
      FieldsStep(toks[0], "");
    } else {
      var rest := " " + Join(toks[1..], " ");
      assert Join(toks, " ") == toks[0] + rest;
      FieldsStep(toks[0], rest);
      assert SkipSpaces(rest) == SkipSpaces(Join(toks[1..], " ")) by { assert rest[1..] == Join(toks[1..], " "); }
      assert Fields(rest) == Fields(Join(toks[1..], " "));
      FieldsOfJoin(toks[1..]);
      assert toks == [toks[0]] + toks[1..];
    }
  }

  /** A character that no part and no separator holds is absent from the join. */
  lemma {:induction false} JoinLacks(parts: seq<string>, sep: string, c: char)
    requires c !in sep
    requires forall p | p in parts :: c !in p
    ensures c !in Join(parts, sep)
  {
    if |parts| > 1 {
      JoinLacks(parts[1..], sep, c);
    }
  }

  /** The join of tokens starts and ends outside white space, so trimming leaves it alone. */
  lemma {:induction false} JoinEnds(toks: seq<string>)
    requires |toks| > 0 && forall t | t in toks :: IsToken(t)
    ensures var j := Join(toks, " "); j != "" && !IsSpace(j[0]) && !IsSpace(j[|j| - 1])
    ensures TrimSpace(Join(toks, " ")) == Join(toks, " ")
  {
    var j := Join(toks, " ");
    assert IsToken(toks[0]);
    assert toks[0][0] in toks[0] && toks[0][|toks[0]| - 1] in toks[0];
    if |toks| > 1 {
      JoinEnds(toks[1..]);
      assert j[|j| - 1] == Join(toks[1..], " ")[|Join(toks[1..], " ")| - 1];
    }
    assert j[0] == toks[0][0];
  }

  /** Head and tail of a join of at least two parts. */
  lemma JoinHead(parts: seq<string>, sep: string)
    requires |parts| > 1
    ensures Join(parts, sep) == parts[0] + sep + Join(parts[1..], sep)
  {
  }

  /** The join with one more part. */
  lemma {:induction false} JoinNext(parts: seq<string>, tok: string, sep: string)
    ensures parts == [] ==> Join(parts + [tok], sep) == tok
    ensures parts != [] ==> Join(parts + [tok], sep) == Join(parts, sep) + sep + tok
  {
    if |parts| == 0 {
      assert parts + [tok] == [tok];
    } else {
      assert (parts + [tok])[0] == parts[0] && (parts + [tok])[1..] == parts[1..] + [tok];
      JoinNext(parts[1..], tok, sep);
      JoinHead(parts + [tok], sep);
      if |parts| > 1 {
        var j := Join(parts[1..], sep);
        assert parts[0] + sep + (j + sep + tok) == (parts[0] + sep + j) + sep + tok;
      }
    }
  }
}
