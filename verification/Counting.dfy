/** Sums and counts over sequences. */
module Counting {

  function Sum<T>(s: seq<T>, f: T -> int): int {
    if |s| == 0 then 0 else Sum(s[..|s| - 1], f) + f(s[|s| - 1])
  }

  /** Number of elements that satisfy `p`. */
  function Count<T>(s: seq<T>, p: T -> bool): nat {
    if |s| == 0 then 0 else Count(s[..|s| - 1], p) + if p(s[|s| - 1]) then 1 else 0
  }

  /** The positions of those elements. */
  function Positions<T>(s: seq<T>, p: T -> bool): set<int> {
    set i | 0 <= i < |s| && p(s[i])
  }

  lemma PositionsNext<T>(s: seq<T>, x: T, p: T -> bool)
    ensures p(x) ==> Positions(s + [x], p) == Positions(s, p) + {|s|}
    ensures !p(x) ==> Positions(s + [x], p) == Positions(s, p)
  {
  }

  lemma {:induction false} CountMeans<T>(s: seq<T>, p: T -> bool)
    ensures Count(s, p) == |Positions(s, p)|
  {
    if |s| > 0 {
      var init, last := s[..|s| - 1], s[|s| - 1];
      CountMeans(init, p);
      PositionsNext(init, last, p);
      assert s == init + [last];
    }
  }

  lemma CountNext<T>(s: seq<T>, x: T, p: T -> bool)
    ensures Count(s + [x], p) == Count(s, p) + if p(x) then 1 else 0
  {
    assert (s + [x])[..|s|] == s;
  }

  lemma {:induction false} CountConcat<T>(a: seq<T>, b: seq<T>, p: T -> bool)
    ensures Count(a + b, p) == Count(a, p) + Count(b, p)
  {
    if |b| == 0 {
      assert a + b == a;
    } else {
      var init, last := b[..|b| - 1], b[|b| - 1];
      assert a + b == (a + init) + [last];
      CountNext(a + init, last, p);
      CountConcat(a, init, p);
    }
  }

  lemma CountInsert<T>(a: seq<T>, x: T, b: seq<T>, p: T -> bool)
    ensures Count(a + [x] + b, p) == Count(a + b, p) + if p(x) then 1 else 0
  {
    CountConcat(a + [x], b, p);
    CountNext(a, x, p);
    CountConcat(a, b, p);
  }

  lemma Locate<T>(s: seq<T>, x: T) returns (a: seq<T>, b: seq<T>)
    requires x in s
    ensures s == a + [x] + b
  {
    var j :| 0 <= j < |s| && s[j] == x;
    a, b := s[..j], s[j + 1..];
  }

  lemma Cancel<T>(a: seq<T>, x: T, b: seq<T>, c: seq<T>)
    requires multiset(c + [x]) == multiset(a + [x] + b)
    ensures multiset(c) == multiset(a + b)
  {
    assert multiset(c) == multiset(c + [x]) - multiset{x};
    assert multiset(a + b) == multiset(a + [x] + b) - multiset{x};
  }

  /** Counting does not depend on the order. */
  lemma {:induction false} CountPermuted<T>(a: seq<T>, b: seq<T>, p: T -> bool)
    requires multiset(a) == multiset(b)
    ensures Count(a, p) == Count(b, p)
  {
    if |a| == 0 {
      assert |multiset(b)| == 0;
    } else {
      var init, x := a[..|a| - 1], a[|a| - 1];
      assert a == init + [x];
      assert x in multiset(b);
      var l, r := Locate(b, x);
      Cancel(l, x, r, init);
      CountPermuted(init, l + r, p);
      CountInsert(l, x, r, p);
    }
  }

  /** Counting after one element is replaced. */
  lemma CountUpdate<T>(s: seq<T>, i: nat, x: T, p: T -> bool)
    requires i < |s|
    ensures Count(s[i := x], p) == Count(s, p) - (if p(s[i]) then 1 else 0) + (if p(x) then 1 else 0)
  {
    var a, b := s[..i], s[i + 1..];
    assert s == a + [s[i]] + b;
    assert s[i := x] == a + [x] + b;
    CountInsert(a, s[i], b, p);
    CountInsert(a, x, b, p);
  }

  /** Two sums whose terms differ at one position only. */
  lemma {:induction false} SumChange<T>(a: seq<T>, f: T -> int, b: seq<T>, g: T -> int, m: nat)
    requires |a| == |b| && m < |a|
    requires forall k | 0 <= k < |a| && k != m :: f(a[k]) == g(b[k])
    ensures Sum(a, f) - f(a[m]) == Sum(b, g) - g(b[m])
  {
    var n := |a| - 1;
    if m == n {
      SumSame(a[..n], f, b[..n], g);
    } else {
      SumChange(a[..n], f, b[..n], g, m);
    }
  }

  lemma {:induction false} SumSame<T>(a: seq<T>, f: T -> int, b: seq<T>, g: T -> int)
    requires |a| == |b|
    requires forall k | 0 <= k < |a| :: f(a[k]) == g(b[k])
    ensures Sum(a, f) == Sum(b, g)
  {
    if |a| > 0 {
      SumSame(a[..|a| - 1], f, b[..|a| - 1], g);
    }
  }

  /** A sum of terms that are not negative is zero only if every term is. */
  lemma {:induction false} SumZero<T>(s: seq<T>, f: T -> int)
    requires forall k | 0 <= k < |s| :: f(s[k]) >= 0
    ensures Sum(s, f) >= 0
    ensures Sum(s, f) == 0 <==> forall k | 0 <= k < |s| :: f(s[k]) == 0
  {
    if |s| > 0 {
      SumZero(s[..|s| - 1], f);
      assert forall k | 0 <= k < |s| - 1 :: s[..|s| - 1][k] == s[k];
    }
  }
}
