/** Small vocabulary shared by every module. */
module Basics {

  datatype Option<+T> = None | Some(value: T)

  function Min(a: int, b: int): int {
    if a <= b then a else b
  }

  function Max(a: int, b: int): int {
    if a >= b then a else b
  }

  /** Zig's std.math.clamp, for lo <= hi. */
  function Clamp(x: int, lo: int, hi: int): int {
    if x < lo then lo else if x > hi then hi else x
  }

  function CeilDiv(a: nat, b: nat): nat
    requires b > 0
  {
    (a + b - 1) / b
  }

  /** Zig's @divTrunc: rounds toward zero. */
  function DivTrunc(a: int, b: int): int
    requires b > 0
  {
    if a >= 0 then a / b else -((-a) / b)
  }

  function Last<T>(s: seq<T>): T
    requires s != []
  {
    s[|s| - 1]
  }

  function Front<T>(s: seq<T>): seq<T>
    requires s != []
  {
    s[..|s| - 1]
  }

  /** No value occurs twice. */
  ghost predicate Distinct<T>(s: seq<T>) {
    forall i, j :: 0 <= i < j < |s| ==> s[i] != s[j]
  }

  /** In a duplicate-free sequence every value counts at most once. */
  lemma {:induction false} DistinctCounts<T>(s: seq<T>, x: T)
    requires Distinct(s)
    ensures multiset(s)[x] <= 1
  {
    if s != [] {
      DistinctCounts(Front(s), x);
      assert s == Front(s) + [Last(s)];
      if x == Last(s) && x in Front(s) {
        assert false;
      }
    }
  }

  lemma TwiceCountsTwice<T>(s: seq<T>, i: nat, j: nat)
    requires i < j < |s| && s[i] == s[j]
    ensures multiset(s)[s[i]] >= 2
  {
    assert s == s[..j] + [s[j]] + s[j + 1..];
    assert s[i] in s[..j];
  }

  /** And the other way round. */
  lemma CountsDistinct<T>(s: seq<T>)
    requires forall x :: x in s ==> multiset(s)[x] <= 1
    ensures Distinct(s)
  {
    if i, j :| 0 <= i < j < |s| && s[i] == s[j] {
      TwiceCountsTwice(s, i, j);
      assert false;
    }
  }

  /** How often x occurs. */
  function Count(s: seq<nat>, x: nat): nat {
    if s == [] then 0 else (if s[0] == x then 1 else 0) + Count(s[1..], x)
  }

  lemma {:induction false} CountJoin(a: seq<nat>, b: seq<nat>, x: nat)
    ensures Count(a + b, x) == Count(a, x) + Count(b, x)
  {
    if a == [] {
      assert a + b == b;
    } else {
      assert (a + b)[1..] == a[1..] + b;
      CountJoin(a[1..], b, x);
    }
  }

  lemma CountAppend(s: seq<nat>, v: nat, x: nat)
    ensures Count(s + [v], x) == Count(s, x) + if v == x then 1 else 0
  {
    CountJoin(s, [v], x);
    assert [v][1..] == [];
  }

  lemma {:induction false} CountIn(s: seq<nat>, x: nat)
    ensures Count(s, x) > 0 <==> x in s
    ensures Count(s, x) == multiset(s)[x]
  {
    if s != [] {
      CountIn(s[1..], x);
      assert s == [s[0]] + s[1..];
    }
  }

  lemma DistinctFromCounts(s: seq<nat>)
    requires forall x :: Count(s, x) <= 1
    ensures Distinct(s)
  {
    forall x | x in s ensures multiset(s)[x] <= 1 {
      CountIn(s, x);
    }
    CountsDistinct(s);
  }

  function Without(s: seq<nat>, x: nat): seq<nat> {
    if s == [] then []
    else if s[0] == x then Without(s[1..], x)
    else [s[0]] + Without(s[1..], x)
  }

  lemma {:induction false} WithoutCounts(s: seq<nat>, x: nat, y: nat)
    ensures Count(Without(s, x), y) == if y == x then 0 else Count(s, y)
    ensures |s| == |Without(s, x)| + Count(s, x)
  {
    if s != [] {
      WithoutCounts(s[1..], x, y);
    }
  }

  lemma FirstCounts(s: seq<nat>)
    ensures s != [] ==> Count(s, s[0]) > 0
  {
  }

  /** Values below n that occur at most once each are at most n, and exactly n just
      when every one of them occurs. */
  lemma {:induction false} Pigeonhole(s: seq<nat>, n: nat)
    requires forall x: nat :: x >= n ==> Count(s, x) == 0
    requires forall x :: Count(s, x) <= 1
    ensures |s| <= n
    ensures |s| == n ==> forall x :: 0 <= x < n ==> Count(s, x) == 1
    ensures (forall x :: 0 <= x < n ==> Count(s, x) == 1) ==> |s| == n
    decreases n
  {
    if n == 0 {
      FirstCounts(s);
    } else {
      var t := Without(s, n - 1);
      forall x ensures Count(t, x) <= 1 && (x != n - 1 ==> Count(t, x) == Count(s, x)) {
        WithoutCounts(s, n - 1, x);
        assert Count(s, x) <= 1;
      }
      forall x: nat | x >= n - 1 ensures Count(t, x) == 0 {
        WithoutCounts(s, n - 1, x);
      }
      Pigeonhole(t, n - 1);
      WithoutCounts(s, n - 1, n - 1);
      if |s| == n {
        forall x | 0 <= x < n ensures Count(s, x) == 1 {
          WithoutCounts(s, n - 1, x);
        }
      }
      if forall x :: 0 <= x < n ==> Count(s, x) == 1 {
        forall x | 0 <= x < n - 1 ensures Count(t, x) == 1 {
          WithoutCounts(s, n - 1, x);
          assert Count(s, x) == 1;
        }
        assert Count(s, n - 1) == 1;
      }
    }
  }

  lemma LessFactor(n: nat, x: int, y: int)
    requires n * x < n * y
    ensures x < y
  {
  }

  /** Quotient and remainder are unique. */
  lemma DivModUnique(a: nat, n: nat, q: nat, r: nat)
    requires r < n && a == n * q + r
    ensures a / n == q && a % n == r
  {
    var p, s := a / n, a % n;
    assert a == n * p + s;
    assert n * (q + 1) == n * q + n && n * (p + 1) == n * p + n;
    LessFactor(n, q, p + 1);
    LessFactor(n, p, q + 1);
  }
}
