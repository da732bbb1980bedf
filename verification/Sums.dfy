/** Adding up one quantity of a sequence of records. */
module Sums {

  function Sum<T>(s: seq<T>, f: T -> real): real {
    if s == [] then 0.0 else Sum(s[..|s| - 1], f) + f(s[|s| - 1])
  }

  lemma {:induction false} SumConcat<T>(s: seq<T>, t: seq<T>, f: T -> real)
    ensures Sum(s + t, f) == Sum(s, f) + Sum(t, f)
  {
    if t == [] {
      assert s + t == s;
    } else {
      SumConcat(s, t[..|t| - 1], f);
      assert (s + t)[..|s + t| - 1] == s + t[..|t| - 1];
    }
  }

  lemma SumOne<T>(x: T, f: T -> real)
    ensures Sum([x], f) == f(x)
  {
    assert [x][..0] == [];
  }

  lemma SumWithout<T>(a: seq<T>, x: T, b: seq<T>, f: T -> real)
    ensures Sum(a + [x] + b, f) == Sum(a + b, f) + f(x)
  {
    SumConcat(a, b, f);
    SumConcat(a + [x], b, f);
    SumConcat(a, [x], f);
    SumOne(x, f);
  }

  lemma Pull<T>(s: seq<T>, x: T, f: T -> real) returns (rest: seq<T>)
    requires x in s
    ensures Sum(s, f) == Sum(rest, f) + f(x)
    ensures multiset(rest) == multiset(s) - multiset{x} && |rest| == |s| - 1
  {
    var k :| 0 <= k < |s| && s[k] == x;
    rest := s[..k] + s[k + 1..];
    assert s == s[..k] + [s[k]] + s[k + 1..];
    SumWithout(s[..k], s[k], s[k + 1..], f);
  }

  /** A sum does not depend on the order. */
  lemma {:induction false} SumPermutes<T>(s: seq<T>, t: seq<T>, f: T -> real)
    requires multiset(s) == multiset(t)
    ensures Sum(s, f) == Sum(t, f)
    decreases |s|
  {
    assert |multiset(s)| == |s| && |multiset(t)| == |t|;
    if |s| > 0 {
      assert s[0] in multiset(t);
      var restS := Pull(s, s[0], f);
      var restT := Pull(t, s[0], f);
      SumPermutes(restS, restT, f);
    }
  }

  lemma {:induction false} SumZero<T>(s: seq<T>, f: T -> real)
    requires forall x :: x in s ==> f(x) == 0.0
    ensures Sum(s, f) == 0.0
  {
    if s != [] {
      assert forall x :: x in s[..|s| - 1] ==> x in s;
      SumZero(s[..|s| - 1], f);
    }
  }

  lemma {:induction false} SumNonNegative<T>(s: seq<T>, f: T -> real)
    requires forall x :: x in s ==> f(x) >= 0.0
    ensures Sum(s, f) >= 0.0
    ensures forall x :: x in s ==> f(x) <= Sum(s, f)
  {
    if s != [] {
      assert forall x :: x in s[..|s| - 1] ==> x in s;
      assert forall x :: x in s ==> x in s[..|s| - 1] || x == s[|s| - 1];
      SumNonNegative(s[..|s| - 1], f);
    }
  }

  lemma {:induction false} SumSplit<T>(s: seq<T>, f: T -> real, g: T -> real, h: T -> real)
    requires forall x :: x in s ==> h(x) == f(x) + g(x)
    ensures Sum(s, h) == Sum(s, f) + Sum(s, g)
  {
    if s != [] {
      assert forall x :: x in s[..|s| - 1] ==> x in s;
      SumSplit(s[..|s| - 1], f, g, h);
    }
  }

  /** Equal amounts, position by position. */
  lemma {:induction false} SumMatches<T, U>(s: seq<T>, f: T -> real, t: seq<U>, g: U -> real)
    requires |s| == |t| && forall i :: 0 <= i < |s| ==> f(s[i]) == g(t[i])
    ensures Sum(s, f) == Sum(t, g)
  {
    if s != [] {
      SumMatches(s[..|s| - 1], f, t[..|t| - 1], g);
    }
  }

  ghost predicate Distinct<T>(s: seq<T>) {
    forall i, j :: 0 <= i < j < |s| ==> s[i] != s[j]
  }

  /** Only one element counts. */
  lemma {:induction false} SumSingle<T(!new)>(s: seq<T>, x: T, f: T -> real)
    requires Distinct(s) && forall y :: y != x ==> f(y) == 0.0
    ensures Sum(s, f) == if x in s then f(x) else 0.0
  {
    if s != [] {
      var n := |s| - 1;
      SumSingle(s[..n], x, f);
      assert x in s <==> x in s[..n] || x == s[n];
    }
  }

  lemma {:induction false} SumScaled<T>(s: seq<T>, f: T -> real, g: T -> real, t: real)
    requires t != 0.0 && forall x :: x in s ==> g(x) == f(x) / t
    ensures Sum(s, g) == Sum(s, f) / t
  {
    if s != [] {
      assert forall x :: x in s[..|s| - 1] ==> x in s;
      SumScaled(s[..|s| - 1], f, g, t);
      DivideSum(Sum(s[..|s| - 1], f), f(s[|s| - 1]), t);
    }
  }

  lemma DivideSum(a: real, b: real, t: real)
    requires t != 0.0
    ensures (a + b) / t == a / t + b / t
  {
  }
}
