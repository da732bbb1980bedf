/** Stable sorting by a "comes before" relation, as sort.SliceStable and slices.SortStableFunc do it. */
module Sorting {

  ghost predicate StrictWeakOrder<T(!new)>(less: (T, T) -> bool) {
    && (forall a :: !less(a, a))
    && (forall a, b, c :: less(a, b) && less(b, c) ==> less(a, c))
    && (forall a, b, c :: less(a, c) ==> less(a, b) || less(b, c))
  }

  ghost predicate SortedBy<T>(s: seq<T>, less: (T, T) -> bool) {
    forall i, j :: 0 <= i < j < |s| ==> !less(s[j], s[i])
  }

  /** Distinct elements are never tied. */
  ghost predicate NoTies<T>(s: seq<T>, less: (T, T) -> bool) {
    forall a, b :: a in s && b in s && a != b ==> less(a, b) || less(b, a)
  }

  function Insert<T>(x: T, s: seq<T>, less: (T, T) -> bool): (r: seq<T>)
    ensures |r| == |s| + 1
  {
    if s == [] || !less(s[0], x) then [x] + s else [s[0]] + Insert(x, s[1..], less)
  }

  function Sort<T>(s: seq<T>, less: (T, T) -> bool): (r: seq<T>)
    ensures |r| == |s|
  {
    if s == [] then [] else Insert(s[0], Sort(s[1..], less), less)
  }

  lemma {:induction false} InsertPermutes<T>(x: T, s: seq<T>, less: (T, T) -> bool)
    ensures multiset(Insert(x, s, less)) == multiset{x} + multiset(s)
  {
    if s != [] && less(s[0], x) {
      InsertPermutes(x, s[1..], less);
      assert s == [s[0]] + s[1..];
    }
  }

  lemma {:induction false} SortPermutes<T>(s: seq<T>, less: (T, T) -> bool)
    ensures multiset(Sort(s, less)) == multiset(s)
    ensures forall x :: x in Sort(s, less) <==> x in s
  {
    if s != [] {
      SortPermutes(s[1..], less);
      InsertPermutes(s[0], Sort(s[1..], less), less);
      assert s == [s[0]] + s[1..];
    }
    forall x ensures x in Sort(s, less) <==> x in s {
      assert x in multiset(Sort(s, less)) <==> x in multiset(s);
    }
  }

  lemma {:induction false} InsertSorted<T(!new)>(x: T, s: seq<T>, less: (T, T) -> bool)
    requires StrictWeakOrder(less) && SortedBy(s, less)
    ensures SortedBy(Insert(x, s, less), less)
  {
    if s != [] && less(s[0], x) {
      var rest := Insert(x, s[1..], less);
      InsertSorted(x, s[1..], less);
      InsertPermutes(x, s[1..], less);
      forall j | 0 <= j < |rest|
        ensures !less(rest[j], s[0])
      {
        assert rest[j] in multiset(rest);
        if rest[j] != x {
          assert rest[j] in s[1..];
        }
      }
    } else if s != [] {
      forall j | 0 <= j < |s|
        ensures !less(s[j], x)
      {
        if j > 0 {
          assert !less(s[j], s[0]);
        }
      }
    }
  }

  lemma {:induction false} SortSorted<T(!new)>(s: seq<T>, less: (T, T) -> bool)
    requires StrictWeakOrder(less)
    ensures SortedBy(Sort(s, less), less)
  {
    if s != [] {
      SortSorted(s[1..], less);
      InsertSorted(s[0], Sort(s[1..], less), less);
    }
  }

  lemma Repeated<T>(s: seq<T>, i: nat, j: nat)
    requires i < j < |s| && s[i] == s[j]
    ensures multiset(s)[s[i]] >= 2
  {
    var front, back := s[..j], s[j..];
    assert s == front + back;
    assert front[i] == s[i] && back[0] == s[i];
    assert s[i] in multiset(front) && s[i] in multiset(back);
  }

  lemma SameHead<T>(s: seq<T>, t: seq<T>, less: (T, T) -> bool)
    requires SortedBy(s, less) && SortedBy(t, less) && s != [] && t != []
    requires t[0] in s && s[0] in t && NoTies(s, less)
    ensures s[0] == t[0]
  {
  }

  lemma Tails<T>(s: seq<T>, t: seq<T>)
    requires multiset(s) == multiset(t) && s != [] && t != [] && s[0] == t[0]
    ensures multiset(s[1..]) == multiset(t[1..])
  {
    assert s == [s[0]] + s[1..] && t == [t[0]] + t[1..];
    assert multiset(s) == multiset{s[0]} + multiset(s[1..]);
    assert multiset(t) == multiset{t[0]} + multiset(t[1..]);
    assert multiset(s[1..]) == multiset(s) - multiset{s[0]};
    assert multiset(t[1..]) == multiset(t) - multiset{t[0]};
  }

  /** Without ties there is only one sorted arrangement, whatever order the elements came in. */
  lemma {:induction false} SortedUnique<T>(s: seq<T>, t: seq<T>, less: (T, T) -> bool)
    requires SortedBy(s, less) && SortedBy(t, less)
    requires multiset(s) == multiset(t) && NoTies(s, less)
    ensures s == t
  {
    assert |multiset(s)| == |s| && |multiset(t)| == |t|;
    if s != [] {
      assert s[0] in multiset(t) && t[0] in multiset(s);
      SameHead(s, t, less);
      Tails(s, t);
      SortedUnique(s[1..], t[1..], less);
      assert s == [s[0]] + s[1..] && t == [t[0]] + t[1..];
    }
  }

  // ----- stability -----

  /** The elements that are tied with `y`, in order. */
  function TiedWith<T>(s: seq<T>, y: T, less: (T, T) -> bool): seq<T> {
    if s == [] then []
    else (if Tied(s[0], y, less) then [s[0]] else []) + TiedWith(s[1..], y, less)
  }

  /** Two elements that are tied with a third are tied with each other. */
  lemma TiesAreShared<T(!new)>(a: T, b: T, y: T, less: (T, T) -> bool)
    requires StrictWeakOrder(less) && less(a, b)
    ensures less(a, y) || less(y, a) || less(b, y) || less(y, b)
  {
  }

  predicate Tied<T>(x: T, y: T, less: (T, T) -> bool) {
    !less(x, y) && !less(y, x)
  }

  lemma TiedCons<T>(x: T, s: seq<T>, y: T, less: (T, T) -> bool)
    ensures TiedWith([x] + s, y, less) == (if Tied(x, y, less) then [x] else []) + TiedWith(s, y, less)
  {
    assert ([x] + s)[1..] == s;
  }

  lemma {:induction false} InsertStable<T(!new)>(x: T, s: seq<T>, y: T, less: (T, T) -> bool)
    requires StrictWeakOrder(less)
    ensures TiedWith(Insert(x, s, less), y, less) == (if Tied(x, y, less) then [x] else []) + TiedWith(s, y, less)
  {
    if s != [] && less(s[0], x) {
      InsertStable(x, s[1..], y, less);
      TiesAreShared(s[0], x, y, less);
      hide StrictWeakOrder, TiedWith;
      TiedCons(s[0], Insert(x, s[1..], less), y, less);
      TiedCons(s[0], s[1..], y, less);
      assert s == [s[0]] + s[1..];
    } else {
      TiedCons(x, s, y, less);
    }
  }

  /** Elements that the order does not tell apart stay in the order in which they were given. */
  lemma {:induction false} SortStable<T(!new)>(s: seq<T>, y: T, less: (T, T) -> bool)
    requires StrictWeakOrder(less)
    ensures TiedWith(Sort(s, less), y, less) == TiedWith(s, y, less)
  {
    if s != [] {
      SortStable(s[1..], y, less);
      InsertStable(s[0], Sort(s[1..], less), y, less);
    }
  }
}
