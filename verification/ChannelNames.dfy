/** Naming a new OAuth channel: the base name, or the base name with the first free number behind it. */
module ChannelNames {
  import opened Text

  /** The names in use, trimmed and lower-cased. */
  function Used(names: seq<string>): set<string> {
    if names == [] then {} else Used(names[..|names| - 1]) + {Lower(Trim(names[|names| - 1]))}
  }

  lemma {:induction false} UsedAtMost(names: seq<string>)
    ensures |Used(names)| <= |names|
  {
    if names != [] {
      UsedAtMost(names[..|names| - 1]);
    }
  }

  lemma {:induction false} UsedHas(names: seq<string>, i: nat)
    requires i < |names|
    ensures Lower(Trim(names[i])) in Used(names)
  {
    if i < |names| - 1 {
      UsedHas(names[..|names| - 1], i);
    }
  }

  /** ... and nothing else is. */
  lemma {:induction false} UsedBy(names: seq<string>, name: string) returns (i: nat)
    requires name in Used(names)
    ensures i < |names| && Lower(Trim(names[i])) == name
  {
    var n := |names| - 1;
    if name in Used(names[..n]) {
      i := UsedBy(names[..n], name);
    } else {
      i := n;
    }
  }

  /** fmt.Sprintf("%s (%d)", base, suffix) */
  function Candidate(base: string, suffix: nat): string {
    base + [' ', '('] + Decimal(suffix) + [')']
  }

  /** Different numbers give names that differ by more than case. */
  lemma CandidatesDiffer(base: string, m: nat, n: nat)
    requires Lower(Candidate(base, m)) == Lower(Candidate(base, n))
    ensures m == n
  {
    LowerCandidate(base, m);
    LowerCandidate(base, n);
    var front := Lower(base + [' ', '(']);
    assert Lower(Candidate(base, m)) == front + Decimal(m) + [')'];
    assert Lower(Candidate(base, n)) == front + Decimal(n) + [')'];
    Middle(front, Decimal(m), Decimal(n), [')']);
    DecimalInjective(m, n);
  }

  lemma LowerCandidate(base: string, n: nat)
    ensures Lower(Candidate(base, n)) == Lower(base + [' ', '(']) + Decimal(n) + [')']
  {
    var front, digits := base + [' ', '('], Decimal(n);
    LowerConcat(front + digits, [')']);
    LowerConcat(front, digits);
    LowerFixed(digits);
    LowerFixed([')']);
  }

  lemma Middle(front: string, a: string, b: string, back: string)
    requires front + a + back == front + b + back
    ensures a == b
  {
    assert |a| == |b|;
    assert a == (front + a + back)[|front|..|front| + |a|];
    assert b == (front + b + back)[|front|..|front| + |b|];
  }

  /** The numbers from 2 up to `n`, tried and found taken. */
  ghost predicate TakenUpTo(used: set<string>, base: string, n: nat) {
    Lower(base) in used && forall k :: 2 <= k <= n ==> Lower(Candidate(base, k)) in used
  }

  /** Taken means that some existing name differs from the candidate by no more than white space around it and case. */
  lemma TakenByAName(names: seq<string>, base: string, n: nat, k: nat) returns (i: nat)
    requires TakenUpTo(Used(names), base, n) && 1 <= k <= n
    ensures i < |names| && EqualFold(Trim(names[i]), if k == 1 then base else base + [' ', '('] + Decimal(k) + [')'])
  {
    i := UsedBy(names, Lower(if k == 1 then base else Candidate(base, k)));
  }

  /** The taken candidates are different members of `used`, so there are not too many of them. */
  function TakenNames(base: string, n: nat): (names: set<string>)
    requires n >= 1
  {
    if n == 1 then {Lower(base)} else TakenNames(base, n - 1) + {Lower(Candidate(base, n))}
  }

  lemma {:induction false} TakenNamesCount(base: string, n: nat)
    requires n >= 1
    ensures |TakenNames(base, n)| == n
    ensures forall name :: name in TakenNames(base, n) ==>
              name == Lower(base) || exists k :: 2 <= k <= n && name == Lower(Candidate(base, k))
  {
    if n > 1 {
      TakenNamesCount(base, n - 1);
      var name := Lower(Candidate(base, n));
      if name in TakenNames(base, n - 1) {
        assert |name| > |Lower(base)|;
        var k :| 2 <= k <= n - 1 && name == Lower(Candidate(base, k));
        CandidatesDiffer(base, n, k);
      }
    }
  }

  lemma {:induction false} TakenNamesUsed(used: set<string>, base: string, n: nat)
    requires n >= 1 && TakenUpTo(used, base, n)
    ensures TakenNames(base, n) <= used
  {
    if n > 1 {
      TakenNamesUsed(used, base, n - 1);
    }
  }

  lemma {:induction false} SubsetSize(a: set<string>, b: set<string>)
    requires a <= b
    ensures |a| <= |b|
  {
    assert b == a + (b - a);
  }

  /** Pigeonhole: with `n` taken names there are at least `n` used ones. */
  lemma Pigeonhole(used: set<string>, base: string, n: nat)
    requires n >= 1 && TakenUpTo(used, base, n)
    ensures n <= |used|
  {
    TakenNamesCount(base, n);
    TakenNamesUsed(used, base, n);
    SubsetSize(TakenNames(base, n), used);
  }

  method CollectUsed(names: seq<string>) returns (used: set<string>)
    ensures used == Used(names)
  {
    used := {};
    for i := 0 to |names|
      invariant used == Used(names[..i])
    {
      assert names[..i + 1][..i] == names[..i];
      used := used + {Lower(Trim(names[i]))};
    }
    assert names[..|names|] == names;
  }

  /** uniqueCodexChannelName and uniqueAntigravityChannelName, given the base name.  The search for a number
      ends: at the latest, at one more than the number of names in use. */
  method UniqueName(names: seq<string>, base: string) returns (name: string, ghost suffix: nat)
    ensures forall i :: 0 <= i < |names| ==> Lower(Trim(names[i])) != Lower(name)
    ensures suffix == 1 || 2 <= suffix <= |Used(names)| + 1 <= |names| + 1
    ensures name == if suffix == 1 then base else base + [' ', '('] + Decimal(suffix) + [')']
    ensures suffix > 1 ==> TakenUpTo(Used(names), base, suffix - 1)
  {
    var used := CollectUsed(names);
    forall i | 0 <= i < |names|
      ensures Lower(Trim(names[i])) in used
    {
      UsedHas(names, i);
    }
    if Lower(base) !in used {
      return base, 1;
    }
    var n := 2;
    UsedAtMost(names);
    Pigeonhole(used, base, 1);
    while true
      invariant 2 <= n <= |used| + 1 && TakenUpTo(used, base, n - 1)
      decreases |used| + 1 - n
    {
      name := Candidate(base, n);
      if Lower(name) !in used {
        return name, n;
      }
      Pigeonhole(used, base, n);
      n := n + 1;
    }
  }
}
