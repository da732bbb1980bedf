/** Refreshing the model list of a channel: merging or replacing the fetched models and keeping the model
    of the scheduled check among the listed ones. */
module ModelRefresh {
  import opened ChannelModel
  import opened ModelEntries
  import opened ModelNormalisation
  import opened Text

  // ----- merging -----

  /** Every name an entry occupies, whatever its case. */
  function Names(e: ModelEntry): set<string> {
    {Lower(e.model)} + if e.redirect != "" then {Lower(e.redirect)} else {}
  }

  function Occupied(es: seq<ModelEntry>): (names: set<string>) {
    if es == [] then {} else Occupied(es[..|es| - 1]) + Names(es[|es| - 1])
  }

  predicate Collides(occupied: set<string>, e: ModelEntry) {
    exists name :: name in Names(e) && name in occupied
  }

  /** The list with `e` behind it, unless a name of `e` is occupied. */
  function Add(m: seq<ModelEntry>, e: ModelEntry): (r: seq<ModelEntry>)
    ensures |m| <= |r| && r[..|m|] == m
  {
    if Collides(Occupied(m), e) then m else m + [e]
  }

  function Merged(es: seq<ModelEntry>, fetched: seq<ModelEntry>): (r: seq<ModelEntry>)
    ensures |r| >= |es|
  {
    if fetched == [] then es else Add(Merged(es, fetched[..|fetched| - 1]), fetched[|fetched| - 1])
  }

  /** The old list is kept in place, and everything behind it was fetched. */
  lemma {:induction false} MergeKeeps(es: seq<ModelEntry>, fetched: seq<ModelEntry>)
    ensures es <= Merged(es, fetched)
    ensures forall k :: |es| <= k < |Merged(es, fetched)| ==> Merged(es, fetched)[k] in fetched
  {
    if fetched != [] {
      var n := |fetched| - 1;
      MergeKeeps(es, fetched[..n]);
      forall k | |es| <= k < |Merged(es, fetched[..n])|
        ensures Merged(es, fetched[..n])[k] in fetched
      {
        assert Merged(es, fetched[..n])[k] in fetched[..n];
      }
    }
  }

  lemma MergedStep(es: seq<ModelEntry>, fetched: seq<ModelEntry>, n: nat)
    requires n < |fetched|
    ensures Merged(es, fetched[..n + 1]) == Add(Merged(es, fetched[..n]), fetched[n])
  {
    assert fetched[..n + 1][..n] == fetched[..n];
  }

  lemma {:induction false} MergedKeepsListed(es: seq<ModelEntry>, fetched: seq<ModelEntry>, k: nat, n: nat, e: ModelEntry)
    requires k <= n <= |fetched| && e in Merged(es, fetched[..k])
    ensures e in Merged(es, fetched[..n])
  {
    hide Add, Merged, Occupied, Collides;
    if k < n {
      MergedKeepsListed(es, fetched, k, n - 1, e);
      MergedStep(es, fetched, n - 1);
      AddKeeps(Merged(es, fetched[..n - 1]), fetched[n - 1], e);
    }
  }

  /** Each fetched entry is listed, or it is in conflict with the names of the list that the loop had built
      when it came to it. */
  lemma MergeCovers(es: seq<ModelEntry>, fetched: seq<ModelEntry>, i: nat)
    requires i < |fetched|
    ensures fetched[i] in Merged(es, fetched) || Collides(Occupied(Merged(es, fetched[..i])), fetched[i])
  {
    MergedStep(es, fetched, i);
    if !Collides(Occupied(Merged(es, fetched[..i])), fetched[i]) {
      AddKeeps(Merged(es, fetched[..i]), fetched[i], fetched[i]);
      MergedKeepsListed(es, fetched, i + 1, |fetched|, fetched[i]);
      assert fetched[..|fetched|] == fetched;
    }
  }

  lemma AddKeeps(m: seq<ModelEntry>, e: ModelEntry, x: ModelEntry)
    ensures x in m ==> x in Add(m, e)
    ensures e in Add(m, e) || Collides(Occupied(m), e)
  {
  }

  lemma OccupiedAfterAdd(m: seq<ModelEntry>, e: ModelEntry)
    ensures Occupied(Add(m, e)) == if Collides(Occupied(m), e) then Occupied(m) else Occupied(m) + Names(e)
  {
    assert (m + [e])[..|m|] == m;
  }

  /** No added entry collides with any name in front of it. */
  lemma {:induction false} AddedEntriesAreNew(es: seq<ModelEntry>, fetched: seq<ModelEntry>, k: nat)
    requires |es| <= k < |Merged(es, fetched)|
    ensures !Collides(Occupied(Merged(es, fetched)[..k]), Merged(es, fetched)[k])
  {
    var n := |fetched| - 1;
    var before := Merged(es, fetched[..n]);
    if k < |before| {
      AddedEntriesAreNew(es, fetched[..n], k);
      assert Merged(es, fetched)[..k] == before[..k];
    } else {
      assert Merged(es, fetched)[..k] == before;
    }
  }

  lemma {:induction false} OccupiedGrows(es: seq<ModelEntry>, fetched: seq<ModelEntry>, i: nat)
    requires i <= |fetched|
    ensures Occupied(Merged(es, fetched[..i])) <= Occupied(Merged(es, fetched))
  {
    if i < |fetched| {
      var n := |fetched| - 1;
      OccupiedGrows(es, fetched[..n], i);
      assert fetched[..n][..i] == fetched[..i];
      OccupiedAfterAdd(Merged(es, fetched[..n]), fetched[n]);
    } else {
      assert fetched[..i] == fetched;
    }
  }

  lemma {:induction false} ListedOccupies(es: seq<ModelEntry>, e: ModelEntry)
    requires e in es
    ensures Names(e) <= Occupied(es)
  {
    if e != es[|es| - 1] {
      ListedOccupies(es[..|es| - 1], e);
    }
  }

  lemma {:induction false} NothingNew(m: seq<ModelEntry>, fetched: seq<ModelEntry>)
    requires forall i :: 0 <= i < |fetched| ==> Collides(Occupied(m), fetched[i])
    ensures Merged(m, fetched) == m
  {
    if fetched != [] {
      NothingNew(m, fetched[..|fetched| - 1]);
    }
  }

  /** Merging the same list again adds nothing. */
  lemma MergeTwice(es: seq<ModelEntry>, fetched: seq<ModelEntry>)
    ensures Merged(Merged(es, fetched), fetched) == Merged(es, fetched)
  {
    var m := Merged(es, fetched);
    forall i | 0 <= i < |fetched|
      ensures Collides(Occupied(m), fetched[i])
    {
      MergeCovers(es, fetched, i);
      assert Lower(fetched[i].model) in Names(fetched[i]);
      if fetched[i] in m {
        ListedOccupies(m, fetched[i]);
      } else {
        OccupiedGrows(es, fetched, i);
      }
    }
    NothingNew(m, fetched);
  }

  /** A list whose aliases differ by more than case keeps that property. */
  lemma {:induction false} MergeKeepsAliasesDistinct(es: seq<ModelEntry>, fetched: seq<ModelEntry>)
    requires DistinctAliases(es)
    ensures DistinctAliases(Merged(es, fetched))
  {
    var m := Merged(es, fetched);
    MergeKeeps(es, fetched);
    forall i, j | 0 <= i < j < |m|
      ensures Lower(m[i].model) != Lower(m[j].model)
    {
      if j >= |es| {
        AddedEntriesAreNew(es, fetched, j);
        assert m[i] == m[..j][i];
        ListedOccupies(m[..j], m[i]);
        assert Lower(m[j].model) in Names(m[j]) && Lower(m[i].model) in Names(m[i]);
      }
    }
  }

  /** Two entries have a name in common, as alias or as upstream and whatever its case. */
  predicate ShareAName(a: ModelEntry, b: ModelEntry) {
    || EqualFold(a.model, b.model)
    || (b.redirect != "" && EqualFold(a.model, b.redirect))
    || (a.redirect != "" && EqualFold(a.redirect, b.model))
    || (a.redirect != "" && b.redirect != "" && EqualFold(a.redirect, b.redirect))
  }

  lemma {:induction false} OccupiedBy(es: seq<ModelEntry>, name: string)
    ensures name in Occupied(es) <==> exists e :: e in es && name in Names(e)
  {
    if es != [] {
      var n := |es| - 1;
      OccupiedBy(es[..n], name);
      assert forall e :: e in es <==> e in es[..n] || e == es[n];
    }
  }

  lemma NamesShared(a: ModelEntry, b: ModelEntry)
    ensures ShareAName(a, b) <==> exists name :: name in Names(a) && name in Names(b)
  {
    hide Lower;
    assert Lower(a.model) in Names(a) && (a.redirect != "" ==> Lower(a.redirect) in Names(a));
    assert Lower(b.model) in Names(b) && (b.redirect != "" ==> Lower(b.redirect) in Names(b));
  }

  /** A fetched entry goes to the end of the list that the loop has built when it comes to it, unless it has a name in
      common with an entry of that list. */
  lemma MergeAddsExactly(es: seq<ModelEntry>, fetched: seq<ModelEntry>, i: nat)
    requires i < |fetched|
    ensures var m := Merged(es, fetched[..i]);
            Merged(es, fetched[..i + 1]) == if exists e :: e in m && ShareAName(fetched[i], e) then m else m + [fetched[i]]
  {
    hide Names, ShareAName, Occupied;
    MergedStep(es, fetched, i);
    var m := Merged(es, fetched[..i]);
    if e :| e in m && ShareAName(fetched[i], e) {
      NamesShared(fetched[i], e);
      var name :| name in Names(fetched[i]) && name in Names(e);
      OccupiedBy(m, name);
    } else {
      forall name | name in Names(fetched[i])
        ensures name !in Occupied(m)
      {
        OccupiedBy(m, name);
        if name in Occupied(m) {
          var e :| e in m && name in Names(e);
          NamesShared(fetched[i], e);
          assert false;
        }
      }
    }
  }

  // ----- replacing -----

  /** The names under which an entry is known: those it lists, and the alias the options would give it. */
  function KnownAs(e: ModelEntry, options: Options): set<string> {
    Names(e) + {Lower(NormalizeAlias(e.model, options).0)}
  }

  /** The names that a disabled entry passes its switch on to. */
  function Passed(e: ModelEntry, options: Options): set<string> {
    if e.disabled then KnownAs(e, options) else {}
  }

  function DisabledNames(es: seq<ModelEntry>, options: Options): set<string> {
    if es == [] then {} else DisabledNames(es[..|es| - 1], options) + Passed(es[|es| - 1], options)
  }

  function Switched(names: set<string>, e: ModelEntry): ModelEntry {
    e.(disabled := e.disabled || Collides(names, e))
  }

  function Replacement(es: seq<ModelEntry>, fetched: seq<ModelEntry>, options: Options): (r: seq<ModelEntry>)
    ensures |r| == |fetched|
    ensures forall i :: 0 <= i < |r| ==> r[i] == Switched(DisabledNames(es, options), fetched[i])
  {
    seq(|fetched|, i requires 0 <= i < |fetched| => Switched(DisabledNames(es, options), fetched[i]))
  }

  lemma {:induction false} DisabledPasses(es: seq<ModelEntry>, options: Options, i: nat)
    requires i < |es|
    ensures Passed(es[i], options) <= DisabledNames(es, options)
  {
    if i < |es| - 1 {
      DisabledPasses(es[..|es| - 1], options, i);
    }
  }

  /** A switched-off model stays off when it is fetched again under its alias, under the alias the options
      would give it, or under its upstream name. */
  lemma DisabledStaysDisabled(es: seq<ModelEntry>, fetched: seq<ModelEntry>, options: Options, i: nat, j: nat)
    requires i < |es| && j < |fetched| && es[i].disabled
    requires Lower(fetched[j].model) in {Lower(es[i].model), Lower(NormalizeAlias(es[i].model, options).0)}
          || (es[i].redirect != "" && Lower(fetched[j].model) == Lower(es[i].redirect))
    ensures Replacement(es, fetched, options)[j].disabled
  {
    DisabledPasses(es, options, i);
    assert Lower(fetched[j].model) in Names(fetched[j]);
  }

  /** ... and every name passed on comes from a disabled entry. */
  lemma {:induction false} PassedByOne(es: seq<ModelEntry>, options: Options, name: string) returns (i: nat)
    requires name in DisabledNames(es, options)
    ensures i < |es| && name in Passed(es[i], options)
  {
    var n := |es| - 1;
    if name in Passed(es[n], options) {
      i := n;
    } else {
      i := PassedByOne(es[..n], options, name);
    }
  }

  /** A fetched entry comes with everything but its switch unchanged, and is off if and only if it was fetched so or an old
      entry that is off has a name in common with it or would get one of its names as alias. */
  lemma DisabledExactly(es: seq<ModelEntry>, fetched: seq<ModelEntry>, options: Options, j: nat)
    requires j < |fetched|
    ensures var x, r := fetched[j], Replacement(es, fetched, options)[j];
            && r.model == x.model && r.redirect == x.redirect
            && (r.disabled <==> x.disabled || exists e :: e in es && e.disabled && SwitchReaches(e, x, options))
  {
    hide SwitchReaches, Passed;
    var x, names := fetched[j], DisabledNames(es, options);
    if Collides(names, x) {
      var name :| name in Names(x) && name in names;
      var i := PassedByOne(es, options, name);
      ReachesByName(es[i], x, options);
    } else if e :| e in es && e.disabled && SwitchReaches(e, x, options) {
      var i :| 0 <= i < |es| && es[i] == e;
      DisabledPasses(es, options, i);
      ReachesByName(e, x, options);
    }
  }

  predicate SwitchReaches(e: ModelEntry, x: ModelEntry, options: Options) {
    var alias := NormalizeAlias(e.model, options).0;
    ShareAName(e, x) || EqualFold(x.model, alias) || (x.redirect != "" && EqualFold(x.redirect, alias))
  }

  lemma ReachesByName(e: ModelEntry, x: ModelEntry, options: Options)
    ensures e.disabled && SwitchReaches(e, x, options) <==> exists name :: name in Names(x) && name in Passed(e, options)
  {
    hide Lower, NormalizeAlias;
    NamesShared(e, x);
    assert Lower(x.model) in Names(x) && (x.redirect != "" ==> Lower(x.redirect) in Names(x));
  }

  /** A fetched entry that the first replacement switches off, or that was fetched so. */
  predicate GoesOff(es: seq<ModelEntry>, e: ModelEntry, options: Options) {
    e.disabled || Collides(DisabledNames(es, options), e)
  }

  /** No entry that goes off has a name in common with one that stays on. */
  predicate OffAndOnApart(es: seq<ModelEntry>, fetched: seq<ModelEntry>, options: Options) {
    forall i, j :: 0 <= i < |fetched| && 0 <= j < |fetched| && GoesOff(es, fetched[i], options) && !GoesOff(es, fetched[j], options) ==>
      KnownAs(fetched[i], options) !! Names(fetched[j])
  }

  lemma SwitchesKept(es: seq<ModelEntry>, fetched: seq<ModelEntry>, options: Options, j: nat)
    requires j < |fetched| && OffAndOnApart(es, fetched, options)
    ensures var r := Replacement(es, fetched, options); Replacement(r, fetched, options)[j] == r[j]
  {
    var r := Replacement(es, fetched, options);
    if GoesOff(es, fetched[j], options) {
      DisabledPasses(r, options, j);
      assert Lower(r[j].model) in Names(r[j]);
    } else {
      forall name | name in DisabledNames(r, options)
        ensures name !in Names(fetched[j])
      {
        var i := PassedByOne(r, options, name);
        assert GoesOff(es, fetched[i], options) && name in KnownAs(fetched[i], options);
      }
    }
  }

  lemma SwitchSpreads(es: seq<ModelEntry>, fetched: seq<ModelEntry>, options: Options, i: nat, j: nat, name: string)
    requires i < |fetched| && j < |fetched| && GoesOff(es, fetched[i], options) && !GoesOff(es, fetched[j], options)
    requires name in KnownAs(fetched[i], options) && name in Names(fetched[j])
    ensures var r := Replacement(es, fetched, options); Replacement(r, fetched, options)[j] != r[j]
  {
    var r := Replacement(es, fetched, options);
    DisabledPasses(r, options, i);
    assert r[i].disabled && name in Passed(r[i], options);
    assert !r[j].disabled && name in DisabledNames(r, options);
  }

  /** Replacing again with the same list changes nothing if and only if, among the fetched entries, none that
      goes off is known under a name of one that stays on. */
  lemma ReplaceTwice(es: seq<ModelEntry>, fetched: seq<ModelEntry>, options: Options)
    ensures var r := Replacement(es, fetched, options);
            Replacement(r, fetched, options) == r <==> OffAndOnApart(es, fetched, options)
  {
    var r := Replacement(es, fetched, options);
    if OffAndOnApart(es, fetched, options) {
      forall j | 0 <= j < |fetched|
        ensures Replacement(r, fetched, options)[j] == r[j]
      {
        SwitchesKept(es, fetched, options, j);
      }
    } else {
      var i, j :| 0 <= i < |fetched| && 0 <= j < |fetched|
                  && GoesOff(es, fetched[i], options) && !GoesOff(es, fetched[j], options)
                  && !(KnownAs(fetched[i], options) !! Names(fetched[j]));
      var name :| name in KnownAs(fetched[i], options) && name in Names(fetched[j]);
      SwitchSpreads(es, fetched, options, i, j, name);
    }
  }

  /** The switch can travel one redirect further with every replacement. */
  lemma DisablingSpreads(a: string, b: string, c: string, options: Options)
    requires IsLower(a) && IsLower(b) && IsLower(c) && a != "" && b != "" && a != b && b != c && a != c
    requires Settled(a, options) && Settled(b, options)
    ensures var es := [ModelEntry(a, "", true)];
            var fetched := [ModelEntry(b, a, false), ModelEntry(c, b, false)];
            var r := Replacement(es, fetched, options);
            && r == [ModelEntry(b, a, true), ModelEntry(c, b, false)]
            && Replacement(r, fetched, options) == [ModelEntry(b, a, true), ModelEntry(c, b, true)]
  {
    var es := [ModelEntry(a, "", true)];
    var fetched := [ModelEntry(b, a, false), ModelEntry(c, b, false)];
    LowerFixed(a);
    LowerFixed(b);
    LowerFixed(c);
    NormalizeSettles(a, options);
    NormalizeSettles(b, options);
    assert DisabledNames(es, options) == {a} by {
      assert es[..0] == [];
    }
    assert Names(fetched[0]) == {a, b} && Names(fetched[1]) == {b, c};
    assert a in Names(fetched[0]);
    var r := Replacement(es, fetched, options);
    assert r[0] == ModelEntry(b, a, true) && r[1] == ModelEntry(c, b, false);
    assert DisabledNames(r, options) == {a, b} by {
      assert r[..1] == [r[0]] && r[..1][..0] == [];
      assert DisabledNames(r[..1], options) == DisabledNames([], options) + Passed(r[0], options);
    }
    assert a in Names(fetched[0]) && b in Names(fetched[1]);
  }

  // ----- the scheduled check -----

  predicate Matches(e: ModelEntry, original: string, options: Options) {
    || EqualFold(e.model, original)
    || EqualFold(e.model, NormalizeAlias(original, options).0)
    || EqualFold(e.redirect, original)
  }

  function FirstMatch(es: seq<ModelEntry>, original: string, options: Options): (i: nat)
    ensures i <= |es| && (i < |es| ==> Matches(es[i], original, options))
    ensures forall j :: 0 <= j < i ==> !Matches(es[j], original, options)
  {
    if es == [] || Matches(es[0], original, options) then 0 else 1 + FirstMatch(es[1..], original, options)
  }

  function Reconciled(es: seq<ModelEntry>, check: string, options: Options): string {
    var i := FirstMatch(es, check, options);
    if check == "" || i == |es| then "" else es[i].model
  }

  /** The check moves to the alias of the first entry that has it as alias, has its normalised form as alias, or redirects
      to it, whatever the case; without such an entry it is cleared. */
  lemma ReconciledReads(es: seq<ModelEntry>, check: string, options: Options, i: nat)
    requires check != "" && i <= |es|
    requires forall j :: 0 <= j < i ==>
               && !EqualFold(es[j].model, check) && !EqualFold(es[j].model, NormalizeAlias(check, options).0)
               && !EqualFold(es[j].redirect, check)
    requires i < |es| ==>
               || EqualFold(es[i].model, check) || EqualFold(es[i].model, NormalizeAlias(check, options).0)
               || EqualFold(es[i].redirect, check)
    ensures Reconciled(es, check, options) == (if i < |es| then es[i].model else "") && Reconciled(es, "", options) == ""
  {
    hide EqualFold, NormalizeAlias;
    assert FirstMatch(es, check, options) == i;
  }

  /** The scheduled check names a listed alias or nothing; it is cleared only when no entry matches. */
  lemma CheckIsListed(es: seq<ModelEntry>, check: string, options: Options)
    ensures var r := Reconciled(es, check, options); r == "" || exists e :: e in es && e.model == r
    ensures check != "" && (exists e :: e in es && Matches(e, check, options)) ==>
              exists e :: e in es && Matches(e, check, options) && e.model == Reconciled(es, check, options)
    ensures !(exists e :: e in es && Matches(e, check, options)) ==> Reconciled(es, check, options) == ""
  {
    var i := FirstMatch(es, check, options);
    if i < |es| {
      assert es[i] in es;
    }
  }

  lemma MatchesItself(e: ModelEntry, options: Options)
    ensures Matches(e, e.model, options)
  {
  }

  /** What normalisation and refreshing leave: settled aliases that differ by more than case. */
  predicate Refreshed(es: seq<ModelEntry>, options: Options) {
    DistinctAliases(es) && forall i :: 0 <= i < |es| ==> es[i].model != "" && Settled(es[i].model, options)
  }

  /** In such a list only a redirect makes another entry answer to the alias of entry `i`. */
  lemma OnlyRedirectsMatch(es: seq<ModelEntry>, i: nat, j: nat, options: Options)
    requires Refreshed(es, options) && j < i < |es|
    ensures es[j].model != es[i].model
    ensures Matches(es[j], es[i].model, options) <==> EqualFold(es[j].redirect, es[i].model)
  {
    NormalizeSettles(es[i].model, options);
    assert Lower(es[j].model) != Lower(es[i].model);
  }

  /** Reconciling a refreshed list again keeps the choice if and only if there was nothing to choose or no entry in
      front of the chosen one redirects to it. */
  lemma ReconcileTwice(es: seq<ModelEntry>, check: string, options: Options)
    requires Refreshed(es, options)
    ensures var i, r := FirstMatch(es, check, options), Reconciled(es, check, options);
            Reconciled(es, r, options) == r <==>
              check == "" || i == |es| || forall j :: 0 <= j < i ==> !EqualFold(es[j].redirect, es[i].model)
  {
    hide Matches, FirstMatch, EqualFold;
    var i, r := FirstMatch(es, check, options), Reconciled(es, check, options);
    if check != "" && i < |es| {
      MatchesItself(es[i], options);
      var k := FirstMatch(es, r, options);
      forall j | 0 <= j < i
        ensures es[j].model != r && (Matches(es[j], r, options) <==> EqualFold(es[j].redirect, r))
      {
        OnlyRedirectsMatch(es, i, j, options);
      }
      assert k <= i && (k < i ==> EqualFold(es[k].redirect, r));
    }
  }

  /** Entry `j` stands in front of the first listing of an alias. */
  predicate InFront(es: seq<ModelEntry>, j: nat, alias: string)
    requires j < |es|
  {
    forall l :: 0 <= l <= j ==> es[l].model != alias
  }

  /** In any list at all, reconciling again keeps the choice if and only if no entry in front of the first listing
      of the chosen alias matches it. */
  lemma ReconcileTwiceInAnyList(es: seq<ModelEntry>, check: string, options: Options)
    ensures var r := Reconciled(es, check, options);
            Reconciled(es, r, options) == r <==>
              r == "" || forall j :: 0 <= j < |es| && InFront(es, j, r) ==> !Matches(es[j], r, options)
  {
    hide FirstMatch, Matches;
    var i, r := FirstMatch(es, check, options), Reconciled(es, check, options);
    if r != "" {
      MatchesItself(es[i], options);
      var k := FirstMatch(es, r, options);
      assert k <= i && Matches(es[k], r, options);
      forall l | 0 <= l < k
        ensures es[l].model != r
      {
        MatchesItself(es[l], options);
      }
      assert es[k].model != r ==> InFront(es, k, r);
      assert es[k].model == r ==> forall j :: k <= j < |es| ==> !InFront(es, j, r);
    }
  }

  /** A check that moves on: from "c" to "b", whose upstream "c" is, and then to "a", whose upstream "b" is. */
  lemma CheckMovesOn(a: string, b: string, c: string, options: Options)
    requires IsLower(a) && IsLower(b) && IsLower(c) && a != "" && b != "" && c != "" && a != b && b != c && a != c
    requires Settled(a, options) && Settled(b, options) && Settled(c, options)
    ensures var es := [ModelEntry(a, b, false), ModelEntry(b, c, false)];
            Reconciled(es, c, options) == b && Reconciled(es, b, options) == a
  {
    var es := [ModelEntry(a, b, false), ModelEntry(b, c, false)];
    LowerFixed(a);
    LowerFixed(b);
    LowerFixed(c);
    NormalizeSettles(b, options);
    NormalizeSettles(c, options);
    assert !Matches(es[0], c, options) && Matches(es[1], c, options) && Matches(es[0], b, options);
    assert FirstMatch(es, c, options) == 1 && FirstMatch(es, b, options) == 0;
  }

  lemma NormalizedIsRefreshed(es: seq<ModelEntry>, options: Options)
    ensures Refreshed(Entries(Normalized(es, options)), options)
  {
    AliasesDiffer(es, options);
    forall k | 0 <= k < |Normalized(es, options)|
      ensures var e := Normalized(es, options)[k].entry; e.model != "" && Settled(e.model, options)
    {
      var i := SurvivorsAreInputs(Prepares(es, options), |es|, k);
      NormalizeSettles(Validate(es[i]).value.model, options);
    }
  }

  lemma MergedIsRefreshed(es: seq<ModelEntry>, fetched: seq<ModelEntry>, options: Options)
    requires Refreshed(es, options) && Refreshed(fetched, options)
    ensures Refreshed(Merged(es, fetched), options)
  {
    MergeKeeps(es, fetched);
    MergeKeepsAliasesDistinct(es, fetched);
    forall k | 0 <= k < |Merged(es, fetched)|
      ensures var e := Merged(es, fetched)[k]; e.model != "" && Settled(e.model, options)
    {
      if k < |es| {
        assert Merged(es, fetched)[k] == es[k];
      } else {
        var i :| 0 <= i < |fetched| && fetched[i] == Merged(es, fetched)[k];
      }
    }
  }

  lemma ReplacementIsRefreshed(es: seq<ModelEntry>, fetched: seq<ModelEntry>, options: Options)
    requires Refreshed(fetched, options)
    ensures Refreshed(Replacement(es, fetched, options), options)
  {
    assert forall i :: 0 <= i < |fetched| ==> Replacement(es, fetched, options)[i].model == fetched[i].model;
  }

  /** After a refresh by a normalised response the list is a refreshed one, if it was replaced, normalised or a
      refreshed one before. */
  lemma RefreshedList(es: seq<ModelEntry>, response: seq<ModelEntry>, options: Options)
    ensures var fetched := Entries(Normalized(response, options));
            && Refreshed(Replacement(es, fetched, options), options)
            && (options.lowercase || options.stripPrefix || Refreshed(es, options) ==>
                  Refreshed(Merged(Existing(es, options), fetched), options))
  {
    hide Refreshed, Replacement, Merged, Normalized, Entries;
    var fetched := Entries(Normalized(response, options));
    NormalizedIsRefreshed(response, options);
    ReplacementIsRefreshed(es, fetched, options);
    NormalizedIsRefreshed(es, options);
    if options.lowercase || options.stripPrefix || Refreshed(es, options) {
      MergedIsRefreshed(Existing(es, options), fetched, options);
    }
  }

  // ----- the channel being refreshed -----

  class Channel {
    var entries: seq<ModelEntry>
    var scheduledCheck: string

    /** mergeModelEntries */
    method Merge(fetched: seq<ModelEntry>) returns (added: nat, changed: bool)
      modifies `entries
      ensures entries == Merged(old(entries), fetched)
      ensures |entries| == |old(entries)| + added && (changed <==> entries != old(entries))
    {
      var occupied := OccupiedNames();
      added := 0;
      for n := 0 to |fetched|
        invariant entries == Merged(old(entries), fetched[..n]) && occupied == Occupied(entries)
        invariant |entries| == |old(entries)| + added && (added == 0 ==> entries == old(entries))
      {
        assert fetched[..n + 1][..n] == fetched[..n];
        var took: bool;
        occupied, took := Offer(occupied, fetched[n]);
        if took {
          added := added + 1;
        }
      }
      assert fetched[..|fetched|] == fetched;
      changed := added > 0;
    }

    method Offer(was: set<string>, e: ModelEntry) returns (occupied: set<string>, took: bool)
      requires was == Occupied(entries)
      modifies `entries
      ensures entries == Add(old(entries), e) && occupied == Occupied(entries)
      ensures |entries| == |old(entries)| + (if took then 1 else 0)
    {
      occupied := was;
      var modelKey, redirectKey := Lower(e.model), Lower(e.redirect);
      OccupiedAfterAdd(entries, e);
      assert modelKey in Names(e) && (e.redirect != "" ==> redirectKey in Names(e));
      if modelKey in occupied || (e.redirect != "" && redirectKey in occupied) {
        return occupied, false;
      }
      entries := entries + [e];
      occupied := occupied + {modelKey};
      if e.redirect != "" {
        occupied := occupied + {redirectKey};
      }
      return occupied, true;
    }

    method OccupiedNames() returns (occupied: set<string>)
      ensures occupied == Occupied(entries)
    {
      occupied := {};
      for n := 0 to |entries|
        invariant occupied == Occupied(entries[..n])
      {
        assert entries[..n + 1][..n] == entries[..n];
        occupied := occupied + {Lower(entries[n].model)};
        if entries[n].redirect != "" {
          occupied := occupied + {Lower(entries[n].redirect)};
        }
      }
      assert entries[..|entries|] == entries;
    }

    /** replaceModelEntries */
    method Replace(fetched: seq<ModelEntry>, options: Options) returns (removed: nat, changed: bool)
      modifies `entries
      ensures entries == Replacement(old(entries), fetched, options)
      ensures removed == |(set e | e in old(entries) :: Lower(e.model)) - (set e | e in entries :: Lower(e.model))|
      ensures changed <==> entries != old(entries)
    {
      hide DisabledNames, NormalizeAlias;
      var oldSet, disabledAliases := OldNames(options);
      var newSet := {};
      var switched: seq<ModelEntry> := [];
      for i := 0 to |fetched|
        invariant newSet == Aliases(fetched[..i])
        invariant |switched| == i && forall j :: 0 <= j < i ==> switched[j] == Switched(disabledAliases, fetched[j])
      {
        assert fetched[..i + 1][..i] == fetched[..i];
        var e := fetched[i];
        var key := Lower(e.model);
        newSet := newSet + {key};
        var disabled := key in disabledAliases;
        if !disabled && e.redirect != "" {
          disabled := Lower(e.redirect) in disabledAliases;
        }
        assert key in Names(e) && (e.redirect != "" ==> Lower(e.redirect) in Names(e));
        switched := switched + [e.(disabled := e.disabled || disabled)];
      }
      assert fetched[..|fetched|] == fetched;
      assert switched == Replacement(entries, fetched, options);
      SameAliases(fetched, switched);
      removed := |oldSet - newSet|;
      AliasesOf(entries);
      AliasesOf(switched);
      if entries == switched {
        assert oldSet - newSet == {};
        return 0, false;
      }
      entries := switched;
      changed := true;
    }

    method OldNames(options: Options) returns (oldSet: set<string>, disabledAliases: set<string>)
      ensures oldSet == Aliases(entries) && disabledAliases == DisabledNames(entries, options)
    {
      oldSet, disabledAliases := {}, {};
      for n := 0 to |entries|
        invariant oldSet == Aliases(entries[..n]) && disabledAliases == DisabledNames(entries[..n], options)
      {
        assert entries[..n + 1][..n] == entries[..n];
        oldSet := oldSet + {Lower(entries[n].model)};
        if entries[n].disabled {
          var passed := PassedNames(entries[n], options);
          disabledAliases := disabledAliases + passed;
        }
      }
      assert entries[..|entries|] == entries;
    }

    static method PassedNames(e: ModelEntry, options: Options) returns (passed: set<string>)
      requires e.disabled
      ensures passed == Passed(e, options)
    {
      var (alias, _) := NormalizeAlias(e.model, options);
      passed := {Lower(e.model), Lower(alias)};
      if e.redirect != "" {
        passed := passed + {Lower(e.redirect)};
      }
    }

    /** reconcileScheduledCheckModel */
    method Reconcile(options: Options) returns (changed: bool)
      modifies `scheduledCheck
      ensures scheduledCheck == Reconciled(entries, old(scheduledCheck), options)
      ensures changed <==> scheduledCheck != old(scheduledCheck)
    {
      if scheduledCheck == "" {
        return false;
      }
      var original := scheduledCheck;
      var (normalizedOriginal, _) := NormalizeAlias(original, options);
      for i := 0 to |entries|
        invariant forall j :: 0 <= j < i ==> !Matches(entries[j], original, options)
        invariant scheduledCheck == original
      {
        if EqualFold(entries[i].model, original) || EqualFold(entries[i].model, normalizedOriginal)
           || EqualFold(entries[i].redirect, original) {
          assert FirstMatch(entries, original, options) == i;
          scheduledCheck := entries[i].model;
          return scheduledCheck != original;
        }
      }
      scheduledCheck := "";
      return true;
    }

    /** One channel of a batch refresh, up to the save: nothing to save means nothing has changed, and the
        scheduled check is empty or names a listed alias. */
    method Refresh(response: seq<ModelEntry>, replace: bool, options: Options) returns (ok: bool, save: bool)
      modifies this
      ensures ok <==> Normalized(response, options) != []
      ensures !save ==> entries == old(entries) && scheduledCheck == old(scheduledCheck)
      ensures var start := if !replace && (options.lowercase || options.stripPrefix)
                           then Entries(Normalized(old(entries), options)) else old(entries);
              save <==> ok && (start != old(entries) || entries != start || scheduledCheck != old(scheduledCheck))
      ensures ok ==>
                var fetched := Entries(Normalized(response, options));
                && entries == (if replace then Replacement(old(entries), fetched, options)
                               else if options.lowercase || options.stripPrefix
                               then Merged(Entries(Normalized(old(entries), options)), fetched)
                               else Merged(old(entries), fetched))
                && scheduledCheck == Reconciled(entries, old(scheduledCheck), options)
                && (scheduledCheck == "" || exists e :: e in entries && e.model == scheduledCheck)
                && (replace || options.lowercase || options.stripPrefix || Refreshed(old(entries), options) ==>
                      Refreshed(entries, options))
    {
      RefreshedList(entries, response, options);
      hide Refreshed;
      hide Normalized, Entries, Merged, Replacement, Reconciled;
      var fetched := NormalizeForSave(response, options);
      if fetched == [] {
        return false, false;
      }
      var modelsChanged := false;
      if (options.lowercase || options.stripPrefix) && !replace {
        var existing := NormalizeForSave(entries, options);
        modelsChanged := entries != existing;
        entries := existing;
      }
      if replace {
        var removed, changed := Replace(fetched, options);
        modelsChanged := changed;
      } else {
        var added, changed := Merge(fetched);
        modelsChanged := modelsChanged || changed;
      }
      CheckIsListed(entries, scheduledCheck, options);
      var checkChanged := Reconcile(options);
      return true, modelsChanged || checkChanged;
    }
  }

  function Existing(es: seq<ModelEntry>, options: Options): seq<ModelEntry> {
    if options.lowercase || options.stripPrefix then Entries(Normalized(es, options)) else es
  }

  function Aliases(es: seq<ModelEntry>): set<string> {
    if es == [] then {} else Aliases(es[..|es| - 1]) + {Lower(es[|es| - 1].model)}
  }

  lemma {:induction false} AliasesOf(es: seq<ModelEntry>)
    ensures Aliases(es) == set e | e in es :: Lower(e.model)
  {
    if es != [] {
      var n := |es| - 1;
      AliasesOf(es[..n]);
      assert forall e :: e in es <==> e in es[..n] || e == es[n];
    }
  }

  lemma {:induction false} SameAliases(es: seq<ModelEntry>, fs: seq<ModelEntry>)
    requires |es| == |fs| && forall i :: 0 <= i < |es| ==> es[i].model == fs[i].model
    ensures Aliases(es) == Aliases(fs)
  {
    if es != [] {
      SameAliases(es[..|es| - 1], fs[..|fs| - 1]);
    }
  }
}
