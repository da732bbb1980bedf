/** Cleaning a model list before it is saved: aliases are normalised, and among the entries that end up
    with the same alias one is preferred. */
module ModelNormalisation {
  import opened ChannelModel
  import opened ModelEntries
  import opened Text
  import opened Wrappers

  datatype Candidate = Candidate(upstream: string, prefixed: bool, exact: bool)

  /** A cleaned entry, the key of its collision group and what the preference looks at. */
  datatype Choice = Choice(key: string, entry: ModelEntry, from: Candidate)

  /** One entry cleaned; invalid entries are dropped. */
  function Prepare(e: ModelEntry, options: Options): Option<Choice> {
    match Validate(e)
    case None => None
    case Some(clean) =>
      var upstream := Upstream(clean);
      var (alias, prefixed) := NormalizeAlias(clean.model, options);
      Some(Choice(Lower(alias),
                  ModelEntry(alias, if upstream == alias then "" else upstream, e.disabled),
                  Candidate(upstream, prefixed, upstream == alias)))
  }

  /** A valid entry keeps its upstream model and its switch, under the normalised alias; it is listed without a redirect
      exactly when the alias is the upstream model itself. */
  lemma PreparedReads(e: ModelEntry, options: Options)
    requires Validate(e).Some?
    ensures var (alias, cut) := NormalizeAlias(Trim(e.model), options);
            var upstream := if Trim(e.redirect) == "" then Trim(e.model) else Trim(e.redirect);
            Prepare(e, options) ==
            Some(Choice(Lower(alias), ModelEntry(alias, if upstream == alias then "" else upstream, e.disabled),
                        Candidate(upstream, cut, upstream == alias)))
  {
    hide Trim, Lower, NormalizeAlias;
  }

  /** preferNormalizedModelCandidate */
  predicate Prefer(c: Candidate, d: Candidate) {
    if c.exact != d.exact then c.exact
    else if c.prefixed != d.prefixed then !c.prefixed
    else Less(c.upstream, d.upstream)
  }

  /** A strict total order: first what is its own upstream, then what has no cut prefix, then the smaller upstream. */
  lemma PreferIsStrict(a: Candidate, b: Candidate, c: Candidate)
    ensures !Prefer(a, a)
    ensures Prefer(a, b) && Prefer(b, c) ==> Prefer(a, c)
    ensures !Prefer(a, b) && !Prefer(b, a) ==> a == b
    ensures a.exact && !b.exact ==> Prefer(a, b)
    ensures a.exact == b.exact && !a.prefixed && b.prefixed ==> Prefer(a, b)
    ensures a.exact == b.exact && a.prefixed == b.prefixed && Less(a.upstream, b.upstream) ==> Prefer(a, b)
  {
    LessTrichotomy(a.upstream, b.upstream);
    if Less(a.upstream, b.upstream) && Less(b.upstream, c.upstream) {
      LessTransitive(a.upstream, b.upstream, c.upstream);
    }
  }

  // ----- the list the loop builds -----

  predicate DistinctKeys(cs: seq<Choice>) {
    forall i, j :: 0 <= i < j < |cs| ==> cs[i].key != cs[j].key
  }

  /** The first index with a key, among the last `n`; the length when there is none. */
  function IndexFrom(cs: seq<Choice>, key: string, n: nat): (i: nat)
    requires n <= |cs|
    ensures |cs| - n <= i <= |cs| && (i < |cs| ==> cs[i].key == key)
    ensures forall j :: |cs| - n <= j < i ==> cs[j].key != key
  {
    if n == 0 || cs[|cs| - n].key == key then |cs| - n else IndexFrom(cs, key, n - 1)
  }

  function IndexOf(cs: seq<Choice>, key: string): (i: nat)
    ensures i <= |cs| && (i < |cs| ==> cs[i].key == key)
    ensures forall j :: 0 <= j < i ==> cs[j].key != key
  {
    IndexFrom(cs, key, |cs|)
  }

  /** One round of the loop: a new group goes to the end, a preferred member replaces the old one. */
  function Enter(cs: seq<Choice>, c: Choice): (r: seq<Choice>)
    ensures |cs| <= |r| <= |cs| + 1
    ensures DistinctKeys(cs) ==> DistinctKeys(r)
  {
    var i := IndexOf(cs, c.key);
    if i == |cs| then cs + [c] else if Prefer(c.from, cs[i].from) then cs[i := c] else cs
  }

  /** The list after `n` entries; `ps` are the cleaned entries, with nothing for an invalid one. */
  function Kept(ps: seq<Option<Choice>>, n: nat): (cs: seq<Choice>)
    requires n <= |ps|
    ensures |cs| <= n && DistinctKeys(cs)
  {
    if n == 0 then []
    else if ps[n - 1].None? then Kept(ps, n - 1)
    else Enter(Kept(ps, n - 1), ps[n - 1].value)
  }

  function PreparesUpTo(es: seq<ModelEntry>, options: Options, n: nat): (ps: seq<Option<Choice>>)
    requires n <= |es|
    ensures |ps| == n && forall i :: 0 <= i < n ==> ps[i] == Prepare(es[i], options)
  {
    if n == 0 then [] else PreparesUpTo(es, options, n - 1) + [Prepare(es[n - 1], options)]
  }

  function Prepares(es: seq<ModelEntry>, options: Options): (ps: seq<Option<Choice>>)
    ensures |ps| == |es| && forall i :: 0 <= i < |es| ==> ps[i] == Prepare(es[i], options)
  {
    PreparesUpTo(es, options, |es|)
  }

  function Normalized(es: seq<ModelEntry>, options: Options): (cs: seq<Choice>)
    ensures |cs| <= |es| && DistinctKeys(cs)
  {
    Kept(Prepares(es, options), |es|)
  }

  function EntriesUpTo(cs: seq<Choice>, n: nat): (es: seq<ModelEntry>)
    requires n <= |cs|
    ensures |es| == n && forall i :: 0 <= i < n ==> es[i] == cs[i].entry
  {
    if n == 0 then [] else EntriesUpTo(cs, n - 1) + [cs[n - 1].entry]
  }

  function Entries(cs: seq<Choice>): (es: seq<ModelEntry>)
    ensures |es| == |cs| && forall i :: 0 <= i < |cs| ==> es[i] == cs[i].entry
  {
    EntriesUpTo(cs, |cs|)
  }

  /** The three variables of the loop against the list they stand for. */
  ghost predicate Represents(seen: map<string, nat>, normalized: seq<ModelEntry>, candidates: seq<Candidate>, cs: seq<Choice>) {
    && |cs| == |normalized| == |candidates|
    && (forall i :: 0 <= i < |cs| ==> normalized[i] == cs[i].entry && candidates[i] == cs[i].from)
    && (forall i :: 0 <= i < |cs| ==> cs[i].key in seen && seen[cs[i].key] == i)
    && seen.Keys == KeysOf(cs)
  }

  function KeysOf(cs: seq<Choice>): set<string> {
    set i | 0 <= i < |cs| :: cs[i].key
  }

  lemma HasKey(cs: seq<Choice>, key: string)
    ensures key in KeysOf(cs) <==> IndexOf(cs, key) < |cs|
  {
  }

  lemma IndexIs(cs: seq<Choice>, k: nat)
    requires DistinctKeys(cs) && k < |cs|
    ensures IndexOf(cs, cs[k].key) == k
  {
  }

  lemma IndexNone(cs: seq<Choice>, key: string)
    requires forall i :: 0 <= i < |cs| ==> cs[i].key != key
    ensures IndexOf(cs, key) == |cs|
  {
  }

  lemma RepresentsAppended(seen: map<string, nat>, normalized: seq<ModelEntry>, candidates: seq<Candidate>, cs: seq<Choice>, c: Choice)
    requires Represents(seen, normalized, candidates, cs) && c.key !in seen
    ensures Represents(seen[c.key := |normalized|], normalized + [c.entry], candidates + [c.from], cs + [c])
  {
    var cs' := cs + [c];
    assert KeysOf(cs') == KeysOf(cs) + {c.key} by {
      assert cs'[|cs|] == c;
      assert forall i :: 0 <= i < |cs| ==> cs'[i] == cs[i];
    }
  }

  lemma RepresentsReplaced(seen: map<string, nat>, normalized: seq<ModelEntry>, candidates: seq<Candidate>, cs: seq<Choice>, i: nat, c: Choice)
    requires Represents(seen, normalized, candidates, cs) && i < |cs| && cs[i].key == c.key
    ensures Represents(seen, normalized[i := c.entry], candidates[i := c.from], cs[i := c])
  {
    var cs' := cs[i := c];
    assert forall j :: 0 <= j < |cs| ==> cs'[j].key == cs[j].key;
    assert KeysOf(cs') == KeysOf(cs);
  }

  method EnterChoice(seen: map<string, nat>, normalized: seq<ModelEntry>, candidates: seq<Candidate>, c: Choice, ghost cs: seq<Choice>)
    returns (seen': map<string, nat>, normalized': seq<ModelEntry>, candidates': seq<Candidate>)
    requires Represents(seen, normalized, candidates, cs) && DistinctKeys(cs)
    ensures Represents(seen', normalized', candidates', Enter(cs, c))
  {
    seen', normalized', candidates' := seen, normalized, candidates;
    HasKey(cs, c.key);
    if c.key in seen {
      var index := seen[c.key];
      if Prefer(c.from, candidates[index]) {
        RepresentsReplaced(seen, normalized, candidates, cs, index, c);
        candidates' := candidates[index := c.from];
        normalized' := normalized[index := c.entry];
      }
    } else {
      RepresentsAppended(seen, normalized, candidates, cs, c);
      seen' := seen[c.key := |normalized|];
      candidates' := candidates + [c.from];
      normalized' := normalized + [c.entry];
    }
  }

  /** The part of the loop that looks at one entry only. */
  method CleanEntry(e: ModelEntry, options: Options) returns (r: Option<Choice>)
    ensures r == Prepare(e, options)
  {
    var valid := Validate(e);
    if valid.None? {
      return None;
    }
    var clean := valid.value;
    var upstream := clean.redirect;
    if upstream == "" {
      upstream := clean.model;
    }
    var (alias, prefixed) := NormalizeAlias(clean.model, options);
    clean := clean.(model := alias);
    if upstream == alias {
      clean := clean.(redirect := "");
    } else {
      clean := clean.(redirect := upstream);
    }
    return Some(Choice(Lower(clean.model), clean, Candidate(upstream, prefixed, upstream == alias)));
  }

  /** One round of the loop. */
  method EnterEntry(seen: map<string, nat>, normalized: seq<ModelEntry>, candidates: seq<Candidate>, e: ModelEntry,
                    options: Options, ghost ps: seq<Option<Choice>>, ghost n: nat)
    returns (seen': map<string, nat>, normalized': seq<ModelEntry>, candidates': seq<Candidate>)
    requires n < |ps| && ps[n] == Prepare(e, options) && Represents(seen, normalized, candidates, Kept(ps, n))
    ensures Represents(seen', normalized', candidates', Kept(ps, n + 1))
  {
    seen', normalized', candidates' := seen, normalized, candidates;
    var c := CleanEntry(e, options);
    if c.Some? {
      seen', normalized', candidates' := EnterChoice(seen, normalized, candidates, c.value, Kept(ps, n));
    }
  }

  /** The variables of the loop after `n` rounds. */
  datatype Loop = Loop(seen: map<string, nat>, normalized: seq<ModelEntry>, candidates: seq<Candidate>)

  ghost predicate After(l: Loop, ps: seq<Option<Choice>>, n: nat) {
    n <= |ps| && Represents(l.seen, l.normalized, l.candidates, Kept(ps, n))
  }

  method Round(l: Loop, entries: seq<ModelEntry>, options: Options, n: nat, ghost ps: seq<Option<Choice>>) returns (next: Loop)
    requires n < |entries| && ps == Prepares(entries, options) && After(l, ps, n)
    ensures After(next, ps, n + 1)
  {
    var seen, normalized, candidates := EnterEntry(l.seen, l.normalized, l.candidates, entries[n], options, ps, n);
    next := Loop(seen, normalized, candidates);
  }

  lemma AtTheStart(ps: seq<Option<Choice>>)
    ensures After(Loop(map[], [], []), ps, 0)
  {
  }

  lemma AtTheEnd(l: Loop, ps: seq<Option<Choice>>, n: nat)
    requires n == |ps| && After(l, ps, n)
    ensures l.normalized == Entries(Kept(ps, |ps|))
  {
  }

  /** normalizeModelEntriesForSave */
  method NormalizeForSave(entries: seq<ModelEntry>, options: Options) returns (normalized: seq<ModelEntry>)
    ensures normalized == Entries(Normalized(entries, options)) && DistinctAliases(normalized)
  {
    hide Prepare, Kept, DistinctAliases;
    var l := Loop(map[], [], []);
    ghost var ps := Prepares(entries, options);
    AtTheStart(ps);
    for n := 0 to |entries|
      invariant After(l, ps, n)
    {
      l := Round(l, entries, options, n, ps);
    }
    AtTheEnd(l, ps, |entries|);
    AliasesDiffer(entries, options);
    normalized := l.normalized;
  }

  // ----- the preferred upstream of every alias -----

  /** No input of a collision group is preferred to what survives of the group. */
  lemma {:induction false} SurvivorsAreBest(ps: seq<Option<Choice>>, n: nat, i: nat) returns (k: nat)
    requires i < n <= |ps| && ps[i].Some?
    ensures var cs := Kept(ps, n);
            k < |cs| && cs[k].key == ps[i].value.key && !Prefer(ps[i].value.from, cs[k].from)
  {
    var before, c := Kept(ps, n - 1), ps[i].value;
    if i < n - 1 {
      k := SurvivorsAreBest(ps, n - 1, i);
      if ps[n - 1].Some? {
        PreferIsStrict(c.from, ps[n - 1].value.from, before[k].from);
      }
    } else {
      k := IndexOf(before, c.key);
      PreferIsStrict(c.from, c.from, c.from);
    }
  }

  /** What survives of a group: its own upstream if some member has that; among those that agree on this, one without a
      cut prefix if there is any; and among those that agree on both, the first upstream in byte order. */
  lemma SurvivorIsPreferred(ps: seq<Option<Choice>>, n: nat, i: nat) returns (k: nat)
    requires i < n <= |ps| && ps[i].Some?
    ensures var cs := Kept(ps, n);
            && k < |cs| && cs[k].key == ps[i].value.key
            && var a, b := cs[k].from, ps[i].value.from;
               && (b.exact ==> a.exact)
               && (a.exact == b.exact && a.prefixed ==> b.prefixed)
               && (a.exact == b.exact && a.prefixed == b.prefixed ==> a.upstream == b.upstream || Less(a.upstream, b.upstream))
  {
    k := SurvivorsAreBest(ps, n, i);
    LessTrichotomy(Kept(ps, n)[k].from.upstream, ps[i].value.from.upstream);
  }

  /** The groups are saved in the order in which their first members come. */
  lemma {:induction false} GroupsKeepTheirOrder(ps: seq<Option<Choice>>, n: nat, i: nat, j: nat) returns (a: nat)
    requires n <= |ps| && i < j < |Kept(ps, n)|
    ensures a < n && ps[a].Some? && ps[a].value.key == Kept(ps, n)[i].key
    ensures forall b :: 0 <= b <= a && ps[b].Some? ==> ps[b].value.key != Kept(ps, n)[j].key
  {
    var before := Kept(ps, n - 1);
    if j < |before| {
      a := GroupsKeepTheirOrder(ps, n - 1, i, j);
    } else {
      assert Kept(ps, n) == before + [ps[n - 1].value];
      a := SurvivorsAreInputs(ps, n - 1, i);
      forall b | 0 <= b <= a && ps[b].Some?
        ensures ps[b].value.key != Kept(ps, n)[j].key
      {
        var k := SurvivorsAreBest(ps, n - 1, b);
      }
    }
  }

  /** What survives is one of the inputs. */
  lemma {:induction false} SurvivorsAreInputs(ps: seq<Option<Choice>>, n: nat, k: nat) returns (i: nat)
    requires n <= |ps| && k < |Kept(ps, n)|
    ensures i < n && ps[i] == Some(Kept(ps, n)[k])
  {
    var before := Kept(ps, n - 1);
    if k < |before| && before[k] == Kept(ps, n)[k] {
      i := SurvivorsAreInputs(ps, n - 1, k);
    } else {
      i := n - 1;
    }
  }

  /** The upstream model behind every alias, whatever its case. */
  function UpstreamMap(cs: seq<Choice>): (m: map<string, string>)
    requires DistinctKeys(cs)
  {
    map key | key in KeysOf(cs) && IndexOf(cs, key) < |cs| :: Upstream(cs[IndexOf(cs, key)].entry)
  }

  lemma Counterpart(ps: seq<Option<Choice>>, qs: seq<Option<Choice>>, i: nat) returns (j: nat, m: nat)
    requires forall p :: p in ps <==> p in qs
    requires i < |Kept(ps, |ps|)|
    ensures var a, b := Kept(ps, |ps|), Kept(qs, |qs|);
            j < |b| && a[i].key == b[j].key && a[i].from == b[j].from && m < |qs| && qs[m] == Some(b[j])
  {
    var a, b := Kept(ps, |ps|), Kept(qs, |qs|);
    var l := SurvivorsAreInputs(ps, |ps|, i);
    assert ps[l] in qs;
    var m' :| 0 <= m' < |qs| && qs[m'] == ps[l];
    j := SurvivorsAreBest(qs, |qs|, m');
    m := SurvivorsAreInputs(qs, |qs|, j);
    assert qs[m] in ps;
    var l' :| 0 <= l' < |ps| && ps[l'] == qs[m];
    var k := SurvivorsAreBest(ps, |ps|, l');
    assert k == i;
    PreferIsStrict(a[i].from, b[j].from, b[j].from);
  }

  lemma PreparedUpstream(e: ModelEntry, options: Options, c: Choice)
    requires Prepare(e, options) == Some(c)
    ensures Upstream(c.entry) == c.from.upstream && c.key == Lower(c.entry.model)
  {
  }

  lemma SamePrepares(es: seq<ModelEntry>, fs: seq<ModelEntry>, options: Options)
    requires forall e :: e in es ==> e in fs
    ensures forall p :: p in Prepares(es, options) ==> p in Prepares(fs, options)
  {
    var ps, qs := Prepares(es, options), Prepares(fs, options);
    forall p | p in ps
      ensures p in qs
    {
      var i :| 0 <= i < |ps| && ps[i] == p;
      assert es[i] in fs;
      var j :| 0 <= j < |fs| && fs[j] == es[i];
      assert qs[j] == p;
    }
  }

  /** Which upstream stands behind an alias, whatever its case, does not depend on the order in which the models
      were listed, nor on repetitions. */
  lemma UpstreamsIgnoreOrder(es: seq<ModelEntry>, fs: seq<ModelEntry>, options: Options)
    requires forall e :: e in es <==> e in fs
    ensures UpstreamMap(Normalized(es, options)) == UpstreamMap(Normalized(fs, options))
  {
    SamePrepares(es, fs, options);
    SamePrepares(fs, es, options);
    SubTable(es, fs, options);
    SubTable(fs, es, options);
  }

  lemma SubTable(es: seq<ModelEntry>, fs: seq<ModelEntry>, options: Options)
    requires forall p :: p in Prepares(es, options) <==> p in Prepares(fs, options)
    ensures var a, b := UpstreamMap(Normalized(es, options)), UpstreamMap(Normalized(fs, options));
            forall key :: key in a ==> key in b && a[key] == b[key]
  {
    forall key | key in UpstreamMap(Normalized(es, options))
      ensures key in UpstreamMap(Normalized(fs, options))
      ensures UpstreamMap(Normalized(es, options))[key] == UpstreamMap(Normalized(fs, options))[key]
    {
      SameUpstream(es, fs, options, key);
    }
  }

  lemma SameUpstream(es: seq<ModelEntry>, fs: seq<ModelEntry>, options: Options, key: string)
    requires forall p :: p in Prepares(es, options) <==> p in Prepares(fs, options)
    requires key in UpstreamMap(Normalized(es, options))
    ensures key in UpstreamMap(Normalized(fs, options))
    ensures UpstreamMap(Normalized(es, options))[key] == UpstreamMap(Normalized(fs, options))[key]
  {
    var ps, qs := Prepares(es, options), Prepares(fs, options);
    var a, b := Normalized(es, options), Normalized(fs, options);
    var i := IndexOf(a, key);
    var j, m := Counterpart(ps, qs, i);
    IndexIs(b, j);
    HasKey(b, key);
    var l := SurvivorsAreInputs(ps, |ps|, i);
    PreparedUpstream(es[l], options, a[i]);
    PreparedUpstream(fs[m], options, b[j]);
  }

  // ----- the saved entries in other orders -----

  /** The saved entry behind every alias, with its spelling and its switch. */
  function EntryMap(cs: seq<Choice>): (m: map<string, ModelEntry>)
    requires DistinctKeys(cs)
  {
    map key | key in KeysOf(cs) && IndexOf(cs, key) < |cs| :: cs[IndexOf(cs, key)].entry
  }

  ghost predicate OrderFree(es: seq<ModelEntry>, options: Options) {
    forall fs :: multiset(fs) == multiset(es) ==> EntryMap(Normalized(fs, options)) == EntryMap(Normalized(es, options))
  }

  /** `p` belongs to its collision group, and no entry of the list is preferred to it there. */
  ghost predicate Wins(ps: seq<Option<Choice>>, p: Option<Choice>) {
    p.Some? && p in ps && forall q :: q in ps && q.Some? && q.value.key == p.value.key ==> !Prefer(q.value.from, p.value.from)
  }

  /** Two winners of a group with the same candidate also have the same alias and switch. */
  ghost predicate NoTiedWinners(es: seq<ModelEntry>, options: Options) {
    var ps := Prepares(es, options);
    forall p, q :: Wins(ps, p) && Wins(ps, q) && p.value.key == q.value.key ==> p.value.entry == q.value.entry
  }

  lemma {:induction false} SurvivorWins(ps: seq<Option<Choice>>, k: nat)
    requires k < |Kept(ps, |ps|)|
    ensures Wins(ps, Some(Kept(ps, |ps|)[k]))
  {
    var cs := Kept(ps, |ps|);
    var i := SurvivorsAreInputs(ps, |ps|, k);
    forall q | q in ps && q.Some? && q.value.key == cs[k].key
      ensures !Prefer(q.value.from, cs[k].from)
    {
      var j :| 0 <= j < |ps| && ps[j] == q;
      var l := SurvivorsAreBest(ps, |ps|, j);
      assert l == k;
    }
  }

  lemma MapsAlike(es: seq<ModelEntry>, fs: seq<ModelEntry>, options: Options, key: string)
    requires NoTiedWinners(es, options)
    requires forall p :: p in Prepares(es, options) <==> p in Prepares(fs, options)
    requires key in EntryMap(Normalized(fs, options))
    ensures key in EntryMap(Normalized(es, options))
    ensures EntryMap(Normalized(es, options))[key] == EntryMap(Normalized(fs, options))[key]
  {
    var ps, qs := Prepares(es, options), Prepares(fs, options);
    var a, b := Kept(ps, |ps|), Kept(qs, |qs|);
    var i := IndexOf(b, key);
    SurvivorWins(qs, i);
    assert Some(b[i]) in ps;
    var l :| 0 <= l < |ps| && ps[l] == Some(b[i]);
    var k := SurvivorsAreBest(ps, |ps|, l);
    IndexIs(a, k);
    HasKey(a, key);
    SurvivorWins(ps, k);
    assert Wins(ps, Some(b[i]));
  }

  lemma AllOrdersAlike(es: seq<ModelEntry>, fs: seq<ModelEntry>, options: Options)
    requires NoTiedWinners(es, options) && multiset(fs) == multiset(es)
    ensures EntryMap(Normalized(fs, options)) == EntryMap(Normalized(es, options))
  {
    forall e
      ensures e in es <==> e in fs
    {
      assert e in multiset(es) <==> e in multiset(fs);
    }
    SamePrepares(es, fs, options);
    SamePrepares(fs, es, options);
    TiesStay(es, fs, options);
    var a, b := EntryMap(Normalized(es, options)), EntryMap(Normalized(fs, options));
    forall key | key in b
      ensures key in a && a[key] == b[key]
    {
      MapsAlike(es, fs, options, key);
    }
    forall key | key in a
      ensures key in b
    {
      MapsAlike(fs, es, options, key);
    }
  }

  lemma TiesStay(es: seq<ModelEntry>, fs: seq<ModelEntry>, options: Options)
    requires NoTiedWinners(es, options)
    requires forall p :: p in Prepares(es, options) <==> p in Prepares(fs, options)
    ensures NoTiedWinners(fs, options)
  {
    var ps, qs := Prepares(es, options), Prepares(fs, options);
    forall p, q | Wins(qs, p) && Wins(qs, q) && p.value.key == q.value.key
      ensures p.value.entry == q.value.entry
    {
      assert Wins(ps, p) && Wins(ps, q);
    }
  }

  /** A winner at the front of the list is what is saved. */
  lemma {:induction false} FirstStays(ps: seq<Option<Choice>>, n: nat)
    requires 1 <= n <= |ps| && Wins(ps, ps[0])
    ensures |Kept(ps, n)| > 0 && Kept(ps, n)[0] == ps[0].value
  {
    if n > 1 {
      FirstStays(ps, n - 1);
      assert ps[n - 1] in ps;
    } else {
      assert Kept(ps, 0) == [];
    }
  }

  function ToFront<T>(s: seq<T>, i: nat): (r: seq<T>)
    requires i < |s|
    ensures multiset(r) == multiset(s) && r[0] == s[i]
  {
    assert s == s[..i] + [s[i]] + s[i + 1..];
    [s[i]] + s[..i] + s[i + 1..]
  }

  lemma WinnerIsSaved(es: seq<ModelEntry>, options: Options, i: nat)
    requires i < |es| && Wins(Prepares(es, options), Prepares(es, options)[i])
    ensures var p, m := Prepares(es, options)[i].value, EntryMap(Normalized(ToFront(es, i), options));
            p.key in m && m[p.key] == p.entry
  {
    var fs := ToFront(es, i);
    var ps, qs := Prepares(es, options), Prepares(fs, options);
    forall e
      ensures e in es <==> e in fs
    {
      assert e in multiset(es) <==> e in multiset(fs);
    }
    SamePrepares(es, fs, options);
    SamePrepares(fs, es, options);
    assert qs[0] == ps[i] && Wins(qs, qs[0]);
    FirstStays(qs, |qs|);
    var cs := Kept(qs, |qs|);
    IndexIs(cs, 0);
    HasKey(cs, cs[0].key);
  }

  /** The saved entries are the same for every order of the list if and only if no two winners of a collision group
      differ in the spelling of their alias or in their switch. */
  lemma OrderFreeExactly(es: seq<ModelEntry>, options: Options)
    ensures OrderFree(es, options) <==> NoTiedWinners(es, options)
  {
    if NoTiedWinners(es, options) {
      forall fs | multiset(fs) == multiset(es)
        ensures EntryMap(Normalized(fs, options)) == EntryMap(Normalized(es, options))
      {
        AllOrdersAlike(es, fs, options);
      }
    } else {
      var ps := Prepares(es, options);
      var p, q :| Wins(ps, p) && Wins(ps, q) && p.value.key == q.value.key && p.value.entry != q.value.entry;
      var i :| 0 <= i < |ps| && ps[i] == p;
      var j :| 0 <= j < |ps| && ps[j] == q;
      WinnerIsSaved(es, options, i);
      WinnerIsSaved(es, options, j);
      assert multiset(ToFront(es, i)) == multiset(es) && multiset(ToFront(es, j)) == multiset(es);
    }
  }

  /** The switch depends on the order when an entry is listed both on and off. */
  lemma SwitchDependsOnOrder(e: ModelEntry, options: Options)
    requires Validate(e).Some?
    ensures !OrderFree([e, e.(disabled := !e.disabled)], options)
  {
    var es := [e, e.(disabled := !e.disabled)];
    var ps := Prepares(es, options);
    assert ps[0] == Prepare(es[0], options) && ps[1] == Prepare(es[1], options);
    var c := ps[0].value;
    PreferIsStrict(c.from, c.from, c.from);
    assert ps[1].value == c.(entry := c.entry.(disabled := !e.disabled));
    assert ps == [ps[0], ps[1]];
    assert Wins(ps, ps[0]) && Wins(ps, ps[1]);
    OrderFreeExactly(es, options);
  }

  // ----- normalising twice -----

  /** An entry that cleaning leaves alone. */
  predicate Clean(e: ModelEntry, options: Options) {
    && e.model != "" && Trimmed(e.model) && Trimmed(e.redirect) && Legal(e.model) && Legal(e.redirect)
    && Settled(e.model, options) && e.redirect != e.model
  }

  lemma CleanIsFixed(e: ModelEntry, options: Options)
    ensures Clean(e, options) <==> Prepare(e, options).Some? && Prepare(e, options).value.entry == e
  {
    if Clean(e, options) {
      CleanStays(e, options);
    }
    if Prepare(e, options).Some? && Prepare(e, options).value.entry == e {
      StaysClean(e, options);
    }
  }

  lemma CleanStays(e: ModelEntry, options: Options)
    requires Clean(e, options)
    ensures Prepare(e, options).Some? && Prepare(e, options).value.entry == e
  {
    NormalizeSettles(e.model, options);
  }

  lemma SettledBefore(name: string, model: string, options: Options)
    requires model == Trim(name) && name == NormalizeAlias(model, options).0
    ensures Settled(name, options) && name == model
  {
    NormalizeSettles(model, options);
    TrimmedStaysSettled(name, options);
  }

  /** What cleaning a valid entry `v` leaves in `c`, the alias apart. */
  ghost predicate FromValid(v: ModelEntry, c: ModelEntry) {
    && v.model != "" && Trimmed(v.model) && Trimmed(v.redirect) && Legal(v.model) && Legal(v.redirect)
    && c.redirect == (if Upstream(v) == c.model then "" else Upstream(v))
  }

  lemma PreparedParts(e: ModelEntry, options: Options) returns (v: ModelEntry)
    requires Prepare(e, options).Some?
    ensures var c := Prepare(e, options).value.entry;
            FromValid(v, c) && v.model == Trim(e.model) && c.model == NormalizeAlias(v.model, options).0
  {
    v := Validate(e).value;
  }

  lemma SettledIsClean(e: ModelEntry, v: ModelEntry, options: Options)
    requires FromValid(v, e) && e.model == v.model && Settled(e.model, options)
    ensures Clean(e, options)
  {
  }

  lemma PartsAreClean(e: ModelEntry, v: ModelEntry, name: string, options: Options)
    requires FromValid(v, e) && v.model == Trim(name) && name == NormalizeAlias(v.model, options).0 && e.model == name
    ensures Clean(e, options)
  {
    SettledBefore(name, v.model, options);
    SettledIsClean(e, v, options);
  }

  /** If cleaning a valid entry gives it back, its name was trimmed and settled in the first place. */
  lemma StaysClean(e: ModelEntry, options: Options)
    requires Prepare(e, options).Some? && Prepare(e, options).value.entry == e
    ensures Clean(e, options)
  {
    var v := PreparedParts(e, options);
    PartsAreClean(e, v, e.model, options);
  }

  lemma ValidatedParts(e: ModelEntry)
    requires Validate(e).Some?
    ensures var v := Validate(e).value;
            && v.model == Trim(e.model)
            && v.model != "" && Trimmed(v.model) && Trimmed(v.redirect) && Legal(v.model) && Legal(v.redirect)
  {
  }

  predicate DistinctAliases(es: seq<ModelEntry>) {
    forall i, j :: 0 <= i < j < |es| ==> Lower(es[i].model) != Lower(es[j].model)
  }

  lemma EnterNew(cs: seq<Choice>, c: Choice)
    requires DistinctKeys(cs) && forall i :: 0 <= i < |cs| ==> cs[i].key != c.key
    ensures Enter(cs, c) == cs + [c]
  {
    IndexNone(cs, c.key);
  }

  /** Nothing is dropped when every entry is valid and no two collide. */
  lemma {:induction false} KeptAll(ps: seq<Option<Choice>>, n: nat)
    requires n <= |ps| && forall i :: 0 <= i < n ==> ps[i].Some?
    requires forall i, j :: 0 <= i < j < n ==> ps[i].value.key != ps[j].value.key
    ensures |Kept(ps, n)| == n && forall i :: 0 <= i < n ==> Kept(ps, n)[i] == ps[i].value
  {
    hide Enter, DistinctKeys;
    if n > 0 {
      KeptAll(ps, n - 1);
      EnterNew(Kept(ps, n - 1), ps[n - 1].value);
      assert Kept(ps, n) == Kept(ps, n - 1) + [ps[n - 1].value];
    }
  }

  /** And only then. */
  lemma {:induction false} NothingDropped(ps: seq<Option<Choice>>, n: nat)
    requires n <= |ps| && |Kept(ps, n)| == n
    ensures forall i :: 0 <= i < n ==> ps[i] == Some(Kept(ps, n)[i])
  {
    if n > 0 {
      NothingDropped(ps, n - 1);
    }
  }

  predicate AllClean(es: seq<ModelEntry>, options: Options) {
    forall i :: 0 <= i < |es| ==> Clean(es[i], options)
  }

  lemma CleanListIsFixed(es: seq<ModelEntry>, options: Options)
    requires AllClean(es, options) && DistinctAliases(es)
    ensures Entries(Normalized(es, options)) == es
  {
    var ps := Prepares(es, options);
    forall i | 0 <= i < |es|
      ensures ps[i].Some? && ps[i].value.entry == es[i] && ps[i].value.key == Lower(es[i].model)
    {
      CleanIsFixed(es[i], options);
      PreparedUpstream(es[i], options, ps[i].value);
    }
    KeptAll(ps, |es|);
  }

  lemma FixedListIsClean(es: seq<ModelEntry>, options: Options)
    requires Entries(Normalized(es, options)) == es
    ensures AllClean(es, options) && DistinctAliases(es)
  {
    var ps := Prepares(es, options);
    NothingDropped(ps, |es|);
    forall i | 0 <= i < |es|
      ensures Clean(es[i], options) && Normalized(es, options)[i].key == Lower(es[i].model)
    {
      assert ps[i].value.entry == es[i];
      CleanIsFixed(es[i], options);
      PreparedUpstream(es[i], options, ps[i].value);
    }
  }

  /** The lists that normalisation leaves alone are exactly the clean ones without repeated aliases. */
  lemma FixedListsAreClean(es: seq<ModelEntry>, options: Options)
    ensures Entries(Normalized(es, options)) == es <==> AllClean(es, options) && DistinctAliases(es)
  {
    if AllClean(es, options) && DistinctAliases(es) {
      CleanListIsFixed(es, options);
    }
    if Entries(Normalized(es, options)) == es {
      FixedListIsClean(es, options);
    }
  }

  lemma LegalParts(s: string, i: nat)
    requires Legal(s) && i <= |s|
    ensures Legal(s[i..]) && Legal(Lower(s[i..])) && Legal(Lower(s))
  {
    LowerLegal(s);
    assert forall c :: c in s[i..] ==> c in s;
    LowerLegal(s[i..]);
  }

  lemma LowerLegal(s: string)
    requires Legal(s)
    ensures Legal(Lower(s))
  {
    forall k | 0 <= k < |s|
      ensures Lower(s)[k] !in {'\0', '\r', '\n'}
    {
      LowerAt(s, k);
      LowerCharKeeps(s[k]);
      assert s[k] in s;
    }
  }

  lemma AliasIsLegal(name: string, options: Options)
    requires Legal(name)
    ensures Legal(NormalizeAlias(name, options).0)
  {
    LegalParts(name, LastSlash(name) + 1);
  }

  /** A prepared entry is clean except, perhaps, for white space at an end of its alias. */
  lemma PreparedIsClean(e: ModelEntry, options: Options)
    requires Prepare(e, options).Some?
    ensures var c := Prepare(e, options).value.entry; Clean(c, options) <==> Trimmed(c.model)
  {
    var v, c := Validate(e).value, Prepare(e, options).value.entry;
    NormalizeSettles(v.model, options);
    AliasIsLegal(v.model, options);
    ValidatedParts(e);
    CleanParts(v, c, options);
  }

  lemma CleanParts(v: ModelEntry, c: ModelEntry, options: Options)
    requires Trimmed(v.model) && Trimmed(v.redirect) && Legal(v.model) && Legal(v.redirect)
    requires c.redirect == if Upstream(v) == c.model then "" else Upstream(v)
    requires c.model != "" && Legal(c.model) && Settled(c.model, options)
    ensures Clean(c, options) <==> Trimmed(c.model)
  {
  }

  lemma FirstIsClean(es: seq<ModelEntry>, options: Options, k: nat)
    requires k < |Normalized(es, options)|
    ensures var c := Normalized(es, options)[k];
            (Clean(c.entry, options) <==> Trimmed(c.entry.model)) && c.key == Lower(c.entry.model)
  {
    var i := SurvivorsAreInputs(Prepares(es, options), |es|, k);
    PreparedIsClean(es[i], options);
    PreparedUpstream(es[i], options, Normalized(es, options)[k]);
  }

  /** Normalisation yields aliases that differ by more than case. */
  lemma AliasesDiffer(es: seq<ModelEntry>, options: Options)
    ensures DistinctAliases(Entries(Normalized(es, options)))
  {
    var cs := Normalized(es, options);
    forall i | 0 <= i < |cs|
      ensures cs[i].key == Lower(cs[i].entry.model)
    {
      FirstIsClean(es, options, i);
    }
  }

  lemma FirstIsFixed(es: seq<ModelEntry>, options: Options)
    ensures var first := Entries(Normalized(es, options));
            Entries(Normalized(first, options)) == first <==> forall i :: 0 <= i < |first| ==> Trimmed(first[i].model)
  {
    var first := Entries(Normalized(es, options));
    FixedListsAreClean(first, options);
    AliasesDiffer(es, options);
    forall i | 0 <= i < |first|
      ensures Clean(first[i], options) <==> Trimmed(first[i].model)
    {
      FirstIsClean(es, options, i);
    }
  }

  /** Cutting the prefix off the name of this entry leaves white space at the front. */
  predicate LeavesSpace(e: ModelEntry, options: Options) {
    && options.stripPrefix && Validate(e).Some?
    && var name := Validate(e).value.model; Prefixed(name) && IsSpace(name[LastSlash(name) + 1])
  }

  lemma PreparedEnds(e: ModelEntry, options: Options)
    requires Prepare(e, options).Some?
    ensures Trimmed(Prepare(e, options).value.entry.model) <==> !LeavesSpace(e, options)
  {
    ValidatedParts(e);
    AliasEnds(Validate(e).value.model, options);
  }

  /** All members of a collision group begin with white space, or none does. */
  lemma SameEnds(a: string, b: string)
    requires Lower(a) == Lower(b)
    ensures Trimmed(a) <==> Trimmed(b)
  {
    LowerKeepsEnds(a);
    LowerKeepsEnds(b);
  }

  lemma {:induction false} SurvivorLeavesSpace(es: seq<ModelEntry>, options: Options, i: nat) returns (k: nat)
    requires i < |es| && LeavesSpace(es[i], options)
    ensures k < |Normalized(es, options)| && !Trimmed(Normalized(es, options)[k].entry.model)
  {
    var ps := Prepares(es, options);
    PreparedEnds(es[i], options);
    PreparedUpstream(es[i], options, ps[i].value);
    k := SurvivorsAreBest(ps, |es|, i);
    FirstIsClean(es, options, k);
    SameEnds(ps[i].value.entry.model, Normalized(es, options)[k].entry.model);
  }

  /** A second normalisation changes nothing if and only if prefixes are kept or no valid name of the list
      has white space right after its last slash. */
  lemma SecondPass(es: seq<ModelEntry>, options: Options)
    ensures var first := Entries(Normalized(es, options));
            Entries(Normalized(first, options)) == first <==> forall e :: e in es ==> !LeavesSpace(e, options)
  {
    var cs := Normalized(es, options);
    FirstIsFixed(es, options);
    if e :| e in es && LeavesSpace(e, options) {
      var i :| 0 <= i < |es| && es[i] == e;
      var k := SurvivorLeavesSpace(es, options, i);
      assert Entries(cs)[k] == cs[k].entry;
    } else {
      forall k | 0 <= k < |cs|
        ensures Trimmed(cs[k].entry.model)
      {
        var i := SurvivorsAreInputs(Prepares(es, options), |es|, k);
        PreparedEnds(es[i], options);
        assert es[i] in es;
      }
    }
  }

  /** For names without white space the second pass never changes anything. */
  lemma SecondPassWithoutSpaces(es: seq<ModelEntry>, options: Options)
    requires forall e, c :: e in es && c in e.model ==> !IsSpace(c)
    ensures var first := Entries(Normalized(es, options)); Entries(Normalized(first, options)) == first
  {
    forall e | e in es
      ensures !LeavesSpace(e, options)
    {
      NoSpaceIsLeft(e, options);
    }
    SecondPass(es, options);
  }

  lemma NoSpaceIsLeft(e: ModelEntry, options: Options)
    requires forall c :: c in e.model ==> !IsSpace(c)
    ensures !LeavesSpace(e, options)
  {
    if e.model != "" {
      assert e.model[0] in e.model && e.model[|e.model| - 1] in e.model;
    }
    assert Trim(e.model) == e.model;
    if Prefixed(e.model) {
      assert e.model[LastSlash(e.model) + 1] in e.model;
    }
  }

  /** A list that fails: it contains the name "a/ b". */
  lemma SpacedNameIsChanged(es: seq<ModelEntry>, e: ModelEntry, options: Options)
    requires e in es && e.model == ['a', '/', ' ', 'b'] && e.redirect == e.model && options.stripPrefix
    ensures var first := Entries(Normalized(es, options)); Entries(Normalized(first, options)) != first
  {
    assert e.model[1] == '/';
    assert LastSlash(e.model) == 1;
    assert LeavesSpace(e, options);
    SecondPass(es, options);
  }
}
