/** The usage tables of the dashboard: statistics grouped by model and by site, sorted, cut to a few rows
    and given their share of the total. */
module Dashboard {
  import Sorting
  import opened Sums
  import opened Text
  import opened Wrappers

  datatype Tally = Tally(requests: nat, success: nat, errors: nat, inputTokens: nat, outputTokens: nat, effectiveCost: real)

  const ZERO := Tally(0, 0, 0, 0, 0, 0.0)

  datatype Quantity = Requests | Success | Errors | InputTokens | OutputTokens | EffectiveCost

  function Amount(t: Tally, q: Quantity): real {
    match q
    case Requests => t.requests as real
    case Success => t.success as real
    case Errors => t.errors as real
    case InputTokens => t.inputTokens as real
    case OutputTokens => t.outputTokens as real
    case EffectiveCost => t.effectiveCost
  }

  lemma QuantitiesRead(t: Tally)
    ensures Amount(t, Requests) == t.requests as real && Amount(t, Success) == t.success as real && Amount(t, Errors) == t.errors as real
    ensures Amount(t, InputTokens) == t.inputTokens as real && Amount(t, OutputTokens) == t.outputTokens as real
    ensures Amount(t, EffectiveCost) == t.effectiveCost
  {
  }

  /** addDashboardUsage */
  function Plus(a: Tally, b: Tally): Tally {
    Tally(a.requests + b.requests, a.success + b.success, a.errors + b.errors,
          a.inputTokens + b.inputTokens, a.outputTokens + b.outputTokens, a.effectiveCost + b.effectiveCost)
  }

  lemma PlusAdds(a: Tally, b: Tally, q: Quantity)
    ensures Amount(Plus(a, b), q) == Amount(a, q) + Amount(b, q)
    ensures Amount(ZERO, q) == 0.0
  {
  }

  datatype Entry = Entry(model: string, channel: Option<int>, tally: Tally)

  function EntryAmount(q: Quantity): Entry -> real {
    (e: Entry) => Amount(e.tally, q)
  }

  // ----- grouping -----

  type KeyOf<!K> = Entry -> K

  /** The part of a quantity that falls to one key. */
  function KeyShare<K(==)>(entries: seq<Entry>, keyOf: KeyOf<K>, q: Quantity): K -> real {
    (key: K) => Sum(entries, Filtered(keyOf, key, q))
  }

  function Filtered<K(==)>(keyOf: KeyOf<K>, key: K, q: Quantity): Entry -> real {
    (e: Entry) => if keyOf(e) == key then Amount(e.tally, q) else 0.0
  }

  /** The groups are the keys that occur, each with the sums of its entries. */
  ghost predicate IsGrouping<K(!new)>(groups: map<K, Tally>, entries: seq<Entry>, keyOf: KeyOf<K>) {
    && (forall e :: e in entries ==> keyOf(e) in groups)
    && (forall key :: key in groups ==> exists e :: e in entries && keyOf(e) == key)
    && (forall key, q :: key in groups ==> Amount(groups[key], q) == KeyShare(entries, keyOf, q)(key))
  }

  /** One entry entered into one of the two maps. */
  function Enter<K(==)>(groups: map<K, Tally>, key: K, t: Tally): map<K, Tally> {
    groups[key := Plus(if key in groups then groups[key] else ZERO, t)]
  }

  lemma EnterGroups<K(!new)>(groups: map<K, Tally>, entries: seq<Entry>, keyOf: KeyOf<K>, e: Entry)
    requires IsGrouping(groups, entries, keyOf)
    ensures IsGrouping(Enter(groups, keyOf(e), e.tally), entries + [e], keyOf)
  {
    var after := Enter(groups, keyOf(e), e.tally);
    forall key, q | key in after
      ensures Amount(after[key], q) == KeyShare(entries + [e], keyOf, q)(key)
    {
      var f := Filtered(keyOf, key, q);
      SumConcat(entries, [e], f);
      SumOne(e, f);
      PlusAdds(if keyOf(e) in groups then groups[keyOf(e)] else ZERO, e.tally, q);
      if key in groups {
        assert Amount(groups[key], q) == KeyShare(entries, keyOf, q)(key);
      } else {
        SumZero(entries, f);
      }
    }
    forall key | key in after
      ensures exists x :: x in entries + [e] && keyOf(x) == key
    {
      if key in groups {
        var x :| x in entries && keyOf(x) == key;
        assert x in entries + [e];
      } else {
        assert e in entries + [e];
      }
    }
  }

  /** Where a channel's usage is listed: the site it is bound to, or zero. */
  function SiteOf(channelSites: map<int, int>): KeyOf<int> {
    (e: Entry) => if e.channel.Some? && e.channel.value in channelSites then channelSites[e.channel.value] else 0
  }

  /** The heading for entries without a model name, and the one for channels without a site. */
  const UNKNOWN_MODEL := "未知模型"
  const UNBOUND := "未绑定渠道"

  function ModelOf(): KeyOf<string> {
    (e: Entry) => if Trim(e.model) == "" then UNKNOWN_MODEL else Trim(e.model)
  }

  function ModelTitle(): string -> string {
    (key: string) => key
  }

  function SiteTitle(siteNames: map<int, string>): int -> string {
    (site: int) => if site in siteNames && siteNames[site] != "" then siteNames[site] else UNBOUND
  }

  /** An entry is listed under its trimmed model name and under the site of its channel; entries without a name share one
      heading, and so do those whose channel has no site or a site without a name. */
  lemma GroupsRead(e: Entry, channelSites: map<int, int>, siteNames: map<int, string>)
    ensures ModelOf()(e) == if Trim(e.model) == "" then "未知模型" else Trim(e.model)
    ensures SiteOf(channelSites)(e) ==
            match e.channel case None => 0 case Some(id) => if id in channelSites then channelSites[id] else 0
    ensures forall site :: SiteTitle(siteNames)(site) == if site !in siteNames || siteNames[site] == "" then "未绑定渠道" else siteNames[site]
    ensures forall key :: ModelTitle()(key) == key
  {
    hide Trim;
  }

  ghost predicate IsTotal(totals: Tally, entries: seq<Entry>) {
    forall q :: Amount(totals, q) == Sum(entries, EntryAmount(q))
  }

  lemma PlusIsTotal(totals: Tally, entries: seq<Entry>, e: Entry)
    requires IsTotal(totals, entries)
    ensures IsTotal(Plus(totals, e.tally), entries + [e])
  {
    forall q
      ensures Amount(Plus(totals, e.tally), q) == Sum(entries + [e], EntryAmount(q))
    {
      SumConcat(entries, [e], EntryAmount(q));
      SumOne(e, EntryAmount(q));
    }
  }

  /** The accumulating loop of buildDashboardSnapshot. */
  method Accumulate(stats: seq<Entry>, channelSites: map<int, int>)
    returns (totals: Tally, modelUsage: map<string, Tally>, siteUsage: map<int, Tally>)
    ensures IsTotal(totals, stats)
    ensures IsGrouping(modelUsage, stats, ModelOf()) && IsGrouping(siteUsage, stats, SiteOf(channelSites))
  {
    totals, modelUsage, siteUsage := ZERO, map[], map[];
    var nameOf, siteOf := ModelOf(), SiteOf(channelSites);
    for n := 0 to |stats|
      invariant IsTotal(totals, stats[..n])
      invariant IsGrouping(modelUsage, stats[..n], nameOf) && IsGrouping(siteUsage, stats[..n], siteOf)
    {
      var e := stats[n];
      assert stats[..n + 1] == stats[..n] + [e];
      PlusIsTotal(totals, stats[..n], e);
      EnterGroups(modelUsage, stats[..n], nameOf, e);
      EnterGroups(siteUsage, stats[..n], siteOf, e);
      totals := Plus(totals, e.tally);
      modelUsage := Enter(modelUsage, nameOf(e), e.tally);
      siteUsage := Enter(siteUsage, siteOf(e), e.tally);
    }
    assert stats[..|stats|] == stats;
  }

  // ----- rows -----

  datatype Row<K> = Row(key: K, tally: Tally)

  function RowAmount<K>(q: Quantity): Row<K> -> real {
    (r: Row<K>) => Amount(r.tally, q)
  }

  /** One row for every group, in any order. */
  ghost predicate Lists<K(!new)>(rows: seq<Row<K>>, groups: map<K, Tally>) {
    && (forall i, j :: 0 <= i < j < |rows| ==> rows[i].key != rows[j].key)
    && (forall i :: 0 <= i < |rows| ==> rows[i].key in groups && rows[i].tally == groups[rows[i].key])
    && (forall key :: key in groups ==> Row(key, groups[key]) in rows)
  }

  /** Copying a map into a list, in the order in which the map happens to be walked. */
  method ListRows<K(!new,==)>(groups: map<K, Tally>) returns (rows: seq<Row<K>>)
    ensures Lists(rows, groups)
  {
    rows := [];
    var keys := groups.Keys;
    while keys != {}
      invariant keys <= groups.Keys
      invariant forall i :: 0 <= i < |rows| ==>
                  rows[i].key in groups && rows[i].key !in keys && rows[i].tally == groups[rows[i].key]
      invariant forall i, j :: 0 <= i < j < |rows| ==> rows[i].key != rows[j].key
      invariant forall key :: key in groups && key !in keys ==> Row(key, groups[key]) in rows
      decreases keys
    {
      var key :| key in keys;
      rows := rows + [Row(key, groups[key])];
      keys := keys - {key};
    }
  }

  function KeysOf<K>(rows: seq<Row<K>>): (keys: seq<K>)
    ensures |keys| == |rows| && forall i :: 0 <= i < |rows| ==> keys[i] == rows[i].key
  {
    seq(|rows|, i requires 0 <= i < |rows| => rows[i].key)
  }

  lemma {:induction false} KeysShareEverything<K(!new)>(keys: seq<K>, entries: seq<Entry>, keyOf: KeyOf<K>, q: Quantity)
    requires Distinct(keys) && forall e :: e in entries ==> keyOf(e) in keys
    ensures Sum(keys, KeyShare(entries, keyOf, q)) == Sum(entries, EntryAmount(q))
  {
    if entries == [] {
      SumZero(keys, KeyShare(entries, keyOf, q));
    } else {
      var n := |entries| - 1;
      var last := entries[n];
      assert forall e :: e in entries[..n] ==> e in entries;
      KeysShareEverything(keys, entries[..n], keyOf, q);
      var one := KeyShare([last], keyOf, q);
      forall key
        ensures KeyShare(entries, keyOf, q)(key) == KeyShare(entries[..n], keyOf, q)(key) + one(key)
        ensures one(key) == Filtered(keyOf, key, q)(last)
      {
        SumOne(last, Filtered(keyOf, key, q));
      }
      SumSplit(keys, KeyShare(entries[..n], keyOf, q), one, KeyShare(entries, keyOf, q));
      SumSingle(keys, keyOf(last), one);
    }
  }

  /** Grouping loses nothing: the rows of a table add up to the totals, quantity by quantity. */
  lemma RowsAddUp<K(!new)>(rows: seq<Row<K>>, groups: map<K, Tally>, entries: seq<Entry>, keyOf: KeyOf<K>, totals: Tally, q: Quantity)
    requires Lists(rows, groups) && IsGrouping(groups, entries, keyOf) && IsTotal(totals, entries)
    ensures Sum(rows, RowAmount(q)) == Amount(totals, q)
  {
    var keys := KeysOf(rows);
    forall e | e in entries
      ensures keyOf(e) in keys
    {
      var r := Row(keyOf(e), groups[keyOf(e)]);
      assert r in rows;
      var i :| 0 <= i < |rows| && rows[i] == r;
      assert keys[i] == keyOf(e);
    }
    KeysShareEverything(keys, entries, keyOf, q);
    SumMatches(rows, RowAmount(q), keys, KeyShare(entries, keyOf, q));
  }

  // ----- the order of the rows -----

  /** usageLess */
  predicate UsageLess<K>(a: Row<K>, b: Row<K>, title: K -> string) {
    if a.tally.effectiveCost != b.tally.effectiveCost then a.tally.effectiveCost > b.tally.effectiveCost
    else if a.tally.requests != b.tally.requests then a.tally.requests > b.tally.requests
    else Less(title(a.key), title(b.key))
  }

  function ByUsage<K>(title: K -> string): (Row<K>, Row<K>) -> bool {
    (a: Row<K>, b: Row<K>) => UsageLess(a, b, title)
  }

  predicate Tied<K(==)>(a: Row<K>, b: Row<K>, title: K -> string) {
    a.tally.effectiveCost == b.tally.effectiveCost && a.tally.requests == b.tally.requests && title(a.key) == title(b.key)
  }

  lemma UsageOrders<K(!new)>(title: K -> string)
    ensures Sorting.StrictWeakOrder(ByUsage(title))
  {
    forall a: Row<K>, b: Row<K>, c: Row<K>
      ensures !UsageLess(a, a, title)
      ensures UsageLess(a, b, title) && UsageLess(b, c, title) ==> UsageLess(a, c, title)
      ensures UsageLess(a, c, title) ==> UsageLess(a, b, title) || UsageLess(b, c, title)
    {
      LessOrders(title(a.key), title(b.key), title(c.key));
    }
  }

  lemma TiedIsUnordered<K(!new)>(a: Row<K>, b: Row<K>, title: K -> string)
    ensures Tied(a, b, title) <==> !UsageLess(a, b, title) && !UsageLess(b, a, title)
  {
    LessTrichotomy(title(a.key), title(b.key));
  }

  /** A sorted table; sort.Slice promises no more than this. */
  ghost predicate IsTable<K(!new)>(rows: seq<Row<K>>, groups: map<K, Tally>, title: K -> string) {
    Lists(rows, groups) && Sorting.SortedBy(rows, ByUsage(title))
  }

  /** The most expensive group comes first; among groups of one cost the one with the most requests, and then the one whose
      title is first in byte order. */
  lemma TableOrder<K(!new)>(rows: seq<Row<K>>, groups: map<K, Tally>, title: K -> string, i: nat, j: nat)
    requires IsTable(rows, groups, title) && i < j < |rows|
    ensures var a, b := rows[i].tally, rows[j].tally;
            && a.effectiveCost >= b.effectiveCost
            && (a.effectiveCost == b.effectiveCost ==> a.requests >= b.requests)
            && (a.effectiveCost == b.effectiveCost && a.requests == b.requests ==>
                  title(rows[i].key) == title(rows[j].key) || Less(title(rows[i].key), title(rows[j].key)))
  {
    hide Less;
    assert !ByUsage(title)(rows[j], rows[i]);
    LessTrichotomy(title(rows[i].key), title(rows[j].key));
  }

  lemma {:induction false} NotRepeated<K(!new)>(rows: seq<Row<K>>, r: Row<K>)
    requires forall i, j :: 0 <= i < j < |rows| ==> rows[i].key != rows[j].key
    ensures multiset(rows)[r] <= 1
  {
    if rows != [] {
      var n := |rows| - 1;
      NotRepeated(rows[..n], r);
      assert rows == rows[..n] + [rows[n]];
      if r == rows[n] {
        assert r !in rows[..n];
        assert multiset(rows[..n])[r] == 0;
      }
    }
  }

  lemma SameRows<K(!new)>(rows: seq<Row<K>>, others: seq<Row<K>>, groups: map<K, Tally>)
    requires Lists(rows, groups) && Lists(others, groups)
    ensures multiset(rows) == multiset(others)
  {
    forall r
      ensures multiset(rows)[r] == multiset(others)[r]
    {
      NotRepeated(rows, r);
      NotRepeated(others, r);
      assert r in rows <==> r.key in groups && r.tally == groups[r.key];
      assert r in others <==> r.key in groups && r.tally == groups[r.key];
      assert r in multiset(rows) <==> r in rows;
      assert r in multiset(others) <==> r in others;
    }
  }

  ghost predicate NoTiedGroups<K(!new)>(groups: map<K, Tally>, title: K -> string) {
    forall k, l :: k in groups && l in groups && k != l ==> !Tied(Row(k, groups[k]), Row(l, groups[l]), title)
  }

  ghost predicate OneTable<K(!new)>(groups: map<K, Tally>, title: K -> string) {
    forall rows: seq<Row<K>>, others: seq<Row<K>> ::
      IsTable(rows, groups, title) && IsTable(others, groups, title) ==> rows == others
  }

  lemma NoTiesOneTable<K(!new)>(rows: seq<Row<K>>, others: seq<Row<K>>, groups: map<K, Tally>, title: K -> string)
    requires NoTiedGroups(groups, title) && IsTable(rows, groups, title) && IsTable(others, groups, title)
    ensures rows == others
  {
    SameRows(rows, others, groups);
    forall a, b | a in rows && b in rows && a != b
      ensures ByUsage(title)(a, b) || ByUsage(title)(b, a)
    {
      assert !Tied(Row(a.key, groups[a.key]), Row(b.key, groups[b.key]), title);
      TiedIsUnordered(a, b, title);
    }
    Sorting.SortedUnique(rows, others, ByUsage(title));
  }

  /** Some table exists. */
  lemma {:induction false} SomeList<K(!new)>(groups: map<K, Tally>) returns (rows: seq<Row<K>>)
    ensures Lists(rows, groups)
    decreases groups.Keys
  {
    rows := [];
    if groups.Keys != {} {
      var key :| key in groups.Keys;
      var rest := groups - {key};
      assert groups.Keys == rest.Keys + {key};
      rows := SomeList(rest);
      rows := rows + [Row(key, groups[key])];
    }
  }

  lemma SortedList<K(!new)>(rows: seq<Row<K>>, groups: map<K, Tally>, title: K -> string)
    requires Lists(rows, groups)
    ensures IsTable(Sorting.Sort(rows, ByUsage(title)), groups, title)
  {
    hide UsageLess, ByUsage, Lists, Sorting.Sort, Sorting.SortedBy, Sorting.StrictWeakOrder;
    UsageOrders(title);
    Sorting.SortSorted(rows, ByUsage(title));
    Sorting.SortPermutes(rows, ByUsage(title));
    ListsPermute(rows, Sorting.Sort(rows, ByUsage(title)), groups);
  }

  lemma ListsPermute<K(!new)>(rows: seq<Row<K>>, others: seq<Row<K>>, groups: map<K, Tally>)
    requires Lists(rows, groups) && multiset(others) == multiset(rows)
    ensures Lists(others, groups)
  {
    forall i, j | 0 <= i < j < |others|
      ensures others[i].key != others[j].key
    {
      assert others[i] in multiset(others) && others[j] in multiset(others);
      if others[i].key == others[j].key {
        NotRepeated(rows, others[i]);
        Sorting.Repeated(others, i, j);
      }
    }
    forall i | 0 <= i < |others|
      ensures others[i] in rows
    {
      assert others[i] in multiset(others);
    }
    forall row | row in rows
      ensures row in others
    {
      assert row in multiset(rows);
    }
  }

  function Swapped<T>(s: seq<T>, i: nat, j: nat): seq<T>
    requires i < j < |s|
  {
    s[i := s[j]][j := s[i]]
  }

  lemma SwapSorted<K(!new)>(rows: seq<Row<K>>, title: K -> string, i: nat, j: nat)
    requires Sorting.SortedBy(rows, ByUsage(title)) && i < j < |rows| && Tied(rows[i], rows[j], title)
    ensures Sorting.SortedBy(Swapped(rows, i, j), ByUsage(title))
  {
    var swapped := Swapped(rows, i, j);
    forall a, b | 0 <= a < b < |rows|
      ensures !ByUsage(title)(swapped[b], swapped[a])
    {
      assert !ByUsage(title)(rows[b], rows[a]);
    }
  }

  lemma SwapTied<K(!new)>(rows: seq<Row<K>>, groups: map<K, Tally>, title: K -> string, i: nat, j: nat)
    requires IsTable(rows, groups, title) && i < j < |rows| && Tied(rows[i], rows[j], title)
    ensures IsTable(Swapped(rows, i, j), groups, title) && Swapped(rows, i, j) != rows
  {
    var swapped := Swapped(rows, i, j);
    SwapSorted(rows, title, i, j);
    forall key | key in groups
      ensures Row(key, groups[key]) in swapped
    {
      var m :| 0 <= m < |rows| && rows[m] == Row(key, groups[key]);
      assert swapped[if m == i then j else if m == j then i else m] == rows[m];
    }
    assert swapped[i] == rows[j] && rows[i].key != rows[j].key;
  }

  lemma TieGivesTwoTables<K(!new)>(groups: map<K, Tally>, title: K -> string, k: K, l: K)
    requires k in groups && l in groups && k != l && Tied(Row(k, groups[k]), Row(l, groups[l]), title)
    ensures !OneTable(groups, title)
  {
    var any := SomeList(groups);
    var rows := Sorting.Sort(any, ByUsage(title));
    SortedList(any, groups, title);
    var i :| 0 <= i < |rows| && rows[i] == Row(k, groups[k]);
    var j :| 0 <= j < |rows| && rows[j] == Row(l, groups[l]);
    SwapTied(rows, groups, title, if i < j then i else j, if i < j then j else i);
  }

  /** The table is the same whatever the map order and the sort do if and only if no two groups are tied
      on cost, requests and title. */
  lemma OneTableExactly<K(!new)>(groups: map<K, Tally>, title: K -> string)
    ensures OneTable(groups, title) <==> NoTiedGroups(groups, title)
  {
    if NoTiedGroups(groups, title) {
      forall rows: seq<Row<K>>, others: seq<Row<K>> | IsTable(rows, groups, title) && IsTable(others, groups, title)
        ensures rows == others
      {
        NoTiesOneTable(rows, others, groups, title);
      }
    } else {
      var k, l :| k in groups && l in groups && k != l && Tied(Row(k, groups[k]), Row(l, groups[l]), title);
      TieGivesTwoTables(groups, title, k, l);
    }
  }

  /** A table that depends on the order: two sites of the same name with the same cost and number of requests. */
  lemma SameNamedSites(first: int, second: int, t: Tally, u: Tally, siteNames: map<int, string>)
    requires first != second && t.effectiveCost == u.effectiveCost && t.requests == u.requests
    requires SiteTitle(siteNames)(first) == SiteTitle(siteNames)(second)
    ensures !OneTable(map[first := t, second := u], SiteTitle(siteNames))
  {
    var groups := map[first := t, second := u];
    assert Tied(Row(first, groups[first]), Row(second, groups[second]), SiteTitle(siteNames));
    OneTableExactly(groups, SiteTitle(siteNames));
  }

  /** Models are told apart by their titles, so the model table never depends on the map order. */
  lemma ModelTableIsUnique(groups: map<string, Tally>)
    ensures OneTable(groups, ModelTitle())
  {
    OneTableExactly(groups, ModelTitle());
  }

  // ----- cutting the table -----

  datatype Line<K> = Group(key: K, tally: Tally, share: real) | Others(tally: Tally, share: real)

  function LineAmount<K>(q: Quantity): Line<K> -> real {
    (l: Line<K>) => Amount(l.tally, q)
  }

  function AsLines<K>(rows: seq<Row<K>>): (lines: seq<Line<K>>)
    ensures |lines| == |rows| && forall i :: 0 <= i < |rows| ==> lines[i] == Group(rows[i].key, rows[i].tally, 0.0)
  {
    seq(|rows|, i requires 0 <= i < |rows| => Group(rows[i].key, rows[i].tally, 0.0))
  }

  lemma LinesAddUp<K>(rows: seq<Row<K>>, q: Quantity)
    ensures Sum(AsLines(rows), LineAmount(q)) == Sum(rows, RowAmount(q))
  {
    SumMatches(AsLines(rows), LineAmount(q), rows, RowAmount(q));
  }

  ghost predicate IsRest<K(!new)>(rest: Tally, rows: seq<Row<K>>) {
    forall q :: Amount(rest, q) == Sum(rows, RowAmount(q))
  }

  lemma RestGrows<K(!new)>(rest: Tally, rows: seq<Row<K>>, r: Row<K>)
    requires IsRest(rest, rows)
    ensures IsRest(Plus(rest, r.tally), rows + [r])
  {
    forall q
      ensures Amount(Plus(rest, r.tally), q) == Sum(rows + [r], RowAmount(q))
    {
      PlusAdds(rest, r.tally, q);
      SumConcat(rows, [r], RowAmount(q));
      SumOne(r, RowAmount(q));
    }
  }

  lemma CutAddsUp<K(!new)>(rows: seq<Row<K>>, k: nat, rest: Tally, q: Quantity)
    requires k <= |rows| && IsRest(rest, rows[k..])
    ensures Sum(AsLines(rows[..k]) + [Others(rest, 0.0)], LineAmount(q)) == Sum(rows, RowAmount(q))
  {
    var last: Line<K> := Others(rest, 0.0);
    SumConcat(AsLines(rows[..k]), [last], LineAmount(q));
    SumOne(last, LineAmount(q));
    LinesAddUp(rows[..k], q);
    SumConcat(rows[..k], rows[k..], RowAmount(q));
    assert rows == rows[..k] + rows[k..];
  }

  /** compactDashboardUsage and compactDashboardSiteUsage: at most `limit` lines, the first rows unchanged,
      and nothing lost. */
  method Compact<K(!new)>(rows: seq<Row<K>>, limit: nat) returns (lines: seq<Line<K>>)
    ensures limit < 2 || |rows| <= limit ==> lines == AsLines(rows)
    ensures 2 <= limit < |rows| ==> |lines| == limit && lines[..limit - 1] == AsLines(rows[..limit - 1]) && lines[limit - 1].Others?
    ensures forall q :: Sum(lines, LineAmount(q)) == Sum(rows, RowAmount(q))
  {
    if limit < 2 || |rows| <= limit {
      lines := AsLines(rows);
      forall q
        ensures Sum(lines, LineAmount(q)) == Sum(rows, RowAmount(q))
      {
        LinesAddUp(rows, q);
      }
      return;
    }
    var other := ZERO;
    for i := limit - 1 to |rows|
      invariant IsRest(other, rows[limit - 1..i])
    {
      RestGrows(other, rows[limit - 1..i], rows[i]);
      assert rows[limit - 1..i + 1] == rows[limit - 1..i] + [rows[i]];
      other := Plus(other, rows[i].tally);
    }
    assert rows[limit - 1..|rows|] == rows[limit - 1..];
    lines := AsLines(rows[..limit - 1]) + [Others(other, 0.0)];
    forall q
      ensures Sum(lines, LineAmount(q)) == Sum(rows, RowAmount(q))
    {
      CutAddsUp(rows, limit - 1, other, q);
    }
  }

  // ----- shares -----

  /** dashboardShare */
  function ShareOf(t: Tally, totals: Tally): real {
    if totals.effectiveCost > 0.0 then t.effectiveCost / totals.effectiveCost
    else if totals.requests > 0 then t.requests as real / totals.requests as real
    else 0.0
  }

  /** setUsageShares and setSiteUsageShares */
  method SetShares<K>(items: array<Line<K>>, totals: Tally)
    modifies items
    ensures forall i :: 0 <= i < items.Length ==> items[i] == old(items[i]).(share := ShareOf(old(items[i]).tally, totals))
  {
    for i := 0 to items.Length
      invariant forall j :: 0 <= j < i ==> items[j] == old(items[j]).(share := ShareOf(old(items[j]).tally, totals))
      invariant forall j :: i <= j < items.Length ==> items[j] == old(items[j])
    {
      items[i] := items[i].(share := ShareOf(items[i].tally, totals));
    }
  }

  function ShareIn<K>(): Line<K> -> real {
    (l: Line<K>) => l.share
  }

  ghost predicate Shared<K>(lines: seq<Line<K>>, totals: Tally) {
    forall i :: 0 <= i < |lines| ==> lines[i].share == ShareOf(lines[i].tally, totals)
  }

  /** The shares of a table that adds up to the totals add up to one as soon as something was spent or
      requested, and are all zero otherwise. */
  lemma SharesSumToOne<K(!new)>(lines: seq<Line<K>>, totals: Tally)
    requires Shared(lines, totals) && forall q :: Sum(lines, LineAmount(q)) == Amount(totals, q)
    ensures totals.effectiveCost > 0.0 || totals.requests > 0 ==> Sum(lines, ShareIn()) == 1.0
    ensures totals.effectiveCost <= 0.0 && totals.requests == 0 ==> Sum(lines, ShareIn()) == 0.0
  {
    assert Sum(lines, LineAmount(EffectiveCost)) == totals.effectiveCost;
    assert Sum(lines, LineAmount(Requests)) == totals.requests as real;
    if totals.effectiveCost > 0.0 {
      SumScaled(lines, LineAmount(EffectiveCost), ShareIn(), totals.effectiveCost);
      Whole(totals.effectiveCost);
    } else if totals.requests > 0 {
      SumScaled(lines, LineAmount(Requests), ShareIn(), totals.requests as real);
      Whole(totals.requests as real);
    } else {
      SumZero(lines, ShareIn());
    }
  }

  /** A share is the part of the whole cost, or of all requests if nothing was spent. */
  lemma SharesRead<K>(lines: seq<Line<K>>, totals: Tally, i: nat)
    requires Shared(lines, totals) && i < |lines|
    ensures totals.effectiveCost > 0.0 ==> lines[i].share * totals.effectiveCost == lines[i].tally.effectiveCost
    ensures totals.effectiveCost <= 0.0 && totals.requests > 0 ==>
              lines[i].share * totals.requests as real == lines[i].tally.requests as real
    ensures totals.effectiveCost <= 0.0 && totals.requests == 0 ==> lines[i].share == 0.0
  {
    if totals.effectiveCost > 0.0 {
      Part(lines[i].tally.effectiveCost, totals.effectiveCost);
    } else if totals.requests > 0 {
      Part(lines[i].tally.requests as real, totals.requests as real);
    }
  }

  lemma Part(a: real, t: real)
    requires t != 0.0
    ensures a / t * t == a
  {
  }

  lemma Whole(t: real)
    requires t != 0.0
    ensures t / t == 1.0
  {
  }

  // ----- the whole -----

  method SortedRows<K(!new,==)>(groups: map<K, Tally>, title: K -> string) returns (rows: seq<Row<K>>)
    ensures IsTable(rows, groups, title)
  {
    var listed := ListRows(groups);
    rows := Sorting.Sort(listed, ByUsage(title));
    SortedList(listed, groups, title);
  }

  /** The lines are the rows, or as many as fit with one line for all others. */
  predicate CutTo<K(==)>(lines: seq<Line<K>>, rows: seq<Row<K>>, limit: nat) {
    && |lines| == (if |rows| <= limit then |rows| else limit)
    && (forall i :: 0 <= i < |lines| && (i < limit - 1 || |rows| <= limit) ==>
          lines[i].Group? && lines[i].key == rows[i].key && lines[i].tally == rows[i].tally)
    && (1 <= limit < |rows| ==> lines[limit - 1].Others?)
  }

  ghost predicate IsReport<K(!new)>(lines: seq<Line<K>>, rows: seq<Row<K>>, groups: map<K, Tally>,
                                    stats: seq<Entry>, keyOf: KeyOf<K>, title: K -> string, limit: nat) {
    IsGrouping(groups, stats, keyOf) && IsTable(rows, groups, title) && CutTo(lines, rows, limit)
  }

  /** The lines report the statistics, grouped by a key, in the order of the table and cut to a limit. */
  ghost predicate Reports<K(!new)>(lines: seq<Line<K>>, stats: seq<Entry>, keyOf: KeyOf<K>, title: K -> string, limit: nat) {
    exists rows, groups :: IsReport(lines, rows, groups, stats, keyOf, title, limit)
  }

  /** The lines of a report, apart from the one for all others, are the rows of largest cost, in order. */
  lemma LinesAreLargest<K(!new)>(lines: seq<Line<K>>, rows: seq<Row<K>>, groups: map<K, Tally>, stats: seq<Entry>,
                                 keyOf: KeyOf<K>, title: K -> string, limit: nat, i: nat, key: K)
    requires IsReport(lines, rows, groups, stats, keyOf, title, limit) && i < |lines| && lines[i].Group? && key in groups
    requires limit >= 2 && (i < limit - 1 || |rows| <= limit)
    ensures lines[i].key in groups && lines[i].tally == groups[lines[i].key]
    ensures (exists j :: 0 <= j < i && lines[j].Group? && lines[j].key == key) || groups[key].effectiveCost <= lines[i].tally.effectiveCost
  {
    assert Row(key, groups[key]) in rows;
    var k :| 0 <= k < |rows| && rows[k] == Row(key, groups[key]);
    if k < i {
      assert lines[k].Group? && lines[k].key == key;
    } else if i < k {
      TableOrder(rows, groups, title, i, k);
    }
  }

  method Table<K(!new,==)>(groups: map<K, Tally>, title: K -> string, limit: nat, totals: Tally,
                        ghost entries: seq<Entry>, ghost keyOf: KeyOf<K>)
    returns (items: array<Line<K>>)
    requires IsGrouping(groups, entries, keyOf) && IsTotal(totals, entries) && 2 <= limit
    ensures fresh(items) && items.Length <= limit && Reports(items[..], entries, keyOf, title, limit)
    ensures Shared(items[..], totals) && forall q :: Sum(items[..], LineAmount(q)) == Amount(totals, q)
  {
    var rows := SortedRows(groups, title);
    var lines := Compact(rows, limit);
    items := WithShares(lines, totals);
    assert IsReport(items[..], rows, groups, entries, keyOf, title, limit) by {
      hide IsGrouping, IsTable;
      assert forall i :: 0 <= i < |lines| ==> items[..][i] == lines[i].(share := items[i].share);
    }
    hide Reports, IsReport, IsTable;
    forall q
      ensures Sum(items[..], LineAmount(q)) == Amount(totals, q)
    {
      RowsAddUp(rows, groups, entries, keyOf, totals, q);
    }
  }

  method WithShares<K(!new)>(lines: seq<Line<K>>, totals: Tally) returns (items: array<Line<K>>)
    ensures fresh(items) && items.Length == |lines| && Shared(items[..], totals)
    ensures forall i :: 0 <= i < |lines| ==> items[i] == lines[i].(share := ShareOf(lines[i].tally, totals))
    ensures forall q :: Sum(items[..], LineAmount(q)) == Sum(lines, LineAmount(q))
  {
    items := new Line<K>[|lines|](i requires 0 <= i < |lines| => lines[i]);
    SetShares(items, totals);
    forall q
      ensures Sum(items[..], LineAmount(q)) == Sum(lines, LineAmount(q))
    {
      SumMatches(items[..], LineAmount(q), lines, LineAmount(q));
    }
  }

  /** buildDashboardSnapshot, as far as usage goes. */
  method BuildUsage(stats: seq<Entry>, channelSites: map<int, int>, siteNames: map<int, string>)
    returns (totals: Tally, modelUsage: array<Line<string>>, siteUsage: array<Line<int>>)
    ensures IsTotal(totals, stats)
    ensures modelUsage.Length <= 12 && siteUsage.Length <= 10
    ensures Reports(modelUsage[..], stats, ModelOf(), ModelTitle(), 12) && Shared(modelUsage[..], totals)
    ensures Reports(siteUsage[..], stats, SiteOf(channelSites), SiteTitle(siteNames), 10) && Shared(siteUsage[..], totals)
    ensures forall q :: Sum(modelUsage[..], LineAmount(q)) == Amount(totals, q) == Sum(siteUsage[..], LineAmount(q))
    ensures totals.effectiveCost > 0.0 || totals.requests > 0 ==>
              Sum(modelUsage[..], ShareIn()) == 1.0 && Sum(siteUsage[..], ShareIn()) == 1.0
  {
    hide Reports, Shared, IsTotal, IsGrouping;
    var models, sites;
    totals, models, sites := Accumulate(stats, channelSites);
    modelUsage := Table(models, ModelTitle(), 12, totals, stats, ModelOf());
    siteUsage := Table(sites, SiteTitle(siteNames), 10, totals, stats, SiteOf(channelSites));
    SharesSumToOne(modelUsage[..], totals);
    SharesSumToOne(siteUsage[..], totals);
  }
}
