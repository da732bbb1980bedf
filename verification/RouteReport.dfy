/** The report of the route diagnosis, put together: the rows are selected, scored, sorted and marked, and every
    row is explained. */
module RouteReport {
  import opened RouteRanking
  import opened RouteSelection
  import opened Wrappers
  import Sorting

  /** The effective priority of a row, given the pool whose times to the first byte it is compared with. */
  type Health = (seq<Diagnostic>, Diagnostic) -> real

  /** What the caller decides: whether a cooling channel may be used and which, whether the token restricts
      the channels, and whether health scores are on. */
  datatype Setting = Setting(fallbackEnabled: bool, pick: seq<Diagnostic> -> Option<int>, tokenRestricted: bool,
                             healthEnabled: bool, effective: Health)

  datatype Line = Line(row: Diagnostic, reasons: seq<Reason>)

  datatype Report = NotFound | Report(mode: PoolMode, candidates: seq<Diagnostic>, lines: seq<Line>, target: nat, verdict: Verdict)

  function Chosen(ds: seq<Diagnostic>, setting: Setting): Selection {
    Select(ds, setting.fallbackEnabled, setting.pick, setting.tokenRestricted)
  }

  /** applyRouteDiagnosticHealth, for one row. */
  function Scored(d: Diagnostic, pool: seq<Diagnostic>, setting: Setting): Diagnostic {
    if setting.healthEnabled then d.(effectivePriority := setting.effective(pool, d)) else d
  }

  function AllScored(ds: seq<Diagnostic>, pool: seq<Diagnostic>, setting: Setting): (r: seq<Diagnostic>)
    ensures |r| == |ds| && forall i :: 0 <= i < |ds| ==> r[i] == Scored(ds[i], pool, setting)
  {
    seq(|ds|, i requires 0 <= i < |ds| => Scored(ds[i], pool, setting))
  }

  /** Rows as they come from NewDiagnostic, one for each channel; BuildRows makes such rows. */
  predicate Fresh(ds: seq<Diagnostic>, setting: Setting) {
    && DistinctChannels(ds)
    && forall d :: d in ds ==>
         Unplaced(d) && d.activeKeys <= d.eligibleKeys <= d.enabledKeys && (!setting.tokenRestricted ==> !d.tokenRejected)
  }

  // ----- the rows -----

  /** The channels a token is restricted to, or barred from; an empty set restricts nothing. */
  datatype Restriction = Restriction(ids: set<int>, deny: bool) {
    predicate Restricted() {
      ids != {}
    }

    predicate Allows(id: int) {
      !Restricted() || (if deny then id !in ids else id in ids)
    }
  }

  /** What the report is about: the stored channels, of which some may be missing, their keys and the requested model. */
  datatype Inputs = Inputs(configs: seq<Option<Config>>, keys: map<int, seq<Option<Key>>>, snap: Snapshot, requested: string,
                           restriction: Restriction)

  function Present(configs: seq<Option<Config>>): (r: seq<Config>)
    ensures forall cfg :: cfg in r <==> Some(cfg) in configs
  {
    if configs == [] then []
    else
      var n := |configs| - 1;
      assert forall c :: c in configs <==> c in configs[..n] || c == configs[n];
      Present(configs[..n]) + if configs[n].Some? then [configs[n].value] else []
  }

  function KeysOf(inputs: Inputs, id: int): seq<Option<Key>> {
    if id in inputs.keys then inputs.keys[id] else []
  }

  /** One row for each channel, in order. */
  ghost predicate AreRows(ds: seq<Diagnostic>, configs: seq<Config>, inputs: Inputs) {
    && |ds| == |configs|
    && forall i :: 0 <= i < |ds| ==> IsRowOf(ds[i], configs[i], inputs)
  }

  /** The row of a channel: its keys are the stored ones, if any, and the token rejects it if it is listed in a restriction
      that denies, or not listed in one that permits. */
  ghost predicate IsRowOf(d: Diagnostic, cfg: Config, inputs: Inputs) {
    var r := inputs.restriction;
    Describes(d, cfg, if cfg.id in inputs.keys then inputs.keys[cfg.id] else [], inputs.snap, inputs.requested,
              r.ids != {} && (cfg.id in r.ids <==> r.deny))
  }

  predicate DistinctIds(configs: seq<Config>) {
    forall i, j :: 0 <= i < j < |configs| ==> configs[i].id != configs[j].id
  }

  /** The first loop of buildChannelRouteDiagnostics. */
  method BuildRows(inputs: Inputs) returns (ds: seq<Diagnostic>)
    ensures AreRows(ds, Present(inputs.configs), inputs)
  {
    hide Describes;
    ds := [];
    var configs := inputs.configs;
    for i := 0 to |configs|
      invariant AreRows(ds, Present(configs[..i]), inputs)
    {
      assert configs[..i + 1][..i] == configs[..i];
      if configs[i].Some? {
        var cfg := configs[i].value;
        var rejected := inputs.restriction.Restricted() && !inputs.restriction.Allows(cfg.id);
        var d := NewDiagnostic(cfg, KeysOf(inputs, cfg.id), inputs.snap, inputs.requested, rejected);
        ds := ds + [d];
      }
    }
    assert configs[..|configs|] == configs;
  }

  /** Rows of channels with different ids are fit for a report. */
  lemma RowsAreFresh(ds: seq<Diagnostic>, configs: seq<Config>, inputs: Inputs, setting: Setting)
    requires AreRows(ds, configs, inputs) && DistinctIds(configs) && setting.tokenRestricted == inputs.restriction.Restricted()
    ensures Fresh(ds, setting)
  {
    hide IsRowOf;
    forall i | 0 <= i < |ds|
      ensures ds[i].cfg == configs[i]
      ensures Unplaced(ds[i]) && ds[i].activeKeys <= ds[i].eligibleKeys <= ds[i].enabledKeys
      ensures !setting.tokenRestricted ==> !ds[i].tokenRejected
    {
      RowIsFresh(ds[i], configs[i], inputs);
    }
  }

  lemma RowIsFresh(d: Diagnostic, cfg: Config, inputs: Inputs)
    requires IsRowOf(d, cfg, inputs)
    ensures d.cfg == cfg && Unplaced(d) && d.activeKeys <= d.eligibleKeys <= d.enabledKeys
    ensures d.tokenRejected <==> !inputs.restriction.Allows(cfg.id)
  {
  }

  /** A channel has a row if and only if it is stored. */
  lemma RowsAreOfConfigs(ds: seq<Diagnostic>, configs: seq<Config>, inputs: Inputs, id: int)
    requires AreRows(ds, configs, inputs)
    ensures (forall d :: d in ds ==> d.cfg.id != id) <==> forall cfg :: cfg in configs ==> cfg.id != id
  {
    hide IsRowOf;
    forall i | 0 <= i < |ds|
      ensures ds[i].cfg == configs[i] && ds[i] in ds && configs[i] in configs
    {
      RowIsFresh(ds[i], configs[i], inputs);
    }
  }

  // ----- the candidates -----

  /** The candidates are the scored pool, sorted with their buckets together and marked. */
  ghost predicate AreCandidates(candidates: seq<Diagnostic>, sorted: seq<Diagnostic>, pool: seq<Diagnostic>, setting: Setting) {
    && multiset(sorted) == multiset(AllScored(pool, pool, setting))
    && Sorting.SortedBy(sorted, AheadBy(setting.healthEnabled)) && Grouped(Buckets(sorted, BucketOf(setting.healthEnabled)))
    && AllMarked(candidates, sorted, Buckets(sorted, BucketOf(setting.healthEnabled)), Weights(sorted))
  }

  method Candidates(pool: seq<Diagnostic>, setting: Setting) returns (candidates: seq<Diagnostic>, ghost sorted: seq<Diagnostic>)
    requires forall d :: d in pool ==> Unplaced(d)
    ensures AreCandidates(candidates, sorted, pool, setting)
  {
    var scored := AllScored(pool, pool, setting);
    var order := SortPool(scored, setting.healthEnabled);
    forall d | d in order
      ensures Unplaced(d)
    {
      assert d in multiset(order) && d in multiset(scored);
      var i :| 0 <= i < |scored| && scored[i] == d;
      assert pool[i] in pool;
    }
    var rows := new Diagnostic[|order|](i requires 0 <= i < |order| => order[i]);
    assert rows[..] == order;
    BucketsIgnoreMarks(setting.healthEnabled);
    Mark(rows, BucketOf(setting.healthEnabled));
    candidates, sorted := rows[..], order;
  }

  /** The ranks and shares shown with the candidates, whose buckets are `bs`.  Positions are the dense rank of the
      buckets, highest first; the counts of a row partition the candidates and say which ones share its bucket; and
      every candidate gets a share, the shares of a bucket adding up to one and being in proportion to the active keys. */
  ghost predicate AreRanked(candidates: seq<Diagnostic>, bs: seq<int>) {
    && |candidates| == |bs| && Grouped(bs)
    && forall i, j :: 0 <= i <= j < |bs| ==> RankedPair(candidates, bs, i, j) && HasItsShare(candidates, bs, i) && HasItsShare(candidates, bs, j)
  }

  ghost predicate RankedPair(candidates: seq<Diagnostic>, bs: seq<int>, i: nat, j: nat)
    requires i <= j < |candidates| == |bs|
  {
    var d, e := candidates[i], candidates[j];
    && candidates[0].position == 1 && d.position <= e.position
    && (j == i + 1 ==> e.position <= d.position + 1)
    && (d.position == e.position <==> bs[i] == bs[j])
    && (d.higher <= j < d.higher + d.same <==> bs[i] == bs[j]) && (e.higher <= i < e.higher + e.same <==> bs[i] == bs[j])
    && (bs[i] == bs[j] ==>
          var k, l := if d.activeKeys > 1 then d.activeKeys else 1, if e.activeKeys > 1 then e.activeKeys else 1;
          d.share * l as real == e.share * k as real)
  }

  ghost predicate HasItsShare(candidates: seq<Diagnostic>, bs: seq<int>, i: nat)
    requires i < |candidates| == |bs|
  {
    var d := candidates[i];
    && d.higher <= i < d.higher + d.same && d.higher + d.same + Rows(bs, bs[i], Below) == |bs|
    && 0.0 < d.share <= 1.0 && SharesIn(candidates, bs, bs[i]) == 1.0
  }

  lemma MarkedAreRanked(candidates: seq<Diagnostic>, sorted: seq<Diagnostic>, bs: seq<int>)
    requires AllMarked(candidates, sorted, bs, Weights(sorted)) && Grouped(bs)
    ensures AreRanked(candidates, bs)
  {
    hide AllMarked, Rows, SharesIn;
    assert |candidates| == |bs| by { LengthsAgree(candidates, sorted, bs); }
    forall i, j | 0 <= i <= j < |bs|
      ensures RankedPair(candidates, bs, i, j) && HasItsShare(candidates, bs, i) && HasItsShare(candidates, bs, j)
    {
      MarkedPair(candidates, sorted, bs, i, j);
      MarkedShare(candidates, sorted, bs, i);
      MarkedShare(candidates, sorted, bs, j);
    }
  }

  lemma LengthsAgree(candidates: seq<Diagnostic>, sorted: seq<Diagnostic>, bs: seq<int>)
    requires AllMarked(candidates, sorted, bs, Weights(sorted))
    ensures |candidates| == |bs|
  {
  }

  lemma MarkedPair(candidates: seq<Diagnostic>, sorted: seq<Diagnostic>, bs: seq<int>, i: nat, j: nat)
    requires AllMarked(candidates, sorted, bs, Weights(sorted)) && Grouped(bs) && |candidates| == |bs| && i <= j < |bs|
    ensures RankedPair(candidates, bs, i, j)
  {
    hide AllMarked, Grouped, Rows;
    PositionIsDenseRank(candidates, sorted, bs, Weights(sorted), i, j);
    PositionIsDenseRank(candidates, sorted, bs, Weights(sorted), j, j);
    CountsPartitionThePool(candidates, sorted, bs, Weights(sorted), i, j);
    CountsPartitionThePool(candidates, sorted, bs, Weights(sorted), j, i);
    if bs[i] == bs[j] {
      SharesFollowKeys(candidates, sorted, bs, i, j);
    }
  }

  lemma MarkedShare(candidates: seq<Diagnostic>, sorted: seq<Diagnostic>, bs: seq<int>, i: nat)
    requires AllMarked(candidates, sorted, bs, Weights(sorted)) && Grouped(bs) && |candidates| == |bs| && i < |bs|
    ensures HasItsShare(candidates, bs, i)
  {
    hide AllMarked, Grouped, Rows, SharesIn;
    CountsPartitionThePool(candidates, sorted, bs, Weights(sorted), i, i);
    SharesSumToOne(candidates, sorted, bs, Weights(sorted), i);
  }

  /** The candidates of the report are ranked as their own buckets say. */
  lemma CandidatesAreRanked(candidates: seq<Diagnostic>, sorted: seq<Diagnostic>, pool: seq<Diagnostic>, setting: Setting)
    requires AreCandidates(candidates, sorted, pool, setting)
    ensures AreRanked(candidates, Buckets(candidates, BucketOf(setting.healthEnabled)))
  {
    hide Grouped, AreRanked;
    var bucket := BucketOf(setting.healthEnabled);
    BucketsIgnoreMarks(setting.healthEnabled);
    MarkedBuckets(candidates, sorted, bucket);
    MarkedAreRanked(candidates, sorted, Buckets(sorted, bucket));
  }

  /** Marking moves no row to another bucket. */
  lemma MarkedBuckets(candidates: seq<Diagnostic>, sorted: seq<Diagnostic>, bucket: Diagnostic -> int)
    requires IgnoresMarks(bucket) && AllMarked(candidates, sorted, Buckets(sorted, bucket), Weights(sorted))
    ensures Buckets(candidates, bucket) == Buckets(sorted, bucket)
  {
    forall i | 0 <= i < |candidates|
      ensures bucket(candidates[i]) == bucket(sorted[i])
    {
      assert Marked(candidates[i], sorted, i, Buckets(sorted, bucket), Weights(sorted));
    }
  }

  lemma PoolIsOfRows(ds: seq<Diagnostic>, setting: Setting, d: Diagnostic)
    ensures d in Chosen(ds, setting).pool ==> d in ds
  {
  }

  /** A candidate is a scored row of the pool with its marks. */
  lemma CandidateOfPool(candidates: seq<Diagnostic>, sorted: seq<Diagnostic>, pool: seq<Diagnostic>, setting: Setting, k: nat)
    returns (d: Diagnostic)
    requires AreCandidates(candidates, sorted, pool, setting) && k < |candidates|
    ensures d in pool && SameRow(d, candidates[k]) && candidates[k].candidate
    ensures candidates[k].effectivePriority == Scored(d, pool, setting).effectivePriority
  {
    assert Marked(candidates[k], sorted, k, Buckets(sorted, BucketOf(setting.healthEnabled)), Weights(sorted));
    assert sorted[k] in multiset(sorted);
    var i :| 0 <= i < |pool| && AllScored(pool, pool, setting)[i] == sorted[k];
    d := pool[i];
  }

  /** ... and every row of the pool has a candidate. */
  lemma PoolHasCandidate(candidates: seq<Diagnostic>, sorted: seq<Diagnostic>, pool: seq<Diagnostic>, setting: Setting, d: Diagnostic)
    returns (k: nat)
    requires AreCandidates(candidates, sorted, pool, setting) && d in pool
    ensures k < |candidates| && candidates[k].cfg == d.cfg
  {
    var i :| 0 <= i < |pool| && pool[i] == d;
    assert AllScored(pool, pool, setting)[i] in multiset(AllScored(pool, pool, setting));
    assert AllScored(pool, pool, setting)[i] in multiset(sorted);
    k :| 0 <= k < |sorted| && sorted[k] == AllScored(pool, pool, setting)[i];
    assert Marked(candidates[k], sorted, k, Buckets(sorted, BucketOf(setting.healthEnabled)), Weights(sorted));
  }

  lemma ChosenOnce(ds: seq<Diagnostic>, setting: Setting, d: Diagnostic)
    ensures multiset(Chosen(ds, setting).pool)[d] <= multiset(ds)[d]
  {
    var exact, matching := Filter(ds, ExactEligible), Filter(ds, FuzzyEligible);
    FilterKeepsMultiplicity(ds, ExactEligible, d);
    FilterKeepsMultiplicity(exact, Available, d);
    FilterKeepsMultiplicity(ds, FuzzyEligible, d);
    FilterKeepsMultiplicity(matching, Available, d);
    if setting.pick(matching).Some? {
      FilterKeepsMultiplicity(matching, HasId(setting.pick(matching).value), d);
    }
    FilterKeepsMultiplicity(BeforeToken(ds, setting.fallbackEnabled, setting.pick).1, TokenAllows, d);
  }

  lemma {:induction false} OnlyOnce(ds: seq<Diagnostic>, d: Diagnostic)
    requires DistinctChannels(ds)
    ensures multiset(ds)[d] <= 1
  {
    if ds != [] {
      var n := |ds| - 1;
      OnlyOnce(ds[..n], d);
      assert ds == ds[..n] + [ds[n]];
      if d == ds[n] {
        assert d !in ds[..n];
        assert multiset(ds[..n])[d] == 0;
      }
    }
  }

  /** No channel is in the pool twice. */
  lemma PoolIsDistinct(ds: seq<Diagnostic>, setting: Setting)
    requires Fresh(ds, setting)
    ensures DistinctChannels(Chosen(ds, setting).pool)
  {
    hide Select;
    var pool := Chosen(ds, setting).pool;
    forall i, j | 0 <= i < j < |pool|
      ensures pool[i].cfg.id != pool[j].cfg.id
    {
      PoolIsOfRows(ds, setting, pool[i]);
      PoolIsOfRows(ds, setting, pool[j]);
      if pool[i].cfg.id == pool[j].cfg.id {
        SameChannel(ds, pool[i], pool[j]);
        Sorting.Repeated(pool, i, j);
        ChosenOnce(ds, setting, pool[i]);
        OnlyOnce(ds, pool[i]);
        assert false;
      }
    }
  }

  /** The rows and the setting determine the candidates: there is no second way to sort and mark them. */
  lemma CandidatesAreDetermined(ds: seq<Diagnostic>, setting: Setting, candidates: seq<Diagnostic>, sorted: seq<Diagnostic>,
                                others: seq<Diagnostic>, otherwise: seq<Diagnostic>)
    requires Fresh(ds, setting)
    requires AreCandidates(candidates, sorted, Chosen(ds, setting).pool, setting)
    requires AreCandidates(others, otherwise, Chosen(ds, setting).pool, setting)
    ensures candidates == others
  {
    hide Select, Grouped;
    var pool := Chosen(ds, setting).pool;
    PoolIsDistinct(ds, setting);
    PoolOrderIsUnique(AllScored(pool, pool, setting), sorted, otherwise, setting.healthEnabled);
    var bs, ws := Buckets(sorted, BucketOf(setting.healthEnabled)), Weights(sorted);
    forall i | 0 <= i < |candidates|
      ensures candidates[i] == others[i]
    {
      assert Marked(candidates[i], sorted, i, bs, ws) && Marked(others[i], sorted, i, bs, ws);
    }
  }

  /** The row shown for `d`: its candidate if it has one, and otherwise a row without position, counts or share,
      so that resetting these for a target outside the pool changes nothing. */
  ghost predicate IsShown(shown: Diagnostic, d: Diagnostic, candidates: seq<Diagnostic>, pool: seq<Diagnostic>, setting: Setting) {
    && SameRow(d, shown) && (shown.candidate <==> d in pool)
    && shown.effectivePriority == Scored(d, pool, setting).effectivePriority
    && if d in pool then shown in candidates else Unplaced(shown)
  }

  /** The rows and the candidates of the source are the same objects; here they are matched by channel. */
  method ShowRow(d: Diagnostic, candidates: seq<Diagnostic>, ds: seq<Diagnostic>, setting: Setting,
                 pool: seq<Diagnostic>, ghost sorted: seq<Diagnostic>) returns (shown: Diagnostic)
    requires Fresh(ds, setting) && d in ds && pool == Chosen(ds, setting).pool
    requires AreCandidates(candidates, sorted, pool, setting)
    ensures IsShown(shown, d, candidates, pool, setting)
  {
    hide AreCandidates, Select, Unplaced;
    for k := 0 to |candidates|
      invariant forall j :: 0 <= j < k ==> candidates[j].cfg.id != d.cfg.id
    {
      if candidates[k].cfg.id == d.cfg.id {
        ghost var p := CandidateOfPool(candidates, sorted, pool, setting, k);
        PoolIsOfRows(ds, setting, p);
        SameChannel(ds, d, p);
        return candidates[k];
      }
    }
    if d in pool {
      ghost var k := PoolHasCandidate(candidates, sorted, pool, setting, d);
      assert false;
    }
    ScoredIsUnplaced(d, pool, setting);
    return Scored(d, pool, setting);
  }

  lemma ScoredIsUnplaced(d: Diagnostic, pool: seq<Diagnostic>, setting: Setting)
    requires Unplaced(d)
    ensures Unplaced(Scored(d, pool, setting)) && SameRow(d, Scored(d, pool, setting)) && !Scored(d, pool, setting).candidate
  {
  }

  lemma SameChannel(ds: seq<Diagnostic>, d: Diagnostic, p: Diagnostic)
    requires DistinctChannels(ds) && d in ds && p in ds && d.cfg.id == p.cfg.id
    ensures d == p
  {
  }

  // ----- the report -----

  /** What the report says about row `d` of `ds`. */
  ghost predicate Tells(l: Line, d: Diagnostic, ds: seq<Diagnostic>, candidates: seq<Diagnostic>, setting: Setting) {
    var sel := Chosen(ds, setting);
    IsShown(l.row, d, candidates, sel.pool, setting) && Explains(l.reasons, l.row, sel.mode, sel.exactAvailable)
  }

  ghost predicate TellsAll(lines: seq<Line>, ds: seq<Diagnostic>, candidates: seq<Diagnostic>, setting: Setting) {
    |lines| == |ds| && forall i :: 0 <= i < |ds| ==> Tells(lines[i], ds[i], ds, candidates, setting)
  }

  method Explain(ds: seq<Diagnostic>, candidates: seq<Diagnostic>, setting: Setting, sel: Selection, ghost sorted: seq<Diagnostic>)
    returns (lines: seq<Line>)
    requires Fresh(ds, setting) && sel == Chosen(ds, setting) && AreCandidates(candidates, sorted, sel.pool, setting)
    ensures TellsAll(lines, ds, candidates, setting)
  {
    hide AreCandidates, Select, Explains, IsShown, Fresh;
    lines := [];
    for i := 0 to |ds|
      invariant |lines| == i && forall j :: 0 <= j < i ==> Tells(lines[j], ds[j], ds, candidates, setting)
    {
      var shown := ShowRow(ds[i], candidates, ds, setting, sel.pool, sorted);
      var reasons := Reasons(shown, sel.mode, sel.exactAvailable);
      lines := lines + [Line(shown, reasons)];
    }
  }

  /** Each line agrees with the selection: exactly the channels of the pool are candidates, a channel outside it
      has a blocking reason, and in the exact and fuzzy modes and without a pool only those have one. */
  lemma LineAgrees(l: Line, d: Diagnostic, ds: seq<Diagnostic>, candidates: seq<Diagnostic>, setting: Setting)
    requires Fresh(ds, setting) && d in ds && Tells(l, d, ds, candidates, setting)
    ensures l.row.candidate <==> d in Chosen(ds, setting).pool
    ensures l.row.effectivePriority == if setting.healthEnabled then setting.effective(Chosen(ds, setting).pool, d) else d.effectivePriority
    ensures !l.row.candidate ==> Barred(l.reasons)
    ensures !Chosen(ds, setting).mode.CooldownFallback? ==> (l.row.candidate <==> !Barred(l.reasons))
  {
    ExplanationAgreesWithSelection(ds, setting.fallbackEnabled, setting.pick, setting.tokenRestricted, d, l.row, l.reasons);
  }

  /** What the summary says about the target, from the rows alone. */
  ghost predicate IsVerdict(v: Verdict, l: Line, d: Diagnostic, ds: seq<Diagnostic>, setting: Setting) {
    && v == Summarise(l.row, l.reasons)
    && !v.NotCandidateUnexplained?
    && (v.NotCandidate? <==> d !in Chosen(ds, setting).pool)
    && (v.Skipped? <==> d in Chosen(ds, setting).pool && (d.rpmExceeded || d.concurrencyFull))
    && (v.First? ==> l.row.higher == 0 && l.row.same <= 1)
    && v == (var row := l.row;
             if row.candidate then
               if row.rpmExceeded then Skipped(RpmLimit)
               else if row.concurrencyFull then Skipped(ConcurrencyLimit)
               else if row.higher > 0 then Behind(row.higher)
               else if row.same > 1 then InTopGroup(row.same, row.share)
               else First
             else
               match FirstObstacle(row, Chosen(ds, setting).exactAvailable)
               case Some(c) => NotCandidate(c)
               case None => NotCandidateUnexplained)
  }

  method Conclude(l: Line, ghost d: Diagnostic, ghost ds: seq<Diagnostic>, ghost candidates: seq<Diagnostic>, ghost setting: Setting)
    returns (v: Verdict)
    requires Fresh(ds, setting) && d in ds && Tells(l, d, ds, candidates, setting)
    ensures IsVerdict(v, l, d, ds, setting)
  {
    v := Summary(l.row, l.reasons);
    SummaryAlwaysExplains(ds, setting.fallbackEnabled, setting.pick, setting.tokenRestricted, d, l.row, l.reasons);
    SummaryNamesTheFirstReason(l.reasons, l.row, Chosen(ds, setting).mode, Chosen(ds, setting).exactAvailable);
  }

  /** The report about `targetID`.  The channel asked for is found or the report says so; the candidates are the
      selected pool, scored, sorted, marked and ranked; every line shows its row and the reasons that apply to it; and
      the verdict on the target is never without a reason. */
  ghost predicate IsReport(r: Report, ds: seq<Diagnostic>, targetID: int, setting: Setting) {
    && (r.NotFound? <==> forall d :: d in ds ==> d.cfg.id != targetID)
    && (r.Report? ==>
          && r.mode == Chosen(ds, setting).mode
          && (exists sorted :: AreCandidates(r.candidates, sorted, Chosen(ds, setting).pool, setting))
          && AreRanked(r.candidates, Buckets(r.candidates, BucketOf(setting.healthEnabled)))
          && TellsAll(r.lines, ds, r.candidates, setting)
          && r.target < |ds| && ds[r.target].cfg.id == targetID
          && IsVerdict(r.verdict, r.lines[r.target], ds[r.target], ds, setting))
  }

  /** buildChannelRouteDiagnostics, from the rows on. */
  method Build(ds: seq<Diagnostic>, targetID: int, setting: Setting) returns (r: Report)
    requires Fresh(ds, setting)
    ensures IsReport(r, ds, targetID, setting)
  {
    hide AreCandidates, AreRanked, Select, Tells, IsVerdict, Fresh;
    var target := 0;
    while target < |ds| && ds[target].cfg.id != targetID
      invariant target <= |ds| && forall j :: 0 <= j < target ==> ds[j].cfg.id != targetID
    {
      target := target + 1;
    }
    if target == |ds| {
      return NotFound;
    }
    var sel := SelectPool(ds, setting.fallbackEnabled, setting.pick, setting.tokenRestricted);
    PoolIsUnplaced(ds, setting);
    var candidates;
    ghost var sorted;
    candidates, sorted := Candidates(sel.pool, setting);
    CandidatesAreRanked(candidates, sorted, sel.pool, setting);
    var lines := Explain(ds, candidates, setting, sel, sorted);
    assert Tells(lines[target], ds[target], ds, candidates, setting);
    var verdict := Conclude(lines[target], ds[target], ds, candidates, setting);
    return Report(sel.mode, candidates, lines, target, verdict);
  }

  /** buildChannelRouteDiagnostics from the stored channels on: their ids differ, because the id is the primary key. */
  method Diagnose(inputs: Inputs, targetID: int, setting: Setting) returns (r: Report, ghost ds: seq<Diagnostic>)
    requires DistinctIds(Present(inputs.configs)) && setting.tokenRestricted == inputs.restriction.Restricted()
    ensures AreRows(ds, Present(inputs.configs), inputs) && IsReport(r, ds, targetID, setting)
    ensures r.NotFound? <==> forall cfg :: Some(cfg) in inputs.configs ==> cfg.id != targetID
  {
    hide AreRows, DistinctIds, Fresh, AreCandidates, AreRanked, Select, TellsAll, IsVerdict;
    var rows := BuildRows(inputs);
    RowsAreFresh(rows, Present(inputs.configs), inputs, setting);
    RowsAreOfConfigs(rows, Present(inputs.configs), inputs, targetID);
    r := Build(rows, targetID, setting);
    ds := rows;
  }

  lemma PoolIsUnplaced(ds: seq<Diagnostic>, setting: Setting)
    requires Fresh(ds, setting)
    ensures forall d :: d in Chosen(ds, setting).pool ==> Unplaced(d)
  {
    forall d | d in Chosen(ds, setting).pool
      ensures Unplaced(d)
    {
      PoolIsOfRows(ds, setting, d);
    }
  }
}
