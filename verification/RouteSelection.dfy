/** Which channels a request would try, and the explanation given for every channel.  The pool is built
    by one procedure and explained by another; the main result is that the two agree. */
module RouteSelection {
  import ChannelModel
  import opened Wrappers

  datatype Config = Config(
    id: int,
    enabled: bool,
    priority: int,
    oauth: bool,
    rpmLimit: int,
    maxConcurrency: int,
    dailyCostLimit: real,
    models: seq<ChannelModel.ModelEntry>)

  /** `allows`: the key's model scope admits the requested model. */
  datatype Key = Key(index: int, disabled: bool, allows: bool)

  /** What the server knows when the report is built; a missing entry is Go's zero value.  `fuzzy` holds
      the channels whose models match the request approximately. */
  datatype Snapshot = Snapshot(
    now: int,
    channelUntil: map<int, int>,
    modelUntil: map<int, int>,
    keyUntil: map<(int, int), int>,
    costs: map<int, real>,
    rpm: map<int, int>,
    concurrency: map<int, int>,
    fuzzy: set<int>)

  /** One channel's row of the report. */
  datatype Diagnostic = Diagnostic(
    cfg: Config,
    exact: bool,
    fuzzy: bool,
    enabledKeys: nat,
    eligibleKeys: nat,
    activeKeys: nat,
    channelCooldown: Option<int>,
    modelCooldown: Option<int>,
    costExceeded: bool,
    tokenRejected: bool,
    rpmExceeded: bool,
    concurrencyFull: bool,
    effectivePriority: real,
    candidate: bool,
    position: nat,
    higher: nat,
    same: nat,
    share: real)

  datatype PoolMode = NoPool | ExactPool | FuzzyPool | CooldownFallback

  // ----- building a row -----

  predicate Later(until: map<int, int>, id: int, now: int) {
    id in until && until[id] > now
  }

  predicate KeyCooling(snap: Snapshot, id: int, index: int) {
    (id, index) in snap.keyUntil && snap.keyUntil[(id, index)] > snap.now
  }

  predicate Usable(k: Option<Key>) {
    k.Some? && !k.value.disabled
  }

  predicate Eligible(k: Option<Key>) {
    Usable(k) && k.value.allows
  }

  predicate Active(k: Option<Key>, snap: Snapshot, id: int) {
    Eligible(k) && !KeyCooling(snap, id, k.value.index)
  }

  function Ready(snap: Snapshot, id: int): Option<Key> -> bool {
    (k: Option<Key>) => Active(k, snap, id)
  }

  /** How many of the first `n` keys satisfy `p`. */
  function CountUpTo(keys: seq<Option<Key>>, p: Option<Key> -> bool, n: nat): nat
    requires n <= |keys|
  {
    if n == 0 then 0 else CountUpTo(keys, p, n - 1) + if p(keys[n - 1]) then 1 else 0
  }

  function CountIf(keys: seq<Option<Key>>, p: Option<Key> -> bool): nat {
    CountUpTo(keys, p, |keys|)
  }

  /** A count of zero means that there is no such key. */
  lemma {:induction false} CountsNothing(keys: seq<Option<Key>>, p: Option<Key> -> bool, n: nat)
    requires n <= |keys|
    ensures CountUpTo(keys, p, n) == 0 <==> forall i :: 0 <= i < n ==> !p(keys[i])
  {
    if n > 0 {
      CountsNothing(keys, p, n - 1);
    }
  }

  method ExactMatch(cfg: Config, requested: string) returns (r: bool)
    ensures r <==> exists e :: e in cfg.models && !e.disabled && e.model == requested
  {
    for i := 0 to |cfg.models|
      invariant forall j :: 0 <= j < i ==> cfg.models[j].disabled || cfg.models[j].model != requested
    {
      if !cfg.models[i].disabled && cfg.models[i].model == requested {
        return true;
      }
    }
    return false;
  }

  method CountKeys(keys: seq<Option<Key>>, snap: Snapshot, id: int) returns (enabled: nat, eligible: nat, active: nat)
    ensures enabled == CountIf(keys, Usable)
    ensures eligible == CountIf(keys, Eligible)
    ensures active == CountIf(keys, Ready(snap, id))
    ensures active <= eligible <= enabled
  {
    enabled, eligible, active := 0, 0, 0;
    for i := 0 to |keys|
      invariant enabled == CountUpTo(keys, Usable, i)
      invariant eligible == CountUpTo(keys, Eligible, i)
      invariant active == CountUpTo(keys, Ready(snap, id), i)
      invariant active <= eligible <= enabled
    {
      if Usable(keys[i]) {
        enabled := enabled + 1;
        if keys[i].value.allows {
          eligible := eligible + 1;
          if !KeyCooling(snap, id, keys[i].value.index) {
            active := active + 1;
          }
        }
      }
    }
  }

  function CooldownUntil(until: map<int, int>, id: int, now: int): (r: Option<int>)
    ensures r.Some? <==> Later(until, id, now)
    ensures r.Some? ==> r.value == until[id]
  {
    if Later(until, id, now) then Some(until[id]) else None
  }

  predicate Reached(limit: int, counts: map<int, int>, id: int) {
    limit > 0 && id in counts && counts[id] >= limit
  }

  predicate CostReached(limit: real, costs: map<int, real>, id: int) {
    limit > 0.0 && id in costs && costs[id] >= limit
  }

  /** The key counts of a channel; a channel with an OAuth credential counts as one usable key. */
  method KeyCounts(cfg: Config, keys: seq<Option<Key>>, snap: Snapshot) returns (enabled: nat, eligible: nat, active: nat)
    ensures cfg.oauth ==> enabled == eligible == active == 1
    ensures !cfg.oauth ==> enabled == CountIf(keys, Usable) && eligible == CountIf(keys, Eligible)
    ensures !cfg.oauth ==> active == CountIf(keys, Ready(snap, cfg.id))
    ensures active <= eligible <= enabled
  {
    enabled, eligible, active := CountKeys(keys, snap, cfg.id);
    if cfg.oauth {
      enabled, eligible, active := 1, 1, 1;
    }
  }

  function Places(keys: seq<Option<Key>>, p: Option<Key> -> bool, n: nat): set<int>
    requires n <= |keys|
  {
    set i | 0 <= i < n && p(keys[i])
  }

  /** How many keys satisfy `p`, counted by their places. */
  lemma {:induction false} CountIsSize(keys: seq<Option<Key>>, p: Option<Key> -> bool, n: nat)
    requires n <= |keys|
    ensures CountUpTo(keys, p, n) == |Places(keys, p, n)|
  {
    if n > 0 {
      CountIsSize(keys, p, n - 1);
      var before := Places(keys, p, n - 1);
      assert Places(keys, p, n) == if p(keys[n - 1]) then before + {n - 1} else before;
    }
  }

  /** The places of the keys that are switched on, ... */
  function SwitchedOn(keys: seq<Option<Key>>): (r: set<int>)
    ensures forall i :: i in r ==> 0 <= i < |keys| && keys[i].Some?
  {
    set i | 0 <= i < |keys| && keys[i].Some? && !keys[i].value.disabled
  }

  /** ... of those among them whose scope admits the model, ... */
  function Admitting(keys: seq<Option<Key>>): (r: set<int>)
    ensures forall i :: i in r ==> 0 <= i < |keys| && keys[i].Some?
  {
    set i | i in SwitchedOn(keys) && keys[i].value.allows
  }

  /** ... and of those among these that are cooling down. */
  function CoolingDown(keys: seq<Option<Key>>, snap: Snapshot, id: int): set<int> {
    set i | i in Admitting(keys) && (id, keys[i].value.index) in snap.keyUntil && snap.keyUntil[(id, keys[i].value.index)] > snap.now
  }

  /** The key counts of a row. */
  ghost predicate CountsKeys(d: Diagnostic, keys: seq<Option<Key>>, snap: Snapshot) {
    && d.enabledKeys == |SwitchedOn(keys)| && d.eligibleKeys == |Admitting(keys)|
    && d.activeKeys == |Admitting(keys) - CoolingDown(keys, snap, d.cfg.id)|
  }

  lemma CountsAreSizes(d: Diagnostic, keys: seq<Option<Key>>, snap: Snapshot)
    requires d.enabledKeys == CountIf(keys, Usable) && d.eligibleKeys == CountIf(keys, Eligible)
    requires d.activeKeys == CountIf(keys, Ready(snap, d.cfg.id))
    ensures CountsKeys(d, keys, snap)
  {
    CountIsSize(keys, Usable, |keys|);
    CountIsSize(keys, Eligible, |keys|);
    CountIsSize(keys, Ready(snap, d.cfg.id), |keys|);
    assert SwitchedOn(keys) == Places(keys, Usable, |keys|);
    assert Admitting(keys) == Places(keys, Eligible, |keys|);
    assert Admitting(keys) - CoolingDown(keys, snap, d.cfg.id) == Places(keys, Ready(snap, d.cfg.id), |keys|);
  }

  /** The row of a channel, field by field. */
  ghost predicate Describes(d: Diagnostic, cfg: Config, keys: seq<Option<Key>>, snap: Snapshot, requested: string, tokenRejected: bool) {
    && d.cfg == cfg && d.tokenRejected == tokenRejected && d.effectivePriority == cfg.priority as real
    && !d.candidate && d.position == 0 && d.higher == 0 && d.same == 0 && d.share == 0.0
    && (d.exact <==> exists e :: e in cfg.models && !e.disabled && e.model == requested)
    && (d.fuzzy <==> !d.exact && cfg.id in snap.fuzzy)
    && d.channelCooldown == (if cfg.id in snap.channelUntil && snap.channelUntil[cfg.id] > snap.now
                             then Some(snap.channelUntil[cfg.id]) else None)
    && d.modelCooldown == (if cfg.id in snap.modelUntil && snap.modelUntil[cfg.id] > snap.now then Some(snap.modelUntil[cfg.id]) else None)
    && (d.costExceeded <==> cfg.dailyCostLimit > 0.0 && cfg.id in snap.costs && snap.costs[cfg.id] >= cfg.dailyCostLimit)
    && (d.rpmExceeded <==> cfg.rpmLimit > 0 && cfg.id in snap.rpm && snap.rpm[cfg.id] >= cfg.rpmLimit)
    && (d.concurrencyFull <==> cfg.maxConcurrency > 0 && cfg.id in snap.concurrency && snap.concurrency[cfg.id] >= cfg.maxConcurrency)
    && (if cfg.oauth then d.enabledKeys == d.eligibleKeys == d.activeKeys == 1 else CountsKeys(d, keys, snap))
    && d.activeKeys <= d.eligibleKeys <= d.enabledKeys
  }

  /** newRouteDiagnosticState, with the token verdict that its caller adds. */
  method NewDiagnostic(cfg: Config, keys: seq<Option<Key>>, snap: Snapshot, requested: string, tokenRejected: bool)
    returns (d: Diagnostic)
    ensures Describes(d, cfg, keys, snap, requested, tokenRejected)
  {
    var exact := ExactMatch(cfg, requested);
    var enabled, eligible, active := KeyCounts(cfg, keys, snap);
    var channelCooldown := CooldownUntil(snap.channelUntil, cfg.id, snap.now);
    var modelCooldown := CooldownUntil(snap.modelUntil, cfg.id, snap.now);
    var costExceeded := CostReached(cfg.dailyCostLimit, snap.costs, cfg.id);
    var rpmExceeded := Reached(cfg.rpmLimit, snap.rpm, cfg.id);
    var concurrencyFull := Reached(cfg.maxConcurrency, snap.concurrency, cfg.id);
    d := Diagnostic(cfg, exact, !exact && cfg.id in snap.fuzzy, enabled, eligible, active, channelCooldown, modelCooldown,
                    costExceeded, tokenRejected, rpmExceeded, concurrencyFull, cfg.priority as real, false, 0, 0, 0, 0.0);
    if !cfg.oauth {
      CountsAreSizes(d, keys, snap);
    }
  }

  predicate Unplaced(d: Diagnostic) {
    !d.candidate && d.position == 0 && d.higher == 0 && d.same == 0 && d.share == 0.0
  }

  // ----- the pool -----

  /** filterRouteDiagnosticStates */
  function Filter(ds: seq<Diagnostic>, keep: Diagnostic -> bool): (r: seq<Diagnostic>)
    ensures forall d :: d in r <==> d in ds && keep(d)
  {
    if ds == [] then []
    else
      var last := |ds| - 1;
      assert forall d :: d in ds <==> d in ds[..last] || d == ds[last];
      Filter(ds[..last], keep) + if keep(ds[last]) then [ds[last]] else []
  }

  method FilterStates(ds: seq<Diagnostic>, keep: Diagnostic -> bool) returns (r: seq<Diagnostic>)
    ensures r == Filter(ds, keep)
  {
    r := [];
    for i := 0 to |ds|
      invariant r == Filter(ds[..i], keep)
    {
      assert ds[..i + 1][..i] == ds[..i];
      if keep(ds[i]) {
        r := r + [ds[i]];
      }
    }
    assert ds[..|ds|] == ds;
  }

  /** routeDiagnosticAvailableBeforeToken */
  predicate Available(d: Diagnostic) {
    !d.costExceeded && d.channelCooldown.None? && d.modelCooldown.None? && (d.cfg.oauth || d.activeKeys > 0)
  }

  predicate ExactEligible(d: Diagnostic) {
    d.cfg.enabled && d.exact && !d.costExceeded
  }

  predicate FuzzyEligible(d: Diagnostic) {
    d.cfg.enabled && (d.exact || d.fuzzy) && !d.costExceeded
  }

  function HasId(id: int): Diagnostic -> bool {
    (d: Diagnostic) => d.cfg.id == id
  }

  predicate TokenAllows(d: Diagnostic) {
    !d.tokenRejected
  }

  datatype Selection = Selection(mode: PoolMode, pool: seq<Diagnostic>, exactAvailable: bool)

  /** The pool of a request.  `pick` is the choice made when every matching channel is cooling down: the id
      of one of them, or nothing. */
  method SelectPool(ds: seq<Diagnostic>, fallbackEnabled: bool, pick: seq<Diagnostic> -> Option<int>, tokenRestricted: bool)
    returns (sel: Selection)
    ensures sel == Select(ds, fallbackEnabled, pick, tokenRestricted)
  {
    var exactPool := FilterStates(ds, ExactEligible);
    var exactAvailable := FilterStates(exactPool, Available);
    var mode, pool := NoPool, exactAvailable;
    if pool != [] {
      mode := ExactPool;
    } else {
      var fuzzyPool := FilterStates(ds, FuzzyEligible);
      pool := FilterStates(fuzzyPool, Available);
      if pool != [] {
        mode := FuzzyPool;
      } else if fuzzyPool != [] && fallbackEnabled {
        var best := pick(fuzzyPool);
        if best.Some? {
          mode := CooldownFallback;
          pool := FilterStates(fuzzyPool, HasId(best.value));
        }
      }
    }
    if tokenRestricted {
      pool := FilterStates(pool, TokenAllows);
    }
    sel := Selection(mode, pool, exactAvailable != []);
  }

  function BeforeToken(ds: seq<Diagnostic>, fallbackEnabled: bool, pick: seq<Diagnostic> -> Option<int>): (PoolMode, seq<Diagnostic>) {
    var exact := Filter(Filter(ds, ExactEligible), Available);
    var matching := Filter(ds, FuzzyEligible);
    var usable := Filter(matching, Available);
    if exact != [] then (ExactPool, exact)
    else if usable != [] then (FuzzyPool, usable)
    else if matching != [] && fallbackEnabled && pick(matching).Some? then
      (CooldownFallback, Filter(matching, HasId(pick(matching).value)))
    else (NoPool, [])
  }

  function Select(ds: seq<Diagnostic>, fallbackEnabled: bool, pick: seq<Diagnostic> -> Option<int>, tokenRestricted: bool): Selection {
    var (mode, pool) := BeforeToken(ds, fallbackEnabled, pick);
    Selection(mode,
              if tokenRestricted then Filter(pool, TokenAllows) else pool,
              Filter(Filter(ds, ExactEligible), Available) != [])
  }

  /** A channel that could take the request now, the two limits apart. */
  predicate CanServe(d: Diagnostic) {
    d.cfg.enabled && !d.costExceeded && d.channelCooldown.None? && d.modelCooldown.None? && (d.cfg.oauth || d.activeKeys > 0)
  }

  /** A channel that the fallback may use although it is cooling down. */
  predicate MayFallBack(d: Diagnostic) {
    d.cfg.enabled && (d.exact || d.fuzzy) && !d.costExceeded
  }

  /** The cascade in the fields of the rows.  Channels that serve the model by its exact name come first; without any, those
      that serve it by a similar name; without any, what was picked from all that match; and a token restriction takes
      channels away from what was found, without looking for others. */
  lemma SelectionReads(ds: seq<Diagnostic>, fallbackEnabled: bool, pick: seq<Diagnostic> -> Option<int>, tokenRestricted: bool)
    ensures var sel := Select(ds, fallbackEnabled, pick, tokenRestricted);
            var matching := Filter(ds, FuzzyEligible);
            && (forall d :: d in matching <==> d in ds && MayFallBack(d))
            && (sel.exactAvailable <==> exists d :: d in ds && d.exact && CanServe(d))
            && (sel.mode.ExactPool? <==> sel.exactAvailable)
            && (sel.mode.FuzzyPool? <==> !sel.exactAvailable && exists d :: d in ds && d.fuzzy && CanServe(d))
            && (sel.mode.CooldownFallback? <==>
                  && (forall d :: d in ds && (d.exact || d.fuzzy) ==> !CanServe(d))
                  && (exists d :: d in ds && MayFallBack(d)) && fallbackEnabled && pick(matching).Some?)
            && forall d :: d in sel.pool <==>
                 && d in ds && (tokenRestricted ==> !d.tokenRejected)
                 && match sel.mode
                    case ExactPool => d.exact && CanServe(d)
                    case FuzzyPool => d.fuzzy && CanServe(d)
                    case CooldownFallback => MayFallBack(d) && pick(matching) == Some(d.cfg.id)
                    case NoPool => false
  {
    var exact := Filter(Filter(ds, ExactEligible), Available);
    var matching := Filter(ds, FuzzyEligible);
    var usable := Filter(matching, Available);
    assert exact != [] ==> exact[0] in exact;
    assert usable != [] ==> usable[0] in usable;
    assert matching != [] ==> matching[0] in matching;
    assert forall d :: d in exact <==> d in ds && d.exact && CanServe(d);
    assert forall d :: d in usable <==> d in ds && (d.exact || d.fuzzy) && CanServe(d);
  }

  /** Filtering keeps every row as often as it was there. */
  lemma {:induction false} FilterKeepsMultiplicity(ds: seq<Diagnostic>, keep: Diagnostic -> bool, d: Diagnostic)
    ensures multiset(Filter(ds, keep))[d] == if keep(d) then multiset(ds)[d] else 0
  {
    if ds != [] {
      var last := |ds| - 1;
      assert ds == ds[..last] + [ds[last]];
      FilterKeepsMultiplicity(ds[..last], keep, d);
    }
  }

  // ----- the explanation -----

  datatype Code =
    | Disabled | ModelMismatch | ExactPoolPreferred | DailyCostLimit | ChannelCooldown | ModelCooldown
    | NoEnabledKey | KeyModelScope | AllKeysCooling | TokenChannelRestriction | RpmLimit | ConcurrencyLimit
    | HigherPriorityCandidates | SmoothWeightedRoundRobin | FirstCandidate | CooldownFallbackNote

  datatype Reason = Reason(code: Code, blocking: bool)

  /** The codes in the order in which they are reported. */
  function At(n: nat): Code
    requires n < 16
  {
    [Disabled, ModelMismatch, ExactPoolPreferred, DailyCostLimit, ChannelCooldown, ModelCooldown,
     NoEnabledKey, KeyModelScope, AllKeysCooling, TokenChannelRestriction, RpmLimit, ConcurrencyLimit,
     HigherPriorityCandidates, SmoothWeightedRoundRobin, FirstCandidate, CooldownFallbackNote][n]
  }

  function Rank(c: Code): nat {
    match c
    case Disabled => 0 case ModelMismatch => 1 case ExactPoolPreferred => 2 case DailyCostLimit => 3
    case ChannelCooldown => 4 case ModelCooldown => 5 case NoEnabledKey => 6 case KeyModelScope => 7
    case AllKeysCooling => 8 case TokenChannelRestriction => 9 case RpmLimit => 10 case ConcurrencyLimit => 11
    case HigherPriorityCandidates => 12 case SmoothWeightedRoundRobin => 13 case FirstCandidate => 14
    case CooldownFallbackNote => 15
  }

  lemma RankInvertsAt(n: nat)
    requires n < 16
    ensures Rank(At(n)) == n
  {
    assert n == 0 || n == 1 || n == 2 || n == 3 || n == 4 || n == 5 || n == 6 || n == 7
        || n == 8 || n == 9 || n == 10 || n == 11 || n == 12 || n == 13 || n == 14 || n == 15;
  }

  /** The last four are notes about a candidate. */
  predicate Blocking(c: Code) {
    !c.HigherPriorityCandidates? && !c.SmoothWeightedRoundRobin? && !c.FirstCandidate? && !c.CooldownFallbackNote?
  }

  predicate Applies(d: Diagnostic, mode: PoolMode, exactAvailable: bool, c: Code) {
    match c
    case Disabled => !d.cfg.enabled
    case ModelMismatch => !d.exact && !d.fuzzy
    case ExactPoolPreferred => !d.exact && d.fuzzy && exactAvailable
    case DailyCostLimit => d.costExceeded
    case ChannelCooldown => d.channelCooldown.Some?
    case ModelCooldown => d.modelCooldown.Some?
    case NoEnabledKey => !d.cfg.oauth && d.enabledKeys == 0
    case KeyModelScope => !d.cfg.oauth && d.enabledKeys > 0 && d.eligibleKeys == 0
    case AllKeysCooling => !d.cfg.oauth && d.enabledKeys > 0 && d.eligibleKeys > 0 && d.activeKeys == 0
    case TokenChannelRestriction => d.tokenRejected
    case RpmLimit => d.rpmExceeded
    case ConcurrencyLimit => d.concurrencyFull
    case HigherPriorityCandidates => d.candidate && d.higher > 0
    case SmoothWeightedRoundRobin => d.candidate && d.higher == 0 && d.same > 1
    case FirstCandidate => d.candidate && d.higher == 0 && d.same <= 1
    case CooldownFallbackNote => d.candidate && mode == CooldownFallback
  }

  /** `rs` lists exactly the reasons of rank below `n` that apply, once each and in order. */
  predicate ExplainsUpTo(rs: seq<Reason>, d: Diagnostic, mode: PoolMode, exactAvailable: bool, n: nat) {
    && (forall r :: r in rs ==> Applies(d, mode, exactAvailable, r.code) && r.blocking == Blocking(r.code) && Rank(r.code) < n)
    && (forall c :: Applies(d, mode, exactAvailable, c) && Rank(c) < n ==> Reason(c, Blocking(c)) in rs)
    && (forall i, j :: 0 <= i < j < |rs| ==> Rank(rs[i].code) < Rank(rs[j].code))
  }

  predicate Explains(rs: seq<Reason>, d: Diagnostic, mode: PoolMode, exactAvailable: bool) {
    ExplainsUpTo(rs, d, mode, exactAvailable, 16)
  }

  /** Asking the first `n` questions in turn. */
  function Asked(d: Diagnostic, mode: PoolMode, exactAvailable: bool, n: nat): seq<Reason>
    requires n <= 16
  {
    if n == 0 then []
    else
      Asked(d, mode, exactAvailable, n - 1)
      + if Applies(d, mode, exactAvailable, At(n - 1)) then [Reason(At(n - 1), Blocking(At(n - 1)))] else []
  }

  lemma OneMoreExplained(rs: seq<Reason>, d: Diagnostic, mode: PoolMode, exactAvailable: bool, c: Code)
    requires ExplainsUpTo(rs, d, mode, exactAvailable, Rank(c))
    ensures var r := if Applies(d, mode, exactAvailable, c) then rs + [Reason(c, Blocking(c))] else rs;
            ExplainsUpTo(r, d, mode, exactAvailable, Rank(c) + 1)
  {
    var r := if Applies(d, mode, exactAvailable, c) then rs + [Reason(c, Blocking(c))] else rs;
    forall c' | Applies(d, mode, exactAvailable, c') && Rank(c') < Rank(c) + 1
      ensures Reason(c', Blocking(c')) in r
    {
      if c' == c {
        assert r[|rs|] == Reason(c, Blocking(c));
      } else {
        SameRank(c, c');
        assert Reason(c', Blocking(c')) in rs;
      }
    }
  }

  lemma SameRank(a: Code, b: Code)
    ensures Rank(a) == Rank(b) <==> a == b
  {
    assert Rank(a) < 16 && At(Rank(a)) == a;
    assert Rank(b) < 16 && At(Rank(b)) == b;
  }

  lemma {:induction false} AskedExplains(d: Diagnostic, mode: PoolMode, exactAvailable: bool, n: nat)
    requires n <= 16
    ensures ExplainsUpTo(Asked(d, mode, exactAvailable, n), d, mode, exactAvailable, n)
  {
    if n > 0 {
      AskedExplains(d, mode, exactAvailable, n - 1);
      RankInvertsAt(n - 1);
      OneMoreExplained(Asked(d, mode, exactAvailable, n - 1), d, mode, exactAvailable, At(n - 1));
    }
  }

  /** Asks the next question; `n` is its place in the order. */
  method Add(rs: seq<Reason>, applies: bool, c: Code, blocking: bool,
             ghost d: Diagnostic, ghost mode: PoolMode, ghost exactAvailable: bool, ghost n: nat)
    returns (r: seq<Reason>, ghost next: nat)
    requires n < 16 && rs == Asked(d, mode, exactAvailable, n)
    requires Rank(c) == n && blocking == Blocking(c) && applies == Applies(d, mode, exactAvailable, c)
    ensures next == n + 1 <= 16 && r == Asked(d, mode, exactAvailable, next)
  {
    SameRank(At(n), c);
    RankInvertsAt(n);
    next := n + 1;
    r := if applies then rs + [Reason(c, blocking)] else rs;
  }

  /** routeDiagnosticReasons */
  method Reasons(d: Diagnostic, mode: PoolMode, exactAvailable: bool) returns (rs: seq<Reason>)
    ensures Explains(rs, d, mode, exactAvailable)
  {
    ghost var n;
    rs, n := ModelReasons(d, mode, exactAvailable);
    rs, n := CooldownReasons(rs, d, mode, exactAvailable, n);
    rs, n := KeyReasons(rs, d, mode, exactAvailable, n);
    rs, n := LimitReasons(rs, d, mode, exactAvailable, n);
    rs, n := CandidateReasons(rs, d, mode, exactAvailable, n);
    rs, n := Add(rs, mode == CooldownFallback && d.candidate, CooldownFallbackNote, false, d, mode, exactAvailable, n);
    AskedExplains(d, mode, exactAvailable, n);
  }

  method ModelReasons(d: Diagnostic, mode: PoolMode, exactAvailable: bool) returns (rs: seq<Reason>, ghost n: nat)
    ensures n == 3 && rs == Asked(d, mode, exactAvailable, n)
  {
    n := 0;
    var mismatch := !d.exact && !d.fuzzy;
    rs, n := Add([], !d.cfg.enabled, Disabled, true, d, mode, exactAvailable, n);
    rs, n := Add(rs, mismatch, ModelMismatch, true, d, mode, exactAvailable, n);
    rs, n := Add(rs, !mismatch && !d.exact && exactAvailable, ExactPoolPreferred, true, d, mode, exactAvailable, n);
  }

  method CooldownReasons(was: seq<Reason>, d: Diagnostic, mode: PoolMode, exactAvailable: bool, ghost k: nat)
    returns (rs: seq<Reason>, ghost n: nat)
    requires k == 3 && was == Asked(d, mode, exactAvailable, k)
    ensures n == 6 && rs == Asked(d, mode, exactAvailable, n)
  {
    rs, n := Add(was, d.costExceeded, DailyCostLimit, true, d, mode, exactAvailable, k);
    rs, n := Add(rs, d.channelCooldown.Some?, ChannelCooldown, true, d, mode, exactAvailable, n);
    rs, n := Add(rs, d.modelCooldown.Some?, ModelCooldown, true, d, mode, exactAvailable, n);
  }

  method KeyReasons(was: seq<Reason>, d: Diagnostic, mode: PoolMode, exactAvailable: bool, ghost k: nat)
    returns (rs: seq<Reason>, ghost n: nat)
    requires k == 6 && was == Asked(d, mode, exactAvailable, k)
    ensures n == 9 && rs == Asked(d, mode, exactAvailable, n)
  {
    var noKey := !d.cfg.oauth && d.enabledKeys == 0;
    var noScope := !noKey && !d.cfg.oauth && d.eligibleKeys == 0;
    var cooling := !noKey && !noScope && !d.cfg.oauth && d.activeKeys == 0;
    rs, n := Add(was, noKey, NoEnabledKey, true, d, mode, exactAvailable, k);
    rs, n := Add(rs, noScope, KeyModelScope, true, d, mode, exactAvailable, n);
    rs, n := Add(rs, cooling, AllKeysCooling, true, d, mode, exactAvailable, n);
  }

  method LimitReasons(was: seq<Reason>, d: Diagnostic, mode: PoolMode, exactAvailable: bool, ghost k: nat)
    returns (rs: seq<Reason>, ghost n: nat)
    requires k == 9 && was == Asked(d, mode, exactAvailable, k)
    ensures n == 12 && rs == Asked(d, mode, exactAvailable, n)
  {
    rs, n := Add(was, d.tokenRejected, TokenChannelRestriction, true, d, mode, exactAvailable, k);
    rs, n := Add(rs, d.rpmExceeded, RpmLimit, true, d, mode, exactAvailable, n);
    rs, n := Add(rs, d.concurrencyFull, ConcurrencyLimit, true, d, mode, exactAvailable, n);
  }

  method CandidateReasons(was: seq<Reason>, d: Diagnostic, mode: PoolMode, exactAvailable: bool, ghost k: nat)
    returns (rs: seq<Reason>, ghost n: nat)
    requires k == 12 && was == Asked(d, mode, exactAvailable, k)
    ensures n == 15 && rs == Asked(d, mode, exactAvailable, n)
  {
    var behind := d.candidate && d.higher > 0;
    var grouped := d.candidate && !behind && d.same > 1;
    var first := d.candidate && !behind && !grouped;
    rs, n := Add(was, behind, HigherPriorityCandidates, false, d, mode, exactAvailable, k);
    rs, n := Add(rs, grouped, SmoothWeightedRoundRobin, false, d, mode, exactAvailable, n);
    rs, n := Add(rs, first, FirstCandidate, false, d, mode, exactAvailable, n);
  }

  /** Every reason in the fields of the row: the first twelve block, and the last four are notes about a candidate. */
  lemma ReasonsRead(rs: seq<Reason>, d: Diagnostic, mode: PoolMode, exactAvailable: bool, c: Code)
    requires Explains(rs, d, mode, exactAvailable)
    ensures Reason(c, Rank(c) < 12) in rs <==>
              match c
              case Disabled => !d.cfg.enabled
              case ModelMismatch => !d.exact && !d.fuzzy
              case ExactPoolPreferred => !d.exact && d.fuzzy && exactAvailable
              case DailyCostLimit => d.costExceeded
              case ChannelCooldown => d.channelCooldown.Some?
              case ModelCooldown => d.modelCooldown.Some?
              case NoEnabledKey => !d.cfg.oauth && d.enabledKeys == 0
              case KeyModelScope => !d.cfg.oauth && d.enabledKeys > 0 && d.eligibleKeys == 0
              case AllKeysCooling => !d.cfg.oauth && d.enabledKeys > 0 && d.eligibleKeys > 0 && d.activeKeys == 0
              case TokenChannelRestriction => d.tokenRejected
              case RpmLimit => d.rpmExceeded
              case ConcurrencyLimit => d.concurrencyFull
              case HigherPriorityCandidates => d.candidate && d.higher > 0
              case SmoothWeightedRoundRobin => d.candidate && d.higher == 0 && d.same > 1
              case FirstCandidate => d.candidate && d.higher == 0 && d.same <= 1
              case CooldownFallbackNote => d.candidate && mode == CooldownFallback
    ensures Reason(c, Rank(c) >= 12) !in rs
    ensures Rank(c) < 12 <==> c !in {HigherPriorityCandidates, SmoothWeightedRoundRobin, FirstCandidate, CooldownFallbackNote}
  {
    hide Explains;
    ReasonIsGiven(rs, d, mode, exactAvailable, c, true);
    ReasonIsGiven(rs, d, mode, exactAvailable, c, false);
  }

  lemma ReasonIsGiven(rs: seq<Reason>, d: Diagnostic, mode: PoolMode, exactAvailable: bool, c: Code, blocking: bool)
    requires Explains(rs, d, mode, exactAvailable)
    ensures Reason(c, blocking) in rs <==> Applies(d, mode, exactAvailable, c) && blocking == Blocking(c)
  {
    hide Applies, Blocking;
    assert Rank(c) < 16;
  }

  predicate IsLimit(c: Code) {
    c.RpmLimit? || c.ConcurrencyLimit?
  }

  predicate NamesLimit(r: Reason) {
    IsLimit(r.code)
  }

  predicate Blocks(r: Reason) {
    r.blocking
  }

  /** Some blocking reason other than the two limits that are only applied at the attempt. */
  predicate Barred(rs: seq<Reason>) {
    exists r :: r in rs && r.blocking && !IsLimit(r.code)
  }

  // ----- selection and explanation agree -----

  /** The two limits apart, nothing keeps the channel from the request. */
  predicate ReadyFor(d: Diagnostic, exactAvailable: bool) {
    FuzzyEligible(d) && Available(d) && (d.exact || !exactAvailable) && !d.tokenRejected
  }

  lemma BarredMeansNotReady(rs: seq<Reason>, d: Diagnostic, mode: PoolMode, exactAvailable: bool)
    requires Explains(rs, d, mode, exactAvailable)
    requires d.activeKeys <= d.eligibleKeys <= d.enabledKeys
    ensures Barred(rs) <==> !ReadyFor(d, exactAvailable)
  {
    if !ReadyFor(d, exactAvailable) {
      var c := if !d.cfg.enabled then Disabled
               else if !d.exact && !d.fuzzy then ModelMismatch
               else if !d.exact && exactAvailable then ExactPoolPreferred
               else if d.costExceeded then DailyCostLimit
               else if d.channelCooldown.Some? then ChannelCooldown
               else if d.modelCooldown.Some? then ModelCooldown
               else if d.tokenRejected then TokenChannelRestriction
               else if d.enabledKeys == 0 then NoEnabledKey
               else if d.eligibleKeys == 0 then KeyModelScope
               else AllKeysCooling;
      assert Applies(d, mode, exactAvailable, c);
      assert Reason(c, Blocking(c)) in rs;
    }
  }

  lemma SelectionMeansReady(ds: seq<Diagnostic>, fallbackEnabled: bool, pick: seq<Diagnostic> -> Option<int>,
                            tokenRestricted: bool, d: Diagnostic)
    requires d in ds && (!tokenRestricted ==> !d.tokenRejected)
    ensures var sel := Select(ds, fallbackEnabled, pick, tokenRestricted);
            && (!sel.mode.CooldownFallback? ==> (d in sel.pool <==> ReadyFor(d, sel.exactAvailable)))
            && (sel.mode.CooldownFallback? ==>
                  && !ReadyFor(d, sel.exactAvailable)
                  && (d in sel.pool <==>
                        FuzzyEligible(d) && !d.tokenRejected && pick(Filter(ds, FuzzyEligible)) == Some(d.cfg.id)))
  {
    var exact := Filter(Filter(ds, ExactEligible), Available);
    var usable := Filter(Filter(ds, FuzzyEligible), Available);
    assert exact != [] ==> exact[0] in exact;
    assert usable != [] ==> usable[0] in usable;
    assert d in exact <==> ExactEligible(d) && Available(d);
    assert d in usable <==> FuzzyEligible(d) && Available(d);
  }

  /** The report is complete and sound, in every mode.  A channel outside the pool has a blocking reason
      other than the two limits; in the exact and fuzzy modes, and when there is no pool, those are the only
      channels with one.  In the cooldown fallback every channel has one, and the pool is what was picked. */
  lemma ExplanationAgreesWithSelection(ds: seq<Diagnostic>, fallbackEnabled: bool, pick: seq<Diagnostic> -> Option<int>,
                                       tokenRestricted: bool, d: Diagnostic, shown: Diagnostic, rs: seq<Reason>)
    requires d in ds && d.activeKeys <= d.eligibleKeys <= d.enabledKeys
    requires !tokenRestricted ==> !d.tokenRejected
    requires SameRow(d, shown)
    requires var sel := Select(ds, fallbackEnabled, pick, tokenRestricted);
             Explains(rs, shown, sel.mode, sel.exactAvailable)
    ensures var sel := Select(ds, fallbackEnabled, pick, tokenRestricted);
            && (d !in sel.pool ==> Barred(rs))
            && (!sel.mode.CooldownFallback? ==> (d in sel.pool <==> !Barred(rs)))
            && (sel.mode.CooldownFallback? ==>
                  && Barred(rs)
                  && (d in sel.pool <==>
                        FuzzyEligible(d) && !d.tokenRejected && pick(Filter(ds, FuzzyEligible)) == Some(d.cfg.id)))
  {
    var sel := Select(ds, fallbackEnabled, pick, tokenRestricted);
    SelectionMeansReady(ds, fallbackEnabled, pick, tokenRestricted, d);
    BarredMeansNotReady(rs, shown, sel.mode, sel.exactAvailable);
  }

  /** `shown` is row `d` after the health scores and the ranking have been filled in. */
  predicate SameRow(d: Diagnostic, shown: Diagnostic) {
    shown == d.(effectivePriority := shown.effectivePriority, candidate := shown.candidate, position := shown.position, higher := shown.higher,
                same := shown.same, share := shown.share)
  }

  // ----- the summary -----

  datatype Verdict =
    | Skipped(limit: Code)
    | NotCandidate(reason: Code)
    | NotCandidateUnexplained
    | Behind(higher: nat)
    | InTopGroup(same: nat, share: real)
    | First

  /** routeDiagnosticSummary */
  method Summary(d: Diagnostic, rs: seq<Reason>) returns (v: Verdict)
    ensures v == Summarise(d, rs)
  {
    for i := 0 to |rs|
      invariant forall j :: 0 <= j < i ==> !(d.candidate && IsLimit(rs[j].code))
    {
      if d.candidate && IsLimit(rs[i].code) {
        FirstSuch(rs, NamesLimit, i);
        return Skipped(rs[i].code);
      }
    }
    if !d.candidate {
      for i := 0 to |rs|
        invariant forall j :: 0 <= j < i ==> !rs[j].blocking
      {
        if rs[i].blocking {
          FirstSuch(rs, Blocks, i);
          return NotCandidate(rs[i].code);
        }
      }
      return NotCandidateUnexplained;
    }
    if d.higher > 0 {
      return Behind(d.higher);
    }
    if d.same > 1 {
      return InTopGroup(d.same, d.share);
    }
    return First;
  }

  function FirstIndex(rs: seq<Reason>, p: Reason -> bool): (i: nat)
    requires exists r :: r in rs && p(r)
    ensures i < |rs| && p(rs[i]) && forall j :: 0 <= j < i ==> !p(rs[j])
  {
    if p(rs[0]) then 0
    else
      assert exists r :: r in rs[1..] && p(r) by {
        var r :| r in rs && p(r);
        assert r in rs[1..];
      }
      1 + FirstIndex(rs[1..], p)
  }

  lemma FirstSuch(rs: seq<Reason>, p: Reason -> bool, i: nat)
    requires i < |rs| && p(rs[i]) && forall j :: 0 <= j < i ==> !p(rs[j])
    ensures exists r :: r in rs && p(r)
    ensures FirstIndex(rs, p) == i
  {
    assert rs[i] in rs;
  }

  function Summarise(d: Diagnostic, rs: seq<Reason>): Verdict {
    if d.candidate && exists r :: r in rs && NamesLimit(r) then Skipped(rs[FirstIndex(rs, NamesLimit)].code)
    else if !d.candidate then
      if exists r :: r in rs && Blocks(r) then NotCandidate(rs[FirstIndex(rs, Blocks)].code)
      else NotCandidateUnexplained
    else if d.higher > 0 then Behind(d.higher)
    else if d.same > 1 then InTopGroup(d.same, d.share)
    else First
  }

  lemma LimitsAreNamed(rs: seq<Reason>, d: Diagnostic, mode: PoolMode, exactAvailable: bool)
    requires Explains(rs, d, mode, exactAvailable)
    ensures (exists r :: r in rs && NamesLimit(r)) <==> d.rpmExceeded || d.concurrencyFull
  {
    if d.rpmExceeded || d.concurrencyFull {
      var c := if d.rpmExceeded then RpmLimit else ConcurrencyLimit;
      assert Applies(d, mode, exactAvailable, c);
      assert Reason(c, Blocking(c)) in rs && NamesLimit(Reason(c, Blocking(c)));
    }
  }

  lemma SummaryReads(d: Diagnostic, rs: seq<Reason>)
    ensures var v := Summarise(d, rs);
            && (v.NotCandidateUnexplained? ==> !d.candidate && !Barred(rs))
            && (v.NotCandidate? ==> !d.candidate)
            && (v.Skipped? <==> d.candidate && exists r :: r in rs && NamesLimit(r))
            && (v.First? ==> d.higher == 0 && d.same <= 1)
            && (!d.candidate ==> v.NotCandidate? || v.NotCandidateUnexplained?)
  {
  }

  /** The first reason of a kind is the applicable one of lowest rank. */
  lemma FirstReason(rs: seq<Reason>, d: Diagnostic, mode: PoolMode, exactAvailable: bool, p: Reason -> bool, c: Code)
    requires Explains(rs, d, mode, exactAvailable) && Applies(d, mode, exactAvailable, c) && p(Reason(c, Blocking(c)))
    requires forall b :: Applies(d, mode, exactAvailable, b) && p(Reason(b, Blocking(b))) ==> Rank(c) <= Rank(b)
    ensures exists r :: r in rs && p(r)
    ensures rs[FirstIndex(rs, p)].code == c
  {
    assert Rank(c) < 16;
    assert Reason(c, Blocking(c)) in rs;
    var k :| 0 <= k < |rs| && rs[k] == Reason(c, Blocking(c));
    var i := FirstIndex(rs, p);
    assert rs[i] in rs;
    assert Rank(c) <= Rank(rs[i].code);
    assert i == k;
  }

  /** The first thing, in the order of the list, that keeps a row out of the pool. */
  function FirstObstacle(d: Diagnostic, exactAvailable: bool): Option<Code> {
    if !d.cfg.enabled then Some(Disabled)
    else if !d.exact && !d.fuzzy then Some(ModelMismatch)
    else if !d.exact && exactAvailable then Some(ExactPoolPreferred)
    else if d.costExceeded then Some(DailyCostLimit)
    else if d.channelCooldown.Some? then Some(ChannelCooldown)
    else if d.modelCooldown.Some? then Some(ModelCooldown)
    else if !d.cfg.oauth && d.enabledKeys == 0 then Some(NoEnabledKey)
    else if !d.cfg.oauth && d.eligibleKeys == 0 then Some(KeyModelScope)
    else if !d.cfg.oauth && d.activeKeys == 0 then Some(AllKeysCooling)
    else if d.tokenRejected then Some(TokenChannelRestriction)
    else if d.rpmExceeded then Some(RpmLimit)
    else if d.concurrencyFull then Some(ConcurrencyLimit)
    else None
  }

  lemma ObstacleApplies(d: Diagnostic, mode: PoolMode, exactAvailable: bool)
    ensures var c := FirstObstacle(d, exactAvailable); c.Some? ==> Applies(d, mode, exactAvailable, c.value) && Blocking(c.value)
  {
  }

  lemma ObstacleIsFirst(d: Diagnostic, mode: PoolMode, exactAvailable: bool, b: Code)
    requires Applies(d, mode, exactAvailable, b) && Blocking(b)
    ensures var c := FirstObstacle(d, exactAvailable); c.Some? && Rank(c.value) <= Rank(b)
  {
    match b
    case Disabled => case ModelMismatch => case ExactPoolPreferred => case DailyCostLimit =>
    case ChannelCooldown => case ModelCooldown => case NoEnabledKey => case KeyModelScope =>
    case AllKeysCooling => case TokenChannelRestriction => case RpmLimit => case ConcurrencyLimit =>
  }

  /** What the summary says, in the fields of the row: a candidate is called skipped because of the first of its two limits,
      or placed behind others, in the top group, or first; any other channel is told its first obstacle. */
  lemma SummaryNamesTheFirstReason(rs: seq<Reason>, d: Diagnostic, mode: PoolMode, exactAvailable: bool)
    requires Explains(rs, d, mode, exactAvailable)
    ensures Summarise(d, rs) ==
            if d.candidate then
              if d.rpmExceeded then Skipped(RpmLimit)
              else if d.concurrencyFull then Skipped(ConcurrencyLimit)
              else if d.higher > 0 then Behind(d.higher)
              else if d.same > 1 then InTopGroup(d.same, d.share)
              else First
            else
              match FirstObstacle(d, exactAvailable)
              case Some(c) => NotCandidate(c)
              case None => NotCandidateUnexplained
  {
    hide ExplainsUpTo, Applies, Blocking;
    LimitsAreNamed(rs, d, mode, exactAvailable);
    if d.candidate {
      if d.rpmExceeded || d.concurrencyFull {
        FirstLimit(rs, d, mode, exactAvailable);
      }
    } else {
      var c := FirstObstacle(d, exactAvailable);
      forall b | Applies(d, mode, exactAvailable, b) && Blocking(b)
        ensures c.Some? && Rank(c.value) <= Rank(b)
      {
        ObstacleIsFirst(d, mode, exactAvailable, b);
      }
      if c.Some? {
        ObstacleApplies(d, mode, exactAvailable);
        FirstReason(rs, d, mode, exactAvailable, Blocks, c.value);
      } else {
        NothingBlocks(rs, d, mode, exactAvailable);
      }
    }
  }

  lemma NothingBlocks(rs: seq<Reason>, d: Diagnostic, mode: PoolMode, exactAvailable: bool)
    requires Explains(rs, d, mode, exactAvailable) && FirstObstacle(d, exactAvailable).None?
    ensures forall r :: r in rs ==> !Blocks(r)
  {
    forall r | r in rs
      ensures !Blocks(r)
    {
      if Blocks(r) {
        ObstacleIsFirst(d, mode, exactAvailable, r.code);
      }
    }
  }

  lemma FirstLimit(rs: seq<Reason>, d: Diagnostic, mode: PoolMode, exactAvailable: bool)
    requires Explains(rs, d, mode, exactAvailable) && (d.rpmExceeded || d.concurrencyFull)
    ensures exists r :: r in rs && NamesLimit(r)
    ensures rs[FirstIndex(rs, NamesLimit)].code == if d.rpmExceeded then RpmLimit else ConcurrencyLimit
  {
    hide ExplainsUpTo;
    FirstReason(rs, d, mode, exactAvailable, NamesLimit, if d.rpmExceeded then RpmLimit else ConcurrencyLimit);
  }

  /** The summary line without a reason is unreachable: a channel that the selection leaves out is always
      told why, and a candidate is called skipped exactly when one of the two limits is reached. */
  lemma SummaryAlwaysExplains(ds: seq<Diagnostic>, fallbackEnabled: bool, pick: seq<Diagnostic> -> Option<int>,
                              tokenRestricted: bool, d: Diagnostic, shown: Diagnostic, rs: seq<Reason>)
    requires d in ds && d.activeKeys <= d.eligibleKeys <= d.enabledKeys
    requires !tokenRestricted ==> !d.tokenRejected
    requires SameRow(d, shown)
    requires var sel := Select(ds, fallbackEnabled, pick, tokenRestricted);
             Explains(rs, shown, sel.mode, sel.exactAvailable) && (shown.candidate <==> d in sel.pool)
    ensures var sel := Select(ds, fallbackEnabled, pick, tokenRestricted);
            var v := Summarise(shown, rs);
            && !v.NotCandidateUnexplained?
            && (v.NotCandidate? <==> d !in sel.pool)
            && (v.Skipped? <==> d in sel.pool && (d.rpmExceeded || d.concurrencyFull))
            && (v.First? ==> shown.higher == 0 && shown.same <= 1)
  {
    var sel := Select(ds, fallbackEnabled, pick, tokenRestricted);
    ExplanationAgreesWithSelection(ds, fallbackEnabled, pick, tokenRestricted, d, shown, rs);
    LimitsAreNamed(rs, shown, sel.mode, sel.exactAvailable);
    SummaryReads(shown, rs);
  }
}
