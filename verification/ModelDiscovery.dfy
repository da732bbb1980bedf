/** Looking for a channel's model list over its URLs, the protocols of each URL and the API keys. */
module ModelDiscovery {
  import opened ChannelModel
  import opened Text
  import opened Wrappers

  datatype Level = NoError | KeyLevel | ChannelLevel | ClientLevel

  /** What one attempt comes back with: models, an HTTP status with its classification, or a failure without
      a status, which may carry one of the network markers. */
  datatype Outcome =
    | Found(models: seq<ModelEntry>)
    | Status(level: Level)
    | NoStatus(network: bool)

  /** shouldTryNextKeyOnFetchModelsError */
  predicate TriesNextKey(o: Outcome) {
    o.Status? && o.level.KeyLevel?
  }

  /** shouldCooldownURLOnFetchModelsError */
  predicate CoolsUrl(o: Outcome) {
    match o
    case Found(_) => false
    case Status(level) => level.ChannelLevel?
    case NoStatus(network) => network
  }

  datatype ChannelUrl = ChannelUrl(url: string, protocols: seq<string>)

  /** A URL in the order in which it is tried, with the index of its configuration. */
  datatype SortedUrl = SortedUrl(url: string, idx: int)

  datatype At = At(url: nat, protocol: nat, key: nat)

  datatype Refusal = NoUrls | NoKeys | UnknownProtocol

  datatype Discovery =
    | Refused(why: Refusal)
    | NoUsableUrl
    | Failed(attempted: seq<string>, last: Outcome)
    | Answered(models: seq<ModelEntry>, at: At)

  const DISCOVERY_ORDER: seq<string> := ["openai", "anthropic", "codex", "gemini"]

  predicate Valid(protocol: string) {
    protocol in ["anthropic", "codex", "openai", "gemini"]
  }

  // ----- what is tried -----

  predicate Supports(u: ChannelUrl, protocol: string) {
    u.protocols == [] || Lower(Trim(protocol)) in u.protocols
  }

  /** The protocols tried on a URL, or nothing when the URL is passed over. */
  function ProtocolsOf(configured: seq<ChannelUrl>, s: SortedUrl, wanted: string): Option<seq<string>> {
    if !(0 <= s.idx < |configured|) then None
    else if wanted != "" then if Supports(configured[s.idx], wanted) then Some([wanted]) else None
    else if configured[s.idx].protocols == [] then Some(DISCOVERY_ORDER)
    else Some(configured[s.idx].protocols)
  }

  predicate Blank(protocol: string) {
    Trim(protocol) == ""
  }

  /** Which protocols of which URL are tried: blank ones are not, and a URL that is passed over has none. */
  type Plan = seq<seq<bool>>

  function Tried(protocols: Option<seq<string>>): (tried: seq<bool>)
    ensures |tried| == if protocols.Some? then |protocols.value| else 0
    ensures forall p :: 0 <= p < |tried| ==> (tried[p] <==> !Blank(protocols.value[p]))
  {
    if protocols.None? then [] else seq(|protocols.value|, p requires 0 <= p < |protocols.value| => !Blank(protocols.value[p]))
  }

  function PlanOf(configured: seq<ChannelUrl>, sorted: seq<SortedUrl>, wanted: string): (plan: Plan)
    ensures |plan| == |sorted|
    ensures forall i :: 0 <= i < |plan| ==> plan[i] == Tried(ProtocolsOf(configured, sorted[i], wanted))
  {
    seq(|sorted|, i requires 0 <= i < |sorted| => Tried(ProtocolsOf(configured, sorted[i], wanted)))
  }

  /** A run: one protocol on one URL. */
  predicate IsRun(plan: Plan, i: nat, p: nat) {
    i < |plan| && p < |plan[i]| && plan[i][p]
  }

  /** What the attempts would come back with, whatever that is. */
  type Oracle = At -> Outcome

  /** The keys of a run are tried until one does not fail at key level. */
  function StopKey(attempt: Oracle, i: nat, p: nat, k: nat, keys: nat): (stop: nat)
    requires k < keys
    ensures k <= stop < keys
    ensures forall j :: k <= j < stop ==> TriesNextKey(attempt(At(i, p, j)))
    ensures stop < keys - 1 ==> !TriesNextKey(attempt(At(i, p, stop)))
    decreases keys - k
  {
    if k == keys - 1 || !TriesNextKey(attempt(At(i, p, k))) then k else StopKey(attempt, i, p, k + 1, keys)
  }

  function RunOutcome(attempt: Oracle, i: nat, p: nat, keys: nat): Outcome
    requires keys > 0
  {
    attempt(At(i, p, StopKey(attempt, i, p, 0, keys)))
  }

  /** Where a run ends: the keys in front failed at key level, and this one did not or is the last. */
  predicate EndsAt(attempt: Oracle, i: nat, p: nat, k: nat, keys: nat) {
    && k < keys && (forall j :: 0 <= j < k ==> attempt(At(i, p, j)) == Status(KeyLevel))
    && (k == keys - 1 || attempt(At(i, p, k)) != Status(KeyLevel))
  }

  /** A failure at key level goes on to the next key, and nothing else does. */
  lemma RunEnds(attempt: Oracle, i: nat, p: nat, k: nat, keys: nat)
    requires keys > 0 && k < keys
    ensures EndsAt(attempt, i, p, k, keys) <==> StopKey(attempt, i, p, 0, keys) == k
    ensures EndsAt(attempt, i, p, k, keys) ==> RunOutcome(attempt, i, p, keys) == attempt(At(i, p, k))
  {
    var stop := StopKey(attempt, i, p, 0, keys);
    assert attempt(At(i, p, stop)) == Status(KeyLevel) <==> TriesNextKey(attempt(At(i, p, stop)));
  }

  predicate Before(i: nat, p: nat, j: nat, q: nat) {
    i < j || (i == j && p < q)
  }

  /** Every run in front of run `p` of URL `i` fails. */
  ghost predicate AllFailBefore(plan: Plan, attempt: Oracle, keys: nat, i: nat, p: nat)
    requires keys > 0
  {
    forall j, q :: IsRun(plan, j, q) && Before(j, q, i, p) ==> !RunOutcome(attempt, j, q, keys).Found?
  }

  /** The first success in URL, protocol, key order, where a failure that is not at key level skips the
      remaining keys of its run. */
  ghost predicate IsAnswer(plan: Plan, attempt: Oracle, keys: nat, at: At)
    requires keys > 0
  {
    && IsRun(plan, at.url, at.protocol) && at.key < keys
    && attempt(at).Found?
    && (forall k :: 0 <= k < at.key ==> TriesNextKey(attempt(At(at.url, at.protocol, k))))
    && AllFailBefore(plan, attempt, keys, at.url, at.protocol)
  }

  lemma StopsAtSuccess(attempt: Oracle, i: nat, p: nat, k: nat, keys: nat)
    requires k < keys && attempt(At(i, p, k)).Found?
    requires forall j :: 0 <= j < k ==> TriesNextKey(attempt(At(i, p, j)))
    ensures StopKey(attempt, i, p, 0, keys) == k
  {
  }

  /** There is at most one answer. */
  lemma AnswerIsUnique(plan: Plan, attempt: Oracle, keys: nat, a: At, b: At)
    requires keys > 0 && IsAnswer(plan, attempt, keys, a) && IsAnswer(plan, attempt, keys, b)
    ensures a == b
  {
    StopsAtSuccess(attempt, a.url, a.protocol, a.key, keys);
    StopsAtSuccess(attempt, b.url, b.protocol, b.key, keys);
    assert !Before(a.url, a.protocol, b.url, b.protocol) && !Before(b.url, b.protocol, a.url, a.protocol);
  }

  /** There is none when every run fails, so a report without models is never wrong. */
  lemma NoAnswerWhenAllFail(plan: Plan, attempt: Oracle, keys: nat, at: At)
    requires keys > 0 && AllFailBefore(plan, attempt, keys, |plan|, 0)
    ensures !IsAnswer(plan, attempt, keys, at)
  {
    if IsAnswer(plan, attempt, keys, at) {
      StopsAtSuccess(attempt, at.url, at.protocol, at.key, keys);
      assert Before(at.url, at.protocol, |plan|, 0);
    }
  }

  /** One of the first `n` runs of the URL ends in a channel-level or network failure. */
  ghost predicate CoolsUpTo(plan: Plan, attempt: Oracle, keys: nat, i: nat, n: nat)
    requires keys > 0
  {
    exists p: nat :: p < n && IsRun(plan, i, p) && CoolsUrl(RunOutcome(attempt, i, p, keys))
  }

  ghost predicate Cools(plan: Plan, attempt: Oracle, keys: nat, i: nat)
    requires keys > 0
  {
    i < |plan| && CoolsUpTo(plan, attempt, keys, i, |plan[i]|)
  }

  /** A URL is cooled if and only if one of its runs ends in a failure at channel level or in a network failure. */
  lemma CoolsReads(plan: Plan, attempt: Oracle, keys: nat, i: nat)
    requires keys > 0
    ensures Cools(plan, attempt, keys, i) <==>
              exists p: nat :: IsRun(plan, i, p) && RunOutcome(attempt, i, p, keys) in {Status(ChannelLevel), NoStatus(true)}
  {
    hide RunOutcome;
    if p: nat :| IsRun(plan, i, p) && RunOutcome(attempt, i, p, keys) in {Status(ChannelLevel), NoStatus(true)} {
      assert p < |plan[i]| && CoolsUrl(RunOutcome(attempt, i, p, keys));
    }
  }

  /** What is tried on a URL of the configuration: the protocol that is asked for, if the URL declares it or declares
      none; otherwise the declared protocols that are not blank, or the four known ones. */
  lemma PlanReads(configured: seq<ChannelUrl>, sorted: seq<SortedUrl>, wanted: string, i: nat, p: nat)
    requires i < |sorted| && 0 <= sorted[i].idx < |configured|
    ensures var declared := configured[sorted[i].idx].protocols;
            IsRun(PlanOf(configured, sorted, wanted), i, p) <==>
              if wanted != "" then p == 0 && (declared == [] || Lower(Trim(wanted)) in declared) && Trim(wanted) != ""
              else if declared == [] then
                p < 4 && Trim(["openai", "anthropic", "codex", "gemini"][p]) != ""
              else p < |declared| && Trim(declared[p]) != ""
    ensures var declared := configured[sorted[i].idx].protocols;
            wanted == "" ==>
              ProtocolsOf(configured, sorted[i], wanted) ==
              Some(if declared == [] then ["openai", "anthropic", "codex", "gemini"] else declared)
  {
    hide Trim, Lower;
  }

  /** A URL that is not of the configuration is passed over. */
  lemma StrangeUrlIsSkipped(configured: seq<ChannelUrl>, sorted: seq<SortedUrl>, wanted: string, i: nat, p: nat)
    requires i < |sorted| && !(0 <= sorted[i].idx < |configured|)
    ensures !IsRun(PlanOf(configured, sorted, wanted), i, p)
  {
  }

  ghost predicate NoRunBefore(plan: Plan, i: nat, p: nat) {
    forall j, q :: IsRun(plan, j, q) ==> !Before(j, q, i, p)
  }

  /** The last run in front of run `p` of URL `i`. */
  ghost predicate IsLastRun(plan: Plan, i: nat, p: nat, j: nat, q: nat) {
    && IsRun(plan, j, q) && Before(j, q, i, p)
    && forall j', q' :: IsRun(plan, j', q') && Before(j', q', i, p) ==> !Before(j, q, j', q')
  }

  /** The failure of the last run, if there was a run at all. */
  ghost predicate LastFailure(plan: Plan, attempt: Oracle, keys: nat, i: nat, p: nat, last: Option<Outcome>)
    requires keys > 0
  {
    match last
    case None => NoRunBefore(plan, i, p)
    case Some(o) => exists j, q :: IsLastRun(plan, i, p, j, q) && RunOutcome(attempt, j, q, keys) == o
  }

  /** The protocols of the URLs that are not passed over, added up. */
  function RunsIn(plan: Plan): nat {
    if plan == [] then 0 else RunsIn(plan[..|plan| - 1]) + |plan[|plan| - 1]|
  }

  lemma {:induction false} RunsGrow(plan: Plan, n: nat)
    requires n <= |plan|
    ensures RunsIn(plan[..n]) <= RunsIn(plan)
  {
    if n < |plan| {
      RunsGrow(plan[..|plan| - 1], n);
      assert plan[..|plan| - 1][..n] == plan[..n];
    } else {
      assert plan[..n] == plan;
    }
  }

  lemma Products(a: nat, b: nat, c: nat)
    ensures (a + b) * c == a * c + b * c
    ensures a <= b ==> a * c <= b * c
  {
  }

  // ----- the search -----

  function AddKey(keys: seq<string>, key: string): seq<string> {
    if key == "" || key in keys then keys else keys + [key]
  }

  function NormalizedKeys(apiKeys: seq<string>): seq<string> {
    if apiKeys == [] then [] else AddKey(NormalizedKeys(apiKeys[..|apiKeys| - 1]), Trim(apiKeys[|apiKeys| - 1]))
  }

  lemma KeysStep(apiKeys: seq<string>, i: nat)
    requires i < |apiKeys|
    ensures NormalizedKeys(apiKeys[..i + 1]) == AddKey(NormalizedKeys(apiKeys[..i]), Trim(apiKeys[i]))
  {
    assert apiKeys[..i + 1][..i] == apiKeys[..i];
  }

  /** normalizeModelFetchKeys */
  method NormalizeKeys(apiKeys: seq<string>) returns (normalized: seq<string>)
    ensures normalized == NormalizedKeys(apiKeys)
  {
    var seen := {};
    normalized := [];
    for i := 0 to |apiKeys|
      invariant normalized == NormalizedKeys(apiKeys[..i])
      invariant forall key :: key in seen <==> key in normalized
    {
      KeysStep(apiKeys, i);
      var apiKey := Trim(apiKeys[i]);
      if apiKey == "" || apiKey in seen {
        continue;
      }
      seen := seen + {apiKey};
      normalized := normalized + [apiKey];
    }
    assert apiKeys[..|apiKeys|] == apiKeys;
  }

  /** Every trimmed non-blank key is tried, and no other. */
  lemma {:induction false} KeysAreKept(apiKeys: seq<string>, i: nat)
    requires i < |apiKeys| && Trim(apiKeys[i]) != ""
    ensures Trim(apiKeys[i]) in NormalizedKeys(apiKeys)
  {
    if i < |apiKeys| - 1 {
      KeysAreKept(apiKeys[..|apiKeys| - 1], i);
    }
  }

  lemma {:induction false} KeysAreGiven(apiKeys: seq<string>, key: string) returns (i: nat)
    requires key in NormalizedKeys(apiKeys)
    ensures key != "" && i < |apiKeys| && Trim(apiKeys[i]) == key
  {
    var n := |apiKeys| - 1;
    if key in NormalizedKeys(apiKeys[..n]) {
      i := KeysAreGiven(apiKeys[..n], key);
    } else {
      i := n;
    }
  }

  /** Keys are tried once each, in the order in which they are given first. */
  lemma {:induction false} KeysKeepTheirOrder(apiKeys: seq<string>, i: nat, j: nat) returns (a: nat)
    requires i < j < |NormalizedKeys(apiKeys)|
    ensures NormalizedKeys(apiKeys)[i] != NormalizedKeys(apiKeys)[j]
    ensures a < |apiKeys| && Trim(apiKeys[a]) == NormalizedKeys(apiKeys)[i]
    ensures forall b :: 0 <= b <= a ==> Trim(apiKeys[b]) != NormalizedKeys(apiKeys)[j]
  {
    hide Trim;
    var n := |apiKeys| - 1;
    var before := NormalizedKeys(apiKeys[..n]);
    if j < |before| {
      a := KeysKeepTheirOrder(apiKeys[..n], i, j);
    } else {
      assert NormalizedKeys(apiKeys) == before + [Trim(apiKeys[n])];
      assert before[i] in before;
      a := KeysAreGiven(apiKeys[..n], before[i]);
      forall b | 0 <= b <= a
        ensures Trim(apiKeys[b]) != Trim(apiKeys[n])
      {
        if Trim(apiKeys[b]) != "" {
          KeysAreKept(apiKeys[..n], b);
        }
      }
    }
  }

  /** A stored key of a channel. */
  datatype ApiKey = ApiKey(key: string, disabled: bool, cooldownUntil: int, index: int)

  predicate Offered(k: Option<ApiKey>) {
    k.Some? && !k.value.disabled && Trim(k.value.key) != ""
  }

  predicate Cooling(k: ApiKey, now: int) {
    k.cooldownUntil > now
  }

  predicate Sooner(a: ApiKey, b: ApiKey) {
    a.cooldownUntil < b.cooldownUntil || (a.cooldownUntil == b.cooldownUntil && a.index < b.index)
  }

  /** The keys that can be used now, among the first `n`. */
  function ReadyKeys(keys: seq<Option<ApiKey>>, now: int, n: nat): seq<string>
    requires n <= |keys|
  {
    if n == 0 then []
    else if Offered(keys[n - 1]) && !Cooling(keys[n - 1].value, now) then ReadyKeys(keys, now, n - 1) + [keys[n - 1].value.key]
    else ReadyKeys(keys, now, n - 1)
  }

  /** Among the first `n` keys that are cooling down, the one that recovers first. */
  predicate RecoversFirst(keys: seq<Option<ApiKey>>, now: int, n: nat, best: nat)
    requires n <= |keys|
  {
    && best < n && Offered(keys[best]) && Cooling(keys[best].value, now)
    && forall i :: 0 <= i < n && Offered(keys[i]) && Cooling(keys[i].value, now) ==> !Sooner(keys[i].value, keys[best].value)
  }

  /** The single key that is tried when every offered key is cooling down. */
  predicate IsFallback(apiKeys: seq<string>, keys: seq<Option<ApiKey>>, now: int, best: nat) {
    RecoversFirst(keys, now, |keys|, best) && apiKeys == [Trim(keys[best].value.key)]
  }

  predicate SomeOffered(keys: seq<Option<ApiKey>>) {
    exists i :: 0 <= i < |keys| && Offered(keys[i])
  }

  lemma {:induction false} ReadyKeysAreOffered(keys: seq<Option<ApiKey>>, now: int, n: nat)
    requires n <= |keys|
    ensures var ready := ReadyKeys(keys, now, n);
            if ready != [] then SomeOffered(keys) && Trim(ready[0]) != ""
            else forall i :: 0 <= i < n && Offered(keys[i]) ==> Cooling(keys[i].value, now)
  {
    hide Trim;
    if n > 0 {
      ReadyKeysAreOffered(keys, now, n - 1);
    }
  }

  lemma ReadyKeysAreTried(keys: seq<Option<ApiKey>>, now: int)
    ensures NormalizedKeys(ReadyKeys(keys, now, |keys|)) == [] <==> ReadyKeys(keys, now, |keys|) == []
  {
    hide Trim;
    if ReadyKeys(keys, now, |keys|) != [] {
      ReadyKeysAreOffered(keys, now, |keys|);
      KeysAreKept(ReadyKeys(keys, now, |keys|), 0);
    }
  }

  lemma {:induction false} ReadyKeysRead(keys: seq<Option<ApiKey>>, now: int, n: nat, key: string)
    requires n <= |keys|
    ensures key in ReadyKeys(keys, now, n) <==> exists i :: 0 <= i < n && IsReady(keys[i], now) && keys[i].value.key == key
  {
    hide Trim;
    if n > 0 {
      ReadyKeysRead(keys, now, n - 1, key);
    }
  }

  /** A stored key that is switched on, not blank and not cooling down. */
  predicate IsReady(k: Option<ApiKey>, now: int) {
    k.Some? && !k.value.disabled && k.value.cooldownUntil <= now && Trim(k.value.key) != ""
  }

  /** The keys tried are, trimmed, exactly those that are ready. */
  lemma TriedKeysAreReady(keys: seq<Option<ApiKey>>, now: int, key: string)
    ensures key in NormalizedKeys(ReadyKeys(keys, now, |keys|)) <==>
              exists i :: 0 <= i < |keys| && IsReady(keys[i], now) && Trim(keys[i].value.key) == key
  {
    hide Trim;
    var ready := ReadyKeys(keys, now, |keys|);
    if key in NormalizedKeys(ready) {
      var i := KeysAreGiven(ready, key);
      ReadyKeysRead(keys, now, |keys|, ready[i]);
    } else if i :| 0 <= i < |keys| && IsReady(keys[i], now) && Trim(keys[i].value.key) == key {
      ReadyKeysRead(keys, now, |keys|, keys[i].value.key);
      var j :| 0 <= j < |ready| && ready[j] == keys[i].value.key;
      KeysAreKept(ready, j);
      assert false;
    }
  }

  /** The key tried when none is ready: of those switched on and not blank, the one with the earliest end of its cooldown,
      and among those with the same end the one with the lowest index. */
  lemma FallbackReads(apiKeys: seq<string>, keys: seq<Option<ApiKey>>, now: int, best: nat, i: nat)
    requires IsFallback(apiKeys, keys, now, best) && i < |keys|
    requires keys[i].Some? && !keys[i].value.disabled && Trim(keys[i].value.key) != "" && keys[i].value.cooldownUntil > now
    ensures best < |keys| && keys[best].Some? && apiKeys == [Trim(keys[best].value.key)]
    ensures var a, b := keys[best].value, keys[i].value;
            && !a.disabled && a.cooldownUntil > now
            && (a.cooldownUntil < b.cooldownUntil || (a.cooldownUntil == b.cooldownUntil && a.index <= b.index))
  {
  }

  /** availableModelFetchKeys: the keys that can be used now; without any, the one key that recovers
      first; nothing only when no key is offered at all. */
  method AvailableKeys(keys: seq<Option<ApiKey>>, now: int) returns (apiKeys: seq<string>)
    ensures ReadyKeys(keys, now, |keys|) != [] ==> apiKeys == NormalizedKeys(ReadyKeys(keys, now, |keys|)) != []
    ensures ReadyKeys(keys, now, |keys|) == [] && apiKeys != [] ==>
              exists best: nat :: IsFallback(apiKeys, keys, now, best)
    ensures apiKeys != [] <==> SomeOffered(keys)
  {
    hide Trim, NormalizedKeys;
    var cooldownFallback: Option<ApiKey> := None;
    ghost var best: nat := |keys|;
    apiKeys := [];
    for n := 0 to |keys|
      invariant apiKeys == ReadyKeys(keys, now, n)
      invariant cooldownFallback.None? ==>
                  best == |keys| && forall i :: 0 <= i < n && Offered(keys[i]) ==> !Cooling(keys[i].value, now)
      invariant cooldownFallback.Some? ==> RecoversFirst(keys, now, n, best) && keys[best] == cooldownFallback
    {
      if keys[n].None? || keys[n].value.disabled || Trim(keys[n].value.key) == "" {
        continue;
      }
      var key := keys[n].value;
      if Cooling(key, now) {
        if cooldownFallback.None? || Sooner(key, cooldownFallback.value) {
          cooldownFallback := Some(key);
          best := n;
        }
        continue;
      }
      apiKeys := apiKeys + [key.key];
    }
    ReadyKeysAreTried(keys, now);
    ReadyKeysAreOffered(keys, now, |keys|);
    apiKeys := NormalizeKeys(apiKeys);
    if apiKeys == [] && cooldownFallback.Some? {
      apiKeys := [Trim(cooldownFallback.value.key)];
      assert IsFallback(apiKeys, keys, now, best);
    }
  }

  method TryKeys(attempt: Oracle, i: nat, p: nat, keys: seq<string>) returns (o: Outcome, key: nat)
    requires keys != []
    ensures key == StopKey(attempt, i, p, 0, |keys|) && o == RunOutcome(attempt, i, p, |keys|)
  {
    key := 0;
    o := attempt(At(i, p, 0));
    while TriesNextKey(o) && key + 1 < |keys|
      invariant key < |keys| && o == attempt(At(i, p, key))
      invariant StopKey(attempt, i, p, 0, |keys|) == StopKey(attempt, i, p, key, |keys|)
    {
      key := key + 1;
      o := attempt(At(i, p, key));
    }
  }

  /** What is known when URL `i` has been tried up to protocol `p`. */
  ghost predicate Scanned(plan: Plan, attempt: Oracle, keys: nat, i: nat, p: nat, cool: bool, last: Option<Outcome>)
    requires keys > 0
  {
    && AllFailBefore(plan, attempt, keys, i, p)
    && (cool <==> CoolsUpTo(plan, attempt, keys, i, p))
    && LastFailure(plan, attempt, keys, i, p, last)
  }

  lemma NextRun(plan: Plan, attempt: Oracle, keys: nat, i: nat, p: nat, cool: bool)
    requires keys > 0
    ensures AllFailBefore(plan, attempt, keys, i, p) && !(IsRun(plan, i, p) && RunOutcome(attempt, i, p, keys).Found?) ==>
              AllFailBefore(plan, attempt, keys, i, p + 1)
    ensures (cool <==> CoolsUpTo(plan, attempt, keys, i, p)) ==>
              (cool || (IsRun(plan, i, p) && CoolsUrl(RunOutcome(attempt, i, p, keys))) <==>
               CoolsUpTo(plan, attempt, keys, i, p + 1))
  {
  }

  lemma NextLast(plan: Plan, attempt: Oracle, keys: nat, i: nat, p: nat, last: Option<Outcome>)
    requires keys > 0 && LastFailure(plan, attempt, keys, i, p, last)
    ensures LastFailure(plan, attempt, keys, i, p + 1,
                        if IsRun(plan, i, p) then Some(RunOutcome(attempt, i, p, keys)) else last)
  {
    if IsRun(plan, i, p) {
      assert IsLastRun(plan, i, p + 1, i, p);
    } else if last.Some? {
      var j, q :| IsLastRun(plan, i, p, j, q) && RunOutcome(attempt, j, q, keys) == last.value;
      assert IsLastRun(plan, i, p + 1, j, q);
    }
  }

  lemma Advance(plan: Plan, attempt: Oracle, keys: nat, i: nat, p: nat, cool: bool, last: Option<Outcome>)
    requires keys > 0 && Scanned(plan, attempt, keys, i, p, cool, last)
    ensures !IsRun(plan, i, p) ==> Scanned(plan, attempt, keys, i, p + 1, cool, last)
    ensures IsRun(plan, i, p) && !RunOutcome(attempt, i, p, keys).Found? ==>
              var o := RunOutcome(attempt, i, p, keys);
              Scanned(plan, attempt, keys, i, p + 1, cool || CoolsUrl(o), Some(o))
  {
    NextRun(plan, attempt, keys, i, p, cool);
    NextLast(plan, attempt, keys, i, p, last);
  }

  lemma Arrived(plan: Plan, attempt: Oracle, keys: nat, i: nat, p: nat, cool: bool, last: Option<Outcome>)
    requires keys > 0 && Scanned(plan, attempt, keys, i, p, cool, last)
    requires IsRun(plan, i, p) && RunOutcome(attempt, i, p, keys).Found?
    ensures IsAnswer(plan, attempt, keys, At(i, p, StopKey(attempt, i, p, 0, keys)))
  {
  }

  /** One URL: the answer, or the last failure and whether the URL has to be cooled. */
  method TryProtocols(attempt: Oracle, i: nat, protocols: seq<string>, keys: seq<string>, ghost plan: Plan,
                      wasAttempted: seq<string>, wasLast: Option<Outcome>)
    returns (answer: Option<At>, last: Option<Outcome>, cool: bool, attempted: seq<string>, attempts: nat)
    requires keys != [] && i < |plan| && plan[i] == Tried(Some(protocols))
    requires wasAttempted == [] <==> wasLast.None?
    requires Scanned(plan, attempt, |keys|, i, 0, false, wasLast)
    ensures answer.Some? ==> answer.value.url == i && IsAnswer(plan, attempt, |keys|, answer.value)
    ensures answer.None? ==> Scanned(plan, attempt, |keys|, i, |protocols|, cool, last)
    ensures answer.None? ==> (attempted == [] <==> last.None?)
    ensures attempts <= |protocols| * |keys|
  {
    hide Scanned, RunOutcome, StopKey, CoolsUrl, IsAnswer;
    answer, last, cool, attempted, attempts := None, wasLast, false, wasAttempted, 0;
    for p := 0 to |protocols|
      invariant Scanned(plan, attempt, |keys|, i, p, cool, last)
      invariant attempted == [] <==> last.None?
      invariant answer.None? && attempts <= p * |keys|
    {
      Advance(plan, attempt, |keys|, i, p, cool, last);
      Products(p, 1, |keys|);
      Products(p + 1, |protocols|, |keys|);
      if Blank(protocols[p]) {
        continue;
      }
      if protocols[p] !in attempted {
        attempted := attempted + [protocols[p]];
      }
      var o, key := TryKeys(attempt, i, p, keys);
      attempts := attempts + key + 1;
      if o.Found? {
        Arrived(plan, attempt, |keys|, i, p, cool, last);
        answer := Some(At(i, p, key));
        return;
      }
      last := Some(o);
      cool := cool || CoolsUrl(o);
    }
  }

  ghost function Hot(enabled: bool, plan: Plan, attempt: Oracle, keys: nat): nat -> bool
    requires keys > 0
  {
    (i: nat) => enabled && Cools(plan, attempt, keys, i)
  }

  /** The selector is told to cool exactly the URLs in front of `n` that have to be cooled, once each. */
  ghost predicate CooledBefore(cooled: seq<nat>, hot: nat -> bool, n: nat) {
    && (forall a :: 0 <= a < |cooled| ==> cooled[a] < n && hot(cooled[a]))
    && (forall i: nat :: i < n && hot(i) ==> i in cooled)
    && (forall a, b :: 0 <= a < b < |cooled| ==> cooled[a] < cooled[b])
  }

  lemma NextCooled(was: seq<nat>, hot: nat -> bool, i: nat, cool: bool)
    requires CooledBefore(was, hot, i) && cool == hot(i)
    ensures CooledBefore(if cool then was + [i] else was, hot, i + 1)
  {
    var cooled := if cool then was + [i] else was;
    assert cool ==> cooled[|was|] == i;
    forall j: nat | j < i + 1 && hot(j)
      ensures j in cooled
    {
      if j < i {
        assert j in was;
      }
    }
  }

  /** What is known in front of URL `i`. */
  ghost predicate Visited(plan: Plan, attempt: Oracle, keys: nat, i: nat, cooled: seq<nat>, enabled: bool, last: Option<Outcome>)
    requires keys > 0 && i <= |plan|
  {
    && AllFailBefore(plan, attempt, keys, i, 0)
    && CooledBefore(cooled, Hot(enabled, plan, attempt, keys), i)
    && LastFailure(plan, attempt, keys, i, 0, last)
  }

  lemma NextUrl(plan: Plan, attempt: Oracle, keys: nat, i: nat, p: nat, last: Option<Outcome>)
    requires keys > 0 && i < |plan| && p == |plan[i]|
    ensures AllFailBefore(plan, attempt, keys, i, p) ==> AllFailBefore(plan, attempt, keys, i + 1, 0)
    ensures LastFailure(plan, attempt, keys, i, p, last) ==> LastFailure(plan, attempt, keys, i + 1, 0, last)
  {
    assert forall j, q :: IsRun(plan, j, q) ==> (Before(j, q, i, p) <==> Before(j, q, i + 1, 0));
    if LastFailure(plan, attempt, keys, i, p, last) && last.Some? {
      var j, q :| IsLastRun(plan, i, p, j, q) && RunOutcome(attempt, j, q, keys) == last.value;
      assert IsLastRun(plan, i + 1, 0, j, q);
    }
  }

  lemma AdvanceUrl(plan: Plan, attempt: Oracle, keys: nat, i: nat, was: seq<nat>, enabled: bool,
                   cool: bool, last: Option<Outcome>)
    requires keys > 0 && i < |plan| && CooledBefore(was, Hot(enabled, plan, attempt, keys), i)
    requires Scanned(plan, attempt, keys, i, |plan[i]|, cool, last)
    ensures Visited(plan, attempt, keys, i + 1, if enabled && cool then was + [i] else was, enabled, last)
  {
    NextUrl(plan, attempt, keys, i, |plan[i]|, last);
    NextCooled(was, Hot(enabled, plan, attempt, keys), i, enabled && cool);
  }

  /** What the search reports and tells the selector. */
  ghost predicate Reports(d: Discovery, cooled: seq<nat>, latencyOf: Option<nat>, enabled: bool,
                          plan: Plan, attempt: Oracle, keys: nat)
    requires keys > 0
  {
    match d
    case Refused(_) => false
    case Answered(models, at) =>
      && IsAnswer(plan, attempt, keys, at) && attempt(at) == Found(models)
      && latencyOf == (if enabled then Some(at.url) else None)
      && CooledBefore(cooled, Hot(enabled, plan, attempt, keys), at.url)
    case Failed(attempted, last) =>
      && attempted != [] && latencyOf == None
      && Visited(plan, attempt, keys, |plan|, cooled, enabled, Some(last))
    case NoUsableUrl =>
      latencyOf == None && Visited(plan, attempt, keys, |plan|, cooled, enabled, None)
  }

  /** fetchModelsWithURLFallback.  `latencyOf` is the URL whose latency is recorded. */
  method Discover(configured: seq<ChannelUrl>, sorted: seq<SortedUrl>, wantedProtocol: string, apiKeys: seq<string>,
                  selectorEnabled: bool, attempt: Oracle)
    returns (d: Discovery, cooled: seq<nat>, latencyOf: Option<nat>, attempts: nat)
    ensures var wanted, keys := Lower(Trim(wantedProtocol)), NormalizedKeys(apiKeys);
            var plan := PlanOf(configured, sorted, wanted);
            && (d == Refused(NoUrls) <==> configured == [])
            && (d == Refused(NoKeys) <==> configured != [] && keys == [])
            && (d == Refused(UnknownProtocol) <==>
                  configured != [] && keys != [] && wanted != "" && wanted !in ["anthropic", "codex", "openai", "gemini"])
            && (d.Refused? ==> cooled == [] && latencyOf == None && attempts == 0)
            && latencyOf == (if selectorEnabled && d.Answered? then Some(d.at.url) else None)
            && (d.Answered? ==> attempt(d.at) == Found(d.models))
            && (!d.Refused? ==>
                  && Reports(d, cooled, latencyOf, selectorEnabled, plan, attempt, |keys|)
                  && attempts <= RunsIn(plan) * |keys|)
  {
    cooled, latencyOf, attempts := [], None, 0;
    if configured == [] {
      return Refused(NoUrls), cooled, latencyOf, attempts;
    }
    var keys := NormalizeKeys(apiKeys);
    if keys == [] {
      return Refused(NoKeys), cooled, latencyOf, attempts;
    }
    var wanted := Lower(Trim(wantedProtocol));
    if wanted != "" && !Valid(wanted) {
      return Refused(UnknownProtocol), cooled, latencyOf, attempts;
    }
    d, cooled, latencyOf, attempts := Search(configured, sorted, wanted, keys, selectorEnabled, attempt);
  }

  method VisitUrl(attempt: Oracle, i: nat, protocols: Option<seq<string>>, keys: seq<string>, selectorEnabled: bool,
                  ghost plan: Plan, was: seq<nat>, wasAttempted: seq<string>, wasLast: Option<Outcome>)
    returns (answer: Option<At>, cooled: seq<nat>, attempted: seq<string>, last: Option<Outcome>, attempts: nat)
    requires keys != [] && i < |plan| && plan[i] == Tried(protocols)
    requires wasAttempted == [] <==> wasLast.None?
    requires Visited(plan, attempt, |keys|, i, was, selectorEnabled, wasLast)
    ensures answer.Some? ==> answer.value.url == i && IsAnswer(plan, attempt, |keys|, answer.value) && cooled == was
    ensures answer.None? ==> Visited(plan, attempt, |keys|, i + 1, cooled, selectorEnabled, last)
    ensures answer.None? ==> (attempted == [] <==> last.None?)
    ensures attempts <= |plan[i]| * |keys|
  {
    answer, cooled, attempted, last, attempts := None, was, wasAttempted, wasLast, 0;
    if protocols.None? {
      AdvanceUrl(plan, attempt, |keys|, i, was, selectorEnabled, false, last);
      return;
    }
    var cool;
    answer, last, cool, attempted, attempts := TryProtocols(attempt, i, protocols.value, keys, plan, attempted, last);
    if answer.Some? {
      return;
    }
    AdvanceUrl(plan, attempt, |keys|, i, was, selectorEnabled, cool, last);
    if selectorEnabled && cool {
      cooled := cooled + [i];
    }
  }

  method Search(configured: seq<ChannelUrl>, sorted: seq<SortedUrl>, wanted: string, keys: seq<string>,
                selectorEnabled: bool, attempt: Oracle)
    returns (d: Discovery, cooled: seq<nat>, latencyOf: Option<nat>, attempts: nat)
    requires keys != []
    ensures var plan := PlanOf(configured, sorted, wanted);
            Reports(d, cooled, latencyOf, selectorEnabled, plan, attempt, |keys|) && attempts <= RunsIn(plan) * |keys|
  {
    ghost var plan := PlanOf(configured, sorted, wanted);
    cooled, latencyOf, attempts := [], None, 0;
    var attempted: seq<string>, last: Option<Outcome> := [], None;
    for i := 0 to |sorted|
      invariant Visited(plan, attempt, |keys|, i, cooled, selectorEnabled, last)
      invariant attempted == [] <==> last.None?
      invariant attempts <= RunsIn(plan[..i]) * |keys| && latencyOf.None?
    {
      RunsStep(plan, i, |keys|);
      var protocols := ProtocolsOf(configured, sorted[i], wanted);
      var answer, n;
      answer, cooled, attempted, last, n :=
        VisitUrl(attempt, i, protocols, keys, selectorEnabled, plan, cooled, attempted, last);
      attempts := attempts + n;
      if answer.Some? {
        if selectorEnabled {
          latencyOf := Some(i);
        }
        return Answered(attempt(answer.value).models, answer.value), cooled, latencyOf, attempts;
      }
    }
    assert plan[..|sorted|] == plan;
    if last.Some? {
      // The source substitutes the default order when no protocol was attempted; a failure rules that out.
      return Failed(attempted, last.value), cooled, latencyOf, attempts;
    }
    return NoUsableUrl, cooled, latencyOf, attempts;
  }

  lemma RunsStep(plan: Plan, i: nat, keys: nat)
    requires i < |plan|
    ensures RunsIn(plan[..i + 1]) * keys == RunsIn(plan[..i]) * keys + |plan[i]| * keys
    ensures RunsIn(plan[..i + 1]) * keys <= RunsIn(plan) * keys
  {
    assert plan[..i + 1][..i] == plan[..i];
    RunsGrow(plan, i + 1);
    Products(RunsIn(plan[..i]), |plan[i]|, keys);
    Products(RunsIn(plan[..i + 1]), RunsIn(plan), keys);
  }
}
