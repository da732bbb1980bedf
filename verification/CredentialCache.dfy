/** The cache of Antigravity credentials in front of the channel store. */
module CredentialCache {
  import opened AntigravityCredential
  import opened Wrappers

  // ----- the cache under interleaving -----

  /** `held` is ghost history: every payload the store has held for a channel.  `parsed` are the results of
      parses that have not reached the cache yet, `stored` the refreshes that are in the store but not yet
      in the cache, `handed` everything that callers were given. */
  datatype State = State(
    held: set<(int, string)>,
    cache: map<int, Credential>,
    parsed: set<(int, Credential)>,
    stored: set<(int, Credential)>,
    handed: set<(int, Credential)>)

  datatype Event =
    | StoreWritten(channel: int, payload: string)
    | HitCache(channel: int)
    | ParsedConfig(channel: int, payload: string)
    | InsertedParsed(channel: int, credential: Credential)
    | StoredRefresh(channel: int, merged: Credential)
    | CachedRefresh(channel: int, merged: Credential)
    | Invalidated(channel: int)

  /** Each event is one locked region, one store call or one parse. */
  ghost predicate Step(f: Format, s: State, e: Event, t: State) {
    match e
    case StoreWritten(ch, payload) =>
      // Any other writer: a login, an import, an administrator.
      t == s.(held := s.held + {(ch, payload)})
    case HitCache(ch) =>
      ch in s.cache && t == s.(handed := s.handed + {(ch, s.cache[ch])})
    case ParsedConfig(ch, payload) =>
      // The configuration a caller holds may be old, but it came from the store.
      && (ch, payload) in s.held && Parsed(f, payload).Good?
      && t == s.(parsed := s.parsed + {(ch, Parsed(f, payload).value)})
    case InsertedParsed(ch, c) =>
      && (ch, c) in s.parsed
      && (if ch in s.cache then t == s.(handed := s.handed + {(ch, s.cache[ch])})
          else t == s.(cache := s.cache[ch := c], handed := s.handed + {(ch, c)}))
    case StoredRefresh(ch, merged) =>
      // The payload is written first; a failed write ends the refresh.
      && Normalized(f, merged).Good?
      && t == s.(held := s.held + {(ch, f.encode(Normalized(f, merged).value))},
                 stored := s.stored + {(ch, Normalized(f, merged).value)})
    case CachedRefresh(ch, merged) =>
      && (ch, merged) in s.stored
      && t == s.(cache := s.cache[ch := merged], handed := s.handed + {(ch, merged)})
    case Invalidated(ch) =>
      t == s.(cache := s.cache - {ch})
  }

  ghost predicate Backed(f: Format, held: set<(int, string)>, channel: int, c: Credential) {
    IsCanonical(f, c) && exists payload :: (channel, payload) in held && FormOf(f, c, payload)
  }

  /** A credential that is cached, on its way to the cache, or handed out. */
  predicate Sees(s: State, ch: int, c: Credential) {
    (ch in s.cache && s.cache[ch] == c) || (ch, c) in s.parsed || (ch, c) in s.stored || (ch, c) in s.handed
  }

  ghost predicate SoundAt(f: Format, s: State, ch: int, c: Credential) {
    Sees(s, ch, c) ==> Backed(f, s.held, ch, c)
  }

  /** Every credential in sight is the canonical form of a payload the store has held for its channel. */
  ghost predicate Inv(f: Format, s: State) {
    forall ch, c :: SoundAt(f, s, ch, c)
  }

  /** The credential an event brings into sight, if any. */
  ghost function Brings(f: Format, e: Event): Option<(int, Credential)> {
    match e
    case ParsedConfig(ch, payload) => if Parsed(f, payload).Good? then Some((ch, Parsed(f, payload).value)) else None
    case StoredRefresh(ch, merged) => if Normalized(f, merged).Good? then Some((ch, Normalized(f, merged).value)) else None
    case StoreWritten(_, _) => None
    case HitCache(_) => None
    case InsertedParsed(_, _) => None
    case CachedRefresh(_, _) => None
    case Invalidated(_) => None
  }

  lemma StepBrings(f: Format, s: State, e: Event, t: State, ch: int, c: Credential)
    requires Step(f, s, e, t) && Sees(t, ch, c)
    ensures Sees(s, ch, c) || Brings(f, e) == Some((ch, c))
    ensures s.held <= t.held
  {
  }

  lemma BackedMeansCanonical(f: Format, held: set<(int, string)>, channel: int, c: Credential)
    requires Backed(f, held, channel, c)
    ensures IsCanonical(f, c)
  {
  }

  lemma BackedStays(f: Format, held: set<(int, string)>, more: set<(int, string)>, channel: int, c: Credential)
    requires held <= more && Backed(f, held, channel, c)
    ensures Backed(f, more, channel, c)
  {
  }

  lemma ParsedIsBacked(f: Format, held: set<(int, string)>, channel: int, payload: string)
    requires Lawful(f) && (channel, payload) in held && Parsed(f, payload).Good?
    ensures Backed(f, held, channel, Parsed(f, payload).value)
  {
    ParsedForm(f, payload);
    NormalizeIsIdempotent(f, f.decode(payload).value);
  }

  lemma StoredIsBacked(f: Format, held: set<(int, string)>, channel: int, merged: Credential)
    requires Lawful(f) && Normalized(f, merged).Good?
    requires (channel, f.encode(Normalized(f, merged).value)) in held
    ensures Backed(f, held, channel, Normalized(f, merged).value)
  {
    PayloadForm(f, merged);
    NormalizeIsIdempotent(f, merged);
  }

  lemma BroughtIsBacked(f: Format, s: State, e: Event, t: State)
    requires Lawful(f) && Step(f, s, e, t) && Brings(f, e).Some?
    ensures Backed(f, t.held, Brings(f, e).value.0, Brings(f, e).value.1)
  {
    if e.ParsedConfig? {
      ParsedIsBacked(f, t.held, e.channel, e.payload);
    } else {
      StoredIsBacked(f, t.held, e.channel, e.merged);
    }
  }

  lemma StepKeeps(f: Format, s: State, e: Event, t: State)
    requires Lawful(f) && Inv(f, s) && Step(f, s, e, t)
    ensures Inv(f, t)
  {
    forall ch, c
      ensures SoundAt(f, t, ch, c)
    {
      if Sees(t, ch, c) {
        StepBrings(f, s, e, t, ch, c);
        if Sees(s, ch, c) {
          assert SoundAt(f, s, ch, c);
          BackedStays(f, s.held, t.held, ch, c);
        } else {
          BroughtIsBacked(f, s, e, t);
        }
      }
    }
  }

  ghost predicate Moves(f: Format, states: seq<State>, events: seq<Event>, i: nat)
    requires i < |events| < |states|
  {
    Step(f, states[i], events[i], states[i + 1])
  }

  predicate IsStart(s: State) {
    s.cache == map[] && s.parsed == {} && s.stored == {} && s.handed == {}
  }

  /** The states of a run, one more than its events. */
  ghost predicate Run(f: Format, states: seq<State>, events: seq<Event>) {
    && |states| == |events| + 1 && IsStart(states[0])
    && forall i :: 0 <= i < |events| ==> Moves(f, states, events, i)
  }

  lemma RunStep(f: Format, states: seq<State>, events: seq<Event>, i: nat)
    requires Run(f, states, events) && i < |events|
    ensures Step(f, states[i], events[i], states[i + 1])
  {
    assert Moves(f, states, events, i);
  }

  lemma StartIsSound(f: Format, s: State)
    requires IsStart(s)
    ensures Inv(f, s)
  {
    forall ch, c
      ensures SoundAt(f, s, ch, c)
    {
      assert !Sees(s, ch, c);
    }
  }

  /** Agreement with the store, over every run and every interleaving; what was handed out once stays
      accounted for. */
  lemma {:induction false} AlwaysBacked(f: Format, states: seq<State>, events: seq<Event>, n: nat)
    requires Lawful(f) && Run(f, states, events) && n <= |events|
    ensures Inv(f, states[n])
  {
    hide Step, Inv, Moves, Lawful;
    if n > 0 {
      AlwaysBacked(f, states, events, n - 1);
      RunStep(f, states, events, n - 1);
      StepKeeps(f, states[n - 1], events[n - 1], states[n]);
    } else {
      StartIsSound(f, states[0]);
    }
  }

  lemma {:induction false} StoredBefore(f: Format, states: seq<State>, events: seq<Event>, n: nat, p: (int, Credential))
    returns (i: nat)
    requires Run(f, states, events) && n <= |events| && p in states[n].stored
    ensures i < n && events[i].StoredRefresh? && events[i].channel == p.0
    ensures Normalized(f, events[i].merged) == Good(p.1)
  {
    assert n > 0;
    RunStep(f, states, events, n - 1);
    if p in states[n - 1].stored {
      i := StoredBefore(f, states, events, n - 1, p);
    } else {
      i := n - 1;
    }
  }

  /** A refreshed credential reaches the cache only after its payload has reached the store. */
  lemma StoreComesFirst(f: Format, states: seq<State>, events: seq<Event>, n: nat) returns (i: nat)
    requires Lawful(f) && Run(f, states, events) && n < |events| && events[n].CachedRefresh?
    ensures i < n && events[i].StoredRefresh? && events[i].channel == events[n].channel
    ensures Normalized(f, events[i].merged) == Good(events[n].merged)
    ensures (events[n].channel, f.encode(events[n].merged)) in states[i + 1].held
  {
    RunStep(f, states, events, n);
    i := StoredBefore(f, states, events, n, (events[n].channel, events[n].merged));
    RunStep(f, states, events, i);
  }

  // ----- the objects -----

  class TierObject {
    var id: string
    var name: string

    constructor (t: Tier)
      ensures id == t.id && name == t.name
    {
      id, name := t.id, t.name;
    }
  }

  /** A credential as callers hold it: a record with a pointer to the tier. */
  class CredentialObject {
    var core: Credential
    var tier: TierObject?

    function Footprint(): set<object>
      reads this
    {
      if tier == null then {this} else {this, tier}
    }

    function Value(): Credential
      reads this, tier
    {
      core.(paidTier := if tier == null then None else Some(Tier(tier.id, tier.name)))
    }

    constructor (c: Credential)
      ensures Value() == c && fresh(Footprint())
    {
      core := c;
      if c.paidTier.Some? {
        tier := new TierObject(c.paidTier.value);
      } else {
        tier := null;
      }
    }

    /** cloneAntigravityCredential */
    method Clone() returns (clone: CredentialObject)
      ensures clone.Value() == Value() && fresh(clone.Footprint())
    {
      var copy := core;
      clone := new CredentialObject(copy.(paidTier := None));
      if tier != null {
        var paidTier := new TierObject(Tier(tier.id, tier.name));
        clone.tier := paidTier;
      }
    }

    /** Normalize, in place; on an error the fields keep what was written before it. */
    method Normalize(f: Format) returns (problem: Option<Problem>)
      modifies Footprint()
      ensures Footprint() <= old(Footprint())
      ensures problem == FirstProblem(f, Canonical(f, old(Value())))
      ensures Value() == Canonical(f, old(Value())) || problem.Some?
      ensures problem.None? ==> Normalized(f, old(Value())) == Good(Value())
    {
      core := core.(kind := f.lower(f.trim(core.kind)), accessToken := f.trim(core.accessToken),
                    refreshToken := f.trim(core.refreshToken), expired := f.trim(core.expired),
                    email := f.trim(core.email), projectID := f.trim(core.projectID));
      if tier != null {
        tier.id, tier.name := f.trim(tier.id), f.trim(tier.name);
        if tier.id == "" && tier.name == "" {
          tier := null;
        }
      }
      if core.kind == "" {
        core := core.(kind := f.channelType);
      }
      if core.kind != f.channelType {
        return Some(UnsupportedType);
      }
      if core.accessToken == "" {
        return Some(NoAccessToken);
      }
      if core.refreshToken == "" {
        return Some(NoRefreshToken);
      }
      if core.expired == "" && core.timestamp > 0 && core.expiresIn > 0 {
        core := core.(expired := f.renderTime(core.timestamp, core.expiresIn));
      }
      problem := ExpiryProblem(f, core.expired);
    }
  }

  /** A channel as its caller knows it. */
  datatype Config = Config(id: int, payload: string)

  /** What a call starts from: the entry of the cache, or else what the configuration says. */
  function Source(f: Format, contents: map<int, Credential>, cfg: Config): Checked<Credential> {
    if cfg.id in contents then Good(contents[cfg.id]) else Parsed(f, cfg.payload)
  }

  /** The cache after a call has looked at its source. */
  function Seen(f: Format, contents: map<int, Credential>, cfg: Config): map<int, Credential> {
    var source := Source(f, contents, cfg);
    if source.Good? then contents[cfg.id := source.value] else contents
  }

  /** What a refresh wants to store. */
  function Renewed(f: Format, c: Credential, force: bool, metadata: bool, s: Service, now: int, lead: int): Checked<Credential> {
    match NeedsRefresh(f, c, now, lead)
    case Bad(p) => Bad(p)
    case Good(needed) =>
      var token := if force || needed then Refreshed(f, c, s) else Good(c);
      if token.Good? && (metadata || force || needed || token.value.projectID == "" || token.value.email == "")
      then Completed(f, token.value, s, now, lead).0
      else token
  }

  /** A token is exchanged exactly when that is forced or due; then, and when metadata is asked for or a name is missing, the
      credential is completed; and otherwise it stays as it is. */
  lemma RenewedReads(f: Format, c: Credential, force: bool, metadata: bool, s: Service, now: int, lead: int)
    requires Lawful(f) && IsCanonical(f, c)
    ensures f.parseTime(c.expired).Some?
    ensures var renewed := Renewed(f, c, force, metadata, s, now, lead);
            if force || f.parseTime(c.expired).value <= now + lead then
              match s.refresh(c.refreshToken)
              case None => renewed == Bad(RefreshFailed)
              case Some(answer) =>
                var merged := MergeRefresh(f, c, answer);
                renewed == if merged.Bad? then merged else Completed(f, merged.value, s, now, lead).0
            else if metadata || c.projectID == "" || c.email == "" then renewed == Completed(f, c, s, now, lead).0
            else renewed == Good(c)
  {
    hide Completed, MergeRefresh, Lawful, IsCanonical;
    DueExactly(f, c, now, lead);
  }

  /** What no step undoes: the history of the store, and what is on its way to the cache. */
  predicate Kept(s: State, t: State) {
    s.held <= t.held && s.parsed <= t.parsed && s.stored <= t.stored
  }

  /** Whether resolveCredential can answer from the cache. */
  predicate IsCurrent(f: Format, c: Credential, now: int, lead: int) {
    NeedsRefresh(f, c, now, lead) == Good(false) && c.projectID != "" && c.email != ""
  }

  /** antigravityCredentialManager.  `state` is the state of the step system above that the fields stand for, with its
      history of the store; no method of the source reads it.  `repr` holds the objects of the cache.  Every locked
      region, parse and store call is one method, proved to be one step, so any interleaving of callers is a sequence of
      these methods and a run of the system. */
  class Manager {
    const f: Format
    var entries: map<int, CredentialObject>
    var state: State
    ghost var repr: set<object>

    ghost predicate Valid()
      reads this, repr
    {
      && Lawful(f) && Inv(f, state)
      && this !in repr && entries.Keys == state.cache.Keys
      && forall ch :: ch in entries ==> Owns(entries[ch], state.cache[ch])
    }

    /** An object of the cache, and what it says. */
    ghost predicate Owns(o: CredentialObject, c: Credential)
      reads this, repr
    {
      o in repr && o.Footprint() <= repr && o.Value() == c
    }

    /** A caller's object: it says `c`, and no part of it belongs to the cache. */
    ghost predicate Given(o: CredentialObject, c: Credential)
      reads this, o, o.tier
    {
      o.Footprint() !! repr && o.Value() == c
    }

    constructor (f: Format)
      requires Lawful(f)
      ensures Valid() && this.f == f && IsStart(state) && state.held == {}
    {
      this.f := f;
      entries, state, repr := map[], State({}, map[], {}, {}, {}), {};
      new;
      StartIsSound(f, state);
    }

    lemma InSight(channel: int, c: Credential)
      requires Valid() && Sees(state, channel, c)
      ensures Backed(f, state.held, channel, c)
    {
      assert SoundAt(f, state, channel, c);
    }

    // ----- the regions -----

    /** A step that leaves the cache alone. */
    method Note(ghost e: Event, t: State)
      requires Valid() && Step(f, state, e, t) && t.cache == state.cache
      modifies `state
      ensures Valid() && state == t
    {
      StepKeeps(f, state, e, t);
      state := t;
    }

    /** Somebody else writes a payload of the channel. */
    method WrittenByOthers(channel: int, payload: string)
      requires Valid()
      modifies `state
      ensures Valid() && Step(f, old(state), StoreWritten(channel, payload), state)
    {
      Note(StoreWritten(channel, payload), state.(held := state.held + {(channel, payload)}));
    }

    /** The look-up under the read lock, and the clone. */
    method LookUp(channel: int) returns (clone: CredentialObject?)
      requires Valid()
      modifies `state
      ensures Valid() && (clone == null <==> channel !in old(state).cache)
      ensures clone == null ==> state == old(state)
      ensures clone != null ==>
                && Step(f, old(state), HitCache(channel), state)
                && fresh(clone.Footprint()) && channel in state.cache && Given(clone, state.cache[channel])
      ensures state.held == old(state).held
    {
      if channel !in entries {
        return null;
      }
      clone := entries[channel].Clone();
      Note(HitCache(channel), state.(handed := state.handed + {(channel, state.cache[channel])}));
    }

    /** Parsing what the caller's configuration says. */
    method Parse(cfg: Config) returns (r: Checked<Credential>)
      requires Valid() && (cfg.id, cfg.payload) in state.held
      modifies `state
      ensures Valid() && r == Parsed(f, cfg.payload)
      ensures r.Good? ==> Step(f, old(state), ParsedConfig(cfg.id, cfg.payload), state) && (cfg.id, r.value) in state.parsed
      ensures state.held == old(state).held
      ensures r.Bad? ==> state == old(state)
    {
      r := Parsed(f, cfg.payload);
      if r.Good? {
        Note(ParsedConfig(cfg.id, cfg.payload), state.(parsed := state.parsed + {(cfg.id, r.value)}));
      }
    }

    /** Replaces the entry of a channel by an object of the cache's own, as one step. */
    method Put(channel: int, own: CredentialObject, ghost e: Event, t: State)
      requires Valid() && this !in own.Footprint() && Step(f, state, e, t)
      requires t.cache == state.cache[channel := own.Value()]
      modifies `entries, `state, `repr
      ensures Valid() && state == t && repr == old(repr) + own.Footprint()
    {
      hide Step, Inv, Lawful;
      StepKeeps(f, state, e, t);
      entries, state, repr := entries[channel := own], t, repr + own.Footprint();
    }

    /** The region under the write lock: another caller may have filled the entry in the meantime. */
    method Insert(channel: int, parsed: Credential) returns (handed: CredentialObject)
      requires Valid() && (channel, parsed) in state.parsed
      modifies `entries, `state, `repr
      ensures Valid() && fresh(repr - old(repr)) && Step(f, old(state), InsertedParsed(channel, parsed), state)
      ensures fresh(handed.Footprint()) && channel in state.cache && Given(handed, state.cache[channel])
      ensures state.held == old(state).held
      ensures state.cache == if channel in old(state).cache then old(state).cache else old(state).cache[channel := parsed]
    {
      if channel in entries {
        handed := entries[channel].Clone();
        Note(InsertedParsed(channel, parsed), state.(handed := state.handed + {(channel, state.cache[channel])}));
      } else {
        handed := new CredentialObject(parsed);
        var own := handed.Clone();
        Put(channel, own, InsertedParsed(channel, parsed),
            state.(cache := state.cache[channel := parsed], handed := state.handed + {(channel, parsed)}));
      }
    }

    /** The write to the store; `accepted` is its answer. */
    method Store(channel: int, merged: Credential, accepted: bool)
      requires Valid() && IsCanonical(f, merged)
      modifies `state
      ensures Valid()
      ensures accepted ==> Step(f, old(state), StoredRefresh(channel, merged), state) && (channel, merged) in state.stored
      ensures accepted ==> state.held == old(state).held + {(channel, f.encode(merged))} && state.cache == old(state).cache
      ensures old(state).held <= state.held
      ensures !accepted ==> state == old(state)
    {
      if accepted {
        Note(StoredRefresh(channel, merged),
             state.(held := state.held + {(channel, f.encode(merged))}, stored := state.stored + {(channel, merged)}));
      }
    }

    /** The region that puts a stored refresh into the cache. */
    method CacheRefreshed(channel: int, merged: Credential) returns (handed: CredentialObject)
      requires Valid() && (channel, merged) in state.stored
      modifies `entries, `state, `repr
      ensures Valid() && fresh(repr - old(repr)) && Step(f, old(state), CachedRefresh(channel, merged), state)
      ensures fresh(handed.Footprint()) && Given(handed, merged)
      ensures state.held == old(state).held && state.cache == old(state).cache[channel := merged]
    {
      var source := new CredentialObject(merged);
      var own := source.Clone();
      Put(channel, own, CachedRefresh(channel, merged),
          state.(cache := state.cache[channel := merged], handed := state.handed + {(channel, merged)}));
      handed := source.Clone();
    }

    /** invalidate */
    method Invalidate(channel: int)
      requires Valid()
      modifies `entries, `state
      ensures Valid() && Step(f, old(state), Invalidated(channel), state)
      ensures state.cache == old(state).cache - {channel} && state.held == old(state).held
    {
      var t := state.(cache := state.cache - {channel});
      StepKeeps(f, state, Invalidated(channel), t);
      entries, state := entries - {channel}, t;
    }

    // ----- a call with nobody in between -----

    /** cachedOrParse: a copy of the entry, or what the configuration says, of which the cache keeps a copy. */
    method CachedOrParse(cfg: Config) returns (r: Checked<CredentialObject>)
      requires Valid() && (cfg.id, cfg.payload) in state.held
      modifies `entries, `state, `repr
      ensures Valid() && fresh(repr - old(repr)) && state.held == old(state).held
      ensures r.Good? <==> Source(f, old(state).cache, cfg).Good?
      ensures r.Good? ==> fresh(r.value.Footprint()) && Given(r.value, Source(f, old(state).cache, cfg).value)
      ensures state.cache == Seen(f, old(state).cache, cfg)
      ensures cfg.id in old(state).cache ==>
                r.Good? && r.value.Value() == old(state).cache[cfg.id] && state.cache == old(state).cache
      ensures cfg.id !in old(state).cache ==>
                match Parsed(f, cfg.payload)
                case Bad(_) => r.Bad? && state.cache == old(state).cache
                case Good(c) => r.Good? && r.value.Value() == c && state.cache == old(state).cache[cfg.id := c]
    {
      var hit := LookUp(cfg.id);
      if hit != null {
        return Good(hit);
      }
      var parsed := Parse(cfg);
      if parsed.Bad? {
        return Bad(parsed.problem);
      }
      var handed := Insert(cfg.id, parsed.value);
      return Good(handed);
    }

    /** The refresh inside resolveCredential: the new credential, before it is stored. */
    method Renew(current: Credential, force: bool, metadata: bool, s: Service, now: int, lead: int)
      returns (merged: Checked<Credential>)
      requires Lawful(f) && IsCanonical(f, current)
      ensures merged.Good? ==> IsCanonical(f, merged.value) && (Honest(s) ==> HasIdentity(merged.value))
      ensures merged == Renewed(f, current, force, metadata, s, now, lead)
    {
      NormalizeIsIdempotent(f, current);
      var needed := NeedsRefresh(f, current, now, lead);
      if needed.Bad? {
        return Bad(needed.problem);
      }
      var renewed := current;
      var tokenRefreshed := force || needed.value;
      if tokenRefreshed {
        merged := RefreshCredential(f, current, s);
        if merged.Bad? {
          return;
        }
        renewed := merged.value;
        NormalizeIsIdempotent(f, renewed);
      }
      merged := Good(renewed);
      if metadata || tokenRefreshed || renewed.projectID == "" || renewed.email == "" {
        var refreshes;
        merged, refreshes := CompleteCredential(f, renewed, s, now, lead);
      }
    }

    lemma CurrentHasIdentity(c: Credential, now: int, lead: int)
      requires Lawful(f) && IsCanonical(f, c) && IsCurrent(f, c, now, lead)
      ensures HasIdentity(c)
    {
      NormalizeIsIdempotent(f, c);
    }

    /** The refresh that resolveCredential runs once for all who wait for it.  `accepted` is the store's
        answer to the write. */
    method Refresh(cfg: Config, force: bool, metadata: bool, s: Service, now: int, lead: int, accepted: bool)
      returns (r: Checked<CredentialObject>)
      requires Valid() && (cfg.id, cfg.payload) in state.held
      modifies `entries, `state, `repr
      ensures Valid() && fresh(repr - old(repr))
      ensures var source := Source(f, old(state).cache, cfg);
              var renewed := if source.Bad? then source else Renewed(f, source.value, force, metadata, s, now, lead);
              && (r.Good? <==> renewed.Good? && accepted)
              && (r.Good? ==> Answers(r.value, cfg.id, renewed.value) && (Honest(s) ==> HasIdentity(renewed.value)))
              && state.held == (if r.Good? then old(state).held + {(cfg.id, f.encode(renewed.value))} else old(state).held)
              && (r.Bad? ==> state.cache == Seen(f, old(state).cache, cfg))
      ensures r.Good? ==> fresh(r.value.Footprint())
    {
      hide Parsed, NeedsRefresh, Renewed, Lawful, Inv, Backed, Step, Sees;
      var current := CachedOrParse(cfg);
      if current.Bad? {
        return current;
      }
      var value := current.value.Value();
      CachedIsCanonical(cfg.id);
      var merged := Renew(value, force, metadata, s, now, lead);
      if merged.Bad? {
        return Bad(merged.problem);
      }
      r := StoreAndCache(cfg.id, merged.value, accepted);
    }

    /** Writing the payload and then the cache; a refused write leaves both alone. */
    method StoreAndCache(channel: int, merged: Credential, accepted: bool) returns (r: Checked<CredentialObject>)
      requires Valid() && IsCanonical(f, merged)
      modifies `entries, `state, `repr
      ensures Valid() && fresh(repr - old(repr))
      ensures state.held == if accepted then old(state).held + {(channel, f.encode(merged))} else old(state).held
      ensures r.Good? <==> accepted
      ensures r.Good? ==> fresh(r.value.Footprint()) && Answers(r.value, channel, merged)
      ensures r.Bad? ==> state == old(state)
    {
      Store(channel, merged, accepted);
      if !accepted {
        return Bad(RefreshFailed);
      }
      var handed := CacheRefreshed(channel, merged);
      CachedIsBacked(channel);
      return Good(handed);
    }

    lemma CachedIsBacked(channel: int)
      requires Valid() && channel in state.cache
      ensures Backed(f, state.held, channel, state.cache[channel])
    {
      InSight(channel, state.cache[channel]);
    }

    lemma CachedIsCanonical(channel: int)
      requires Valid() && channel in state.cache
      ensures IsCanonical(f, state.cache[channel])
    {
      CachedIsBacked(channel);
    }

    /** What a caller is given: the cached value, backed by the store, in an object of its own. */
    ghost predicate Answers(o: CredentialObject, channel: int, c: Credential)
      reads this, o, o.tier
    {
      Given(o, c) && channel in state.cache && state.cache[channel] == c && Backed(f, state.held, channel, c)
    }

    /** resolveCredential */
    method ResolveCredential(cfg: Config, force: bool, metadata: bool, s: Service, now: int, lead: int, accepted: bool)
      returns (r: Checked<CredentialObject>)
      requires Valid() && (cfg.id, cfg.payload) in state.held
      modifies `entries, `state, `repr
      ensures Valid() && fresh(repr - old(repr))
      ensures var source := Source(f, old(state).cache, cfg);
              var current := source.Good? && !force && !metadata && source.value.projectID != "" && source.value.email != ""
                             && f.parseTime(source.value.expired).Some? && now + lead < f.parseTime(source.value.expired).value;
              var answer := if source.Bad? || current then source else Renewed(f, source.value, force, metadata, s, now, lead);
              && (r.Good? <==> answer.Good? && (current || accepted))
              && (r.Good? ==> Answers(r.value, cfg.id, answer.value) && (current || Honest(s) ==> HasIdentity(answer.value)))
              && state.held == (if r.Good? && !current then old(state).held + {(cfg.id, f.encode(answer.value))} else old(state).held)
              && (r.Bad? ==> state.cache == Seen(f, old(state).cache, cfg))
      ensures r.Good? ==> fresh(r.value.Footprint())
    {
      hide Parsed, NeedsRefresh, Renewed, Lawful, Inv, Backed, Step;
      var first := CachedOrParse(cfg);
      if first.Bad? {
        return first;
      }
      var value := first.value.Value();
      CachedIsBacked(cfg.id);
      CachedIsCanonical(cfg.id);
      DueExactly(f, value, now, lead);
      if !force && !metadata && IsCurrent(f, value, now, lead) {
        CurrentHasIdentity(value, now, lead);
        var clone := first.value.Clone();
        return Good(clone);
      }
      r := Refresh(cfg, force, metadata, s, now, lead, accepted);
    }

    // ----- the same call among others -----

    /** Any steps of other callers, in any order; one that is not possible when its turn comes is not taken. */
    method Others(events: seq<Event>)
      requires Valid()
      modifies `entries, `state, `repr
      ensures Valid() && fresh(repr - old(repr)) && Kept(old(state), state)
    {
      hide Lawful, Inv, Step;
      for i := 0 to |events|
        invariant Valid() && fresh(repr - old(repr)) && Kept(old(state), state)
      {
        Other(events[i]);
      }
    }

    method Other(e: Event)
      requires Valid()
      modifies `entries, `state, `repr
      ensures Valid() && fresh(repr - old(repr)) && Kept(old(state), state)
    {
      hide Parsed, Lawful, Inv;
      match e
      case StoreWritten(channel, payload) => WrittenByOthers(channel, payload);
      case HitCache(channel) => var _ := LookUp(channel);
      case ParsedConfig(channel, payload) =>
        if (channel, payload) in state.held {
          var _ := Parse(Config(channel, payload));
        }
      case InsertedParsed(channel, credential) =>
        if (channel, credential) in state.parsed {
          var _ := Insert(channel, credential);
        }
      case StoredRefresh(channel, merged) =>
        if IsCanonical(f, merged) {
          Store(channel, merged, true);
        }
      case CachedRefresh(channel, merged) =>
        if (channel, merged) in state.stored {
          var _ := CacheRefreshed(channel, merged);
        }
      case Invalidated(channel) => Invalidate(channel);
    }

    /** What a caller is given whatever happens in between: a value backed by the store, in an object of its own. */
    ghost predicate Safe(o: CredentialObject, channel: int)
      reads this, o, o.tier
    {
      o.Footprint() !! repr && Backed(f, state.held, channel, o.Value())
    }

    /** cachedOrParse, with others at work before the parse and before the write lock. */
    method CachedOrParseAmongOthers(cfg: Config, before: seq<Event>, after: seq<Event>) returns (r: Checked<CredentialObject>)
      requires Valid() && (cfg.id, cfg.payload) in state.held
      modifies `entries, `state, `repr
      ensures Valid() && fresh(repr - old(repr)) && Kept(old(state), state)
      ensures r.Good? ==> fresh(r.value.Footprint()) && Safe(r.value, cfg.id)
    {
      hide Parsed, Lawful, Inv, Backed, IsCanonical, Step;
      var hit := LookUp(cfg.id);
      if hit != null {
        CachedIsBacked(cfg.id);
        return Good(hit);
      }
      Others(before);
      var parsed := Parse(cfg);
      if parsed.Bad? {
        return Bad(parsed.problem);
      }
      Others(after);
      var handed := Insert(cfg.id, parsed.value);
      CachedIsBacked(cfg.id);
      return Good(handed);
    }

    /** resolveCredential, with others at work between all of its regions. */
    method ResolveAmongOthers(cfg: Config, force: bool, metadata: bool, s: Service, now: int, lead: int, accepted: bool,
                              others: nat -> seq<Event>)
      returns (r: Checked<CredentialObject>)
      requires Valid() && (cfg.id, cfg.payload) in state.held
      modifies `entries, `state, `repr
      ensures Valid() && fresh(repr - old(repr)) && Kept(old(state), state)
      ensures r.Good? ==>
                && fresh(r.value.Footprint()) && Safe(r.value, cfg.id)
                && (Honest(s) ==> HasIdentity(r.value.Value()))
    {
      hide Parsed, NeedsRefresh, Renewed, Lawful, Inv, Step, Backed;
      var first := CachedOrParseAmongOthers(cfg, others(0), others(1));
      if first.Bad? {
        return first;
      }
      var value := first.value.Value();
      BackedMeansCanonical(f, state.held, cfg.id, value);
      if !force && !metadata && IsCurrent(f, value, now, lead) {
        CurrentHasIdentity(value, now, lead);
        return first;
      }
      Others(others(2));
      r := RefreshAmongOthers(cfg, force, metadata, s, now, lead, accepted, others);
    }

    method RefreshAmongOthers(cfg: Config, force: bool, metadata: bool, s: Service, now: int, lead: int, accepted: bool,
                              others: nat -> seq<Event>)
      returns (r: Checked<CredentialObject>)
      requires Valid() && (cfg.id, cfg.payload) in state.held
      modifies `entries, `state, `repr
      ensures Valid() && fresh(repr - old(repr)) && Kept(old(state), state)
      ensures r.Good? ==>
                && fresh(r.value.Footprint()) && Safe(r.value, cfg.id)
                && (Honest(s) ==> HasIdentity(r.value.Value()))
    {
      hide Parsed, NeedsRefresh, Renewed, Lawful, Inv, Step, Backed;
      var current := CachedOrParseAmongOthers(cfg, others(3), others(4));
      if current.Bad? {
        return current;
      }
      BackedMeansCanonical(f, state.held, cfg.id, current.value.Value());
      var merged := Renew(current.value.Value(), force, metadata, s, now, lead);
      if merged.Bad? {
        return Bad(merged.problem);
      }
      r := StoreAmongOthers(cfg.id, merged.value, accepted, others(5), others(6));
    }

    /** The end of a refresh, with others at work before the write and before the cache is filled. */
    method StoreAmongOthers(channel: int, merged: Credential, accepted: bool, before: seq<Event>, after: seq<Event>)
      returns (r: Checked<CredentialObject>)
      requires Valid() && IsCanonical(f, merged)
      modifies `entries, `state, `repr
      ensures Valid() && fresh(repr - old(repr)) && Kept(old(state), state)
      ensures r.Good? ==> fresh(r.value.Footprint()) && Safe(r.value, channel) && r.value.Value() == merged
    {
      hide Lawful, Inv, Step, Backed, IsCanonical;
      Others(before);
      Store(channel, merged, accepted);
      if !accepted {
        return Bad(RefreshFailed);
      }
      Others(after);
      var handed := CacheRefreshed(channel, merged);
      CachedIsBacked(channel);
      return Good(handed);
    }

    /** Callers that waited for a refresh are given its one object, each after others have been at work again. */
    method Share(o: CredentialObject, channel: int, waiters: nat, others: nat -> seq<Event>) returns (given: seq<CredentialObject>)
      requires Valid() && Safe(o, channel)
      modifies `entries, `state, `repr
      ensures Valid() && fresh(repr - old(repr)) && Kept(old(state), state)
      ensures |given| == waiters && forall i :: 0 <= i < waiters ==> given[i] == o
      ensures Safe(o, channel) && o.Value() == old(o.Value())
    {
      hide Lawful, Inv, Step, Backed;
      given := [];
      for i := 0 to waiters
        invariant Valid() && fresh(repr - old(repr)) && Kept(old(state), state)
        invariant |given| == i && forall j :: 0 <= j < i ==> given[j] == o
        invariant Safe(o, channel) && o.Value() == old(o.Value())
      {
        ghost var held := state.held;
        Others(others(i));
        BackedStays(f, held, state.held, channel, o.Value());
        given := given + [o];
      }
    }
  }
}
