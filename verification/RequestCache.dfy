/** The console's cached GET requests: a keyed cache, a table of requests in flight, and a generation
    counter that every mutation bumps.  The step system interleaves callers, promise callbacks,
    server-side writes and invalidations in any order; `writes` counts the writes the server has
    committed, and a reply says how many of them it reflects. */
module RequestCache {
  import opened Wrappers

  type Key = string
  type RequestId = nat

  datatype Reply = Reply(body: string, reflects: nat)

  /** A cached value; `origin` is the request that fetched it. */
  datatype Entry = Entry(value: Reply, fetchedAt: int, origin: RequestId)

  datatype Phase =
    | Sent                          // the fetch is running
    | Answered(answer: Result<Reply>)  // the response is here, the then-callback has not run
    | Settled(answer: Result<Reply>)   // the then-callback ran, the finally-callback has not
    | Done(answer: Result<Reply>)

  /** `generation` is what the closure captured; `floor` is the number of writes before the fetch began. */
  datatype Request = Request(key: Key, generation: nat, floor: nat, phase: Phase)

  /** What one caller was given, and the writes that had been acknowledged when it called. */
  datatype Receipt = FromCache(value: Reply, acked: nat) | FromRequest(rid: RequestId, acked: nat)

  datatype State = State(
    ttl: int,
    generation: nat,
    cache: map<Key, Entry>,
    inFlight: map<Key, RequestId>,
    requests: seq<Request>,
    writes: nat,
    acked: nat,
    receipts: seq<Receipt>)

  datatype Event =
    | Write
    | Invalidate
    | Get(key: Key, force: bool, now: int)
    | Peek(key: Key)
    | Respond(rid: RequestId, response: Result<Reply>)
    | Settle(rid: RequestId, now: int)
    | Finalise(rid: RequestId)

  function Initial(ttl: int): State {
    State(ttl, 0, map[], map[], [], 0, 0, [])
  }

  predicate WellFormed(s: State) {
    && (forall k :: k in s.inFlight ==> s.inFlight[k] < |s.requests|)
    && s.acked <= s.writes
  }

  predicate Fresh(s: State, key: Key, force: bool, now: int) {
    !force && key in s.cache && now - s.cache[key].fetchedAt < s.ttl
  }

  /** getChannels / getSiteInventory: the cache, else the request in flight, else a new request. */
  function GetStep(s: State, key: Key, force: bool, now: int): (r: State)
    requires WellFormed(s)
    ensures WellFormed(r)
  {
    if Fresh(s, key, force, now) then
      s.(receipts := s.receipts + [FromCache(s.cache[key].value, s.acked)])
    else if key in s.inFlight then
      s.(receipts := s.receipts + [FromRequest(s.inFlight[key], s.acked)])
    else
      var rid := |s.requests|;
      s.(requests := s.requests + [Request(key, s.generation, s.writes, Sent)],
         inFlight := s.inFlight[key := rid],
         receipts := s.receipts + [FromRequest(rid, s.acked)])
  }

  function PeekStep(s: State, key: Key): State {
    if key in s.cache then s.(receipts := s.receipts + [FromCache(s.cache[key].value, s.acked)]) else s
  }

  /** A mutation was acknowledged and its caller drops everything cached. */
  function InvalidateStep(s: State): State {
    s.(generation := s.generation + 1, cache := map[], inFlight := map[], acked := s.writes)
  }

  /** The then-callback: a good reply is cached only by a request of the current generation. */
  function SettleStep(s: State, rid: RequestId, now: int): (r: State)
    requires WellFormed(s) && rid < |s.requests| && s.requests[rid].phase.Answered?
    ensures WellFormed(r)
  {
    var q := s.requests[rid];
    s.(requests := s.requests[rid := q.(phase := Settled(q.phase.answer))],
       cache := if q.phase.answer.Ok? && q.generation == s.generation
                then s.cache[q.key := Entry(q.phase.answer.value, now, rid)]
                else s.cache)
  }

  /** The finally-callback: only the request that is in the slot clears it. */
  function FinaliseStep(s: State, rid: RequestId): (r: State)
    requires WellFormed(s) && rid < |s.requests| && s.requests[rid].phase.Settled?
    ensures WellFormed(r)
  {
    var q := s.requests[rid];
    s.(requests := s.requests[rid := q.(phase := Done(q.phase.answer))],
       inFlight := if q.key in s.inFlight && s.inFlight[q.key] == rid then s.inFlight - {q.key} else s.inFlight)
  }

  /** The server answers with some state between the one at the start of the fetch and the current one. */
  predicate Plausible(s: State, rid: RequestId, response: Result<Reply>)
    requires rid < |s.requests|
  {
    s.requests[rid].phase.Sent? && (response.Ok? ==> s.requests[rid].floor <= response.value.reflects <= s.writes)
  }

  function Step(s: State, e: Event): (r: State)
    requires WellFormed(s)
    ensures WellFormed(r)
  {
    match e
    case Write => s.(writes := s.writes + 1)
    case Invalidate => InvalidateStep(s)
    case Get(key, force, now) => GetStep(s, key, force, now)
    case Peek(key) => PeekStep(s, key)
    case Respond(rid, response) =>
      if rid < |s.requests| && Plausible(s, rid, response)
      then s.(requests := s.requests[rid := s.requests[rid].(phase := Answered(response))])
      else s
    case Settle(rid, now) =>
      if rid < |s.requests| && s.requests[rid].phase.Answered? then SettleStep(s, rid, now) else s
    case Finalise(rid) =>
      if rid < |s.requests| && s.requests[rid].phase.Settled? then FinaliseStep(s, rid) else s
  }

  function Run(s: State, es: seq<Event>): (r: State)
    requires WellFormed(s)
    ensures WellFormed(r)
  {
    if es == [] then s else Step(Run(s, es[..|es| - 1]), es[|es| - 1])
  }

  ghost predicate Reachable(s: State) {
    exists ttl, es :: s == Run(Initial(ttl), es)
  }

  // ----- the invariant -----

  /** A request never outlives its generation's promise: current ones began after the last acknowledged write. */
  predicate RequestOk(s: State, q: Request) {
    && q.generation <= s.generation
    && q.floor <= s.writes
    && (q.generation == s.generation ==> s.acked <= q.floor)
    && (!q.phase.Sent? && q.phase.answer.Ok? ==> q.floor <= q.phase.answer.value.reflects <= s.writes)
  }

  predicate EntryOk(s: State, k: Key, e: Entry) {
    && e.origin < |s.requests|
    && var q := s.requests[e.origin];
       q.key == k && q.generation == s.generation && (q.phase.Settled? || q.phase.Done?) && q.phase.answer == Ok(e.value)
  }

  /** Request `rid` occupies the in-flight slot of its key. */
  predicate Occupies(s: State, rid: RequestId)
    requires rid < |s.requests|
  {
    s.requests[rid].key in s.inFlight && s.inFlight[s.requests[rid].key] == rid
  }

  predicate ReceiptOk(s: State, r: Receipt) {
    match r
    case FromCache(value, acked) => acked <= value.reflects
    case FromRequest(rid, acked) => rid < |s.requests| && acked <= s.requests[rid].floor
  }

  predicate Inv(s: State) {
    && WellFormed(s)
    && (forall i :: 0 <= i < |s.requests| ==> RequestOk(s, s.requests[i]))
    && (forall k :: k in s.cache ==> EntryOk(s, k, s.cache[k]))
    && (forall k :: k in s.inFlight ==> s.requests[s.inFlight[k]].key == k)
    && (forall i :: 0 <= i < |s.requests| ==>
          (Occupies(s, i) <==> s.requests[i].generation == s.generation && !s.requests[i].phase.Done?))
    && (forall r :: r in s.receipts ==> ReceiptOk(s, r))
  }

  lemma StepKeeps(s: State, e: Event)
    requires Inv(s)
    ensures Inv(Step(s, e))
  {
    match e
    case Write =>
      RequestsCarryOver(s, Step(s, e));
    case Invalidate =>
      RequestsCarryOver(s, Step(s, e));
    case Get(key, force, now) => GetKeeps(s, key, force, now);
    case Peek(key) =>
    case Respond(rid, response) => RespondKeeps(s, rid, response);
    case Settle(rid, now) =>
      if rid < |s.requests| && s.requests[rid].phase.Answered? { SettleKeeps(s, rid, now); }
    case Finalise(rid) =>
      if rid < |s.requests| && s.requests[rid].phase.Settled? { FinaliseKeeps(s, rid); }
  }

  lemma RequestsCarryOver(s: State, r: State)
    requires Inv(s) && r.requests == s.requests
    requires s.generation <= r.generation && s.writes <= r.writes
    requires s.generation == r.generation ==> s.acked == r.acked
    ensures forall i :: 0 <= i < |r.requests| ==> RequestOk(r, r.requests[i])
  {
  }

  lemma GetKeeps(s: State, key: Key, force: bool, now: int)
    requires Inv(s)
    ensures Inv(GetStep(s, key, force, now))
  {
    var r := GetStep(s, key, force, now);
    if Fresh(s, key, force, now) {
      assert EntryOk(s, key, s.cache[key]);
      assert RequestOk(s, s.requests[s.cache[key].origin]);
    } else if key in s.inFlight {
      var rid := s.inFlight[key];
      assert Occupies(s, rid);
      assert RequestOk(s, s.requests[rid]);
    } else {
      forall i | 0 <= i < |r.requests|
        ensures RequestOk(r, r.requests[i])
        ensures Occupies(r, i) <==> r.requests[i].generation == r.generation && !r.requests[i].phase.Done?
      {
        if i < |s.requests| {
          assert RequestOk(s, s.requests[i]);
          assert Occupies(s, i) <==> s.requests[i].generation == s.generation && !s.requests[i].phase.Done?;
        }
      }
    }
  }

  lemma RespondKeeps(s: State, rid: RequestId, response: Result<Reply>)
    requires Inv(s)
    ensures Inv(Step(s, Respond(rid, response)))
  {
    var r := Step(s, Respond(rid, response));
    if r != s {
      PhaseChangeKeeps(s, r, rid);
    }
  }

  /** Moving one request on, cache aside. */
  lemma PhaseChangeKeeps(s: State, r: State, rid: RequestId)
    requires Inv(s) && rid < |s.requests|
    requires r == s.(requests := r.requests)
    requires exists phase :: r.requests == s.requests[rid := s.requests[rid].(phase := phase)]
    requires RequestOk(s, r.requests[rid])
    requires s.requests[rid].phase.Sent? || s.requests[rid].phase.Answered?
    requires !r.requests[rid].phase.Done?
    ensures Inv(r)
  {
    forall i | 0 <= i < |r.requests|
      ensures RequestOk(r, r.requests[i])
      ensures Occupies(r, i) <==> r.requests[i].generation == r.generation && !r.requests[i].phase.Done?
    {
      assert RequestOk(s, s.requests[i]);
      assert Occupies(s, i) <==> s.requests[i].generation == s.generation && !s.requests[i].phase.Done?;
    }
    forall k | k in r.cache
      ensures EntryOk(r, k, r.cache[k])
    {
      assert EntryOk(s, k, s.cache[k]);
    }
  }

  lemma SettleKeeps(s: State, rid: RequestId, now: int)
    requires Inv(s) && rid < |s.requests| && s.requests[rid].phase.Answered?
    ensures Inv(SettleStep(s, rid, now))
  {
    var r := SettleStep(s, rid, now);
    var q := s.requests[rid];
    var mid := s.(requests := r.requests);
    assert mid.requests == s.requests[rid := q.(phase := Settled(q.phase.answer))];
    PhaseChangeKeeps(s, mid, rid);
    forall i | 0 <= i < |r.requests|
      ensures RequestOk(r, r.requests[i])
      ensures Occupies(r, i) <==> r.requests[i].generation == r.generation && !r.requests[i].phase.Done?
    {
      assert RequestOk(mid, mid.requests[i]);
      assert Occupies(mid, i) == Occupies(r, i);
    }
    forall k | k in r.cache
      ensures EntryOk(r, k, r.cache[k])
    {
      if k in mid.cache {
        assert EntryOk(mid, k, mid.cache[k]);
      }
    }
  }

  lemma FinaliseKeeps(s: State, rid: RequestId)
    requires Inv(s) && rid < |s.requests| && s.requests[rid].phase.Settled?
    ensures Inv(FinaliseStep(s, rid))
  {
    var r := FinaliseStep(s, rid);
    var key := s.requests[rid].key;
    forall i | 0 <= i < |r.requests|
      ensures RequestOk(r, r.requests[i])
      ensures Occupies(r, i) <==> r.requests[i].generation == r.generation && !r.requests[i].phase.Done?
    {
      assert RequestOk(s, s.requests[i]);
      assert Occupies(s, i) <==> s.requests[i].generation == s.generation && !s.requests[i].phase.Done?;
      assert Occupies(s, rid) <==> s.requests[rid].generation == s.generation;
    }
    forall k | k in r.cache
      ensures EntryOk(r, k, r.cache[k])
    {
      assert EntryOk(s, k, s.cache[k]);
    }
  }

  lemma {:induction false} RunKeeps(s: State, es: seq<Event>)
    requires Inv(s)
    ensures Inv(Run(s, es))
  {
    if es != [] {
      RunKeeps(s, es[..|es| - 1]);
      StepKeeps(Run(s, es[..|es| - 1]), es[|es| - 1]);
    }
  }

  lemma ReachableInv(s: State)
    requires Reachable(s)
    ensures Inv(s)
  {
    var ttl, es :| s == Run(Initial(ttl), es);
    RunKeeps(Initial(ttl), es);
  }

  // ----- the promises -----

  /** Read-your-writes: whatever a caller is given - from the cache, by peeking, or by joining a request -
      reflects every write that had been acknowledged when it called. */
  lemma ReadYourWrites(s: State, r: Receipt)
    requires Reachable(s) && r in s.receipts
    ensures r.FromCache? ==> r.acked <= r.value.reflects
    ensures r.FromRequest? ==>
              && r.rid < |s.requests|
              && var q := s.requests[r.rid];
                 !q.phase.Sent? && q.phase.answer.Ok? ==> r.acked <= q.phase.answer.value.reflects
  {
    ReachableInv(s);
    assert ReceiptOk(s, r);
    if r.FromRequest? {
      assert RequestOk(s, s.requests[r.rid]);
    }
  }

  /** What is cached or in flight belongs to the current generation, so a caller that arrives after an
      invalidation never meets a request that was created before it. */
  lemma OnlyCurrentIsServed(s: State, k: Key)
    requires Reachable(s)
    ensures k in s.cache ==> s.cache[k].origin < |s.requests| && s.requests[s.cache[k].origin].generation == s.generation
    ensures k in s.inFlight ==> s.inFlight[k] < |s.requests| && s.requests[s.inFlight[k]].generation == s.generation
  {
    ReachableInv(s);
    if k in s.cache {
      assert EntryOk(s, k, s.cache[k]);
    }
    if k in s.inFlight {
      assert Occupies(s, s.inFlight[k]);
    }
  }

  /** Callers share: at most one unfinished request of the current generation exists for a key. */
  lemma OneRequestPerKey(s: State, i: RequestId, j: RequestId)
    requires Reachable(s) && i < |s.requests| && j < |s.requests|
    requires s.requests[i].key == s.requests[j].key
    requires s.requests[i].generation == s.requests[j].generation == s.generation
    requires !s.requests[i].phase.Done? && !s.requests[j].phase.Done?
    ensures i == j
  {
    ReachableInv(s);
    assert Occupies(s, i) && Occupies(s, j);
  }

  /** The late callbacks of a request that was invalidated neither fill the cache nor evict its replacement. */
  lemma LateCallbacksAreHarmless(s: State, rid: RequestId, now: int)
    requires Reachable(s) && rid < |s.requests| && s.requests[rid].generation != s.generation
    ensures WellFormed(s)
    ensures var a, b := Step(s, Settle(rid, now)), Step(s, Finalise(rid));
            a.cache == b.cache == s.cache && a.inFlight == b.inFlight == s.inFlight
  {
    ReachableInv(s);
    assert !Occupies(s, rid);
  }

  /** ... and the finaliser of a current request does free its slot, and no other. */
  lemma FinaliserFreesItsSlot(s: State, rid: RequestId)
    requires Reachable(s) && rid < |s.requests|
    requires s.requests[rid].generation == s.generation && s.requests[rid].phase.Settled?
    ensures WellFormed(s) && Step(s, Finalise(rid)).inFlight == s.inFlight - {s.requests[rid].key}
    ensures s.requests[rid].key in s.inFlight
  {
    ReachableInv(s);
    assert Occupies(s, rid);
  }

  // ----- what a caller is given -----

  /** A call is answered from the cache if and only if it is not forced and the entry is younger than the limit;
      otherwise it joins the request in flight for its key, or starts one. */
  lemma AgeAndForceDecide(s: State, key: Key, force: bool, now: int)
    requires WellFormed(s)
    ensures var r := GetStep(s, key, force, now);
            var given := r.receipts[|s.receipts|];
            && |r.receipts| == |s.receipts| + 1 && r.cache == s.cache
            && (given.FromCache? <==> !force && key in s.cache && now - s.cache[key].fetchedAt < s.ttl)
            && (given.FromCache? ==> given.value == s.cache[key].value && r.requests == s.requests && r.inFlight == s.inFlight)
            && (given.FromRequest? && key in s.inFlight ==>
                  given.rid == s.inFlight[key] && r.requests == s.requests && r.inFlight == s.inFlight)
            && (given.FromRequest? && key !in s.inFlight ==>
                  && given.rid == |s.requests| && r.inFlight == s.inFlight[key := |s.requests|]
                  && r.requests == s.requests + [Request(key, s.generation, s.writes, Sent)])
  {
  }

  /** A good answer is cached for its key with the time of its arrival, if nothing was invalidated since the request
      was made; in every other case the cache stays as it is. */
  lemma AnswerIsCached(s: State, rid: RequestId, now: int)
    requires WellFormed(s) && rid < |s.requests| && s.requests[rid].phase.Answered?
    ensures var q := s.requests[rid];
            Step(s, Settle(rid, now)).cache ==
            if q.phase.answer.Ok? && q.generation == s.generation then s.cache[q.key := Entry(q.phase.answer.value, now, rid)]
            else s.cache
  {
  }

  lemma {:induction false} RunGrows(s: State, es: seq<Event>)
    requires WellFormed(s)
    ensures var r := Run(s, es);
            && s.receipts <= r.receipts && s.acked <= r.acked
            && forall i :: |s.receipts| <= i < |r.receipts| ==> s.acked <= r.receipts[i].acked
  {
    if es != [] {
      RunGrows(s, es[..|es| - 1]);
    }
  }

  lemma {:induction false} RunsCompose(s: State, es: seq<Event>, more: seq<Event>)
    requires WellFormed(s)
    ensures Run(Run(s, es), more) == Run(s, es + more)
  {
    hide Step;
    if more == [] {
      assert es + more == es;
    } else {
      var n := |more| - 1;
      RunsCompose(s, es, more[..n]);
      assert (es + more)[..|es + more| - 1] == es + more[..n];
    }
  }

  /** Nobody who calls after an invalidation is given anything older than it: what is taken from the cache, and what a
      joined request is answered with, reflects every write that the server had committed by then. */
  lemma NothingOlderThanTheInvalidation(s: State, more: seq<Event>, i: nat)
    requires Reachable(s)
    ensures WellFormed(s)
    ensures var r := Run(Step(s, Invalidate), more);
            |s.receipts| <= i < |r.receipts| ==>
              match r.receipts[i]
              case FromCache(value, _) => s.writes <= value.reflects
              case FromRequest(rid, _) =>
                && rid < |r.requests|
                && var q := r.requests[rid]; !q.phase.Sent? && q.phase.answer.Ok? ==> s.writes <= q.phase.answer.value.reflects
  {
    ReachableInv(s);
    var ttl, es :| s == Run(Initial(ttl), es);
    var t := Step(s, Invalidate);
    assert (es + [Invalidate])[..|es|] == es;
    RunsCompose(Initial(ttl), es + [Invalidate], more);
    RunGrows(t, more);
    var r := Run(t, more);
    if |s.receipts| <= i < |r.receipts| {
      ReadYourWrites(r, r.receipts[i]);
    }
  }
}
