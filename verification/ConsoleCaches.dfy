/** The module-level variables of the console's API client, updated in place.  Both caches perform
    exactly the steps of `RequestCache`; the site inventory is the case of a single key. */
module ConsoleCaches {
  import opened Wrappers
  import opened RequestCache

  const CHANNELS_TTL_MS := 30_000
  const SITE_INVENTORY_TTL_MS := 45_000

  /** The site inventory has no parameters. */
  const INVENTORY_KEY: Key := ""

  datatype CacheEntry = CacheEntry(value: Reply, fetchedAt: int)

  /** One promise, with what its callbacks captured; promises are compared by identity. */
  class Fetch {
    const key: Key
    const generation: nat
    ghost const id: RequestId

    constructor (key: Key, generation: nat, ghost id: RequestId)
      ensures this.key == key && this.generation == generation && this.id == id
    {
      this.key, this.generation, this.id := key, generation, id;
    }
  }

  /** The promises made so far are the requests of the step system. */
  ghost predicate Made(fetches: seq<Fetch>, s: State) {
    && |fetches| == |s.requests|
    && forall i :: 0 <= i < |fetches| ==>
         fetches[i].id == i && fetches[i].key == s.requests[i].key && fetches[i].generation == s.requests[i].generation
  }

  class ChannelsCache {
    var cache: map<Key, CacheEntry>
    var inFlight: map<Key, Fetch>
    var generation: nat
    ghost var fetches: seq<Fetch>
    ghost var state: State

    ghost predicate Valid()
      reads this
    {
      && WellFormed(state) && state.ttl == CHANNELS_TTL_MS
      && generation == state.generation
      && Made(fetches, state)
      && cache.Keys == state.cache.Keys
      && (forall k :: k in cache ==> cache[k] == CacheEntry(state.cache[k].value, state.cache[k].fetchedAt))
      && inFlight.Keys == state.inFlight.Keys
      && (forall k :: k in inFlight ==> Known(inFlight[k]) && inFlight[k].id == state.inFlight[k])
    }

    ghost predicate Known(f: Fetch)
      reads this
    {
      f.id < |fetches| && fetches[f.id] == f
    }

    constructor ()
      ensures Valid() && state == Initial(CHANNELS_TTL_MS)
    {
      cache, inFlight, generation := map[], map[], 0;
      fetches, state := [], Initial(CHANNELS_TTL_MS);
    }

    /** peekChannels */
    method PeekChannels(key: Key) returns (value: Option<Reply>)
      requires Valid()
      modifies this`state
      ensures Valid() && state == PeekStep(old(state), key)
      ensures value == if key in cache then Some(cache[key].value) else None
      ensures state.receipts == old(state).receipts + if value.Some? then [FromCache(value.value, state.acked)] else []
    {
      value := if key in cache then Some(cache[key].value) else None;
      state := PeekStep(state, key);
    }

    /** getChannels: a cached value, or the promise the caller waits for. */
    method GetChannels(key: Key, force: bool, now: int) returns (value: Option<Reply>, request: Fetch?)
      requires Valid()
      modifies this`inFlight, this`fetches, this`state
      ensures Valid() && state == GetStep(old(state), key, force, now)
      ensures value.Some? <==> request == null
      ensures value.Some? <==> !force && key in cache && now - cache[key].fetchedAt < 30_000
      ensures value.Some? ==> value.value == cache[key].value && inFlight == old(inFlight)
      ensures request != null && key in old(inFlight) ==> request == old(inFlight)[key] && inFlight == old(inFlight)
      ensures request != null && key !in old(inFlight) ==>
                fresh(request) && request.key == key && request.generation == generation && inFlight == old(inFlight)[key := request]
      ensures value.Some? ==> state.receipts == old(state).receipts + [FromCache(value.value, state.acked)]
      ensures request != null ==>
                Known(request) && state.receipts == old(state).receipts + [FromRequest(request.id, state.acked)]
    {
      if !force && key in cache && now - cache[key].fetchedAt < CHANNELS_TTL_MS {
        value, request := Some(cache[key].value), null;
      } else {
        value := None;
        if key in inFlight {
          request := inFlight[key];
        } else {
          request := new Fetch(key, generation, |fetches|);
          fetches := fetches + [request];
          inFlight := inFlight[key := request];
        }
      }
      state := GetStep(state, key, force, now);
    }

    /** The server commits a write; the mutation that asked for it invalidates later. */
    ghost method ServerWrites()
      requires Valid()
      modifies this`state
      ensures Valid() && state == Step(old(state), Write)
    {
      state := Step(state, Write);
    }

    /** The server's response arrives, reflecting some state since the fetch began. */
    ghost method ResponseArrives(request: Fetch, response: Result<Reply>)
      requires Valid() && Known(request) && Plausible(state, request.id, response)
      modifies this`state
      ensures Valid() && state == Step(old(state), Respond(request.id, response))
      ensures Known(request) && state.requests[request.id].phase == Answered(response)
    {
      state := Step(state, Respond(request.id, response));
    }

    /** The then-callback of a request whose response arrived; a failed one skips it. */
    method OnResponse(request: Fetch, response: Result<Reply>, now: int)
      requires Valid() && Known(request) && state.requests[request.id].phase == Answered(response)
      modifies this`cache, this`state
      ensures Valid() && state == SettleStep(old(state), request.id, now)
      ensures cache == if response.Ok? && request.generation == generation
                       then old(cache)[request.key := CacheEntry(response.value, now)] else old(cache)
    {
      if response.Ok? && request.generation == generation {
        cache := cache[request.key := CacheEntry(response.value, now)];
      }
      state := SettleStep(state, request.id, now);
    }

    /** The finally-callback. */
    method OnSettled(request: Fetch)
      requires Valid() && Known(request) && state.requests[request.id].phase.Settled?
      modifies this`inFlight, this`state
      ensures Valid() && state == FinaliseStep(old(state), request.id)
      ensures inFlight == if request.key in old(inFlight) && old(inFlight)[request.key] == request
                          then old(inFlight) - {request.key} else old(inFlight)
    {
      if request.key in inFlight && inFlight[request.key] == request {
        inFlight := inFlight - {request.key};
      }
      state := FinaliseStep(state, request.id);
    }

    /** invalidateChannels */
    method InvalidateChannels()
      requires Valid()
      modifies this`cache, this`inFlight, this`generation, this`state
      ensures Valid() && state == InvalidateStep(old(state))
      ensures cache == map[] && inFlight == map[] && generation == old(generation) + 1
    {
      generation := generation + 1;
      cache, inFlight := map[], map[];
      state := InvalidateStep(state);
    }
  }

  class SiteInventoryCache {
    var cache: Option<CacheEntry>
    var inFlight: Fetch?
    var generation: nat
    ghost var fetches: seq<Fetch>
    ghost var state: State

    ghost predicate Valid()
      reads this
    {
      && WellFormed(state) && state.ttl == SITE_INVENTORY_TTL_MS
      && generation == state.generation
      && Made(fetches, state)
      && (forall i :: 0 <= i < |fetches| ==> fetches[i].key == INVENTORY_KEY)
      && state.cache.Keys == (if cache.Some? then {INVENTORY_KEY} else {})
      && (cache.Some? ==>
            cache.value == CacheEntry(state.cache[INVENTORY_KEY].value, state.cache[INVENTORY_KEY].fetchedAt))
      && state.inFlight.Keys == (if inFlight != null then {INVENTORY_KEY} else {})
      && (inFlight != null ==> Known(inFlight) && inFlight.id == state.inFlight[INVENTORY_KEY])
    }

    ghost predicate Known(f: Fetch)
      reads this
    {
      f.id < |fetches| && fetches[f.id] == f
    }

    constructor ()
      ensures Valid() && state == Initial(SITE_INVENTORY_TTL_MS)
    {
      cache, inFlight, generation := None, null, 0;
      fetches, state := [], Initial(SITE_INVENTORY_TTL_MS);
    }

    /** peekSiteInventory */
    method PeekSiteInventory() returns (value: Option<Reply>)
      requires Valid()
      modifies this`state
      ensures Valid() && state == PeekStep(old(state), INVENTORY_KEY)
      ensures value == if cache.Some? then Some(cache.value.value) else None
      ensures state.receipts == old(state).receipts + if value.Some? then [FromCache(value.value, state.acked)] else []
    {
      value := if cache.Some? then Some(cache.value.value) else None;
      state := PeekStep(state, INVENTORY_KEY);
    }

    /** getSiteInventory */
    method GetSiteInventory(force: bool, now: int) returns (value: Option<Reply>, request: Fetch?)
      requires Valid()
      modifies this`inFlight, this`fetches, this`state
      ensures Valid() && state == GetStep(old(state), INVENTORY_KEY, force, now)
      ensures value.Some? <==> request == null
      ensures value.Some? <==> !force && cache.Some? && now - cache.value.fetchedAt < 45_000
      ensures value.Some? ==> value.value == cache.value.value && inFlight == old(inFlight)
      ensures request != null && old(inFlight) != null ==> request == old(inFlight) == inFlight
      ensures request != null && old(inFlight) == null ==> fresh(request) && request.generation == generation && inFlight == request
      ensures value.Some? ==> state.receipts == old(state).receipts + [FromCache(value.value, state.acked)]
      ensures request != null ==>
                Known(request) && state.receipts == old(state).receipts + [FromRequest(request.id, state.acked)]
    {
      if !force && cache.Some? && now - cache.value.fetchedAt < SITE_INVENTORY_TTL_MS {
        value, request := Some(cache.value.value), null;
      } else {
        value := None;
        if inFlight == null {
          var tracked := new Fetch(INVENTORY_KEY, generation, |fetches|);
          fetches := fetches + [tracked];
          inFlight := tracked;
        }
        request := inFlight;
      }
      state := GetStep(state, INVENTORY_KEY, force, now);
    }

    /** The server commits a write; the mutation that asked for it invalidates later. */
    ghost method ServerWrites()
      requires Valid()
      modifies this`state
      ensures Valid() && state == Step(old(state), Write)
    {
      state := Step(state, Write);
    }

    /** The server's response arrives, reflecting some state since the fetch began. */
    ghost method ResponseArrives(request: Fetch, response: Result<Reply>)
      requires Valid() && Known(request) && Plausible(state, request.id, response)
      modifies this`state
      ensures Valid() && state == Step(old(state), Respond(request.id, response))
      ensures Known(request) && state.requests[request.id].phase == Answered(response)
    {
      state := Step(state, Respond(request.id, response));
    }

    method OnResponse(request: Fetch, response: Result<Reply>, now: int)
      requires Valid() && Known(request) && state.requests[request.id].phase == Answered(response)
      modifies this`cache, this`state
      ensures Valid() && state == SettleStep(old(state), request.id, now)
      ensures cache == if response.Ok? && request.generation == generation then Some(CacheEntry(response.value, now)) else old(cache)
    {
      if response.Ok? && request.generation == generation {
        cache := Some(CacheEntry(response.value, now));
      }
      state := SettleStep(state, request.id, now);
    }

    method OnSettled(request: Fetch)
      requires Valid() && Known(request) && state.requests[request.id].phase.Settled?
      modifies this`inFlight, this`state
      ensures Valid() && state == FinaliseStep(old(state), request.id)
      ensures inFlight == if old(inFlight) == request then null else old(inFlight)
    {
      if inFlight == request {
        inFlight := null;
      }
      state := FinaliseStep(state, request.id);
    }

    /** invalidateSiteInventory */
    method InvalidateSiteInventory()
      requires Valid()
      modifies this`cache, this`inFlight, this`generation, this`state
      ensures Valid() && state == InvalidateStep(old(state))
      ensures cache == None && inFlight == null && generation == old(generation) + 1
    {
      generation := generation + 1;
      cache, inFlight := None, null;
      state := InvalidateStep(state);
    }
  }
}
