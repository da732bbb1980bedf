/** The table of requests in flight.  What it lists about a request is a function of the calls made since
    the request's last attempt began. */
module ActiveRequests {
  import Sorting

  datatype Status = Requesting | Receiving | Retrying

  /** What an attempt is begun with; the fields that are only passed on are one value. */
  datatype Attempt = Attempt(startTime: int, details: string)

  /** A row of the list. */
  datatype View = View(
    id: int,
    startTime: int,
    details: string,
    status: Status,
    bytes: int,
    firstByteSeconds: real,
    websocket: bool,
    debugAvailable: bool)

  /** `created`: the request was entered by this call.  Durations are in nanoseconds. */
  datatype Call =
    | Begun(id: int, created: bool, attempt: Attempt)
    | Retried(id: int, now: int)
    | Removed(id: int)
    | BytesAdded(id: int, n: int)
    | FirstByteSet(id: int, d: int)
    | WebsocketSet(id: int, on: bool)
    | CaptureSet(id: int, on: bool)

  type History = seq<Call>

  // ----- reading a history -----

  predicate Creates(c: Call, id: int) {
    c.Begun? && c.created && c.id == id
  }

  predicate Resets(c: Call, id: int) {
    (c.Begun? || c.Retried?) && c.id == id
  }

  predicate Alive(h: History, id: int, n: nat)
    requires n <= |h|
  {
    n > 0 && (Creates(h[n - 1], id) || (Alive(h, id, n - 1) && h[n - 1] != Removed(id)))
  }

  /** How many requests the first `n` calls entered. */
  function Created(h: History, n: nat): nat
    requires n <= |h|
  {
    if n == 0 then 0 else Created(h, n - 1) + if h[n - 1].Begun? && h[n - 1].created then 1 else 0
  }

  /** The last of the first `n` calls that began or retried an attempt. */
  function LastReset(h: History, id: int, n: nat): (i: int)
    requires n <= |h|
    ensures -1 <= i < n && (i >= 0 ==> Resets(h[i], id))
    ensures forall k :: i < k < n ==> !Resets(h[k], id)
  {
    if n == 0 then -1 else if Resets(h[n - 1], id) then n - 1 else LastReset(h, id, n - 1)
  }

  function LastBegun(h: History, id: int, n: nat): (i: int)
    requires n <= |h|
    ensures -1 <= i < n && (i >= 0 ==> h[i].Begun? && h[i].id == id)
    ensures forall k :: i < k < n ==> !(h[k].Begun? && h[k].id == id)
  {
    if n == 0 then -1 else if h[n - 1].Begun? && h[n - 1].id == id then n - 1 else LastBegun(h, id, n - 1)
  }

  /** Only positive byte counts count. */
  function Gain(c: Call, id: int): nat {
    if c.BytesAdded? && c.id == id && c.n > 0 then c.n else 0
  }

  /** A first-byte time counts in whole microseconds. */
  function Micros(c: Call, id: int): nat {
    if c.FirstByteSet? && c.id == id && c.d > 0 then c.d / 1000 else 0
  }

  function BytesIn(h: History, id: int, i: nat, j: nat): nat
    requires j <= |h|
    decreases j
  {
    if i >= j then 0 else BytesIn(h, id, i, j - 1) + Gain(h[j - 1], id)
  }

  /** The first accepted first-byte time, or zero. */
  function FirstMicros(h: History, id: int, i: nat, j: nat): nat
    requires j <= |h|
    decreases j - i
  {
    if i >= j then 0 else if Micros(h[i], id) > 0 then Micros(h[i], id) else FirstMicros(h, id, i + 1, j)
  }

  predicate ReceivedIn(h: History, id: int, i: nat, j: nat)
    requires j <= |h|
  {
    exists k :: i <= k < j && (Gain(h[k], id) > 0 || Micros(h[k], id) > 0)
  }

  /** The last setting of a switch, off by default. */
  function WebsocketIn(h: History, id: int, i: nat, j: nat): bool
    requires j <= |h|
    decreases j
  {
    if i >= j then false
    else if h[j - 1].WebsocketSet? && h[j - 1].id == id then h[j - 1].on
    else WebsocketIn(h, id, i, j - 1)
  }

  function CaptureIn(h: History, id: int, i: nat, j: nat): bool
    requires j <= |h|
    decreases j
  {
    if i >= j then false
    else if h[j - 1].CaptureSet? && h[j - 1].id == id then h[j - 1].on
    else CaptureIn(h, id, i, j - 1)
  }

  function Seconds(micros: nat): real {
    if micros > 0 then micros as real / 1000000.0 else 0.0
  }

  /** First-byte times are shown in seconds. */
  lemma SecondsRead(micros: nat)
    ensures Seconds(micros) * 1_000_000.0 == micros as real
  {
  }

  /** Everything the list says about a request, from the calls since its last reset. */
  function ViewOf(h: History, id: int): View
    requires LastReset(h, id, |h|) >= 0 && LastBegun(h, id, |h|) >= 0
  {
    var r, n := LastReset(h, id, |h|), |h|;
    View(id,
         if h[r].Begun? then h[r].attempt.startTime else h[r].now,
         h[LastBegun(h, id, n)].attempt.details,
         if ReceivedIn(h, id, r + 1, n) then Receiving else if h[r].Begun? && h[r].created then Requesting else Retrying,
         BytesIn(h, id, r + 1, n),
         Seconds(FirstMicros(h, id, r + 1, n)),
         WebsocketIn(h, id, r + 1, n),
         CaptureIn(h, id, r + 1, n))
  }

  // ----- one more call -----

  lemma {:induction false} SamePrefix(h: History, c: Call, id: int, i: nat, n: nat)
    requires n <= |h|
    ensures LastReset(h + [c], id, n) == LastReset(h, id, n) && LastBegun(h + [c], id, n) == LastBegun(h, id, n)
    ensures Alive(h + [c], id, n) == Alive(h, id, n) && Created(h + [c], n) == Created(h, n)
    ensures BytesIn(h + [c], id, i, n) == BytesIn(h, id, i, n)
    ensures WebsocketIn(h + [c], id, i, n) == WebsocketIn(h, id, i, n)
    ensures CaptureIn(h + [c], id, i, n) == CaptureIn(h, id, i, n)
  {
    if n > 0 {
      SamePrefix(h, c, id, i, n - 1);
    }
  }

  lemma {:induction false} FirstMicrosGrows(h: History, c: Call, id: int, i: nat)
    requires i <= |h|
    ensures FirstMicros(h + [c], id, i, |h| + 1) ==
            if FirstMicros(h, id, i, |h|) > 0 then FirstMicros(h, id, i, |h|) else Micros(c, id)
    decreases |h| - i
  {
    var h' := h + [c];
    if i < |h| {
      assert h'[i] == h[i];
      FirstMicrosGrows(h, c, id, i + 1);
    } else {
      assert h'[i] == c && FirstMicros(h', id, i + 1, |h| + 1) == 0;
    }
  }

  lemma ReceivedGrows(h: History, c: Call, id: int, i: nat)
    requires i <= |h|
    ensures ReceivedIn(h + [c], id, i, |h| + 1) <==> ReceivedIn(h, id, i, |h|) || Gain(c, id) > 0 || Micros(c, id) > 0
  {
    var h' := h + [c];
    assert h'[|h|] == c;
    if ReceivedIn(h, id, i, |h|) {
      var k :| i <= k < |h| && (Gain(h[k], id) > 0 || Micros(h[k], id) > 0);
      assert h'[k] == h[k];
    }
  }

  /** How a call changes the row of a request it does not reset. */
  function After(v: View, c: Call, micros: nat): View {
    v.(status := if Gain(c, v.id) > 0 || Micros(c, v.id) > 0 then Receiving else v.status,
       bytes := v.bytes + Gain(c, v.id),
       firstByteSeconds := Seconds(if micros > 0 then micros else Micros(c, v.id)),
       websocket := if c.WebsocketSet? && c.id == v.id then c.on else v.websocket,
       debugAvailable := if c.CaptureSet? && c.id == v.id then c.on else v.debugAvailable)
  }

  lemma SumsGrow(h: History, c: Call, id: int, i: nat)
    requires i <= |h|
    ensures BytesIn(h + [c], id, i, |h| + 1) == BytesIn(h, id, i, |h|) + Gain(c, id)
    ensures WebsocketIn(h + [c], id, i, |h| + 1) ==
            if c.WebsocketSet? && c.id == id then c.on else WebsocketIn(h, id, i, |h|)
    ensures CaptureIn(h + [c], id, i, |h| + 1) == if c.CaptureSet? && c.id == id then c.on else CaptureIn(h, id, i, |h|)
  {
    SamePrefix(h, c, id, i, |h|);
    assert (h + [c])[|h|] == c;
  }

  lemma ResetStays(h: History, c: Call, id: int)
    requires !Resets(c, id)
    ensures LastReset(h + [c], id, |h| + 1) == LastReset(h, id, |h|)
    ensures LastBegun(h + [c], id, |h| + 1) == LastBegun(h, id, |h|)
  {
    SamePrefix(h, c, id, 0, |h|);
    assert (h + [c])[|h|] == c;
  }

  lemma CallWithoutReset(h: History, c: Call, id: int)
    requires LastReset(h, id, |h|) >= 0 && LastBegun(h, id, |h|) >= 0 && !Resets(c, id)
    ensures var h', r := h + [c], LastReset(h, id, |h|);
            && LastReset(h', id, |h'|) == r && LastBegun(h', id, |h'|) == LastBegun(h, id, |h|)
            && ViewOf(h', id) == After(ViewOf(h, id), c, FirstMicros(h, id, r + 1, |h|))
  {
    var h', r := h + [c], LastReset(h, id, |h|);
    ResetStays(h, c, id);
    SumsGrow(h, c, id, r + 1);
    FirstMicrosGrows(h, c, id, r + 1);
    ReceivedGrows(h, c, id, r + 1);
    assert h'[r] == h[r] && h'[LastBegun(h, id, |h|)] == h[LastBegun(h, id, |h|)];
  }

  /** What a reset leaves. */
  lemma CallWithReset(h: History, c: Call, id: int)
    requires Resets(c, id) && (c.Begun? || LastBegun(h, id, |h|) >= 0)
    ensures var h' := h + [c];
            && LastReset(h', id, |h'|) == |h| && LastBegun(h', id, |h'|) >= 0
            && ViewOf(h', id) ==
               View(id,
                    if c.Begun? then c.attempt.startTime else c.now,
                    if c.Begun? then c.attempt.details else h[LastBegun(h, id, |h|)].attempt.details,
                    if c.Begun? && c.created then Requesting else Retrying,
                    0, 0.0, false, false)
  {
    var h' := h + [c];
    SamePrefix(h, c, id, 0, |h|);
    assert h'[|h|] == c;
  }

  lemma AliveStep(h: History, c: Call, id: int)
    ensures Alive(h + [c], id, |h| + 1) <==> Creates(c, id) || (Alive(h, id, |h|) && c != Removed(id))
    ensures Created(h + [c], |h| + 1) == Created(h, |h|) + if c.Begun? && c.created then 1 else 0
  {
    SamePrefix(h, c, id, 0, |h|);
    assert (h + [c])[|h|] == c;
  }

  /** Identifiers are handed out in order, and an attempt is begun anew only for a request that is listed. */
  predicate Numbered(h: History, c: Call, k: nat)
    requires k <= |h|
  {
    c.Begun? ==> if c.created then c.id == Created(h, k) + 1 else Alive(h, c.id, k)
  }

  ghost predicate WellNumbered(h: History) {
    forall k :: 0 <= k < |h| ==> Numbered(h, h[k], k)
  }

  lemma WellNumberedGrows(h: History, c: Call)
    requires WellNumbered(h) && Numbered(h, c, |h|)
    ensures WellNumbered(h + [c])
  {
    var h' := h + [c];
    forall k | 0 <= k < |h'|
      ensures Numbered(h', h'[k], k)
    {
      SamePrefix(h, c, h'[k].id, 0, k);
      assert Numbered(h, h'[k], k);
    }
  }

  lemma {:induction false} CreatedGrows(h: History, k: nat, l: nat)
    requires k <= l <= |h|
    ensures Created(h, k) <= Created(h, l)
    ensures k < l && h[k].Begun? && h[k].created ==> Created(h, k) < Created(h, l)
  {
    if k < l {
      CreatedGrows(h, k, l - 1);
    }
  }

  /** An identifier is never handed out twice, whether or not its request has been removed. */
  lemma IdsAreNeverReused(h: History, k: nat, l: nat)
    requires WellNumbered(h) && k < l < |h|
    requires h[k].Begun? && h[k].created && h[l].Begun? && h[l].created
    ensures h[k].id < h[l].id
  {
    CreatedGrows(h, k, l);
    assert Numbered(h, h[k], k) && Numbered(h, h[l], l);
  }

  // ----- what the calls leave behind -----

  /** A row together with the first-byte time it is computed from. */
  datatype Shown = Shown(view: View, micros: nat)

  ghost predicate Shows(shown: map<int, Shown>, h: History, id: int) {
    && (id in shown <==> Alive(h, id, |h|))
    && (id in shown ==>
          && 1 <= id <= Created(h, |h|)
          && LastReset(h, id, |h|) >= 0 && LastBegun(h, id, |h|) >= 0
          && shown[id].view == ViewOf(h, id)
          && shown[id].micros == FirstMicros(h, id, LastReset(h, id, |h|) + 1, |h|))
  }

  /** The rows are what the history says. */
  ghost predicate Faithful(shown: map<int, Shown>, h: History) {
    WellNumbered(h) && forall id :: Shows(shown, h, id)
  }

  function Fresh(id: int, startTime: int, details: string, status: Status): Shown {
    Shown(View(id, startTime, details, status, 0, 0.0, false, false), 0)
  }

  function AfterShown(s: Shown, c: Call): Shown {
    Shown(After(s.view, c, s.micros), if s.micros > 0 then s.micros else Micros(c, s.view.id))
  }

  function Effect(shown: map<int, Shown>, c: Call): map<int, Shown> {
    if c.Begun? then
      shown[c.id := Fresh(c.id, c.attempt.startTime, c.attempt.details, if c.created then Requesting else Retrying)]
    else if c.id !in shown then shown
    else if c.Removed? then shown - {c.id}
    else if c.Retried? then shown[c.id := Fresh(c.id, c.now, shown[c.id].view.details, Retrying)]
    else shown[c.id := AfterShown(shown[c.id], c)]
  }

  lemma AfterOther(s: Shown, c: Call)
    requires s.view.id != c.id && s.view.firstByteSeconds == Seconds(s.micros)
    ensures AfterShown(s, c) == s
  {
  }

  lemma ResetShows(shown: map<int, Shown>, h: History, c: Call, id: int)
    requires Shows(shown, h, id) && Numbered(h, c, |h|) && Resets(c, id)
    ensures Shows(Effect(shown, c), h + [c], id)
  {
    AliveStep(h, c, id);
    if c.Begun? || id in shown {
      CallWithReset(h, c, id);
    }
  }

  lemma ChangeShows(shown: map<int, Shown>, h: History, c: Call, id: int)
    requires Shows(shown, h, id) && !Resets(c, id) && id in shown && c != Removed(id)
    ensures Shows(shown[id := AfterShown(shown[id], c)], h + [c], id)
  {
    AliveStep(h, c, id);
    CallWithoutReset(h, c, id);
    FirstMicrosGrows(h, c, id, LastReset(h, id, |h|) + 1);
  }

  lemma EffectShows(shown: map<int, Shown>, h: History, c: Call, id: int)
    requires Shows(shown, h, id) && Numbered(h, c, |h|)
    ensures Shows(Effect(shown, c), h + [c], id)
  {
    if Resets(c, id) {
      ResetShows(shown, h, c, id);
    } else if id in shown && c != Removed(id) {
      ChangeShows(shown, h, c, id);
      if c.id != id {
        AfterOther(shown[id], c);
      }
      assert id in Effect(shown, c) && Effect(shown, c)[id] == AfterShown(shown[id], c);
    } else {
      AliveStep(h, c, id);
    }
  }

  lemma EffectIsFaithful(shown: map<int, Shown>, h: History, c: Call)
    requires Faithful(shown, h) && Numbered(h, c, |h|)
    ensures Faithful(Effect(shown, c), h + [c])
  {
    WellNumberedGrows(h, c);
    forall id
      ensures Shows(Effect(shown, c), h + [c], id)
    {
      assert Shows(shown, h, id);
      EffectShows(shown, h, c, id);
    }
  }

  // ----- the table -----

  class Request {
    const id: int
    var attempt: Attempt
    var startTime: int
    var status: Status
    var bytes: int
    var firstByteMicros: nat
    var websocket: bool
    var capture: bool

    constructor (id: int)
      ensures this.id == id && status == Requesting
    {
      this.id := id;
      attempt, startTime, status := Attempt(0, ""), 0, Requesting;
      bytes, firstByteMicros, websocket, capture := 0, 0, false, false;
    }

    /** A new attempt begins: the counters and marks of the last one are cleared. */
    method Restart(attempt: Attempt, startTime: int, status: Status)
      modifies this
      ensures this.attempt == attempt && this.startTime == startTime && this.status == status
      ensures bytes == 0 && firstByteMicros == 0 && !websocket && !capture
    {
      this.attempt, this.startTime, this.status := attempt, startTime, status;
      websocket, capture, firstByteMicros, bytes := false, false, 0, 0;
    }

    function Snapshot(): View
      reads this
    {
      View(id, startTime, attempt.details, status, bytes, Seconds(firstByteMicros), websocket, capture)
    }

    ghost predicate Is(s: Shown)
      reads this
    {
      Snapshot() == s.view && firstByteMicros == s.micros
    }
  }

  /** The next key of a walk over a map. */
  method Any<T>(keys: set<T>) returns (key: T)
    requires keys != {}
    ensures key in keys
  {
    key :| key in keys;
  }

  class Manager {
    var requests: map<int, Request>
    var nextID: int
    ghost var history: History
    ghost var shown: map<int, Shown>

    ghost predicate Valid()
      reads this, requests.Values
    {
      && requests.Keys == shown.Keys
      && (forall id :: id in requests ==> requests[id].id == id && requests[id].Is(shown[id]))
      && nextID == Created(history, |history|) && Faithful(shown, history)
    }

    constructor ()
      ensures Valid() && history == []
    {
      requests, nextID, history, shown := map[], 0, [], map[];
    }

    /** Enters a call into the history once the table shows its effect. */
    ghost method Record(c: Call, after: map<int, Shown>)
      requires Faithful(after, history + [c]) && requests.Keys == after.Keys
      requires forall id :: id in requests ==> requests[id].id == id && requests[id].Is(after[id])
      requires nextID == Created(history, |history|) + if c.Begun? && c.created then 1 else 0
      modifies `history, `shown
      ensures Valid() && history == old(history) + [c]
    {
      AliveStep(history, c, c.id);
      history, shown := history + [c], after;
    }

    lemma IdsInRange(id: int)
      requires Valid()
      ensures id in requests ==> 1 <= id <= nextID && Alive(history, id, |history|)
    {
      assert Shows(shown, history, id);
    }

    /** BeginAttempt */
    method BeginAttempt(asked: int, a: Attempt) returns (id: int)
      requires Valid()
      modifies this, requests.Values
      ensures Valid() && history == old(history) + [Begun(id, asked !in old(requests), a)]
      ensures asked in old(requests) ==> id == asked && requests == old(requests)
      ensures asked !in old(requests) ==> id == old(nextID) + 1 && requests.Keys == old(requests.Keys) + {id}
      ensures id in requests && var r := requests[id];
              && r.attempt == a && r.startTime == a.startTime && r.status == (if asked in old(requests) then Retrying else Requesting)
              && r.bytes == 0 && r.firstByteMicros == 0 && !r.websocket && !r.capture
    {
      hide Alive, Created, Faithful, WellNumbered, ViewOf;
      IdsInRange(asked);
      IdsInRange(nextID + 1);
      var created := asked !in requests;
      var req: Request;
      if created {
        nextID := nextID + 1;
        id := nextID;
        req := new Request(id);
        requests := requests[id := req];
      } else {
        id := asked;
        req := requests[id];
      }
      req.Restart(a, a.startTime, if created then req.status else Retrying);
      ghost var c := Begun(id, created, a);
      EffectIsFaithful(shown, history, c);
      Record(c, Effect(shown, c));
    }

    /** Retry */
    method Retry(id: int, now: int)
      requires Valid()
      modifies `history, `shown, requests.Values
      ensures Valid() && history == old(history) + [Retried(id, now)]
      ensures id in requests ==>
                var r := requests[id];
                && r.startTime == now && r.status == Retrying && r.attempt == old(requests[id].attempt)
                && r.bytes == 0 && r.firstByteMicros == 0 && !r.websocket && !r.capture
    {
      if id in requests {
        var req := requests[id];
        req.Restart(req.attempt, now, Retrying);
      }
      ghost var c := Retried(id, now);
      EffectIsFaithful(shown, history, c);
      Record(c, Effect(shown, c));
    }

    /** AddBytes */
    method AddBytes(id: int, n: int)
      requires Valid()
      modifies `history, `shown, requests.Values
      ensures Valid() && history == old(history) + [BytesAdded(id, n)]
      ensures id in requests ==> requests[id].bytes == old(requests[id].bytes) + if n > 0 then n else 0
      ensures id in requests ==> requests[id].status == if n > 0 then Receiving else old(requests[id].status)
    {
      if n > 0 && id in requests {
        var req := requests[id];
        req.bytes := req.bytes + n;
        req.status := Receiving;
      }
      ghost var c := BytesAdded(id, n);
      EffectIsFaithful(shown, history, c);
      Record(c, Effect(shown, c));
    }

    /** SetClientFirstByteTime */
    method SetClientFirstByteTime(id: int, d: int)
      requires Valid()
      modifies `history, `shown, requests.Values
      ensures Valid() && history == old(history) + [FirstByteSet(id, d)]
      ensures id in requests ==>
                requests[id].firstByteMicros == var was := old(requests[id].firstByteMicros);
                                                if was > 0 then was else if d >= 1000 then d / 1000 else 0
      ensures id in requests ==> requests[id].status == if d >= 1000 then Receiving else old(requests[id].status)
    {
      if d > 0 && id in requests {
        var req := requests[id];
        var usec := d / 1000;
        if usec > 0 {
          if req.firstByteMicros == 0 {
            req.firstByteMicros := usec;
          }
          req.status := Receiving;
        }
      }
      ghost var c := FirstByteSet(id, d);
      EffectIsFaithful(shown, history, c);
      Record(c, Effect(shown, c));
    }

    /** SetUpstreamWebsocket */
    method SetUpstreamWebsocket(id: int, on: bool)
      requires Valid()
      modifies `history, `shown, requests.Values
      ensures Valid() && history == old(history) + [WebsocketSet(id, on)]
      ensures id in requests ==> requests[id].websocket == on
    {
      if id in requests {
        requests[id].websocket := on;
      }
      ghost var c := WebsocketSet(id, on);
      EffectIsFaithful(shown, history, c);
      Record(c, Effect(shown, c));
    }

    /** SetDebugCapture; `on` says whether there is a capture. */
    method SetDebugCapture(id: int, on: bool)
      requires Valid()
      modifies `history, `shown, requests.Values
      ensures Valid() && history == old(history) + [CaptureSet(id, on)]
      ensures id in requests ==> requests[id].capture == on
    {
      if id in requests {
        requests[id].capture := on;
      }
      ghost var c := CaptureSet(id, on);
      EffectIsFaithful(shown, history, c);
      Record(c, Effect(shown, c));
    }

    /** Remove */
    method Remove(id: int)
      requires Valid()
      modifies `history, `shown, `requests
      ensures Valid() && history == old(history) + [Removed(id)] && requests == old(requests) - {id}
    {
      requests := requests - {id};
      ghost var c := Removed(id);
      EffectIsFaithful(shown, history, c);
      Record(c, Effect(shown, c));
    }

    /** Copying the table, in the order in which the map happens to be walked. */
    method CopyRows() returns (rows: seq<View>)
      requires Valid()
      ensures forall i :: 0 <= i < |rows| ==> rows[i].id in shown && rows[i] == shown[rows[i].id].view
      ensures forall i, j :: 0 <= i < j < |rows| ==> rows[i].id != rows[j].id
      ensures forall id :: id in shown ==> shown[id].view in rows
    {
      rows := [];
      var ids := requests.Keys;
      while ids != {}
        invariant ids <= requests.Keys
        invariant forall i :: 0 <= i < |rows| ==>
                    rows[i].id in shown && rows[i].id !in ids && rows[i] == shown[rows[i].id].view
        invariant forall i, j :: 0 <= i < j < |rows| ==> rows[i].id != rows[j].id
        invariant forall id :: id in shown && id !in ids ==> shown[id].view in rows
        decreases ids
      {
        var id := Any(ids);
        rows := rows + [requests[id].Snapshot()];
        ids := ids - {id};
      }
    }

    /** List: one row for every request in flight, newest first, each as its calls since the last reset
        determine it. */
    method List() returns (rows: seq<View>)
      requires Valid()
      ensures IsList(rows, history)
      ensures forall i, j :: 0 <= i < j < |rows| ==>
                rows[i].startTime > rows[j].startTime || (rows[i].startTime == rows[j].startTime && rows[i].id > rows[j].id)
    {
      var unsorted := CopyRows();
      rows := Sorting.Sort(unsorted, NewerFirst());
      ShownRows(unsorted, shown, history);
      SortedLists(unsorted, history);
    }
  }

  // ----- the list -----

  predicate Newer(a: View, b: View) {
    if a.startTime != b.startTime then a.startTime > b.startTime else a.id > b.id
  }

  function NewerFirst(): (View, View) -> bool {
    (a: View, b: View) => Newer(a, b)
  }

  /** One row for every request in flight, in any order. */
  ghost predicate Lists(rows: seq<View>, h: History) {
    && (forall i, j :: 0 <= i < j < |rows| ==> rows[i].id != rows[j].id)
    && (forall i :: 0 <= i < |rows| ==> IsRow(rows[i], h))
    && (forall id :: Alive(h, id, |h|) ==> HasRow(rows, id))
  }

  predicate HasRow(rows: seq<View>, id: int) {
    exists i :: 0 <= i < |rows| && rows[i].id == id
  }

  ghost predicate IsRow(v: View, h: History) {
    && Alive(h, v.id, |h|) && LastReset(h, v.id, |h|) >= 0 && LastBegun(h, v.id, |h|) >= 0
    && v == ViewOf(h, v.id)
  }

  lemma ShownRows(rows: seq<View>, shown: map<int, Shown>, h: History)
    requires Faithful(shown, h)
    requires forall i :: 0 <= i < |rows| ==> rows[i].id in shown && rows[i] == shown[rows[i].id].view
    requires forall i, j :: 0 <= i < j < |rows| ==> rows[i].id != rows[j].id
    requires forall id :: id in shown ==> shown[id].view in rows
    ensures Lists(rows, h)
  {
    forall i | 0 <= i < |rows|
      ensures IsRow(rows[i], h)
    {
      assert Shows(shown, h, rows[i].id);
    }
    forall id | Alive(h, id, |h|)
      ensures exists i :: 0 <= i < |rows| && rows[i].id == id
    {
      assert Shows(shown, h, id);
      assert shown[id].view in rows;
    }
  }

  ghost predicate IsList(rows: seq<View>, h: History) {
    Lists(rows, h) && forall i, j :: 0 <= i < j < |rows| ==> Newer(rows[i], rows[j])
  }

  lemma SortedLists(rows: seq<View>, h: History)
    requires Lists(rows, h)
    ensures IsList(Sorting.Sort(rows, NewerFirst()), h)
  {
    var sorted := Sorting.Sort(rows, NewerFirst());
    Sorting.SortSorted(rows, NewerFirst());
    Sorting.SortPermutes(rows, NewerFirst());
    PermutedLists(rows, sorted, h);
    forall i, j | 0 <= i < j < |sorted|
      ensures Newer(sorted[i], sorted[j])
    {
      assert !NewerFirst()(sorted[j], sorted[i]);
    }
  }

  lemma PermutedLists(rows: seq<View>, others: seq<View>, h: History)
    requires Lists(rows, h) && multiset(others) == multiset(rows) && forall v :: v in others <==> v in rows
    ensures Lists(others, h)
  {
    forall i, j | 0 <= i < j < |others|
      ensures others[i].id != others[j].id
    {
      assert others[i] in rows && others[j] in rows;
      if others[i].id == others[j].id {
        OnlyOnce(rows, others[i]);
        Sorting.Repeated(others, i, j);
      }
    }
    forall id | Alive(h, id, |h|)
      ensures HasRow(others, id)
    {
      assert HasRow(rows, id);
      var i :| 0 <= i < |rows| && rows[i].id == id;
      assert rows[i] in others;
    }
    assert forall i :: 0 <= i < |others| ==> others[i] in rows;
  }

  lemma {:induction false} OnlyOnce(rows: seq<View>, v: View)
    requires forall i, j :: 0 <= i < j < |rows| ==> rows[i].id != rows[j].id
    ensures multiset(rows)[v] <= 1
  {
    if rows != [] {
      var n := |rows| - 1;
      OnlyOnce(rows[..n], v);
      assert rows == rows[..n] + [rows[n]];
      if v == rows[n] {
        assert v !in rows[..n];
        assert multiset(rows[..n])[v] == 0;
      }
    }
  }

  /** The list is determined by the history: the order in which the map is walked does not show. */
  lemma ListIsUnique(rows: seq<View>, others: seq<View>, h: History)
    requires IsList(rows, h) && IsList(others, h)
    ensures rows == others
  {
    hide IsRow, Alive;
    forall v
      ensures multiset(rows)[v] == multiset(others)[v]
    {
      SameRow(rows, others, h, v);
    }
    Sorting.SortedUnique(rows, others, NewerFirst());
  }

  lemma SameRow(rows: seq<View>, others: seq<View>, h: History, v: View)
    requires Lists(rows, h) && Lists(others, h)
    ensures multiset(rows)[v] == multiset(others)[v]
  {
    OnlyOnce(rows, v);
    OnlyOnce(others, v);
    Contains(rows, h, v);
    Contains(others, h, v);
    hide IsRow, Alive;
    assert v in multiset(rows) <==> v in rows;
    assert v in multiset(others) <==> v in others;
  }

  lemma Contains(rows: seq<View>, h: History, v: View)
    requires Lists(rows, h)
    ensures v in rows <==> IsRow(v, h)
  {
    if IsRow(v, h) {
      assert Alive(h, v.id, |h|) && HasRow(rows, v.id);
      var i :| 0 <= i < |rows| && rows[i].id == v.id;
    }
  }
}
