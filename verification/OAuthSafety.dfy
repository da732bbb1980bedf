/** What every reachable state of the OAuth login protocol satisfies. */
module OAuthSafety {
  import opened Wrappers
  import opened OAuthProtocol
  import Text

  // ----- histories -----

  predicate Belongs(a: Action, i: SessionId, stops: bool) {
    a.sid == i && a.Stopped? == stops
  }

  /** The actions of session `i` in the order they happened: its cancellations, or everything else. */
  function Of(log: seq<Action>, i: SessionId, stops: bool): seq<Action> {
    if log == [] then []
    else
      var a := log[|log| - 1];
      Of(log[..|log| - 1], i, stops) + if Belongs(a, i, stops) then [a] else []
  }

  /** A history with the new actions `more` of its own session: none, or one. */
  function Added(h: seq<Action>, more: seq<Action>, stops: bool): seq<Action> {
    if |more| == 1 && more[0].Stopped? == stops then h + more else h
  }

  lemma OfAppend(log: seq<Action>, more: seq<Action>, i: SessionId, j: SessionId, stops: bool)
    requires |more| <= 1 && (|more| == 1 ==> more[0].sid == i)
    ensures Of(log + more, j, stops) == if i == j then Added(Of(log, j, stops), more, stops) else Of(log, j, stops)
  {
    if more == [] {
      assert log + more == log;
    } else {
      assert (log + more)[..|log + more| - 1] == log;
    }
  }

  lemma {:induction false} OfAbsent(log: seq<Action>, i: SessionId, stops: bool)
    requires forall a :: a in log ==> a.sid != i
    ensures Of(log, i, stops) == []
  {
    if log != [] {
      OfAbsent(log[..|log| - 1], i, stops);
    }
  }

  lemma {:induction false} OfMember(log: seq<Action>, i: SessionId, stops: bool, a: Action)
    ensures a in Of(log, i, stops) <==> a in log && Belongs(a, i, stops)
  {
    if log != [] {
      OfMember(log[..|log| - 1], i, stops, a);
    }
  }

  // ----- the invariant -----

  /** The fields of one session agree with each other. */
  predicate SessionOk(x: Session) {
    && (x.finished.None? <==> Live(x))
    && (x.result.Some? ==> x.callbackReceived)
    && (x.status.Pending? ==> x.phase.Awaiting? || x.phase.Exchanging? || x.phase.Exchanged? || x.phase.Finishing?)
    && (x.status.Committing? ==> x.phase.CommitAllowed? || x.phase.CommitCalled? || x.phase.Finishing?)
    && (x.status.Complete? ==> x.phase == Ended("", x.channelID))
    && (x.status.Failed? ==> x.phase.Ended? && x.phase.errorMsg == x.errorMsg != "")
    && (x.status.Cancelled? ==> x.callbackReceived)
  }

  /** `h` begins with one callback of session `i`, delivered and then taken. */
  predicate Consumed(h: seq<Action>, i: SessionId) {
    |h| >= 2 && h[1].Took? && h[1].sid == i && h[0] == Delivered(i, h[1].result)
  }

  /** ... and that callback carries the session's own state and no error. */
  predicate Authorized(h: seq<Action>, i: SessionId, x: Session) {
    Consumed(h, i) && h[1].result.state == x.state && h[1].result.errorMsg == "" && x.exchangeReady
  }

  /** A history that ended with the local variables `msg` and `id`. */
  predicate Outcome(h: seq<Action>, i: SessionId, x: Session, msg: string, id: int) {
    || (|h| <= 1 && (|h| == 1 ==> h[0].Delivered? && h[0].sid == i) && msg != "" && id == 0)
    || (|h| == 2 && Consumed(h, i) && !Authorized(h, i, x) && msg != "" && id == 0)
    || (|h| == 3 && Authorized(h, i, x) && h[2] == ExchangeFailed(i, msg) && id == 0)
    || (|h| == 3 && Authorized(h, i, x) && h[2].ExchangeSucceeded? && h[2].sid == i && msg != "" && id == 0)
    || (|h| == 5 && Committed(h, i, x) && h[4] == CommitSucceeded(i, id) && msg == "")
    || (|h| == 5 && Committed(h, i, x) && h[4] == CommitFailed(i, msg) && id == 0)
  }

  /** The callback was good, the exchange succeeded, and commit was called with its credential. */
  predicate Committed(h: seq<Action>, i: SessionId, x: Session) {
    && |h| >= 4 && Authorized(h, i, x)
    && h[2].ExchangeSucceeded? && h[2].sid == i
    && h[3] == CommitCall(i, h[2].credential)
  }

  /** The history of session `i` is exactly the one its phase stands for. */
  predicate HistoryOk(h: seq<Action>, i: SessionId, x: Session) {
    && (h != [] ==> x.callbackReceived)
    && match x.phase
       case Awaiting => h == if x.result.Some? then [Delivered(i, x.result.value)] else []
       case Exchanging(code) => |h| == 2 && Authorized(h, i, x) && h[1].result.code == code
       case Exchanged(c) => |h| == 3 && Authorized(h, i, x) && h[2] == ExchangeSucceeded(i, c)
       case CommitAllowed(c) => |h| == 3 && Authorized(h, i, x) && h[2] == ExchangeSucceeded(i, c)
       case CommitCalled(c) => |h| == 4 && Committed(h, i, x) && h[3].credential == c
       case Finishing(msg, id) => Outcome(h, i, x, msg, id)
       case Ended(msg, id) => Outcome(h, i, x, msg, id)
  }

  /** A session is stopped at most once, and an unforced stop leaves it without any commit call. */
  predicate StopsOk(stops: seq<Action>, h: seq<Action>, i: SessionId, x: Session) {
    && (if x.status.Cancelled? then stops == [Stopped(i, true)] || stops == [Stopped(i, false)] else stops == [])
    && (x.status.Pending? || stops == [Stopped(i, false)] ==>
          |h| <= 3 && !x.phase.CommitAllowed? && !x.phase.CommitCalled?)
  }

  predicate LoginOk(h: seq<Action>, stops: seq<Action>, i: SessionId, x: Session) {
    SessionOk(x) && HistoryOk(h, i, x) && StopsOk(stops, h, i, x)
  }

  predicate Good(s: State, i: SessionId)
    requires i < |s.all|
  {
    && LoginOk(Of(s.log, i, false), Of(s.log, i, true), i, s.all[i])
    && (Live(s.all[i]) <==> s.active == Some(i))
  }

  predicate TableOk(s: State) {
    && WellFormed(s)
    && (forall k :: k in s.table ==> s.all[s.table[k]].state == k)
    && (s.active.Some? ==> Listed(s, s.active.value))
  }

  predicate Listed(s: State, i: SessionId)
    requires i < |s.all|
  {
    s.all[i].state in s.table && s.table[s.all[i].state] == i
  }

  /** While start or close holds startMu, the login it read is still the only one that can be active; and once
      start has replaced it, it is active only if its state carries outer white space, which the cancel trims. */
  predicate StarterOk(s: State)
    requires WellFormed(s)
  {
    && (s.starter.Replacing? || s.starter.Closing? ==>
          && (s.all[s.starter.target].state in s.table ==> Listed(s, s.starter.target))
          && (s.active.Some? ==> s.active.value == s.starter.target))
    && ((s.starter.Stopping? || s.starter.Inserting?) && s.active.Some? ==> !Text.Trimmed(s.all[s.active.value].state))
  }

  predicate Inv(s: State) {
    && TableOk(s)
    && StarterOk(s)
    && (forall a :: a in s.log ==> a.sid < |s.all|)
    && (forall i :: 0 <= i < |s.all| ==> Good(s, i))
  }

  // ----- preservation -----

  /** Replacing one session, with at most one logged action of its own, only has to be checked at that session. */
  lemma UpdateKeeps(s: State, r: State, i: SessionId, x: Session, more: seq<Action>)
    requires Inv(s) && i < |s.all| && |more| <= 1 && (|more| == 1 ==> more[0].sid == i)
    requires r == s.(all := s.all[i := x], log := s.log + more, active := r.active)
    requires x.state == s.all[i].state
    requires r.active == s.active || (s.active == Some(i) && r.active == None)
    requires LoginOk(Added(Of(s.log, i, false), more, false), Added(Of(s.log, i, true), more, true), i, x)
    requires Live(x) <==> r.active == Some(i)
    ensures Inv(r)
  {
    hide Good, LoginOk, Of, Added;
    forall j | 0 <= j < |r.all|
      ensures Good(r, j)
    {
      UpdateKeepsAt(s, r, i, x, more, j);
    }
  }

  lemma UpdateKeepsAt(s: State, r: State, i: SessionId, x: Session, more: seq<Action>, j: SessionId)
    requires WellFormed(s) && i < |s.all| && j < |s.all| && Good(s, j)
    requires |more| <= 1 && (|more| == 1 ==> more[0].sid == i)
    requires r == s.(all := s.all[i := x], log := s.log + more, active := r.active)
    requires r.active == s.active || (s.active == Some(i) && r.active == None)
    requires LoginOk(Added(Of(s.log, i, false), more, false), Added(Of(s.log, i, true), more, true), i, x)
    requires Live(x) <==> r.active == Some(i)
    ensures Good(r, j)
  {
    hide LoginOk, Of, Added;
    OfAppend(s.log, more, i, j, false);
    OfAppend(s.log, more, i, j, true);
  }

  /** Pruning only drops finished sessions from the table, so the active one stays. */
  lemma PruneKeeps(s: State, now: int)
    requires Inv(s)
    ensures Inv(Prune(s, now))
    ensures forall i :: 0 <= i < |s.all| && Live(s.all[i]) ==> Listed(Prune(s, now), i)
  {
    var p := Prune(s, now);
    forall i | 0 <= i < |s.all|
      ensures Good(p, i) && (Live(s.all[i]) ==> Listed(p, i))
    {
      assert Good(s, i);
    }
    if p.active.Some? {
      assert Good(s, p.active.value);
    }
  }

  lemma StopOk(h: seq<Action>, stops: seq<Action>, i: SessionId, x: Session, force: bool, now: int)
    requires LoginOk(h, stops, i, x) && !x.status.Cancelled? && (force || x.status.Pending?)
    ensures LoginOk(h, stops + [Stopped(i, force)], i, StopSession(x, now))
  {
    assert [Stopped(i, true)][0] != [Stopped(i, false)][0];
  }

  lemma StopKeeps(s: State, i: SessionId, force: bool, now: int)
    requires Inv(s) && i < |s.all| && !s.all[i].status.Cancelled? && (force || s.all[i].status.Pending?)
    ensures Inv(StopAt(s, i, force, now))
  {
    hide LoginOk, Of;
    assert Good(s, i);
    StopOk(Of(s.log, i, false), Of(s.log, i, true), i, s.all[i], force, now);
    UpdateKeeps(s, StopAt(s, i, force, now), i, StopSession(s.all[i], now), [Stopped(i, force)]);
  }

  lemma CancelKeeps(s: State, rawState: string, force: bool, now: int)
    requires Inv(s)
    ensures var (r, o) := CancelRegion(s, rawState, force, now);
            && Inv(r) && r.starter == s.starter
            && (forall i :: 0 <= i < |s.all| ==> r.all[i].state == s.all[i].state)
            && (r.active == s.active || r.active == None)
            && (o.CancelledNow? || o.AlreadyCancelled? ==>
                  Text.Trim(rawState) in s.table && r.active != Some(s.table[Text.Trim(rawState)]))
  {
    PruneKeeps(s, now);
    var p := Prune(s, now);
    var key := Text.Trim(rawState);
    if key in p.table {
      var i := p.table[key];
      assert !Live(p.all[i]) ==> p.active != Some(i) by {
        assert Good(p, i);
      }
      if !p.all[i].status.Cancelled? && (force || p.all[i].status.Pending?) {
        StopKeeps(p, i, force, now);
      }
    }
  }

  lemma InsertKeeps(s: State, now: int, setup: Setup)
    requires Inv(s) && s.starter.Inserting?
    ensures Inv(InsertRegion(s, now, setup).(starter := Free))
  {
    PruneKeeps(s, now);
    var p := Prune(s, now);
    var r := InsertRegion(s, now, setup);
    if p.active.None? && setup.Prepared? {
      forall i | 0 <= i < |r.all|
        ensures Good(r, i)
      {
        if i < |p.all| {
          assert Good(p, i);
        } else {
          OfAbsent(r.log, i, false);
          OfAbsent(r.log, i, true);
        }
      }
    }
    forall i | 0 <= i < |r.all|
      ensures Good(r.(starter := Free), i)
    {
      assert Good(r, i);
    }
  }

  lemma StarterKeeps(s: State, m: StarterMove)
    requires Inv(s)
    ensures Inv(StarterStep(s, m))
  {
    match m
    case StartReplace(now) =>
      if s.starter.Replacing? {
        ReplaceKeeps(s, now);
      }
    case CloseCancel(now) =>
      if s.starter.Closing? {
        var key := s.all[s.starter.target].state;
        CancelKeeps(s, key, true, now);
        OnlyStarterChanged(CancelRegion(s, key, true, now).0, Free);
      }
    case StartInsert(now, setup) =>
      if s.starter.Inserting? {
        InsertKeeps(s, now, setup);
      }
    case StartBegin => OnlyStarterChanged(s, StarterStep(s, m).starter);
    case StartStopped(_) => OnlyStarterChanged(s, StarterStep(s, m).starter);
    case CloseBegin => OnlyStarterChanged(s, StarterStep(s, m).starter);
  }

  lemma ReplaceKeeps(s: State, now: int)
    requires Inv(s) && s.starter.Replacing?
    ensures Inv(ReplaceRegion(s, now))
  {
    var t := s.starter.target;
    var key := s.all[t].state;
    CancelKeeps(s, key, false, now);
    var r := CancelRegion(s, key, false, now);
    AfterReplace(s, r.0, r.1);
    OnlyStarterChanged(r.0, ReplaceRegion(s, now).starter);
  }

  lemma AfterReplace(s: State, p: State, o: CancelOutcome)
    requires Inv(s) && Inv(p) && s.starter.Replacing? && |p.all| == |s.all|
    requires p.all[s.starter.target].state == s.all[s.starter.target].state
    requires p.active == s.active || p.active == None
    requires var key := Text.Trim(s.all[s.starter.target].state);
             o.CancelledNow? || o.AlreadyCancelled? ==> key in s.table && p.active != Some(s.table[key])
    ensures (o.CancelledNow? || o.AlreadyCancelled?) && p.active.Some? ==> !Text.Trimmed(p.all[p.active.value].state)
  {
    var state := s.all[s.starter.target].state;
    assert Text.Trim(state) == state <==> Text.Trimmed(state);
  }

  lemma OnlyStarterChanged(s: State, starter: Starter)
    requires Inv(s)
    requires WellFormed(s.(starter := starter)) && StarterOk(s.(starter := starter))
    ensures Inv(s.(starter := starter))
  {
    forall i | 0 <= i < |s.all|
      ensures Good(s.(starter := starter), i)
    {
      assert Good(s, i);
    }
  }

  lemma TakeOk(provider: string, h: seq<Action>, stops: seq<Action>, i: SessionId, x: Session)
    requires LoginOk(h, stops, i, x) && x.phase.Awaiting? && x.result.Some?
    ensures var r := x.result.value;
            LoginOk(h + [Took(i, r)], stops, i, x.(phase := AfterResult(provider, x, r), result := None))
  {
  }

  lemma TakeKeeps(s: State, i: SessionId)
    requires Inv(s) && i < |s.all| && s.all[i].phase.Awaiting? && s.all[i].result.Some?
    ensures Inv(GoroutineStep(s, i, TakeResult))
  {
    hide LoginOk, Of, AfterResult;
    assert Good(s, i);
    var x, r := s.all[i], s.all[i].result.value;
    TakeOk(s.provider, Of(s.log, i, false), Of(s.log, i, true), i, x);
    UpdateKeeps(s, GoroutineStep(s, i, TakeResult), i, x.(phase := AfterResult(s.provider, x, r), result := None), [Took(i, r)]);
  }

  lemma GiveUpOk(h: seq<Action>, stops: seq<Action>, i: SessionId, x: Session, msg: string)
    requires LoginOk(h, stops, i, x) && msg != ""
    requires x.phase.Awaiting? || (x.phase.Exchanged? && x.status.Cancelled?)
    ensures LoginOk(h, stops, i, x.(phase := Finishing(msg, 0)))
  {
  }

  lemma GiveUpKeeps(s: State, i: SessionId, msg: string)
    requires Inv(s) && i < |s.all| && msg != ""
    requires s.all[i].phase.Awaiting? || (s.all[i].phase.Exchanged? && s.all[i].status.Cancelled?)
    ensures Inv(Update(s, i, s.all[i].(phase := Finishing(msg, 0)), []))
  {
    hide LoginOk, Of;
    assert Good(s, i);
    var x := s.all[i].(phase := Finishing(msg, 0));
    GiveUpOk(Of(s.log, i, false), Of(s.log, i, true), i, s.all[i], msg);
    UpdateKeeps(s, Update(s, i, x, []), i, x, []);
  }

  lemma ExchangeOk(h: seq<Action>, stops: seq<Action>, i: SessionId, x: Session, c: Credential, text: string)
    requires LoginOk(h, stops, i, x) && x.phase.Exchanging?
    ensures LoginOk(h + [ExchangeSucceeded(i, c)], stops, i, x.(phase := Exchanged(c)))
    ensures LoginOk(h + [ExchangeFailed(i, text)], stops, i, x.(phase := Finishing(text, 0)))
  {
  }

  lemma ExchangeKeeps(s: State, i: SessionId, exchange: Result<Credential>)
    requires Inv(s) && i < |s.all| && s.all[i].phase.Exchanging?
    ensures Inv(GoroutineStep(s, i, ExchangeReturns(exchange)))
  {
    hide LoginOk, Of;
    assert Good(s, i);
    var x, r := s.all[i], GoroutineStep(s, i, ExchangeReturns(exchange));
    var h, stops := Of(s.log, i, false), Of(s.log, i, true);
    match exchange
    case Ok(c) =>
      ExchangeOk(h, stops, i, x, c, "");
      UpdateKeeps(s, r, i, x.(phase := Exchanged(c)), [ExchangeSucceeded(i, c)]);
    case Err(text) =>
      ExchangeOk(h, stops, i, x, "", text);
      UpdateKeeps(s, r, i, x.(phase := Finishing(text, 0)), [ExchangeFailed(i, text)]);
  }

  lemma BeginCommitOk(h: seq<Action>, stops: seq<Action>, i: SessionId, x: Session)
    requires LoginOk(h, stops, i, x) && x.phase.Exchanged? && !x.status.Cancelled?
    ensures Live(x) && LoginOk(h, stops, i, x.(status := Committing, phase := CommitAllowed(x.phase.credential)))
  {
  }

  lemma BeginCommitKeeps(s: State, i: SessionId)
    requires Inv(s) && i < |s.all| && s.all[i].phase.Exchanged? && !s.all[i].status.Cancelled?
    ensures Inv(GoroutineStep(s, i, BeginCommit))
  {
    hide LoginOk, Of;
    assert Good(s, i);
    BeginCommitOk(Of(s.log, i, false), Of(s.log, i, true), i, s.all[i]);
    var x := s.all[i].(status := Committing, phase := CommitAllowed(s.all[i].phase.credential));
    UpdateKeeps(s, GoroutineStep(s, i, BeginCommit), i, x, []);
  }

  lemma CallCommitOk(h: seq<Action>, stops: seq<Action>, i: SessionId, x: Session)
    requires LoginOk(h, stops, i, x) && x.phase.CommitAllowed?
    ensures var c := x.phase.credential;
            LoginOk(h + [CommitCall(i, c)], stops, i, x.(phase := CommitCalled(c)))
  {
  }

  lemma CallCommitKeeps(s: State, i: SessionId)
    requires Inv(s) && i < |s.all| && s.all[i].phase.CommitAllowed?
    ensures Inv(GoroutineStep(s, i, CallCommit))
  {
    hide LoginOk, Of;
    assert Good(s, i);
    var c := s.all[i].phase.credential;
    CallCommitOk(Of(s.log, i, false), Of(s.log, i, true), i, s.all[i]);
    UpdateKeeps(s, GoroutineStep(s, i, CallCommit), i, s.all[i].(phase := CommitCalled(c)), [CommitCall(i, c)]);
  }

  lemma CommitReturnsOk(h: seq<Action>, stops: seq<Action>, i: SessionId, x: Session, id: int, text: string)
    requires LoginOk(h, stops, i, x) && x.phase.CommitCalled?
    ensures LoginOk(h + [CommitSucceeded(i, id)], stops, i, x.(phase := Finishing("", id)))
    ensures LoginOk(h + [CommitFailed(i, text)], stops, i, x.(phase := Finishing(text, 0)))
  {
  }

  lemma CommitReturnsKeeps(s: State, i: SessionId, commit: Result<int>)
    requires Inv(s) && i < |s.all| && s.all[i].phase.CommitCalled?
    ensures Inv(GoroutineStep(s, i, CommitReturns(commit)))
  {
    hide LoginOk, Of;
    assert Good(s, i);
    var x, r := s.all[i], GoroutineStep(s, i, CommitReturns(commit));
    var h, stops := Of(s.log, i, false), Of(s.log, i, true);
    match commit
    case Ok(id) =>
      CommitReturnsOk(h, stops, i, x, id, "");
      UpdateKeeps(s, r, i, x.(phase := Finishing("", id)), [CommitSucceeded(i, id)]);
    case Err(text) =>
      CommitReturnsOk(h, stops, i, x, 0, text);
      UpdateKeeps(s, r, i, x.(phase := Finishing(text, 0)), [CommitFailed(i, text)]);
  }

  lemma GoroutineKeeps(s: State, i: SessionId, m: Move)
    requires Inv(s) && i < |s.all|
    ensures Inv(GoroutineStep(s, i, m))
  {
    if GoroutineStep(s, i, m) != s {
      match m
      case TakeResult => TakeKeeps(s, i);
      case SeeCancelled => GiveUpKeeps(s, i, CancelledText(s.provider));
      case TimeOut => GiveUpKeeps(s, i, TimedOutText(s.provider));
      case ExchangeReturns(exchange) => ExchangeKeeps(s, i, exchange);
      case BeginCommit =>
        if s.all[i].status.Cancelled? { GiveUpKeeps(s, i, CancelledText(s.provider)); } else { BeginCommitKeeps(s, i); }
      case CallCommit => CallCommitKeeps(s, i);
      case CommitReturns(commit) => CommitReturnsKeeps(s, i, commit);
    }
  }

  lemma FinishOk(h: seq<Action>, stops: seq<Action>, i: SessionId, x: Session, now: int)
    requires LoginOk(h, stops, i, x) && x.phase.Finishing?
    ensures LoginOk(h, stops, i, Ending(x, now)) && !Live(Ending(x, now))
  {
  }

  lemma FinishKeeps(s: State, i: SessionId, now: int)
    requires Inv(s) && i < |s.all| && s.all[i].phase.Finishing?
    ensures Inv(FinishRegion(s, i, now))
  {
    hide LoginOk, Of;
    assert Good(s, i);
    FinishOk(Of(s.log, i, false), Of(s.log, i, true), i, s.all[i], now);
    UpdateKeeps(s, FinishRegion(s, i, now), i, Ending(s.all[i], now), []);
  }

  lemma StepKeeps(s: State, e: Event)
    requires Inv(s)
    ensures Inv(Step(s, e))
  {
    match e
    case Starting(m) => StarterKeeps(s, m);
    case Cancel(rawState, now) => CancelKeeps(s, rawState, false, now);
    case PruneAt(now) => PruneKeeps(s, now);
    case CancelContext(i) =>
      if i < |s.all| && s.all[i].status.Cancelled? {
        ContextKeeps(s, i);
      }
    case Deliver(i, result) =>
      if i < |s.all| && Accepts(s, i) {
        DeliverKeeps(s, i, result);
      }
    case Completion(i, m) =>
      if i < |s.all| {
        GoroutineKeeps(s, i, m);
      }
    case Finish(i, now) =>
      if i < |s.all| && s.all[i].phase.Finishing? {
        FinishKeeps(s, i, now);
      }
  }

  lemma ContextKeeps(s: State, i: SessionId)
    requires Inv(s) && i < |s.all|
    ensures Inv(Update(s, i, s.all[i].(contextDone := true), []))
  {
    hide Of;
    assert Good(s, i);
    var x := s.all[i].(contextDone := true);
    UpdateKeeps(s, Update(s, i, x, []), i, x, []);
  }

  lemma DeliverOk(h: seq<Action>, stops: seq<Action>, i: SessionId, x: Session, result: CallbackResult)
    requires LoginOk(h, stops, i, x) && x.status.Pending? && !x.callbackReceived
    ensures LoginOk(h + [Delivered(i, result)], stops, i, x.(callbackReceived := true, result := Some(result)))
  {
  }

  lemma DeliverKeeps(s: State, i: SessionId, result: CallbackResult)
    requires Inv(s) && i < |s.all| && Accepts(s, i)
    ensures Inv(DeliverRegion(s, i, result))
  {
    hide LoginOk, Of;
    assert Good(s, i);
    DeliverOk(Of(s.log, i, false), Of(s.log, i, true), i, s.all[i], result);
    var x := s.all[i].(callbackReceived := true, result := Some(result));
    UpdateKeeps(s, DeliverRegion(s, i, result), i, x, [Delivered(i, result)]);
  }

  lemma {:induction false} RunKeeps(s: State, es: seq<Event>)
    requires Inv(s)
    ensures Inv(Run(s, es)) && Grows(s, Run(s, es))
  {
    if es != [] {
      RunKeeps(s, es[..|es| - 1]);
      StepKeeps(Run(s, es[..|es| - 1]), es[|es| - 1]);
    }
  }

  /** The invariant holds in every reachable state. */
  lemma ReachableInv(s: State)
    requires Reachable(s)
    ensures Inv(s)
  {
    var provider, es :| s == Run(Initial(provider), es);
    RunKeeps(Initial(provider), es);
  }
}
