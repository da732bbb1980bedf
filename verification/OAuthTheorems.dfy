/** The promises of the OAuth login, for every reachable state and every run from it. */
module OAuthTheorems {
  import opened Wrappers
  import opened OAuthProtocol
  import opened OAuthSafety
  import Text

  // ----- one live login -----

  /** A login is pending or committing exactly when it is m.active; exactly these have no finish time;
      they are in the table and no pruning, whatever the clock says, removes them; there is at most one. */
  lemma LiveIffActive(s: State, i: SessionId, j: SessionId, now: int)
    requires Reachable(s) && i < |s.all| && j < |s.all|
    ensures Inv(s)
    ensures Live(s.all[i]) <==> s.active == Some(i)
    ensures Live(s.all[i]) <==> s.all[i].finished.None?
    ensures Live(s.all[i]) ==> Listed(s, i) && Listed(Prune(s, now), i)
    ensures Live(s.all[i]) && Live(s.all[j]) ==> i == j
  {
    ReachableInv(s);
    assert Good(s, i) && Good(s, j);
    PruneKeeps(s, now);
    assert Live(s.all[i]) ==> Listed(Prune(s, now), i);
  }

  /** A pruning step forgets exactly the listed logins that finished more than ten minutes ago. */
  lemma PruneForgets(s: State, now: int, k: string)
    requires Reachable(s)
    ensures WellFormed(s)
    ensures k in Prune(s, now).table <==>
              k in s.table && var x := s.all[s.table[k]];
                              Live(x) || (x.finished.Some? && now - x.finished.value <= 600_000_000_000)
  {
    ReachableInv(s);
    if k in s.table {
      assert Good(s, s.table[k]);
    }
  }

  /** The last region of start: if no login is active, a prepared login becomes the only live one, pending and without
      a callback, and an error changes no session; if one still is, its state carries outer white space and nothing
      changes but the pruning. */
  lemma StartReplacesOrFails(s: State, now: int, setup: Setup)
    requires Reachable(s) && s.starter.Inserting?
    ensures Inv(s)
    ensures s.active.Some? ==> !Text.Trimmed(s.all[s.active.value].state)
    ensures var r := InsertRegion(s, now, setup);
            if s.active.None? && setup.Prepared? then
              && |r.all| == |s.all| + 1 && r.active == Some(|s.all|) && Listed(r, |s.all|)
              && r.all == s.all + [Session(setup.state, setup.exchangeReady, Pending, "", 0, None, false, None, false, Awaiting)]
              && (forall i :: 0 <= i < |r.all| ==> (Live(r.all[i]) <==> i == |s.all|))
              && forall k :: k != setup.state ==> (k in r.table <==> k in Prune(s, now).table)
            else
              r.all == s.all && r.active == s.active && r.table == Prune(s, now).table
  {
    ReachableInv(s);
    InsertKeeps(s, now, setup);
    var r := InsertRegion(s, now, setup).(starter := Free);
    forall i | 0 <= i < |r.all|
      ensures Live(r.all[i]) <==> r.active == Some(i)
    {
      assert Good(r, i);
    }
  }

  /** start gets rid of the login it found active if and only if that login is not committing yet and its
      state token is free of outer white space. */
  lemma ReplaceSucceedsExactly(s: State, now: int)
    requires Reachable(s) && s.starter.Replacing? && s.active == Some(s.starter.target)
    ensures WellFormed(s)
    ensures var x := s.all[s.starter.target];
            ReplaceRegion(s, now).active.None? <==> x.status.Pending? && Text.Trimmed(x.state)
  {
    ReachableInv(s);
    PruneKeeps(s, now);
    var t, p := s.starter.target, Prune(s, now);
    var x, key := s.all[t], Text.Trim(s.all[t].state);
    assert Good(s, t) && Listed(p, t);
    assert key == x.state <==> Text.Trimmed(x.state);
    if key in p.table && key != x.state {
      assert s.all[p.table[key]].state == key;
      assert Good(s, p.table[key]);
    }
  }

  /** The one-place channel is free whenever a callback may be accepted, so the default branch of
      deliverCallback is never taken; and a pending login is always listed. */
  lemma FirstCallbackIsAccepted(s: State, i: SessionId)
    requires Reachable(s) && i < |s.all|
    ensures Accepts(s, i) <==> s.all[i].status.Pending? && !s.all[i].callbackReceived
  {
    ReachableInv(s);
    assert Good(s, i);
  }

  // ----- commit -----

  /** Commit is called at most once per login, and only after one delivered and taken callback with the
      login's own state and no error, and an exchange that produced the committed credential. */
  lemma CommitDiscipline(s: State, i: SessionId, q: nat)
    requires Reachable(s) && i < |s.all|
    requires q < |Of(s.log, i, false)| && Of(s.log, i, false)[q].CommitCall?
    ensures var h := Of(s.log, i, false);
            && q == 3
            && h[1].Took? && h[0] == Delivered(i, h[1].result)
            && h[1].result.state == s.all[i].state && h[1].result.errorMsg == ""
            && h[2] == ExchangeSucceeded(i, h[q].credential)
  {
    ReachableInv(s);
    assert Good(s, i);
    CommitShape(Of(s.log, i, false), i, s.all[i], q);
  }

  lemma CommitShape(h: seq<Action>, i: SessionId, x: Session, q: nat)
    requires HistoryOk(h, i, x) && q < |h| && h[q].CommitCall?
    ensures q == 3 && Committed(h, i, x)
  {
  }

  /** No login consumes a second callback. */
  lemma OneCallback(s: State, i: SessionId, q: nat)
    requires Reachable(s) && i < |s.all| && q < |Of(s.log, i, false)|
    ensures var h := Of(s.log, i, false);
            && (h[q].Delivered? ==> q == 0)
            && (h[q].Took? ==> q == 1 && h[0] == Delivered(i, h[1].result))
  {
    ReachableInv(s);
    assert Good(s, i);
    CallbackShape(Of(s.log, i, false), i, s.all[i], q);
  }

  lemma CallbackShape(h: seq<Action>, i: SessionId, x: Session, q: nat)
    requires HistoryOk(h, i, x) && q < |h|
    ensures h[q].Delivered? ==> q == 0
    ensures h[q].Took? ==> q == 1 && h[0] == Delivered(i, h[1].result)
  {
  }

  /** A cancel that succeeds without force - the user's, or the one that start uses to replace a login -
      means that commit is never called for that login, however the run goes on. */
  lemma CancelledLoginNeverCommits(s: State, more: seq<Event>, i: SessionId, c: Credential)
    requires Reachable(s) && Stopped(i, false) in s.log
    ensures WellFormed(s) && CommitCall(i, c) !in Run(s, more).log
  {
    ReachableInv(s);
    RunKeeps(s, more);
    NeverCommits(Run(s, more), i, c);
  }

  lemma NeverCommits(r: State, i: SessionId, c: Credential)
    requires Inv(r) && Stopped(i, false) in r.log
    ensures CommitCall(i, c) !in r.log
  {
    assert i == Stopped(i, false).sid < |r.all|;
    assert Good(r, i);
    OfMember(r.log, i, true, Stopped(i, false));
    var h := Of(r.log, i, false);
    assert Of(r.log, i, true) == [Stopped(i, false)];
    if CommitCall(i, c) in r.log {
      OfMember(r.log, i, false, CommitCall(i, c));
      var q :| 0 <= q < |h| && h[q] == CommitCall(i, c);
      CommitShape(h, i, r.all[i], q);
    }
  }

  /** ... and cancelSession, unforced, succeeds exactly when its trimmed state names a listed pending login, which no
      pruning hides: then the cancel is recorded and no login is active, and otherwise no session changes. */
  lemma CancelSucceedsWhenPending(s: State, rawState: string, now: int)
    requires Reachable(s)
    ensures WellFormed(s)
    ensures var (r, o) := CancelRegion(s, rawState, false, now);
            var key := Text.Trim(rawState);
            && (o.CancelledNow? <==> key in s.table && s.all[s.table[key]].status.Pending?)
            && (o.CancelledNow? ==> r.log == s.log + [Stopped(s.table[key], false)] && r.active.None?)
            && (!o.CancelledNow? ==> r.log == s.log && r.all == s.all)
  {
    ReachableInv(s);
    if Text.Trim(rawState) in s.table {
      assert Good(s, s.table[Text.Trim(rawState)]);
    }
  }

  // ----- terminal states -----

  predicate SameEnding(x: Session, y: Session) {
    y.status == x.status && y.errorMsg == x.errorMsg && y.channelID == x.channelID
  }

  /** Session `i` still shows the ending it showed in `x`, or close has cancelled it by force. */
  predicate EndingKept(x: Session, r: State, i: SessionId)
    requires i < |r.all|
  {
    SameEnding(x, r.all[i]) || (!x.status.Cancelled? && r.all[i].status.Cancelled? && Stopped(i, true) in r.log)
  }

  lemma CancelAbsorbs(s: State, rawState: string, force: bool, now: int, i: SessionId)
    requires Inv(s) && i < |s.all| && !Live(s.all[i])
    ensures EndingKept(s.all[i], CancelRegion(s, rawState, force, now).0, i)
  {
    var p, key := Prune(s, now), Text.Trim(rawState);
    if key in p.table && !p.all[p.table[key]].status.Cancelled? && (force || p.all[p.table[key]].status.Pending?) {
      StopAbsorbs(p, p.table[key], force, now, i);
    }
  }

  lemma StopAbsorbs(s: State, j: SessionId, force: bool, now: int, i: SessionId)
    requires WellFormed(s) && i < |s.all| && j < |s.all| && !Live(s.all[i])
    requires !s.all[j].status.Cancelled? && (force || s.all[j].status.Pending?)
    ensures EndingKept(s.all[i], StopAt(s, j, force, now), i)
  {
    var r := StopAt(s, j, force, now);
    assert r.log[|s.log|] in r.log;
  }

  lemma StarterAbsorbs(s: State, m: StarterMove, i: SessionId)
    requires Inv(s) && i < |s.all| && !Live(s.all[i])
    ensures EndingKept(s.all[i], StarterStep(s, m), i)
  {
    match m
    case StartReplace(now) =>
      if s.starter.Replacing? {
        CancelAbsorbs(s, s.all[s.starter.target].state, false, now, i);
      }
    case CloseCancel(now) =>
      if s.starter.Closing? {
        CancelAbsorbs(s, s.all[s.starter.target].state, true, now, i);
      }
    case StartBegin =>
    case StartStopped(_) =>
    case StartInsert(_, _) =>
    case CloseBegin =>
  }

  lemma GoroutineAbsorbs(s: State, m: Move, j: SessionId, i: SessionId)
    requires WellFormed(s) && i < |s.all| && j < |s.all| && !Live(s.all[i]) && SessionOk(s.all[i])
    ensures SameEnding(s.all[i], GoroutineStep(s, j, m).all[i])
  {
  }

  lemma StepAbsorbs(s: State, e: Event, i: SessionId)
    requires Inv(s) && i < |s.all| && !Live(s.all[i])
    ensures EndingKept(s.all[i], Step(s, e), i)
  {
    hide HistoryOk, StopsOk, Of, StarterOk, CancelRegion, GoroutineStep, StarterStep, FinishRegion;
    assert Good(s, i);
    match e
    case Starting(m) => StarterAbsorbs(s, m, i);
    case Cancel(rawState, now) => CancelAbsorbs(s, rawState, false, now, i);
    case PruneAt(_) =>
    case CancelContext(_) =>
    case Deliver(_, _) =>
    case Completion(j, m) =>
      if j < |s.all| {
        GoroutineAbsorbs(s, m, j, i);
      }
    case Finish(j, now) =>
      if j < |s.all| && s.all[j].phase.Finishing? {
        FinishAbsorbs(s, j, now, i);
      }
  }

  lemma FinishAbsorbs(s: State, j: SessionId, now: int, i: SessionId)
    requires WellFormed(s) && i < |s.all| && j < |s.all| && s.all[j].phase.Finishing?
    requires !Live(s.all[i]) && SessionOk(s.all[i])
    ensures SameEnding(s.all[i], FinishRegion(s, j, now).all[i])
  {
  }

  /** Nothing overwrites a cancellation, and a complete or failed login changes only through the forced
      cancel of close. */
  lemma {:induction false} TerminalStatusStays(s: State, more: seq<Event>, i: SessionId)
    requires Inv(s) && i < |s.all| && !Live(s.all[i])
    ensures Grows(s, Run(s, more)) && EndingKept(s.all[i], Run(s, more), i)
  {
    RunKeeps(s, more);
    if more != [] {
      var last := |more| - 1;
      TerminalStatusStays(s, more[..last], i);
      RunKeeps(s, more[..last]);
      StepAbsorbs(Run(s, more[..last]), more[last], i);
    }
  }

  /** Exactly the forced cancel of close changes the ending of a finished login that was not cancelled. */
  lemma EndingChangesExactly(s: State, more: seq<Event>, i: SessionId)
    requires Inv(s) && i < |s.all| && !Live(s.all[i])
    ensures Grows(s, Run(s, more))
    ensures SameEnding(s.all[i], Run(s, more).all[i]) <==> s.all[i].status.Cancelled? || Stopped(i, true) !in Run(s, more).log
  {
    var r := Run(s, more);
    TerminalStatusStays(s, more, i);
    RunKeeps(s, more);
    assert Good(r, i);
    OfMember(r.log, i, true, Stopped(i, true));
  }

  /** Some exchange or commit of login `i` failed with an error whose text is empty. */
  predicate FailedSilently(log: seq<Action>, i: SessionId) {
    ExchangeFailed(i, "") in log || CommitFailed(i, "") in log
  }

  /** A complete login carries the channel id that a successful commit returned, exactly when no failure
      of its exchange or commit came with an empty error text: the source takes the empty text for success. */
  lemma CompleteMeansCommitted(s: State, i: SessionId)
    requires Reachable(s) && i < |s.all| && s.all[i].status.Complete?
    ensures CommitSucceeded(i, s.all[i].channelID) in s.log <==> !FailedSilently(s.log, i)
    ensures FailedSilently(s.log, i) ==> s.all[i].channelID == 0
  {
    ReachableInv(s);
    assert Good(s, i);
    OfMember(s.log, i, false, CommitSucceeded(i, s.all[i].channelID));
    OfMember(s.log, i, false, ExchangeFailed(i, ""));
    OfMember(s.log, i, false, CommitFailed(i, ""));
    OutcomeShape(Of(s.log, i, false), i, s.all[i], s.all[i].channelID);
  }

  lemma OutcomeShape(h: seq<Action>, i: SessionId, x: Session, id: int)
    requires Outcome(h, i, x, "", id)
    ensures CommitSucceeded(i, id) in h <==> !FailedSilently(h, i)
    ensures FailedSilently(h, i) ==> id == 0
  {
    assert |h| == 3 || |h| == 5;
    assert h[|h| - 1] in h;
  }

  /** Conversely, once complete has finished, a commit that succeeded shows up as a complete login with
      its channel id, unless close has cancelled the login by force. */
  lemma CommittedMeansComplete(s: State, i: SessionId, id: int)
    requires Reachable(s) && CommitSucceeded(i, id) in s.log
    ensures i < |s.all|
    ensures s.all[i].phase.Ended? ==>
              (s.all[i].status.Complete? && s.all[i].channelID == id)
              || (s.all[i].status.Cancelled? && Stopped(i, true) in s.log)
  {
    ReachableInv(s);
    assert i == CommitSucceeded(i, id).sid < |s.all|;
    assert Good(s, i);
    OfMember(s.log, i, false, CommitSucceeded(i, id));
    OfMember(s.log, i, true, Stopped(i, true));
    var h := Of(s.log, i, false);
    var q :| 0 <= q < |h| && h[q] == CommitSucceeded(i, id);
    if s.all[i].phase.Ended? {
      SuccessShape(h, i, s.all[i], q);
      if s.all[i].status.Cancelled? {
        assert Of(s.log, i, true) == [Stopped(i, true)];
      }
    }
  }

  lemma SuccessShape(h: seq<Action>, i: SessionId, x: Session, q: nat)
    requires HistoryOk(h, i, x) && x.phase.Ended? && q < |h| && h[q].CommitSucceeded?
    ensures |h| == 5 && q == 4 && x.phase == Ended("", h[q].channelID)
  {
  }

  /** Without such a failure, a login that has ended and was not cancelled is complete if and only if its commit
      succeeded, and then it shows the committed channel. */
  lemma CompleteExactlyWhenCommitted(s: State, i: SessionId)
    requires Reachable(s) && i < |s.all| && s.all[i].phase.Ended? && !s.all[i].status.Cancelled?
    requires !FailedSilently(s.log, i)
    ensures s.all[i].status.Complete? <==> exists id :: CommitSucceeded(i, id) in s.log
    ensures forall id :: CommitSucceeded(i, id) in s.log ==> s.all[i].channelID == id
  {
    ReachableInv(s);
    assert Good(s, i);
    if s.all[i].status.Complete? {
      CompleteMeansCommitted(s, i);
    }
    forall id | CommitSucceeded(i, id) in s.log
      ensures s.all[i].status.Complete? && s.all[i].channelID == id
    {
      CommittedMeansComplete(s, i, id);
    }
  }

  // ----- runs -----

  function Fresh(token: string): Session {
    Session(token, true, Pending, "", 0, None, false, None, false, Awaiting)
  }

  lemma StartsOneLogin(token: string, s: State)
    requires s == State("Codex", [Fresh(token)], map[token := 0], Some(0), Free, [])
    ensures Reachable(s)
  {
    var s0 := Initial("Codex");
    assert Run(s0, []) == s0;
    var s1 := s0.(starter := Inserting);
    ReachableStep(s0, Starting(StartBegin), s1);
    assert Step(s1, Starting(StartInsert(0, Prepared(token, true)))).table == s.table;
    ReachableStep(s1, Starting(StartInsert(0, Prepared(token, true))), s);
  }

  /** One step of the only login's goroutine. */
  lemma Moves(s: State, x: Session, m: Move, y: Session, more: seq<Action>) returns (r: State)
    requires Reachable(s) && WellFormed(s) && s.all == [x] && y.state == x.state
    requires GoroutineStep(s, 0, m) == Update(s, 0, y, more)
    ensures r == s.(all := [y], log := s.log + more) && Reachable(r) && WellFormed(r)
  {
    hide Reachable, GoroutineStep;
    r := s.(all := [y], log := s.log + more);
    assert Step(s, Completion(0, m)).all == r.all;
    ReachableStep(s, Completion(0, m), r);
  }

  /** A login whose callback has led to the exchange. */
  predicate Exchanges(s: State, callback: CallbackResult) {
    && WellFormed(s) && s.active == Some(0) && s.starter.Free? && s.table == map["st" := 0]
    && s.all == [Fresh("st").(callbackReceived := true, phase := Exchanging("code"))]
    && s.log == [Delivered(0, callback), Took(0, callback)]
  }

  lemma ReachesExchange(callback: CallbackResult) returns (s: State)
    requires callback == CallbackResult("code", "st", "")
    ensures Reachable(s) && Exchanges(s, callback)
  {
    hide Reachable;
    var s2 := State("Codex", [Fresh("st")], map["st" := 0], Some(0), Free, []);
    StartsOneLogin("st", s2);
    var y := Fresh("st").(callbackReceived := true, result := Some(callback));
    var s3 := s2.(all := [y], log := [Delivered(0, callback)]);
    assert Step(s2, Deliver(0, callback)).all == s3.all;
    ReachableStep(s2, Deliver(0, callback), s3);
    s := Moves(s3, y, TakeResult, y.(phase := Exchanging("code"), result := None), [Took(0, callback)]);
  }

  /** A run in which a login completes although its token exchange failed: the error text was empty. */
  lemma EmptyErrorTextCompletes() returns (s: State)
    ensures Reachable(s) && |s.all| == 1
    ensures s.all[0].status.Complete? && s.all[0].channelID == 0
    ensures ExchangeFailed(0, "") in s.log && forall id :: CommitSucceeded(0, id) !in s.log
  {
    hide Reachable;
    var callback := CallbackResult("code", "st", "");
    var s4 := ReachesExchange(callback);
    var x := s4.all[0];
    var y := x.(phase := Finishing("", 0));
    var s5 := Moves(s4, x, ExchangeReturns(Err("")), y, [ExchangeFailed(0, "")]);
    s := Step(s5, Finish(0, 1));
    ReachableStep(s5, Finish(0, 1), s);
    assert s.log == [Delivered(0, callback), Took(0, callback), ExchangeFailed(0, "")];
  }

  /** A login whose commit has succeeded, about to be reported. */
  lemma ReachesReport(id: int) returns (s: State)
    ensures Reachable(s) && WellFormed(s) && s.active == Some(0) && s.starter.Free? && s.table == map["st" := 0]
    ensures |s.all| == 1 && s.all[0].state == "st" && s.all[0].status.Committing? && s.all[0].phase == Finishing("", id)
  {
    hide Reachable;
    var s0 := ReachesExchange(CallbackResult("code", "st", ""));
    var x := s0.all[0];
    var s1 := Moves(s0, x, ExchangeReturns(Ok("c")), x.(phase := Exchanged("c")), [ExchangeSucceeded(0, "c")]);
    var y := x.(status := Committing, phase := CommitAllowed("c"));
    var s2 := Moves(s1, x.(phase := Exchanged("c")), BeginCommit, y, []);
    var s3 := Moves(s2, y, CallCommit, y.(phase := CommitCalled("c")), [CommitCall(0, "c")]);
    s := Moves(s3, y.(phase := CommitCalled("c")), CommitReturns(Ok(id)), y.(phase := Finishing("", id)), [CommitSucceeded(0, id)]);
  }

  /** A run in which close turns a complete login into a cancelled one: close reads the active login, the login
      completes with its channel, and then close cancels what it has read. */
  lemma CloseOverridesComplete(id: int) returns (s: State, more: seq<Event>)
    ensures Reachable(s) && WellFormed(s) && |s.all| == 1 && s.all[0].status.Complete? && s.all[0].channelID == id
    ensures var r := Run(s, more); |r.all| == 1 && r.all[0].status.Cancelled? && Stopped(0, true) in r.log
  {
    hide Reachable;
    var s0 := ReachesReport(id);
    var s1 := s0.(starter := Closing(0));
    ReachableStep(s0, Starting(CloseBegin), s1);
    s := Step(s1, Finish(0, 1));
    ReachableStep(s1, Finish(0, 1), s);
    more := [Starting(CloseCancel(2))];
    assert more[..0] == [] && Run(s, []) == s;
    CloseCancels(s, 2);
  }

  lemma CloseCancels(s: State, now: int)
    requires WellFormed(s) && |s.all| == 1 && s.all[0].state == "st" && s.table == map["st" := 0] && s.starter == Closing(0)
    requires s.all[0].status.Complete? && s.all[0].finished.Some? && now - s.all[0].finished.value <= STATUS_TTL
    ensures var r := Step(s, Starting(CloseCancel(now)));
            |r.all| == 1 && r.all[0].status.Cancelled? && Stopped(0, true) in r.log
  {
    assert Text.Trim(s.all[0].state) == s.all[0].state;
    var r := Step(s, Starting(CloseCancel(now)));
    assert r == StopAt(Prune(s, now), 0, true, now).(starter := Free);
    assert r.log[|s.log|] == Stopped(0, true);
  }

  /** A state token with white space at an end, which start cannot replace: the cancel looks for the token
      without it. */
  lemma SpacedTokenIsNotReplaced(token: string, now: int) returns (s: State)
    requires !Text.Trimmed(token)
    ensures Reachable(s) && s.starter == Replacing(0) && s.active == Some(0) && |s.all| == 1 && s.all[0].status.Pending?
    ensures WellFormed(s) && ReplaceRegion(s, now).active == Some(0)
  {
    var s2 := State("Codex", [Fresh(token)], map[token := 0], Some(0), Free, []);
    StartsOneLogin(token, s2);
    s := s2.(starter := Replacing(0));
    ReachableStep(s2, Starting(StartBegin), s);
    ReplaceSucceedsExactly(s, now);
  }

  lemma ReachableStep(s: State, e: Event, r: State)
    requires Reachable(s) && WellFormed(s) && r == Step(s, e)
    ensures Reachable(r)
  {
    var provider, es :| s == Run(Initial(provider), es);
    assert (es + [e])[..|es|] == es;
    assert r == Run(Initial(provider), es + [e]);
  }
}
