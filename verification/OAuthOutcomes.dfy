/** What the users of the login manager see, told in the fields of the sessions: which logins are listed and for how
    long, what a cancel answers, how start proceeds, and what a login shows when it has ended. */
module OAuthOutcomes {
  import opened Wrappers
  import opened OAuthProtocol
  import opened OAuthSafety
  import Text

  // ----- how long an ending is shown -----

  /** An ending stays listed for ten minutes from the moment the login ended. */
  lemma EndingIsShownForTenMinutes(s: State, i: SessionId, t: int, now: int)
    requires Reachable(s) && i < |s.all| && s.all[i].phase.Finishing?
    ensures WellFormed(s) && (Live(s.all[i]) ==> Listed(s, i))
    ensures Listed(Prune(Step(s, Finish(i, t)), now), i) <==> Listed(s, i) && now - t <= 600_000_000_000
  {
    hide Reachable, HistoryOk, StopsOk, SessionOk, StarterOk, Of, Ending, Live;
    ReachableInv(s);
    assert Good(s, i);
    EndsNow(s.all[i], t);
  }

  lemma EndsNow(x: Session, t: int)
    requires x.phase.Finishing?
    ensures Ending(x, t).finished == Some(t) && Ending(x, t).state == x.state
  {
  }

  /** ... and so does a cancellation. */
  lemma CancellationIsShownForTenMinutes(s: State, rawState: string, force: bool, t: int, now: int)
    requires Reachable(s)
    ensures WellFormed(s)
    ensures var (r, o) := CancelRegion(s, rawState, force, t);
            o.CancelledNow? ==>
              && Text.Trim(rawState) in s.table
              && (Listed(Prune(r, now), s.table[Text.Trim(rawState)]) <==> now - t <= 600_000_000_000)
  {
    ReachableInv(s);
  }

  // ----- what a cancel answers -----

  /** The answer of a cancel, forced or not, and what it changes, for a login found under `key`: one that has not ended
      for more than ten minutes. */
  lemma CancelOutcomes(s: State, rawState: string, force: bool, now: int)
    requires Reachable(s)
    ensures WellFormed(s)
    ensures var (r, o) := CancelRegion(s, rawState, force, now);
            var key := Text.Trim(rawState);
            var found := key in s.table && (var f := s.all[s.table[key]].finished; f.Some? ==> now - f.value <= 600_000_000_000);
            && (o.NotFound? <==> !found)
            && (found ==>
                  var i := s.table[key];
                  var x := s.all[i];
                  && (o.AlreadyCancelled? <==> x.status.Cancelled?)
                  && (o.Refused? <==> !force && (x.status.Committing? || x.status.Complete? || x.status.Failed?))
                  && (o.CancelledNow? ==>
                        r.all == s.all[i := x.(status := Cancelled, errorMsg := "", finished := Some(now), callbackReceived := true)]))
            && (!o.CancelledNow? ==> r.all == s.all)
  {
    ReachableInv(s);
  }

  // ----- how start and close proceed -----

  /** The login that is listed under the trimmed state token of login `t`, unless it ended more than ten minutes ago. */
  predicate Finds(s: State, t: SessionId, now: int, i: SessionId)
    requires WellFormed(s) && t < |s.all|
    ensures Finds(s, t, now, i) ==> i < |s.all|
  {
    var key := Text.Trim(s.all[t].state);
    key in s.table && s.table[key] == i && (s.all[i].finished.Some? ==> now - s.all[i].finished.value <= 600_000_000_000)
  }

  /** start reaches its last region from an idle manager, after the login it found turned out to be cancelled, or after
      it cancelled that login and the callback listener of that login was shut down; and in no other way. */
  lemma StartProceeds(s: State, m: StarterMove)
    requires Reachable(s)
    ensures WellFormed(s)
    ensures var r := StarterStep(s, m).starter;
            match s.starter
            case Free =>
              r == (if m.StartBegin? then if s.active.None? then Inserting else Replacing(s.active.value)
                    else if m.CloseBegin? && s.active.Some? then Closing(s.active.value) else Free)
            case Replacing(t) =>
              if !m.StartReplace? then r == s.starter
              else if exists i: SessionId :: Finds(s, t, m.now, i) && s.all[i].status.Pending? then r == Stopping
              else if exists i: SessionId :: Finds(s, t, m.now, i) && s.all[i].status.Cancelled? then r == Inserting
              else r == Free
            case Stopping => r == (if m == StartStopped(true) then Inserting else if m == StartStopped(false) then Free else Stopping)
            case Inserting => r == (if m.StartInsert? then Free else Inserting)
            case Closing(_) => r == (if m.CloseCancel? then Free else s.starter)
  {
    ReachableInv(s);
    if s.starter.Replacing? && m.StartReplace? {
      var key := Text.Trim(s.all[s.starter.target].state);
      if key in s.table {
        assert Finds(s, s.starter.target, m.now, s.table[key]) <==> key in Prune(s, m.now).table;
      }
    }
  }

  // ----- what an ended login shows -----

  /** A callback leads to the exchange of its code, or the login ends with the first reason to reject it: the error it
      carries, another state, or an exchange that was not prepared. */
  lemma CallbackIsAnswered(s: State, i: SessionId, now: int)
    requires Reachable(s) && i < |s.all| && s.all[i].status.Pending?
    requires s.all[i].phase.Awaiting? && s.all[i].result.Some?
    ensures WellFormed(s)
    ensures var x, r := s.all[i], s.all[i].result.value;
            var y := Step(Step(s, Completion(i, TakeResult)), Finish(i, now)).all[i];
            if r.errorMsg == "" && r.state == x.state && x.exchangeReady then y.phase == Exchanging(r.code) && y.status.Pending?
            else
              && y.status.Failed? && y.finished == Some(now) && y.channelID == x.channelID
              && y.errorMsg == (if r.errorMsg != "" then r.errorMsg
                                else if r.state != x.state then "invalid OAuth state"
                                else s.provider + " OAuth exchange is unavailable")
  {
    hide Reachable, Good, StarterOk;
    ReachableInv(s);
  }

  /** A login that runs into the time limit, or whose exchange or commit ends, shows exactly that. */
  lemma EndIsReported(s: State, i: SessionId, m: Move, now: int)
    requires Reachable(s) && i < |s.all| && Live(s.all[i])
    ensures WellFormed(s)
    ensures var x := s.all[i];
            var y := Step(Step(s, Completion(i, m)), Finish(i, now)).all[i];
            var failure := if x.phase.Awaiting? && m.TimeOut? then s.provider + " OAuth login timed out"
                           else if x.phase.Exchanging? && m.ExchangeReturns? && m.exchange.Err? then m.exchange.error
                           else if x.phase.CommitCalled? && m.CommitReturns? && m.commit.Err? then m.commit.error
                           else "";
            && (failure != "" ==> y.status.Failed? && y.errorMsg == failure && y.finished == Some(now) && y.channelID == x.channelID)
            && (x.phase.CommitCalled? && m.CommitReturns? && m.commit.Ok? ==>
                  y.status.Complete? && y.channelID == m.commit.value && y.finished == Some(now) && y.errorMsg == x.errorMsg)
            && (x.phase.Exchanging? && m.ExchangeReturns? && m.exchange.Ok? ==> y.phase == Exchanged(m.exchange.value))
  {
    hide Reachable, Good, StarterOk;
    ReachableInv(s);
  }

  /** A callback that is accepted is the one that the goroutine will take. */
  lemma AcceptedCallbackIsKept(s: State, i: SessionId, r: CallbackResult)
    requires Reachable(s) && i < |s.all|
    ensures WellFormed(s)
    ensures var x, t := s.all[i], Step(s, Deliver(i, r));
            if x.status.Pending? && !x.callbackReceived then
              t.log == s.log + [Delivered(i, r)] && t.all == s.all[i := x.(callbackReceived := true, result := Some(r))]
            else t == s
  {
    ReachableInv(s);
    assert Good(s, i);
  }

  /** A cancelled login that still waits for its callback is released, and stays cancelled. */
  lemma CancelledLoginIsReleased(s: State, i: SessionId, now: int)
    requires Reachable(s) && i < |s.all| && s.all[i].status.Cancelled? && s.all[i].phase.Awaiting?
    ensures WellFormed(s)
    ensures var y := Step(Step(Step(s, CancelContext(i)), Completion(i, SeeCancelled)), Finish(i, now)).all[i];
            y.phase.Ended? && y.status.Cancelled? && y.errorMsg == s.all[i].errorMsg && y.channelID == s.all[i].channelID
  {
    hide Reachable, Good, StarterOk;
    ReachableInv(s);
  }

  // ----- no login is stuck -----

  lemma {:induction false} RunConcat(s: State, e: Event, es: seq<Event>)
    requires WellFormed(s)
    ensures Run(s, [e] + es) == Run(Step(s, e), es)
  {
    if es == [] {
      assert ([e] + es)[..0] == [];
      assert Run(s, []) == s;
    } else {
      var n := |es| - 1;
      assert ([e] + es)[..n + 1] == [e] + es[..n];
      RunConcat(s, e, es[..n]);
    }
  }

  /** How many actions a goroutine has left at most. */
  function Left(phase: Phase): nat {
    match phase
    case Awaiting => 2 case Exchanging(_) => 2 case Exchanged(_) => 4 case CommitAllowed(_) => 3 case CommitCalled(_) => 2
    case Finishing(_, _) => 1 case Ended(_, _) => 0
  }

  /** The next action, when services fail and the clock runs out. */
  function Next(x: Session, i: SessionId, now: int): Event {
    match x.phase
    case Awaiting => Completion(i, TimeOut)
    case Exchanging(_) => Completion(i, ExchangeReturns(Err("failed")))
    case Exchanged(_) => Completion(i, BeginCommit)
    case CommitAllowed(_) => Completion(i, CallCommit)
    case CommitCalled(_) => Completion(i, CommitReturns(Err("failed")))
    case Finishing(_, _) => Finish(i, now)
    case Ended(_, _) => PruneAt(now)
  }

  /** Whatever has happened so far, at most four more actions of its own end a login. */
  lemma {:induction false} EveryLoginCanEnd(s: State, i: SessionId, now: int) returns (es: seq<Event>)
    requires WellFormed(s) && i < |s.all|
    ensures |es| <= 4 && |Run(s, es).all| == |s.all| && Run(s, es).all[i].phase.Ended?
    ensures forall e :: e in es ==> (e.Completion? || e.Finish?) && e.sid == i
    ensures |es| <= Left(s.all[i].phase)
    decreases Left(s.all[i].phase)
  {
    es := [];
    if !s.all[i].phase.Ended? {
      var e := Next(s.all[i], i, now);
      var rest := EveryLoginCanEnd(Step(s, e), i, now);
      RunConcat(s, e, rest);
      es := [e] + rest;
    }
  }
}
