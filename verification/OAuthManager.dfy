/** The session manager as an object: the same fields, updated in place, one method for each mutex
    region and for each step of the completion goroutine.  Every method is proved to perform exactly
    the step of the protocol that `OAuthTheorems` speaks about. */
module OAuthManager {
  import opened Wrappers
  import opened OAuthProtocol
  import Text

  class Login {
    const state: string
    const exchangeReady: bool
    var status: Status
    var errorMsg: string
    var channelID: int
    var finished: Option<int>
    var callbackReceived: bool
    var result: Option<CallbackResult>
    var contextDone: bool
    var phase: Phase
    ghost const id: SessionId

    constructor (state: string, exchangeReady: bool, ghost id: SessionId)
      ensures this.id == id
      ensures View() == Session(state, exchangeReady, Pending, "", 0, None, false, None, false, Awaiting)
    {
      this.state, this.exchangeReady, this.id := state, exchangeReady, id;
      status, errorMsg, channelID := Pending, "", 0;
      finished, callbackReceived, result := None, false, None;
      contextDone, phase := false, Awaiting;
    }

    /** The send that does not wait: a full channel undoes the acceptance. */
    method Offer(r: CallbackResult) returns (sent: bool)
      requires !callbackReceived
      modifies this
      ensures sent == old(result).None?
      ensures View() == if sent then old(View()).(callbackReceived := true, result := Some(r)) else old(View())
    {
      callbackReceived := true;
      sent := result.None?;
      if sent {
        result := Some(r);
      } else {
        callbackReceived := false;
      }
    }

    method End(now: int)
      requires phase.Finishing?
      modifies this
      ensures View() == Ending(old(View()), now)
      ensures finished == Some(now) && contextDone
      ensures old(status).Cancelled? ==> status.Cancelled? && errorMsg == old(errorMsg) && channelID == old(channelID)
      ensures !old(status).Cancelled? && old(phase).errorMsg != "" ==>
                status.Failed? && errorMsg == old(phase).errorMsg && channelID == old(channelID)
      ensures !old(status).Cancelled? && old(phase).errorMsg == "" ==>
                status.Complete? && channelID == old(phase).channelID && errorMsg == old(errorMsg)
    {
      var msg, id := phase.errorMsg, phase.channelID;
      if status == Cancelled {
        // a cancellation is never overwritten
      } else if msg != "" {
        status, errorMsg := Failed, msg;
      } else {
        status, channelID := Complete, id;
      }
      finished := Some(now);
      contextDone, phase := true, Ended(msg, id);
    }

    ghost function View(): Session
      reads this
    {
      Session(state, exchangeReady, status, errorMsg, channelID, finished, callbackReceived, result, contextDone, phase)
    }
  }

  class Manager {
    const provider: string
    var sessions: map<string, Login>
    var active: Login?
    ghost var all: seq<Login>
    ghost var state: State

    /** `state` is the protocol state that the fields stand for. */
    ghost predicate Valid()
      reads this, all
    {
      && WellFormed(state) && state.provider == provider
      && |state.all| == |all|
      && (forall i :: 0 <= i < |all| ==> all[i].id == i && all[i].View() == state.all[i])
      && sessions.Keys == state.table.Keys
      && (forall k :: k in sessions ==> Known(sessions[k]) && sessions[k].id == state.table[k])
      && (active == null <==> state.active == None)
      && (active != null ==> Known(active) && state.active == Some(active.id))
    }

    ghost predicate Known(x: Login)
      reads this
    {
      x.id < |all| && all[x.id] == x
    }

    constructor (provider: string)
      ensures Valid() && state == Initial(provider)
    {
      this.provider := provider;
      sessions, active := map[], null;
      all, state := [], Initial(provider);
    }

    /** The entries that pruneLocked does not delete. */
    method Unexpired(now: int) returns (kept: map<string, Login>)
      requires Valid()
      ensures forall k :: k in kept ==> k in sessions && kept[k] == sessions[k]
      ensures forall k :: k in state.table ==> (k in kept <==> !Expired(state.all[state.table[k]], now))
    {
      var keys := sessions.Keys;
      kept := sessions;
      while keys != {}
        invariant keys <= sessions.Keys
        invariant forall k :: k in kept ==> k in sessions && kept[k] == sessions[k]
        invariant forall k :: k in state.table ==>
                    (k in kept <==> k in keys || !Expired(state.all[state.table[k]], now))
        decreases |keys|
      {
        var k :| k in keys;
        var x := sessions[k];
        assert x.View() == state.all[state.table[k]];
        if x.finished.Some? && now - x.finished.value > STATUS_TTL {
          kept := kept - {k};
        }
        keys := keys - {k};
      }
    }

    /** pruneLocked */
    method PruneLocked(now: int)
      requires Valid()
      modifies this`sessions, this`state
      ensures Valid() && state == Prune(old(state), now)
    {
      sessions := Unexpired(now);
      SetState(Prune(state, now));
    }

    /** The new protocol state, once the fields agree with it. */
    ghost method SetState(s: State)
      requires WellFormed(s) && s.provider == provider && |s.all| == |all|
      requires forall i :: 0 <= i < |all| ==> all[i].id == i && all[i].View() == s.all[i]
      requires sessions.Keys == s.table.Keys
      requires forall k :: k in sessions ==> Known(sessions[k]) && sessions[k].id == s.table[k]
      requires active == null <==> s.active == None
      requires active != null ==> Known(active) && s.active == Some(active.id)
      modifies this`state
      ensures Valid() && state == s
    {
      state := s;
    }

    ghost method SetStarter(starter: Starter)
      requires Valid() && WellFormed(state.(starter := starter))
      modifies this`state
      ensures Valid() && state == old(state).(starter := starter)
    {
      state := state.(starter := starter);
    }

    /** The locked part of cancelSession. */
    method CancelSession(rawState: string, force: bool, now: int) returns (outcome: CancelOutcome)
      requires Valid()
      modifies this`sessions, this`active, this`state, all
      ensures Valid()
      ensures (state, outcome) == CancelRegion(old(state), rawState, force, now)
    {
      var key := Text.Trim(rawState);
      PruneLocked(now);
      if key !in sessions {
        return NotFound;
      }
      var x := sessions[key];
      if x.status == Cancelled {
        return AlreadyCancelled;
      }
      if !force && x.status != Pending {
        return Refused;
      }
      Stop(x, force, now);
      return CancelledNow;
    }

    method Stop(x: Login, force: bool, now: int)
      requires Valid() && Known(x)
      modifies this`active, this`state, x
      ensures Valid() && state == StopAt(old(state), x.id, force, now)
      ensures x.status.Cancelled? && x.errorMsg == "" && x.finished == Some(now) && x.callbackReceived
      ensures active == if old(active) == x then null else old(active)
    {
      x.status, x.errorMsg := Cancelled, "";
      x.finished, x.callbackReceived := Some(now), true;
      if active == x {
        active := null;
      }
      SetState(StopAt(state, x.id, force, now));
    }

    /** deliverCallback */
    method DeliverCallback(x: Login, result: CallbackResult) returns (accepted: bool)
      requires Valid() && Known(x)
      modifies this`state, x
      ensures Valid() && state == DeliverRegion(old(state), x.id, result)
      ensures accepted == Accepts(old(state), x.id)
    {
      if x.status != Pending || x.state !in sessions || sessions[x.state] != x || x.callbackReceived {
        return false;
      }
      accepted := x.Offer(result);
      SetState(DeliverRegion(state, x.id, result));
    }

    /** submitCallbackURL after parsing: find the login under the mutex; the caller then delivers to it. */
    method FindForCallback(token: string, now: int) returns (x: Login?)
      requires Valid()
      modifies this`sessions, this`state
      ensures Valid() && state == Prune(old(state), now)
      ensures x != null <==> token in state.table
      ensures x != null ==> Known(x) && x.id == state.table[token]
    {
      PruneLocked(now);
      x := if token in sessions then sessions[token] else null;
    }

    /** status(state): what the caller is told about a login. */
    method StatusOf(rawState: string, now: int) returns (r: Option<(Status, string, int)>)
      requires Valid()
      modifies this`sessions, this`state
      ensures Valid() && state == Prune(old(state), now)
      ensures var key := Text.Trim(rawState);
              r == if key in state.table
                   then var x := state.all[state.table[key]]; Some((x.status, x.errorMsg, x.channelID))
                   else None
    {
      PruneLocked(now);
      var key := Text.Trim(rawState);
      if key in sessions {
        var x := sessions[key];
        r := Some((x.status, x.errorMsg, x.channelID));
      } else {
        r := None;
      }
    }

    // ----- start and close -----

    /** start reads the active login under the mutex, holding startMu from here on. */
    method ReadActiveForStart() returns (target: Login?)
      requires Valid() && state.starter == Free
      modifies this`state
      ensures Valid() && state == StarterStep(old(state), StartBegin)
      ensures target == active
    {
      target := active;
      SetState(StarterStep(state, StartBegin));
    }

    method ReplaceForStart(target: Login, now: int) returns (outcome: CancelOutcome)
      requires Valid() && Known(target) && state.starter == Replacing(target.id)
      modifies this`sessions, this`active, this`state, all
      ensures Valid() && state == ReplaceRegion(old(state), now)
      ensures state.starter.Free? <==> outcome.NotFound? || outcome.Refused?
    {
      outcome := CancelSession(target.state, false, now);
      SetStarter(if outcome.CancelledNow? then Stopping else if outcome.AlreadyCancelled? then Inserting else Free);
    }

    /** The callback listener of the replaced login was shut down, or start returns its error. */
    method StoppedForStart(shutdownOk: bool)
      requires Valid() && state.starter == Stopping
      modifies this`state
      ensures Valid() && state == StarterStep(old(state), StartStopped(shutdownOk))
    {
      SetStarter(if shutdownOk then Inserting else Free);
    }

    /** The last region of start; `x` is the new login, or null when start returns an error. */
    method InsertForStart(now: int, setup: Setup) returns (x: Login?)
      requires Valid() && state.starter == Inserting
      modifies this`sessions, this`active, this`all, this`state
      ensures Valid() && state == InsertRegion(old(state), now, setup).(starter := Free)
      ensures x != null <==> old(active) == null && setup.Prepared?
      ensures x != null ==> fresh(x) && x == active && all == old(all) + [x]
    {
      PruneLocked(now);
      if active != null || !setup.Prepared? {
        SetStarter(Free);
        return null;
      }
      x := Add(setup);
      SetStarter(Free);
    }

    method Add(setup: Setup) returns (x: Login)
      requires Valid() && setup.Prepared?
      modifies this`sessions, this`active, this`all, this`state
      ensures Valid() && state == AddLogin(old(state), setup)
      ensures fresh(x) && x == active && all == old(all) + [x]
    {
      x := new Login(setup.state, setup.exchangeReady, |all|);
      all := all + [x];
      sessions := sessions[setup.state := x];
      active := x;
      SetState(AddLogin(state, setup));
    }

    method ReadActiveForClose() returns (target: Login?)
      requires Valid() && state.starter == Free
      modifies this`state
      ensures Valid() && state == StarterStep(old(state), CloseBegin)
      ensures target == active
    {
      target := active;
      SetState(StarterStep(state, CloseBegin));
    }

    method CancelForClose(target: Login, now: int)
      requires Valid() && Known(target) && state.starter == Closing(target.id)
      modifies this`sessions, this`active, this`state, all
      ensures Valid() && state == CloseRegion(old(state), now)
    {
      var _ := CancelSession(target.state, true, now);
      SetStarter(Free);
    }

    /** The cancelContext() call that follows the locked part of cancelSession. */
    method CancelContextOf(x: Login)
      requires Valid() && Known(x) && x.status == Cancelled
      modifies this`state, x
      ensures Valid() && state == Step(old(state), CancelContext(x.id))
    {
      x.contextDone := true;
      SetState(Step(state, CancelContext(x.id)));
    }

    // ----- complete -----

    /** The select at the head of complete takes the callback, which is rejected or leads to the exchange. */
    method Receive(x: Login)
      requires Valid() && Known(x) && x.phase == Awaiting && x.result.Some?
      modifies this`state, x
      ensures Valid() && state == GoroutineStep(old(state), x.id, TakeResult)
    {
      var r := x.result.value;
      x.result := None;
      var errorMsg := r.errorMsg;
      if errorMsg == "" {
        if r.state != x.state {
          errorMsg := INVALID_STATE;
        } else if !x.exchangeReady {
          errorMsg := UnavailableText(provider);
        }
      }
      x.phase := if errorMsg == "" then Exchanging(r.code) else Finishing(errorMsg, 0);
      SetState(GoroutineStep(state, x.id, TakeResult));
    }

    /** ... or the context or the timer ends the waiting. */
    method StopWaiting(x: Login, timedOut: bool)
      requires Valid() && Known(x) && x.phase == Awaiting && (timedOut || x.contextDone)
      modifies this`state, x
      ensures Valid() && state == GoroutineStep(old(state), x.id, if timedOut then TimeOut else SeeCancelled)
    {
      x.phase := Finishing(if timedOut then TimedOutText(provider) else CancelledText(provider), 0);
      SetState(GoroutineStep(state, x.id, if timedOut then TimeOut else SeeCancelled));
    }

    method ExchangeReturned(x: Login, exchange: Result<Credential>)
      requires Valid() && Known(x) && x.phase.Exchanging?
      modifies this`state, x
      ensures Valid() && state == GoroutineStep(old(state), x.id, ExchangeReturns(exchange))
    {
      x.phase := match exchange
        case Ok(c) => Exchanged(c)
        case Err(text) => Finishing(text, 0);
      SetState(GoroutineStep(state, x.id, ExchangeReturns(exchange)));
    }

    /** The first locked part of complete. */
    method BeginCommitting(x: Login) returns (cancelled: bool)
      requires Valid() && Known(x) && x.phase.Exchanged?
      modifies this`state, x
      ensures Valid() && state == GoroutineStep(old(state), x.id, BeginCommit)
      ensures cancelled <==> old(x.status).Cancelled?
    {
      cancelled := x.status == Cancelled;
      if cancelled {
        x.phase := Finishing(CancelledText(provider), 0);
      } else {
        x.status := Committing;
        x.phase := CommitAllowed(x.phase.credential);
      }
      SetState(GoroutineStep(state, x.id, BeginCommit));
    }

    method CallCommitOf(x: Login) returns (c: Credential)
      requires Valid() && Known(x) && x.phase.CommitAllowed?
      modifies this`state, x
      ensures Valid() && state == GoroutineStep(old(state), x.id, CallCommit)
      ensures c == old(x.phase).credential
    {
      c := x.phase.credential;
      x.phase := CommitCalled(c);
      SetState(GoroutineStep(state, x.id, CallCommit));
    }

    method CommitReturned(x: Login, commit: Result<int>)
      requires Valid() && Known(x) && x.phase.CommitCalled?
      modifies this`state, x
      ensures Valid() && state == GoroutineStep(old(state), x.id, CommitReturns(commit))
    {
      x.phase := match commit
        case Ok(id) => Finishing("", id)
        case Err(text) => Finishing(text, 0);
      SetState(GoroutineStep(state, x.id, CommitReturns(commit)));
    }

    /** The last locked part of complete; `invalidated` is the channel whose cached list is dropped. */
    method FinishCompletion(x: Login, now: int) returns (invalidated: Option<int>)
      requires Valid() && Known(x) && x.phase.Finishing?
      modifies this`active, this`state, x
      ensures Valid() && state == FinishRegion(old(state), x.id, now)
      ensures invalidated == if !old(x.status).Cancelled? && x.status.Complete? then Some(x.channelID) else None
      ensures x.finished == Some(now) && active == if old(active) == x then null else old(active)
      ensures x.status == if old(x.status).Cancelled? then Cancelled else if old(x.phase).errorMsg != "" then Failed else Complete
      ensures x.errorMsg == if x.status.Failed? then old(x.phase).errorMsg else old(x.errorMsg)
      ensures x.channelID == if x.status.Complete? then old(x.phase).channelID else old(x.channelID)
    {
      var errorMsg, id, cancelled := x.phase.errorMsg, x.phase.channelID, x.status == Cancelled;
      x.End(now);
      active := if active == x then null else active;
      SetState(FinishRegion(state, x.id, now));
      invalidated := if !cancelled && errorMsg == "" then Some(id) else None;
    }
  }
}
