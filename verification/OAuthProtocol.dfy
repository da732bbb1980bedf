/** The browser OAuth login of the admin console as an interleaving of atomic steps.

    Each step is one mutex region of the session manager, or one action that a login's completion
    goroutine takes outside the mutex.  `Run` executes any list of steps, so a statement about every
    reachable state covers every interleaving of start, callback, cancel, status, completion and close. */
module OAuthProtocol {
  import opened Wrappers
  import Text

  type SessionId = nat
  type Credential = string

  /** Nanoseconds; a finished session is forgotten after ten minutes. */
  const STATUS_TTL := 600_000_000_000

  datatype CallbackResult = CallbackResult(code: string, state: string, errorMsg: string)

  datatype Status = Pending | Committing | Complete | Failed | Cancelled

  /** Where the completion goroutine of a session stands, with its local variables. */
  datatype Phase =
    | Awaiting
    | Exchanging(code: string)
    | Exchanged(credential: Credential)
    | CommitAllowed(credential: Credential)
    | CommitCalled(credential: Credential)
    | Finishing(errorMsg: string, channelID: int)
    | Ended(errorMsg: string, channelID: int)

  /** `callbackReceived` and the one-place channel `result` are as in the source; `exchangeReady`
      says that both functions the provider prepared are present; `finished` is None for Go's zero time. */
  datatype Session = Session(
    state: string,
    exchangeReady: bool,
    status: Status,
    errorMsg: string,
    channelID: int,
    finished: Option<int>,
    callbackReceived: bool,
    result: Option<CallbackResult>,
    contextDone: bool,
    phase: Phase)

  /** Who holds startMu, and how far start or close has come. */
  datatype Starter =
    | Free
    | Replacing(target: SessionId)
    | Stopping
    | Inserting
    | Closing(target: SessionId)

  /** The history of a run. */
  datatype Action =
    | Delivered(sid: SessionId, result: CallbackResult)
    | Took(sid: SessionId, result: CallbackResult)
    | ExchangeSucceeded(sid: SessionId, credential: Credential)
    | ExchangeFailed(sid: SessionId, text: string)
    | CommitCall(sid: SessionId, credential: Credential)
    | CommitSucceeded(sid: SessionId, channelID: int)
    | CommitFailed(sid: SessionId, text: string)
    | Stopped(sid: SessionId, forced: bool)

  /** `all` lists every session ever created, so an index is a pointer; `table` is m.sessions. */
  datatype State = State(
    provider: string,
    all: seq<Session>,
    table: map<string, SessionId>,
    active: Option<SessionId>,
    starter: Starter,
    log: seq<Action>)

  datatype Setup = ListenFailed | PrepareFailed | Prepared(state: string, exchangeReady: bool)

  /** The regions of start and close. */
  datatype StarterMove =
    | StartBegin
    | StartReplace(now: int)
    | StartStopped(shutdownOk: bool)
    | StartInsert(now: int, setup: Setup)
    | CloseBegin
    | CloseCancel(now: int)

  /** What a completion goroutine does before its last region. */
  datatype Move =
    | TakeResult
    | SeeCancelled
    | TimeOut
    | ExchangeReturns(exchange: Result<Credential>)
    | BeginCommit
    | CallCommit
    | CommitReturns(commit: Result<int>)

  datatype Event =
    | Starting(starting: StarterMove)
    | Cancel(rawState: string, now: int)
    | CancelContext(sid: SessionId)
    | PruneAt(now: int)
    | Deliver(sid: SessionId, result: CallbackResult)
    | Completion(sid: SessionId, move: Move)
    | Finish(sid: SessionId, now: int)

  predicate WellFormed(s: State) {
    && (forall k :: k in s.table ==> s.table[k] < |s.all|)
    && (s.active.Some? ==> s.active.value < |s.all|)
    && (s.starter.Replacing? || s.starter.Closing? ==> s.starter.target < |s.all|)
  }

  predicate Live(x: Session) {
    x.status.Pending? || x.status.Committing?
  }

  function Initial(provider: string): State {
    State(provider, [], map[], None, Free, [])
  }

  /** What no step undoes: sessions keep their place and their state token, and the history only grows. */
  predicate Grows(s: State, r: State) {
    && s.log <= r.log && |s.all| <= |r.all|
    && forall i :: 0 <= i < |s.all| ==> r.all[i].state == s.all[i].state
  }

  // ----- mutex regions -----

  predicate Expired(x: Session, now: int) {
    x.finished.Some? && now - x.finished.value > STATUS_TTL
  }

  function Prune(s: State, now: int): (r: State)
    requires WellFormed(s)
    ensures WellFormed(r)
  {
    s.(table := map k | k in s.table && !Expired(s.all[s.table[k]], now) :: s.table[k])
  }

  datatype CancelOutcome = NotFound | AlreadyCancelled | Refused | CancelledNow

  function StopSession(x: Session, now: int): Session {
    x.(status := Cancelled, errorMsg := "", finished := Some(now), callbackReceived := true)
  }

  /** The locked part of cancelSession. */
  function CancelRegion(s: State, rawState: string, force: bool, now: int): (r: (State, CancelOutcome))
    requires WellFormed(s)
    ensures WellFormed(r.0) && Grows(s, r.0) && |r.0.all| == |s.all|
  {
    var key := Text.Trim(rawState);
    var p := Prune(s, now);
    if key !in p.table then (p, NotFound)
    else
      var sid := p.table[key];
      var x := p.all[sid];
      if x.status.Cancelled? then (p, AlreadyCancelled)
      else if !force && !x.status.Pending? then (p, Refused)
      else (StopAt(p, sid, force, now), CancelledNow)
  }

  function StopAt(s: State, sid: SessionId, force: bool, now: int): (r: State)
    requires WellFormed(s) && sid < |s.all|
    ensures WellFormed(r) && Grows(s, r) && |r.all| == |s.all|
  {
    s.(all := s.all[sid := StopSession(s.all[sid], now)],
       active := if s.active == Some(sid) then None else s.active,
       log := s.log + [Stopped(sid, force)])
  }

  /** start cancels the login it found active; it goes on only if that succeeded. */
  function ReplaceRegion(s: State, now: int): (r: State)
    requires WellFormed(s) && s.starter.Replacing?
    ensures WellFormed(r) && Grows(s, r)
  {
    var (p, outcome) := CancelRegion(s, s.all[s.starter.target].state, false, now);
    p.(starter := if outcome.CancelledNow? then Stopping else if outcome.AlreadyCancelled? then Inserting else Free)
  }

  /** close cancels the login it found active, by force. */
  function CloseRegion(s: State, now: int): (r: State)
    requires WellFormed(s) && s.starter.Closing?
    ensures WellFormed(r) && Grows(s, r)
  {
    CancelRegion(s, s.all[s.starter.target].state, true, now).0.(starter := Free)
  }

  /** The last locked part of start: a new login, or an error that leaves everything but the pruning undone. */
  function InsertRegion(s: State, now: int, setup: Setup): (r: State)
    requires WellFormed(s)
    ensures WellFormed(r) && Grows(s, r)
  {
    var p := Prune(s, now);
    if p.active.Some? || !setup.Prepared? then p else AddLogin(p, setup)
  }

  function AddLogin(s: State, setup: Setup): (r: State)
    requires WellFormed(s) && setup.Prepared?
    ensures WellFormed(r) && Grows(s, r)
  {
    var login := Session(setup.state, setup.exchangeReady, Pending, "", 0, None, false, None, false, Awaiting);
    s.(all := s.all + [login], table := s.table[setup.state := |s.all|], active := Some(|s.all|))
  }

  /** deliverCallback: accepted exactly when the login is still pending and known and no callback was accepted yet. */
  predicate Accepts(s: State, sid: SessionId)
    requires sid < |s.all|
  {
    var x := s.all[sid];
    && x.status.Pending?
    && x.state in s.table && s.table[x.state] == sid
    && !x.callbackReceived
    && x.result.None?
  }

  function DeliverRegion(s: State, sid: SessionId, result: CallbackResult): (r: State)
    requires WellFormed(s) && sid < |s.all|
    ensures WellFormed(r) && Grows(s, r) && |r.all| == |s.all|
  {
    if Accepts(s, sid) then
      Update(s, sid, s.all[sid].(callbackReceived := true, result := Some(result)), [Delivered(sid, result)])
    else s
  }

  function Update(s: State, sid: SessionId, x: Session, log: seq<Action>): (r: State)
    requires WellFormed(s) && sid < |s.all| && x.state == s.all[sid].state
    ensures WellFormed(r) && Grows(s, r) && |r.all| == |s.all|
  {
    s.(all := s.all[sid := x], log := s.log + log)
  }

  /** How complete reports what it computed; a cancellation is never overwritten. */
  function Ending(x: Session, now: int): Session
    requires x.phase.Finishing?
  {
    var msg, id := x.phase.errorMsg, x.phase.channelID;
    var y := if x.status.Cancelled? then x
             else if msg != "" then x.(status := Failed, errorMsg := msg)
             else x.(status := Complete, channelID := id);
    y.(finished := Some(now), contextDone := true, phase := Ended(msg, id))
  }

  /** The last locked part of complete. */
  function FinishRegion(s: State, sid: SessionId, now: int): (r: State)
    requires WellFormed(s) && sid < |s.all| && s.all[sid].phase.Finishing?
    ensures WellFormed(r) && Grows(s, r) && |r.all| == |s.all|
  {
    Update(s, sid, Ending(s.all[sid], now), []).(active := if s.active == Some(sid) then None else s.active)
  }

  // ----- the completion goroutine between the regions -----

  function CancelledText(provider: string): (r: string)
    ensures r != ""
  {
    provider + " OAuth login cancelled"
  }

  function TimedOutText(provider: string): (r: string)
    ensures r != ""
  {
    provider + " OAuth login timed out"
  }

  const INVALID_STATE := "invalid OAuth state"

  function UnavailableText(provider: string): (r: string)
    ensures r != ""
  {
    provider + " OAuth exchange is unavailable"
  }

  /** What complete does with a result it received: reject it, or call the token exchange. */
  function AfterResult(provider: string, x: Session, r: CallbackResult): Phase {
    if r.errorMsg != "" then Finishing(r.errorMsg, 0)
    else if r.state != x.state then Finishing(INVALID_STATE, 0)
    else if !x.exchangeReady then Finishing(UnavailableText(provider), 0)
    else Exchanging(r.code)
  }

  /** The steps of one completion goroutine. */
  function GoroutineStep(s: State, i: SessionId, m: Move): (r: State)
    requires WellFormed(s) && i < |s.all|
    ensures WellFormed(r) && Grows(s, r) && |r.all| == |s.all|
  {
    var x := s.all[i];
    match m
    case TakeResult =>
      if x.phase.Awaiting? && x.result.Some? then
        Update(s, i, x.(phase := AfterResult(s.provider, x, x.result.value), result := None), [Took(i, x.result.value)])
      else s
    case SeeCancelled =>
      if x.phase.Awaiting? && x.contextDone then Update(s, i, x.(phase := Finishing(CancelledText(s.provider), 0)), []) else s
    case TimeOut =>
      if x.phase.Awaiting? then Update(s, i, x.(phase := Finishing(TimedOutText(s.provider), 0)), []) else s
    case ExchangeReturns(exchange) =>
      if x.phase.Exchanging? then
        (match exchange
         case Ok(credential) => Update(s, i, x.(phase := Exchanged(credential)), [ExchangeSucceeded(i, credential)])
         case Err(text) => Update(s, i, x.(phase := Finishing(text, 0)), [ExchangeFailed(i, text)]))
      else s
    case BeginCommit =>
      if !x.phase.Exchanged? then s
      else if x.status.Cancelled? then Update(s, i, x.(phase := Finishing(CancelledText(s.provider), 0)), [])
      else Update(s, i, x.(status := Committing, phase := CommitAllowed(x.phase.credential)), [])
    case CallCommit =>
      if x.phase.CommitAllowed? then
        Update(s, i, x.(phase := CommitCalled(x.phase.credential)), [CommitCall(i, x.phase.credential)])
      else s
    case CommitReturns(commit) =>
      if x.phase.CommitCalled? then
        (match commit
         case Ok(id) => Update(s, i, x.(phase := Finishing("", id)), [CommitSucceeded(i, id)])
         case Err(text) => Update(s, i, x.(phase := Finishing(text, 0)), [CommitFailed(i, text)]))
      else s
  }

  // ----- start and close, which hold startMu across several regions -----

  function StarterStep(s: State, m: StarterMove): (r: State)
    requires WellFormed(s)
    ensures WellFormed(r) && Grows(s, r)
  {
    match m
    case StartBegin =>
      if !s.starter.Free? then s
      else if s.active.Some? then s.(starter := Replacing(s.active.value))
      else s.(starter := Inserting)
    case StartReplace(now) => if s.starter.Replacing? then ReplaceRegion(s, now) else s
    case StartStopped(ok) =>
      if !s.starter.Stopping? then s else s.(starter := if ok then Inserting else Free)
    case StartInsert(now, setup) =>
      if !s.starter.Inserting? then s else InsertRegion(s, now, setup).(starter := Free)
    case CloseBegin =>
      if s.starter.Free? && s.active.Some? then s.(starter := Closing(s.active.value)) else s
    case CloseCancel(now) => if s.starter.Closing? then CloseRegion(s, now) else s
  }

  /** One atomic step; a step whose actor is not ready for it changes nothing. */
  function Step(s: State, e: Event): (r: State)
    requires WellFormed(s)
    ensures WellFormed(r) && Grows(s, r)
  {
    match e
    case Starting(m) => StarterStep(s, m)
    case Cancel(rawState, now) => CancelRegion(s, rawState, false, now).0
    case CancelContext(sid) =>
      if sid < |s.all| && s.all[sid].status.Cancelled? then Update(s, sid, s.all[sid].(contextDone := true), []) else s
    case PruneAt(now) => Prune(s, now)
    case Deliver(sid, result) => if sid < |s.all| then DeliverRegion(s, sid, result) else s
    case Completion(sid, m) => if sid < |s.all| then GoroutineStep(s, sid, m) else s
    case Finish(sid, now) =>
      if sid < |s.all| && s.all[sid].phase.Finishing? then FinishRegion(s, sid, now) else s
  }

  /** The state after the steps `es`. */
  function Run(s: State, es: seq<Event>): (r: State)
    requires WellFormed(s)
    ensures WellFormed(r)
  {
    if es == [] then s else Step(Run(s, es[..|es| - 1]), es[|es| - 1])
  }

  ghost predicate Reachable(s: State) {
    exists provider, es :: s == Run(Initial(provider), es)
  }
}
