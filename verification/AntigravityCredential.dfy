/** The Antigravity credential: its canonical form, its payload, and how it is refreshed and completed.
    Dates, the JSON codec and the service's answers are parameters. */
module AntigravityCredential {
  import opened Text
  import opened Wrappers

  datatype Tier = Tier(id: string, name: string)

  datatype Credential = Credential(
    kind: string,
    accessToken: string,
    refreshToken: string,
    expiresIn: int,
    timestamp: int,
    expired: string,
    email: string,
    projectID: string,
    paidTier: Option<Tier>)

  const CHANNEL_TYPE := "antigravity"
  const MAX_CREDENTIAL_SIZE := 0x10_0000

  datatype Problem =
    | UnsupportedType | NoAccessToken | NoRefreshToken | NoExpiry | BadExpiry
    | EmptyPayload | LargePayload | Undecodable | RefreshFailed | TokenRejected | MetadataFailed

  datatype Checked<T> = Good(value: T) | Bad(problem: Problem)

  /** The name of the credential type, the trimming and lower-casing of strings, RFC 3339 dates as the time package reads and writes them, and the
      JSON codec. */
  datatype Format = Format(
    channelType: string,
    trim: string -> string,
    lower: string -> string,
    parseTime: string -> Option<int>,
    renderTime: (int, int) -> string,
    encode: Credential -> string,
    decode: string -> Option<Credential>)

  /** Trimming removes white space at both ends and nothing else; the type name is lower-case and without
      white space; rendered dates carry no white space; decoding inverts encoding. */
  ghost predicate Lawful(f: Format) {
    && f.channelType != "" && Trimmed(f.channelType) && f.lower(f.channelType) == f.channelType
    && (forall s {:trigger f.trim(s)} :: Trimmed(f.trim(s)) && (Trimmed(s) ==> f.trim(s) == s))
    && (forall t, d :: Trimmed(f.renderTime(t, d)))
    && (forall c :: f.decode(f.encode(c)) == Some(c))
  }

  // ----- the canonical form -----

  function TrimTier(f: Format, t: Option<Tier>): Option<Tier> {
    if t.None? then None
    else
      var id, name := f.trim(t.value.id), f.trim(t.value.name);
      if id == "" && name == "" then None else Some(Tier(id, name))
  }

  /** Expiry, as far as the error goes. */
  function ExpiryProblem(f: Format, expired: string): Option<Problem> {
    if f.trim(expired) == "" then Some(NoExpiry)
    else if f.parseTime(f.trim(expired)).None? then Some(BadExpiry)
    else None
  }

  function Canonical(f: Format, c: Credential): Credential {
    var kind, expired := f.lower(f.trim(c.kind)), f.trim(c.expired);
    Credential(if kind == "" then f.channelType else kind,
               f.trim(c.accessToken), f.trim(c.refreshToken), c.expiresIn, c.timestamp,
               if expired == "" && c.timestamp > 0 && c.expiresIn > 0 then f.renderTime(c.timestamp, c.expiresIn) else expired,
               f.trim(c.email), f.trim(c.projectID), TrimTier(f, c.paidTier))
  }

  function FirstProblem(f: Format, c: Credential): Option<Problem> {
    if c.kind != f.channelType then Some(UnsupportedType)
    else if c.accessToken == "" then Some(NoAccessToken)
    else if c.refreshToken == "" then Some(NoRefreshToken)
    else ExpiryProblem(f, c.expired)
  }

  /** The outcome of Normalize. */
  function Normalized(f: Format, c: Credential): Checked<Credential> {
    var d := Canonical(f, c);
    match FirstProblem(f, d)
    case Some(p) => Bad(p)
    case None => Good(d)
  }

  predicate IsCanonical(f: Format, c: Credential) {
    Normalized(f, c) == Good(c)
  }

  /** What canonical means, without reference to the procedure. */
  predicate WellFormed(f: Format, c: Credential) {
    && c.kind == f.channelType
    && c.accessToken != "" && Trimmed(c.accessToken) && c.refreshToken != "" && Trimmed(c.refreshToken)
    && c.expired != "" && Trimmed(c.expired) && f.parseTime(c.expired).Some?
    && Trimmed(c.email) && Trimmed(c.projectID)
    && (c.paidTier.Some? ==>
          && Trimmed(c.paidTier.value.id) && Trimmed(c.paidTier.value.name)
          && !(c.paidTier.value.id == "" && c.paidTier.value.name == ""))
  }

  /** The constant of the source and the trimming of the Text module obey these laws. */
  lemma TypeAndTrimAreLawful(s: string, t: string)
    requires s == CHANNEL_TYPE
    ensures s != "" && Trimmed(s) && Lower(s) == s
    ensures Trimmed(Trim(t)) && (Trimmed(t) ==> Trim(t) == t)
  {
    assert s[0] == 'a' && s[|s| - 1] == 'y';
    LowerFixed(s);
  }

  lemma TypeIsSettled(f: Format)
    requires Lawful(f)
    ensures f.lower(f.trim(f.channelType)) == f.channelType
  {
  }

  lemma TierIsSettled(f: Format, t: Option<Tier>)
    requires Lawful(f)
    ensures var u := TrimTier(f, t);
            u.Some? ==> Trimmed(u.value.id) && Trimmed(u.value.name) && !(u.value.id == "" && u.value.name == "")
    ensures TrimTier(f, TrimTier(f, t)) == TrimTier(f, t)
  {
  }

  lemma NormalizedIsWellFormed(f: Format, c: Credential)
    requires Lawful(f) && Normalized(f, c).Good?
    ensures WellFormed(f, Normalized(f, c).value)
  {
    TierIsSettled(f, c.paidTier);
  }

  lemma WellFormedIsCanonical(f: Format, c: Credential)
    requires Lawful(f) && WellFormed(f, c)
    ensures IsCanonical(f, c)
  {
    TypeIsSettled(f);
    TierIsSettled(f, c.paidTier);
  }

  /** The canonical credentials are exactly the well-formed ones, and normalising twice is normalising
      once. */
  lemma NormalizeIsIdempotent(f: Format, c: Credential)
    requires Lawful(f)
    ensures IsCanonical(f, c) <==> WellFormed(f, c)
    ensures Normalized(f, c).Good? ==> IsCanonical(f, Normalized(f, c).value)
  {
    if Normalized(f, c).Good? {
      NormalizedIsWellFormed(f, c);
      WellFormedIsCanonical(f, Normalized(f, c).value);
    }
    if WellFormed(f, c) {
      WellFormedIsCanonical(f, c);
    }
  }

  /** What normalising comes to, in the fields that are given: the first thing that is missing or not understood, or the
      trimmed fields with the expiry worked out if none was given and with the tier unless it is blank. */
  lemma NormalizedReads(f: Format, c: Credential)
    requires Lawful(f)
    ensures var kind, expired := f.lower(f.trim(c.kind)), f.trim(c.expired);
            var due := if expired == "" && c.timestamp > 0 && c.expiresIn > 0 then f.renderTime(c.timestamp, c.expiresIn) else expired;
            Normalized(f, c) ==
            if kind != "" && kind != f.channelType then Bad(UnsupportedType)
            else if f.trim(c.accessToken) == "" then Bad(NoAccessToken)
            else if f.trim(c.refreshToken) == "" then Bad(NoRefreshToken)
            else if due == "" then Bad(NoExpiry)
            else if f.parseTime(due).None? then Bad(BadExpiry)
            else
              Good(Credential(f.channelType, f.trim(c.accessToken), f.trim(c.refreshToken), c.expiresIn, c.timestamp, due,
                              f.trim(c.email), f.trim(c.projectID),
                              if c.paidTier.None? || (f.trim(c.paidTier.value.id) == "" && f.trim(c.paidTier.value.name) == "") then None
                              else Some(Tier(f.trim(c.paidTier.value.id), f.trim(c.paidTier.value.name)))))
  {
  }

  // ----- payloads -----

  /** ParseCredential */
  function Parsed(f: Format, raw: string): Checked<Credential> {
    if raw == "" then Bad(EmptyPayload)
    else if |raw| > MAX_CREDENTIAL_SIZE then Bad(LargePayload)
    else
      match f.decode(raw)
      case None => Bad(Undecodable)
      case Some(c) => Normalized(f, c)
  }

  /** Credential.JSON */
  function Payload(f: Format, c: Credential): Checked<string> {
    match Normalized(f, c)
    case Bad(p) => Bad(p)
    case Good(d) => Good(f.encode(d))
  }

  /** Reading a payload gives the credential back if and only if the payload is within the size that
      parsing accepts; writing it does not check that. */
  lemma ParseInvertsPayload(f: Format, c: Credential)
    requires Lawful(f) && IsCanonical(f, c)
    ensures Payload(f, c) == Good(f.encode(c))
    ensures Parsed(f, f.encode(c)) == Good(c) <==> 0 < |f.encode(c)| <= 1_048_576
  {
  }

  /** `c` is the canonical form of a payload. */
  predicate FormOf(f: Format, c: Credential, raw: string) {
    f.decode(raw).Some? && Normalized(f, f.decode(raw).value) == Good(c)
  }

  lemma PayloadForm(f: Format, c: Credential)
    requires Lawful(f) && Normalized(f, c).Good?
    ensures var d := Normalized(f, c).value; Payload(f, c) == Good(f.encode(d)) && FormOf(f, d, f.encode(d))
  {
    NormalizeIsIdempotent(f, c);
  }

  lemma ParsedForm(f: Format, raw: string)
    ensures Parsed(f, raw).Good? ==> FormOf(f, Parsed(f, raw).value, raw)
  {
  }

  // ----- refreshing -----

  /** NeedsRefresh */
  function NeedsRefresh(f: Format, c: Credential, now: int, lead: int): Checked<bool> {
    match ExpiryProblem(f, c.expired)
    case Some(p) => Bad(p)
    case None => Good(f.parseTime(f.trim(c.expired)).value <= now + lead)
  }

  /** A canonical credential is due for a refresh from `lead` before its expiry on. */
  lemma DueExactly(f: Format, c: Credential, now: int, lead: int)
    requires Lawful(f) && IsCanonical(f, c)
    ensures f.parseTime(c.expired).Some?
    ensures NeedsRefresh(f, c, now, lead) == Good(f.parseTime(c.expired).value - lead <= now)
  {
    NormalizeIsIdempotent(f, c);
  }

  /** MergeRefresh before it normalises. */
  function Merged(c: Credential, refreshed: Credential): Credential {
    refreshed.(refreshToken := if refreshed.refreshToken == "" then c.refreshToken else refreshed.refreshToken,
               email := if refreshed.email == "" then c.email else refreshed.email,
               projectID := if refreshed.projectID == "" then c.projectID else refreshed.projectID,
               paidTier := if refreshed.paidTier.None? then c.paidTier else refreshed.paidTier)
  }

  function MergeRefresh(f: Format, c: Credential, refreshed: Credential): Checked<Credential> {
    Normalized(f, Merged(c, refreshed))
  }

  /** What the token endpoint returns: no identity, and an access token that is not blank. */
  predicate IsTokenResponse(f: Format, r: Credential) {
    && r.kind == f.channelType && f.trim(r.accessToken) != "" && f.trim(r.expired) != "" && f.parseTime(f.trim(r.expired)).Some?
    && r.email == "" && r.projectID == "" && r.paidTier.None?
  }

  /** A refresh keeps who the credential belongs to and takes the new token; it succeeds if and only if the
      rotated refresh token is either absent or not blank. */
  lemma RefreshKeepsIdentity(f: Format, c: Credential, r: Credential)
    requires Lawful(f) && IsCanonical(f, c) && IsTokenResponse(f, r)
    ensures MergeRefresh(f, c, r).Good? <==> r.refreshToken == "" || f.trim(r.refreshToken) != ""
    ensures MergeRefresh(f, c, r).Good? ==>
              var m := MergeRefresh(f, c, r).value;
              && m.email == c.email && m.projectID == c.projectID && m.paidTier == c.paidTier
              && m.accessToken == f.trim(r.accessToken) && m.expired == f.trim(r.expired)
              && m.refreshToken == (if r.refreshToken == "" then c.refreshToken else f.trim(r.refreshToken))
  {
    NormalizeIsIdempotent(f, c);
    TypeIsSettled(f);
    TierIsSettled(f, c.paidTier);
  }

  // ----- completing -----

  /** An answer of the service: a value, a refusal of the access token, or another failure. */
  datatype Answer<T> = Value(value: T) | Rejected | Failed

  /** The answers the service gives, by number of the metadata round. */
  datatype Service = Service(
    refresh: string -> Option<Credential>,
    email: nat -> Answer<string>,
    project: nat -> Answer<string>,
    tier: nat -> Answer<Option<Tier>>)

  /** Fetched names are trimmed and not empty. */
  ghost predicate Honest(s: Service) {
    && (forall n: nat :: s.email(n).Value? ==> s.email(n).value != "" && Trimmed(s.email(n).value))
    && (forall n: nat :: s.project(n).Value? ==> s.project(n).value != "" && Trimmed(s.project(n).value))
  }

  predicate HasIdentity(c: Credential) {
    c.email != "" && c.projectID != "" && Trimmed(c.email) && Trimmed(c.projectID)
  }

  function WithoutValue<T>(a: Answer<T>): Answer<()> {
    match a
    case Value(_) => Value(())
    case Rejected => Rejected
    case Failed => Failed
  }

  /** One round of metadata requests: what is known is not asked for again, the first request that fails
      ends the round, and what was written before stays. */
  function MetadataRound(c: Credential, s: Service, n: nat): (Credential, Answer<()>) {
    var email := if c.email != "" then Value(c.email) else s.email(n);
    if !email.Value? then (c, WithoutValue(email))
    else
      var named := c.(email := email.value);
      var project := if c.projectID != "" then Value(c.projectID) else s.project(n);
      if !project.Value? then (named, WithoutValue(project))
      else
        var placed := named.(projectID := project.value);
        if project.value == "" then (placed, Failed)
        else (if s.tier(n).Value? then placed.(paidTier := s.tier(n).value) else placed, WithoutValue(s.tier(n)))
  }

  /** A refreshed credential, or why there is none. */
  function Refreshed(f: Format, c: Credential, s: Service): Checked<Credential> {
    var answer := s.refresh(c.refreshToken);
    if answer.None? then Bad(RefreshFailed) else MergeRefresh(f, c, answer.value)
  }

  function Ended(f: Format, round: (Credential, Answer<()>)): Checked<Credential> {
    match round.1
    case Value(_) => Normalized(f, round.0)
    case Rejected => Bad(TokenRejected)
    case Failed => Bad(MetadataFailed)
  }

  /** What completing a credential comes to, and the number of refreshes it took. */
  function Completed(f: Format, c: Credential, s: Service, now: int, lead: int): (Checked<Credential>, nat) {
    match NeedsRefresh(f, c, now, lead)
    case Bad(p) => (Bad(p), 0)
    case Good(true) =>
      var first := Refreshed(f, c, s);
      (if first.Bad? then Bad(TokenRejected) else Ended(f, MetadataRound(first.value, s, 0)), 1)
    case Good(false) =>
      var round := MetadataRound(c, s, 0);
      if !round.1.Rejected? then (Ended(f, round), 0)
      else
        var second := Refreshed(f, round.0, s);
        (if second.Bad? then Bad(TokenRejected) else Ended(f, MetadataRound(second.value, s, 1)), 1)
  }

  /** A canonical credential stays canonical through a round, so the last normalisation cannot fail. */
  lemma RoundKeepsCanonical(f: Format, c: Credential, s: Service, n: nat)
    requires Lawful(f) && IsCanonical(f, c)
    ensures Ended(f, MetadataRound(c, s, n)).Good? <==> MetadataRound(c, s, n).1.Value?
  {
    var d := MetadataRound(c, s, n).0;
    OnlyMetadataChanged(f, c, d.email, d.projectID, d.paidTier);
    hide Normalized, IsCanonical;
    assert d == c.(email := d.email, projectID := d.projectID, paidTier := d.paidTier);
  }

  lemma OnlyMetadataChanged(f: Format, c: Credential, email: string, projectID: string, tier: Option<Tier>)
    requires Lawful(f) && IsCanonical(f, c)
    ensures Normalized(f, c.(email := email, projectID := projectID, paidTier := tier)).Good?
  {
  }

  lemma RefreshedIsCanonical(f: Format, c: Credential, s: Service)
    requires Lawful(f) && Refreshed(f, c, s).Good?
    ensures IsCanonical(f, Refreshed(f, c, s).value)
  {
    NormalizeIsIdempotent(f, Merged(c, s.refresh(c.refreshToken).value));
  }

  /** A canonical credential is completed if and only if a round of requests succeeds with its token - or,
      when the token is stale or is rejected in the first round, with the one token it is exchanged for. */
  lemma CompletionSucceeds(f: Format, c: Credential, s: Service, now: int, lead: int)
    requires Lawful(f) && IsCanonical(f, c)
    ensures f.parseTime(c.expired).Some?
    ensures var stale := f.parseTime(c.expired).value <= now + lead;
            var round := MetadataRound(c, s, 0);
            var (again, asked) := if stale then (Refreshed(f, c, s), 0) else (Refreshed(f, round.0, s), 1);
            Completed(f, c, s, now, lead).0.Good? <==>
              || (!stale && round.1.Value?)
              || ((stale || round.1.Rejected?) && again.Good? && MetadataRound(again.value, s, asked).1.Value?)
  {
    NormalizeIsIdempotent(f, c);
    var stale := NeedsRefresh(f, c, now, lead).value;
    RoundKeepsCanonical(f, c, s, 0);
    var from := if stale then c else MetadataRound(c, s, 0).0;
    if Refreshed(f, from, s).Good? {
      RefreshedIsCanonical(f, from, s);
      RoundKeepsCanonical(f, Refreshed(f, from, s).value, s, if stale then 0 else 1);
    }
  }

  /** How a completion fails: a request that fails for another reason than the token ends it at once, and so does a token
      that cannot be exchanged or is rejected once more. */
  lemma CompletionFails(f: Format, c: Credential, s: Service, now: int, lead: int)
    requires Lawful(f) && IsCanonical(f, c)
    ensures f.parseTime(c.expired).Some?
    ensures var stale := f.parseTime(c.expired).value <= now + lead;
            var round := MetadataRound(c, s, 0);
            var (again, asked) := if stale then (Refreshed(f, c, s), 0) else (Refreshed(f, round.0, s), 1);
            var r := Completed(f, c, s, now, lead);
            && (!stale && round.1.Failed? ==> r == (Bad(MetadataFailed), 0))
            && (stale || round.1.Rejected? ==>
                  && r.1 == 1
                  && (again.Bad? || MetadataRound(again.value, s, asked).1.Rejected? ==> r.0 == Bad(TokenRejected))
                  && (again.Good? && MetadataRound(again.value, s, asked).1.Failed? ==> r.0 == Bad(MetadataFailed)))
  {
    hide Lawful, Refreshed, MetadataRound, Normalized, IsCanonical;
    DueExactly(f, c, now, lead);
  }

  /** completeCredentialMetadata; what it has written stays written when a later request fails. */
  method CompleteMetadata(c: Credential, s: Service, n: nat) returns (completed: Credential, outcome: Answer<()>)
    ensures (completed, outcome) == MetadataRound(c, s, n)
    ensures completed == c.(email := completed.email, projectID := completed.projectID, paidTier := completed.paidTier)
    ensures Honest(s) && Trimmed(c.email) ==> Trimmed(completed.email)
    ensures Honest(s) && Trimmed(c.projectID) ==> Trimmed(completed.projectID)
    ensures c.email != "" ==> completed.email == c.email
    ensures c.projectID != "" ==> completed.projectID == c.projectID
    ensures outcome.Value? && Honest(s) ==> completed.email != ""
    ensures outcome.Value? ==> completed.projectID != "" && s.tier(n) == Value(completed.paidTier)
    ensures var named := c.email != "" || s.email(n).Value?;
            var placed := named && (c.projectID != "" || (s.project(n).Value? && s.project(n).value != ""));
            && (outcome.Value? <==> placed && s.tier(n).Value?)
            && (outcome.Rejected? <==>
                  || (c.email == "" && s.email(n).Rejected?)
                  || (named && c.projectID == "" && s.project(n).Rejected?)
                  || (placed && s.tier(n).Rejected?))
            && (c.email == "" && s.email(n).Value? ==> completed.email == s.email(n).value)
            && (named && c.projectID == "" && s.project(n).Value? ==> completed.projectID == s.project(n).value)
  {
    completed, outcome := c, Value(());
    if completed.email == "" {
      match s.email(n)
      case Rejected => return completed, Rejected;
      case Failed => return completed, Failed;
      case Value(email) => completed := completed.(email := email);
    }
    if completed.projectID == "" {
      match s.project(n)
      case Rejected => return completed, Rejected;
      case Failed => return completed, Failed;
      case Value(project) => completed := completed.(projectID := project);
    }
    if completed.projectID == "" {
      return completed, Failed;
    }
    match s.tier(n)
    case Rejected => return completed, Rejected;
    case Failed => return completed, Failed;
    case Value(tier) => completed := completed.(paidTier := tier);
  }

  /** refreshCredential */
  method RefreshCredential(f: Format, c: Credential, s: Service) returns (r: Checked<Credential>)
    requires Lawful(f)
    ensures r.Good? ==> IsCanonical(f, r.value)
    ensures r == Refreshed(f, c, s)
    ensures s.refresh(c.refreshToken).None? ==> r == Bad(RefreshFailed)
    ensures r.Good? ==> s.refresh(c.refreshToken).Some? && r.value.accessToken == f.trim(s.refresh(c.refreshToken).value.accessToken)
  {
    var refreshed := s.refresh(c.refreshToken);
    if refreshed.None? {
      return Bad(RefreshFailed);
    }
    r := MergeRefresh(f, c, refreshed.value);
    NormalizeIsIdempotent(f, Merged(c, refreshed.value));
  }

  /** CompleteCredential: at most one refresh, and what comes back is canonical; it names its owner and its
      project unless white space was given for one of them or the service answered with it. */
  method CompleteCredential(f: Format, c: Credential, s: Service, now: int, lead: int)
    returns (r: Checked<Credential>, refreshes: nat)
    requires Lawful(f)
    ensures (r, refreshes) == Completed(f, c, s, now, lead) && refreshes <= 1
    ensures r.Good? ==> IsCanonical(f, r.value)
    ensures r.Good? && Honest(s) && Trimmed(c.email) && Trimmed(c.projectID) ==> HasIdentity(r.value)
    ensures var expiry := f.parseTime(f.trim(c.expired));
            if f.trim(c.expired) == "" || expiry.None? then r == Bad(if f.trim(c.expired) == "" then NoExpiry else BadExpiry) && refreshes == 0
            else
              && (refreshes == 1 && s.refresh(c.refreshToken).None? ==> r == Bad(TokenRejected))
              && (expiry.value <= now + lead ==> refreshes == 1)
              && (refreshes == 1 ==>
                    expiry.value <= now + lead || s.email(0).Rejected? || s.project(0).Rejected? || s.tier(0).Rejected?)
    ensures r.Good? && refreshes == 0 ==> r.value.accessToken == f.trim(c.accessToken)
    ensures r.Good? && refreshes == 1 ==>
              && s.refresh(c.refreshToken).Some?
              && r.value.accessToken == f.trim(s.refresh(c.refreshToken).value.accessToken)
  {
    var needsRefresh := NeedsRefresh(f, c, now, lead);
    if needsRefresh.Bad? {
      return Bad(needsRefresh.problem), 0;
    }
    var completed := c;
    refreshes := 0;
    if needsRefresh.value {
      var merged := RefreshCredential(f, completed, s);
      refreshes := 1;
      if merged.Bad? {
        return Bad(TokenRejected), refreshes;
      }
      completed := merged.value;
      NormalizeIsIdempotent(f, completed);
    }
    var outcome;
    completed, outcome := CompleteMetadata(completed, s, 0);
    if outcome.Rejected? && refreshes == 0 {
      var merged := RefreshCredential(f, completed, s);
      refreshes := 1;
      if merged.Bad? {
        return Bad(TokenRejected), refreshes;
      }
      completed := merged.value;
      NormalizeIsIdempotent(f, completed);
      completed, outcome := CompleteMetadata(completed, s, 1);
    }
    if !outcome.Value? {
      return Bad(if outcome.Rejected? then TokenRejected else MetadataFailed), refreshes;
    }
    r := Normalized(f, completed);
    NormalizeIsIdempotent(f, completed);
    if HasIdentity(completed) {
      IdentitySurvives(f, completed);
    }
  }

  lemma IdentitySurvives(f: Format, c: Credential)
    requires Lawful(f) && HasIdentity(c)
    ensures Normalized(f, c).Good? ==> HasIdentity(Normalized(f, c).value)
  {
  }
}
