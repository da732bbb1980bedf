/** A format that obeys the laws of `AntigravityCredential.Lawful`, and a credential that it can write but not
    read back. */
module CredentialFormat {
  import opened AntigravityCredential
  import opened Text
  import opened Wrappers

  function Ones(n: nat): (s: string)
    ensures |s| == n && forall i :: 0 <= i < n ==> s[i] == '1'
  {
    seq(n, i => '1')
  }

  /** A string behind its length. */
  function Pack(s: string): (r: string)
    ensures |r| == 2 * |s| + 1
  {
    Ones(|s|) + ['0'] + s
  }

  /** `n` ones, and then something else. */
  predicate Leads(s: string, n: nat) {
    n < |s| && s[n] != '1' && forall i :: 0 <= i < n ==> s[i] == '1'
  }

  lemma PackLeads(s: string, x: string)
    ensures Leads(Pack(s) + x, |s|)
  {
    assert (Pack(s) + x)[|s|] == '0';
  }

  lemma LeadsOnce(s: string, m: nat, n: nat)
    requires Leads(s, m) && Leads(s, n)
    ensures m == n
  {
  }

  lemma PackInjective(s: string, t: string, x: string, y: string)
    requires Pack(s) + x == Pack(t) + y
    ensures s == t && x == y
  {
    var a, b := Pack(s) + x, Pack(t) + y;
    PackLeads(s, x);
    PackLeads(t, y);
    LeadsOnce(a, |s|, |t|);
    assert a[|s| + 1..2 * |s| + 1] == s && b[|t| + 1..2 * |t| + 1] == t;
    assert a[2 * |s| + 1..] == x && b[2 * |t| + 1..] == y;
  }

  function Number(i: int): string {
    [if i < 0 then '-' else '+'] + Decimal(if i < 0 then -i else i)
  }

  lemma NumberInjective(i: int, j: int)
    requires Number(i) == Number(j)
    ensures i == j
  {
    assert Number(i)[0] == Number(j)[0];
    assert Number(i)[1..] == Number(j)[1..];
    DecimalInjective(if i < 0 then -i else i, if j < 0 then -j else j);
  }

  function TierText(t: Option<Tier>): string {
    if t.None? then [] else Pack(t.value.id) + (Pack(t.value.name) + [])
  }

  lemma TierInjective(t: Option<Tier>, u: Option<Tier>)
    requires TierText(t) == TierText(u)
    ensures t == u
  {
    if t.Some? && u.Some? {
      PackInjective(t.value.id, u.value.id, Pack(t.value.name) + [], Pack(u.value.name) + []);
      PackInjective(t.value.name, u.value.name, [], []);
    }
  }

  /** The strings of a credential. */
  function Dates(c: Credential): string {
    Pack(Number(c.expiresIn)) + (Pack(Number(c.timestamp)) + (Pack(c.expired) + Owner(c)))
  }

  function Owner(c: Credential): string {
    Pack(c.email) + (Pack(c.projectID) + TierText(c.paidTier))
  }

  function Encode(c: Credential): string {
    Pack(c.kind) + (Pack(c.accessToken) + (Pack(c.refreshToken) + Dates(c)))
  }

  lemma OwnerInjective(c: Credential, d: Credential)
    requires Owner(c) == Owner(d)
    ensures c.email == d.email && c.projectID == d.projectID && c.paidTier == d.paidTier
  {
    hide Pack, TierText;
    PackInjective(c.email, d.email, Pack(c.projectID) + TierText(c.paidTier), Pack(d.projectID) + TierText(d.paidTier));
    PackInjective(c.projectID, d.projectID, TierText(c.paidTier), TierText(d.paidTier));
    TierInjective(c.paidTier, d.paidTier);
  }

  lemma DatesInjective(c: Credential, d: Credential)
    requires Dates(c) == Dates(d)
    ensures c.expiresIn == d.expiresIn && c.timestamp == d.timestamp && c.expired == d.expired && Owner(c) == Owner(d)
  {
    hide Pack, Owner, Number;
    PackInjective(Number(c.expiresIn), Number(d.expiresIn),
                  Pack(Number(c.timestamp)) + (Pack(c.expired) + Owner(c)),
                  Pack(Number(d.timestamp)) + (Pack(d.expired) + Owner(d)));
    PackInjective(Number(c.timestamp), Number(d.timestamp), Pack(c.expired) + Owner(c), Pack(d.expired) + Owner(d));
    PackInjective(c.expired, d.expired, Owner(c), Owner(d));
    NumberInjective(c.expiresIn, d.expiresIn);
    NumberInjective(c.timestamp, d.timestamp);
  }

  lemma EncodeInjective(c: Credential, d: Credential)
    requires Encode(c) == Encode(d)
    ensures c == d
  {
    hide Pack, Dates, Owner;
    PackInjective(c.kind, d.kind, Pack(c.accessToken) + (Pack(c.refreshToken) + Dates(c)),
                  Pack(d.accessToken) + (Pack(d.refreshToken) + Dates(d)));
    PackInjective(c.accessToken, d.accessToken, Pack(c.refreshToken) + Dates(c), Pack(d.refreshToken) + Dates(d));
    PackInjective(c.refreshToken, d.refreshToken, Dates(c), Dates(d));
    DatesInjective(c, d);
    OwnerInjective(c, d);
  }

  ghost function Decode(s: string): Option<Credential> {
    if exists c :: Encode(c) == s then
      var c :| Encode(c) == s;
      Some(c)
    else None
  }

  lemma DecodeInvertsEncode(c: Credential)
    ensures Decode(Encode(c)) == Some(c)
  {
    var d := Decode(Encode(c)).value;
    EncodeInjective(c, d);
  }

  ghost function Example(): Format {
    Format(CHANNEL_TYPE, (s: string) => Trim(s), (s: string) => Lower(s), (s: string) => Some(0),
           (t: int, d: int) => ['t'], (c: Credential) => Encode(c), (s: string) => Decode(s))
  }

  lemma ExampleIsLawful()
    ensures Lawful(Example())
  {
    hide Trim, Lower, Encode, Decode;
    forall s: string
      ensures Trimmed(Trim(s)) && (Trimmed(s) ==> Trim(s) == s)
    {
      TypeAndTrimAreLawful(CHANNEL_TYPE, s);
    }
    TypeAndTrimAreLawful(CHANNEL_TYPE, CHANNEL_TYPE);
    forall c
      ensures Decode(Encode(c)) == Some(c)
    {
      DecodeInvertsEncode(c);
    }
  }

  /** A canonical credential with a token of more than 1 MiB: its payload can be written but not parsed. */
  lemma LargePayloadIsLost(c: Credential)
    requires WellFormed(Example(), c) && |c.accessToken| > MAX_CREDENTIAL_SIZE
    ensures IsCanonical(Example(), c)
    ensures Payload(Example(), c) == Good(Encode(c)) && Parsed(Example(), Encode(c)) == Bad(LargePayload)
  {
    hide Trim, Lower, Decode, Normalized, Lawful;
    ExampleIsLawful();
    WellFormedIsCanonical(Example(), c);
    ParseInvertsPayload(Example(), c);
    assert |Encode(c)| > MAX_CREDENTIAL_SIZE;
  }

  lemma LargeCredentialExists() returns (c: Credential)
    ensures WellFormed(Example(), c) && |c.accessToken| > MAX_CREDENTIAL_SIZE
  {
    var token := Ones(MAX_CREDENTIAL_SIZE + 1);
    c := Credential(CHANNEL_TYPE, token, ['r'], 0, 0, ['t'], [], [], None);
  }
}
