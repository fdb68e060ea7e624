/**
 * Remote clients: enrollment by an administrator or by an approved request, access tokens,
 * rotating refresh tokens and revocation.
 *
 * Identifiers and secrets are drawn from one supply of fresh numbers, so that a secret matches the
 * digest of the record it was issued for and of no other. Times are in milliseconds.
 */
module RemoteClients {
  import opened Prelude
  import opened Characters

  type Id = nat

  const DEFAULT_SCOPES := {"runtime.read", "runtime.inspect", "autopilot.read", "measurements.read", "platform.status"}
  const ACCESS_TTL := 900
  const CREDENTIAL_TTL := 7_776_000
  const REFRESH_TTL := 2_592_000
  const MAX_TTL := 31_536_000

  /** The name an administrator gave the device, or a fresh one. Several credentials may share a given name. */
  datatype DeviceId = Chosen(name: string) | Generated(id: Id)

  datatype Metadata = Metadata(
    deviceId: DeviceId, scopes: set<string>, createdAt: int, expiresAt: int, revokedAt: Option<int>)

  datatype Credential = Credential(
    deviceId: DeviceId, secret: Id, expiresAt: int, revokedAt: Option<int>, lastUsedAt: Option<int>)

  datatype RequestStatus = Pending | Approved | Rejected

  datatype EnrollmentRequest = EnrollmentRequest(
    userId: Id, status: RequestStatus, credentialId: Option<Id>, deviceId: Option<DeviceId>, decidedAt: Option<int>)

  datatype Refresh = Refresh(
    subject: Id, scopes: set<string>, expiresAt: int, usedAt: Option<int>, revokedAt: Option<int>)

  /** An access token, with the times of its `iat` and `exp` claims in seconds. */
  datatype Token = Token(credentialId: Id, scopes: set<string>, iat: int, exp: int)

  datatype World = World(
    devices: map<Id, Metadata>, requests: map<Id, EnrollmentRequest>, credentials: map<Id, Credential>,
    refresh: map<Id, Refresh>, tokens: seq<Token>, clock: int, nextId: Id)

  const Empty := World(map[], map[], map[], map[], [], 0, 0)

  datatype Operation =
    | Enroll(deviceId: Option<string>, ttlSeconds: Option<int>, requested: Option<set<string>>)
    | RequestEnrollment(userId: Id)
    | Approve(requestId: Id)
    | Reject(requestId: Id)
    | IssueToken(credentialId: Id, secret: Id)
    | RefreshToken(token: Id)
    | Logout(token: Id)
    | Revoke(credentialId: Id)

  /** `allowed` is the verdict of the bearer-token check on the routes that make one. */
  datatype Call = Call(op: Operation, now: int, allowed: bool)

  // ---------------------------------------------------------------- steps

  function Tick(w: World, now: int): World { w.(clock := Max(w.clock, now)) }

  /** A given name counts without surrounding white space; a blank one does not count. */
  function DeviceName(given: Option<string>, next: Id): DeviceId {
    if given.Some? && Trim(given.value) != "" then Chosen(Trim(given.value)) else Generated(next)
  }

  /** A new credential and its device record: identifiers n (credential), n+1 (device), n+2 (secret). */
  function Issued(w: World, given: Option<string>, ttlSeconds: int, scopes: set<string>, now: int): World {
    var n := w.nextId;
    var deviceId, expiresAt := DeviceName(given, n + 1), now + ttlSeconds * 1000;
    w.(credentials := w.credentials[n := Credential(deviceId, n + 2, expiresAt, None, None)],
       devices := w.devices[n := Metadata(deviceId, scopes, now, expiresAt, None)],
       nextId := n + 3)
  }

  function Requested(w: World, user: Id): World {
    w.(requests := w.requests[w.nextId := EnrollmentRequest(user, Pending, None, None, None)], nextId := w.nextId + 1)
  }

  function Decided(
    w: World, r: Id, status: RequestStatus, credentialId: Option<Id>, deviceId: Option<DeviceId>, now: int): World
    requires r in w.requests
  {
    w.(requests := w.requests[r := w.requests[r].(status := status, credentialId := credentialId, deviceId := deviceId,
                                                  decidedAt := Some(now))])
  }

  function Touched(w: World, c: Id, now: int): World
    requires c in w.credentials
  {
    w.(credentials := w.credentials[c := w.credentials[c].(lastUsedAt := Some(now))])
  }

  function Stored(w: World, r: Refresh): World { w.(refresh := w.refresh[w.nextId := r], nextId := w.nextId + 1) }

  predicate Authenticates(w: World, c: Id, secret: Id, now: int) {
    && c in w.credentials && w.credentials[c].revokedAt.None? && now < w.credentials[c].expiresAt
    && w.credentials[c].secret == secret
  }

  predicate Rotates(w: World, t: Id, now: int) {
    && t in w.refresh && w.refresh[t].revokedAt.None? && w.refresh[t].usedAt.None? && now < w.refresh[t].expiresAt
  }

  predicate LiveDevice(w: World, c: Id) { c in w.devices && w.devices[c].revokedAt.None? }

  function UsedUp(w: World, t: Id, now: int): World
    requires t in w.refresh
  {
    w.(refresh := w.refresh[t := w.refresh[t].(usedAt := Some(now))])
  }

  /** The presented token is used up and replaced by one with the same subject, scopes and expiry. */
  function Rotated(w: World, t: Id, now: int): World
    requires t in w.refresh
  {
    var r := w.refresh[t];
    Stored(UsedUp(w, t, now), Refresh(r.subject, r.scopes, r.expiresAt, None, None))
  }

  function RevokedToken(w: World, t: Id, now: int): World {
    if t in w.refresh && w.refresh[t].revokedAt.None?
    then w.(refresh := w.refresh[t := w.refresh[t].(revokedAt := Some(now))]) else w
  }

  function Signed(w: World, c: Id, scopes: set<string>, now: int): World {
    w.(tokens := w.tokens + [Token(c, scopes, now / 1000, now / 1000 + ACCESS_TTL)])
  }

  function RevokedSubject(refresh: map<Id, Refresh>, c: Id, now: int): map<Id, Refresh> {
    map t | t in refresh ::
      if refresh[t].subject == c && refresh[t].revokedAt.None? then refresh[t].(revokedAt := Some(now)) else refresh[t]
  }

  function RevokedCredential(credentials: map<Id, Credential>, c: Id, now: int): map<Id, Credential> {
    if c in credentials && credentials[c].revokedAt.None?
    then credentials[c := credentials[c].(revokedAt := Some(now))] else credentials
  }

  /** An access token and a refresh token for an authenticated credential. */
  function LoggedIn(w: World, c: Id, now: int): World
    requires c in w.credentials && c in w.devices
  {
    var scopes := w.devices[c].scopes;
    Stored(Signed(Touched(w, c, now), c, scopes, now), Refresh(c, scopes, now + REFRESH_TTL * 1000, None, None))
  }

  predicate Accepted(w: World, call: Call) {
    match call.op
    case Enroll(given, ttl, requested) =>
      && call.allowed && (given.Some? ==> 1 <= |given.value| <= 128)
      && (ttl.Some? ==> 60 <= ttl.value <= MAX_TTL)
      && (requested.Some? ==> requested.value <= DEFAULT_SCOPES)
    case RequestEnrollment(_) => call.allowed
    case Approve(r) => call.allowed && r in w.requests && w.requests[r].status == Pending
    case Reject(r) => call.allowed && r in w.requests && w.requests[r].status == Pending
    case IssueToken(c, secret) => Authenticates(w, c, secret, call.now) && LiveDevice(w, c)
    case RefreshToken(t) => Rotates(w, t, call.now) && LiveDevice(w, w.refresh[t].subject)
    case Logout(t) => Rotates(w, t, call.now)
    case Revoke(_) => call.allowed
  }

  function RevokedAll(w: World, c: Id, now: int): World {
    w.(credentials := RevokedCredential(w.credentials, c, now),
       refresh := RevokedSubject(w.refresh, c, now),
       devices := if c in w.devices then w.devices[c := w.devices[c].(revokedAt := Some(now))] else w.devices)
  }

  /** What a call does to the tables; `w` already shows the time of the call. */
  function Effect(w: World, call: Call): World {
    var now := call.now;
    match call.op
    case Enroll(given, ttl, requested) =>
      if !Accepted(w, call) then w else
        Issued(w, given, if ttl.Some? then ttl.value else CREDENTIAL_TTL,
               if requested.Some? then requested.value else DEFAULT_SCOPES, now)
    case RequestEnrollment(user) => if !call.allowed then w else Requested(w, user)
    case Approve(r) =>
      if !Accepted(w, call) then w else
        var n := w.nextId;
        Decided(Issued(w, None, CREDENTIAL_TTL, DEFAULT_SCOPES, now), r, Approved, Some(n), Some(Generated(n + 1)), now)
    case Reject(r) =>
      if !Accepted(w, call) then w else
        Decided(w, r, Rejected, w.requests[r].credentialId, w.requests[r].deviceId, now)
    case IssueToken(c, secret) =>
      if !Authenticates(w, c, secret, now) then w
      else if !LiveDevice(w, c) then Touched(w, c, now)
      else LoggedIn(w, c, now)
    case RefreshToken(t) =>
      if !Rotates(w, t, now) then w
      else if !LiveDevice(w, w.refresh[t].subject) then RevokedToken(Rotated(w, t, now), w.nextId, now)
      else Signed(Rotated(w, t, now), w.refresh[t].subject, w.refresh[t].scopes, now)
    case Logout(t) =>
      if !Rotates(w, t, now) then w else RevokedToken(Rotated(w, t, now), w.nextId, now)
    case Revoke(c) => if !call.allowed then w else RevokedAll(w, c, now)
  }

  function Step(w: World, call: Call): World { Effect(Tick(w, call.now), call) }

  function Run(w: World, calls: seq<Call>): World
    decreases calls
  {
    if calls == [] then w else Run(Step(w, calls[0]), calls[1..])
  }

  /** Time does not run backwards. */
  predicate Timed(w: World, calls: seq<Call>)
    decreases calls
  {
    calls != [] ==> w.clock <= calls[0].now && Timed(Step(w, calls[0]), calls[1..])
  }

  // ---------------------------------------------------------------- invariant

  ghost predicate IdsUsed(w: World) {
    && (forall c :: c in w.devices ==> c < w.nextId)
    && (forall r :: r in w.requests ==> r < w.nextId)
    && (forall t :: t in w.refresh ==> t < w.nextId)
  }

  /** Devices and credentials come in pairs, revoked together. */
  ghost predicate Paired(w: World) {
    && w.devices.Keys == w.credentials.Keys
    && forall c :: c in w.devices ==> w.devices[c].revokedAt.Some? == w.credentials[c].revokedAt.Some?
  }

  ghost predicate RequestsOk(w: World) {
    && (forall r :: r in w.requests ==> (w.requests[r].status == Approved <==> w.requests[r].credentialId.Some?))
    && (forall r :: r in w.requests && w.requests[r].credentialId.Some? ==>
         w.requests[r].credentialId.value in w.devices)
    && (forall r, q :: SameCredential(w.requests, r, q) ==> r == q)
  }

  ghost predicate SameCredential(requests: map<Id, EnrollmentRequest>, r: Id, q: Id) {
    && r in requests && q in requests && requests[r].credentialId.Some?
    && requests[r].credentialId == requests[q].credentialId
  }

  /** Revoking a device revoked its refresh tokens, and none carries a scope the device lacks. */
  ghost predicate RefreshOk(w: World) {
    forall t :: t in w.refresh ==>
      && w.refresh[t].subject in w.devices && w.refresh[t].scopes <= w.devices[w.refresh[t].subject].scopes
      && (w.devices[w.refresh[t].subject].revokedAt.Some? ==> w.refresh[t].revokedAt.Some?)
  }

  ghost predicate TokenOk(w: World, token: Token) {
    && token.credentialId in w.devices && token.credentialId in w.credentials
    && token.scopes <= w.devices[token.credentialId].scopes <= DEFAULT_SCOPES
    && token.exp == token.iat + ACCESS_TTL && token.iat * 1000 <= w.clock
    && (w.credentials[token.credentialId].revokedAt.Some? ==>
         token.iat * 1000 <= w.credentials[token.credentialId].revokedAt.value)
  }

  ghost predicate TokensOk(w: World) {
    && (forall c :: c in w.devices ==> w.devices[c].scopes <= DEFAULT_SCOPES)
    && forall i :: 0 <= i < |w.tokens| ==> TokenOk(w, w.tokens[i])
  }

  ghost predicate Invariant(w: World) {
    IdsUsed(w) && Paired(w) && RequestsOk(w) && RefreshOk(w) && TokensOk(w)
  }

  // ---------------------------------------------------------------- every primitive keeps it

  lemma TickKeeps(w: World, now: int)
    requires Invariant(w)
    ensures Invariant(Tick(w, now))
  {
    forall i | 0 <= i < |w.tokens| ensures TokenOk(Tick(w, now), w.tokens[i]) {
      assert TokenOk(w, w.tokens[i]);
    }
  }

  /** A revocation time is kept; a new one is no earlier than any token issued so far. */
  ghost predicate RevocationKept(w: World, before: Credential, after: Credential) {
    || after.revokedAt == before.revokedAt
    || (before.revokedAt.None? && after.revokedAt.Some? && w.clock <= after.revokedAt.value)
  }

  /** Tokens stay in order while their devices and credentials keep scopes and revocation times. */
  lemma TokensStay(w: World, w': World)
    requires TokensOk(w) && w'.tokens == w.tokens && w.clock <= w'.clock
    requires forall c :: c in w'.devices ==> w'.devices[c].scopes <= DEFAULT_SCOPES
    requires forall c :: c in w.devices ==> c in w'.devices && w'.devices[c].scopes == w.devices[c].scopes
    requires forall c :: c in w.credentials ==>
      c in w'.credentials && RevocationKept(w, w.credentials[c], w'.credentials[c])
    ensures TokensOk(w')
  {
    forall i | 0 <= i < |w'.tokens| ensures TokenOk(w', w'.tokens[i]) {
      assert TokenOk(w, w.tokens[i]);
    }
  }

  lemma IssuedKeeps(w: World, given: Option<string>, ttlSeconds: int, scopes: set<string>, now: int)
    requires Invariant(w) && scopes <= DEFAULT_SCOPES
    ensures Invariant(Issued(w, given, ttlSeconds, scopes, now))
  {
    var w' := Issued(w, given, ttlSeconds, scopes, now);
    TokensStay(w, w');
  }

  lemma RequestedKeeps(w: World, user: Id)
    requires Invariant(w)
    ensures Invariant(Requested(w, user))
  {
    var w' := Requested(w, user);
    TokensStay(w, w');
    forall r, q: Id | SameCredential(w'.requests, r, q) ensures r == q {
      assert SameCredential(w.requests, r, q);
    }
  }

  lemma DecidedKeeps(
    w: World, r: Id, status: RequestStatus, credentialId: Option<Id>, deviceId: Option<DeviceId>, now: int)
    requires Invariant(w) && r in w.requests && (status == Approved <==> credentialId.Some?)
    requires credentialId.Some? ==> credentialId.value in w.devices
    requires credentialId.Some? ==> forall q :: q in w.requests ==> w.requests[q].credentialId != credentialId
    ensures Invariant(Decided(w, r, status, credentialId, deviceId, now))
  {
    var w' := Decided(w, r, status, credentialId, deviceId, now);
    TokensStay(w, w');
    forall p, q: Id | SameCredential(w'.requests, p, q) ensures p == q {
      assert p != r && q != r ==> SameCredential(w.requests, p, q);
    }
  }

  lemma TouchedKeeps(w: World, c: Id, now: int)
    requires Invariant(w) && c in w.credentials
    ensures Invariant(Touched(w, c, now))
  {
    var w' := Touched(w, c, now);
    TokensStay(w, w');
  }

  lemma RefreshChangeKeeps(w: World, w': World)
    requires Invariant(w) && w' == w.(refresh := w'.refresh, nextId := w'.nextId) && w.nextId <= w'.nextId
    requires forall t :: t in w'.refresh ==> t < w'.nextId
    requires RefreshOk(w')
    ensures Invariant(w')
  {
    TokensStay(w, w');
  }

  lemma StoredKeeps(w: World, r: Refresh)
    requires Invariant(w) && LiveDevice(w, r.subject) && r.scopes <= w.devices[r.subject].scopes
    ensures Invariant(Stored(w, r))
  {
    RefreshChangeKeeps(w, Stored(w, r));
  }

  lemma UsedUpKeeps(w: World, t: Id, now: int)
    requires Invariant(w) && t in w.refresh
    ensures Invariant(UsedUp(w, t, now))
  {
    RefreshChangeKeeps(w, UsedUp(w, t, now));
  }

  lemma RevokedTokenKeeps(w: World, t: Id, now: int)
    requires Invariant(w)
    ensures Invariant(RevokedToken(w, t, now))
  {
    RefreshChangeKeeps(w, RevokedToken(w, t, now));
  }

  lemma SignedKeeps(w: World, c: Id, scopes: set<string>, now: int)
    requires Invariant(w) && LiveDevice(w, c) && scopes <= w.devices[c].scopes && now <= w.clock
    ensures Invariant(Signed(w, c, scopes, now))
  {
    var w' := Signed(w, c, scopes, now);
    forall i | 0 <= i < |w'.tokens| ensures TokenOk(w', w'.tokens[i]) {
      assert i < |w.tokens| ==> TokenOk(w, w.tokens[i]);
    }
  }

  lemma RevokedAllPairs(w: World, c: Id, now: int)
    requires Paired(w) && RefreshOk(w)
    ensures Paired(RevokedAll(w, c, now)) && RefreshOk(RevokedAll(w, c, now))
  {
  }

  lemma RevokedAllKeeps(w: World, c: Id, now: int)
    requires Invariant(w) && now == w.clock
    ensures Invariant(RevokedAll(w, c, now))
  {
    RevokedAllPairs(w, c, now);
    TokensStay(w, RevokedAll(w, c, now));
  }

  lemma RotatedKeeps(w: World, t: Id, now: int)
    requires Invariant(w) && Rotates(w, t, now)
    ensures Invariant(Rotated(w, t, now)) && LiveDevice(w, w.refresh[t].subject)
  {
    UsedUpKeeps(w, t, now);
    var r := w.refresh[t];
    StoredKeeps(UsedUp(w, t, now), Refresh(r.subject, r.scopes, r.expiresAt, None, None));
  }

  lemma LoggedInKeeps(w: World, c: Id, now: int)
    requires Invariant(w) && now <= w.clock && c in w.credentials && LiveDevice(w, c)
    ensures Invariant(LoggedIn(w, c, now))
  {
    var scopes := w.devices[c].scopes;
    var w1 := Touched(w, c, now);
    TouchedKeeps(w, c, now);
    var w2 := Signed(w1, c, scopes, now);
    SignedKeeps(w1, c, scopes, now);
    StoredKeeps(w2, Refresh(c, scopes, now + REFRESH_TTL * 1000, None, None));
  }

  lemma IssueTokenKeeps(w: World, call: Call)
    requires Invariant(w) && call.now == w.clock && call.op.IssueToken?
    ensures Invariant(Effect(w, call))
  {
    var c, now := call.op.credentialId, call.now;
    if Authenticates(w, c, call.op.secret, now) {
      if LiveDevice(w, c) {
        LoggedInKeeps(w, c, now);
      } else {
        TouchedKeeps(w, c, now);
      }
    }
  }

  lemma RotationKeeps(w: World, call: Call)
    requires Invariant(w) && call.now == w.clock && (call.op.RefreshToken? || call.op.Logout?)
    ensures Invariant(Effect(w, call))
  {
    var t, now := call.op.token, call.now;
    if Rotates(w, t, now) {
      RotatedKeeps(w, t, now);
      if call.op.RefreshToken? {
        SignedKeeps(Rotated(w, t, now), w.refresh[t].subject, w.refresh[t].scopes, now);
      } else {
        RevokedTokenKeeps(Rotated(w, t, now), w.nextId, now);
      }
    }
  }

  lemma EnrollmentCallKeeps(w: World, call: Call)
    requires Invariant(w) && call.now == w.clock && !(call.op.IssueToken? || call.op.RefreshToken? || call.op.Logout?)
    ensures Invariant(Effect(w, call))
  {
    var now := call.now;
    if Accepted(w, call) {
      match call.op
      case Enroll(given, ttl, requested) =>
        IssuedKeeps(w, given, if ttl.Some? then ttl.value else CREDENTIAL_TTL,
                    if requested.Some? then requested.value else DEFAULT_SCOPES, now);
      case RequestEnrollment(user) => RequestedKeeps(w, user);
      case Approve(r) =>
        IssuedKeeps(w, None, CREDENTIAL_TTL, DEFAULT_SCOPES, now);
        DecidedKeeps(Issued(w, None, CREDENTIAL_TTL, DEFAULT_SCOPES, now), r, Approved,
                     Some(w.nextId), Some(Generated(w.nextId + 1)), now);
      case Reject(r) => DecidedKeeps(w, r, Rejected, w.requests[r].credentialId, w.requests[r].deviceId, now);
      case Revoke(c) => RevokedAllKeeps(w, c, now);
    }
  }

  lemma {:induction false} StepKeeps(w: World, call: Call)
    requires Invariant(w) && w.clock <= call.now
    ensures Invariant(Step(w, call))
  {
    TickKeeps(w, call.now);
    if call.op.IssueToken? {
      IssueTokenKeeps(Tick(w, call.now), call);
    } else if call.op.RefreshToken? || call.op.Logout? {
      RotationKeeps(Tick(w, call.now), call);
    } else {
      EnrollmentCallKeeps(Tick(w, call.now), call);
    }
  }

  lemma {:induction false} RunKeeps(w: World, calls: seq<Call>)
    requires Invariant(w) && Timed(w, calls)
    ensures Invariant(Run(w, calls))
    decreases calls
  {
    if calls != [] {
      StepKeeps(w, calls[0]);
      RunKeeps(Step(w, calls[0]), calls[1..]);
    }
  }

  // ---------------------------------------------------------------- revocation is final

  function Of(c: Id): Token -> bool { (token: Token) => token.credentialId == c }

  function TokensOf(w: World, c: Id): seq<Token> { Filter(w.tokens, Of(c)) }

  ghost predicate Revoked(w: World, c: Id) {
    c in w.devices && w.devices[c].revokedAt.Some? && c in w.credentials && w.credentials[c].revokedAt.Some?
  }

  /** The credential a call issues an access token for. */
  function Beneficiary(w: World, call: Call): Option<Id> {
    if call.op.IssueToken? && Accepted(w, call) then Some(call.op.credentialId)
    else if call.op.RefreshToken? && Accepted(w, call) then Some(w.refresh[call.op.token].subject)
    else None
  }

  lemma NoTokens(w: World, call: Call)
    requires !call.op.IssueToken? && !call.op.RefreshToken?
    ensures Step(w, call).tokens == w.tokens
  {
  }

  lemma StepTokens(w: World, call: Call) returns (token: Token)
    ensures Step(w, call).tokens == w.tokens + if Beneficiary(w, call).Some? then [token] else []
    ensures Beneficiary(w, call).Some? ==>
      Beneficiary(w, call) == Some(token.credentialId) && LiveDevice(w, token.credentialId)
  {
    var iat := call.now / 1000;
    token := Token(0, {}, iat, iat + ACCESS_TTL);
    if call.op.IssueToken? {
      if Accepted(w, call) {
        token := token.(credentialId := call.op.credentialId, scopes := w.devices[call.op.credentialId].scopes);
      }
    } else if call.op.RefreshToken? {
      if Accepted(w, call) {
        var r := w.refresh[call.op.token];
        token := token.(credentialId := r.subject, scopes := r.scopes);
      }
    } else {
      NoTokens(w, call);
    }
  }

  lemma DevicesKept(w: World, call: Call)
    requires call.op.IssueToken? || call.op.RefreshToken?
    ensures Step(w, call).devices == w.devices
  {
  }

  /** A call adds at most the token it returns, which is in order and belongs to a live device. */
  lemma TokenGuarantee(w: World, call: Call, r: Option<Token>)
    requires Invariant(Step(w, call)) && (call.op.IssueToken? || call.op.RefreshToken?)
    requires r.Some? == Beneficiary(w, call).Some?
    requires r.Some? ==> Step(w, call).tokens == w.tokens + [r.value]
    ensures Step(w, call).tokens == w.tokens + if r.Some? then [r.value] else []
    ensures r.Some? ==> TokenOk(Step(w, call), r.value) && LiveDevice(Step(w, call), r.value.credentialId)
  {
    var token := StepTokens(w, call);
    DevicesKept(w, call);
    if r.Some? {
      var tokens, n := Step(w, call).tokens, |w.tokens|;
      assert tokens[n] == r.value == token;
      assert TokenOk(Step(w, call), tokens[n]);
    }
  }

  lemma RevokeGuarantee(w: World, call: Call)
    requires Paired(w) && call.op.Revoke?
    ensures call.allowed && call.op.credentialId in w.devices ==> Revoked(Step(w, call), call.op.credentialId)
  {
  }

  /** The token routes make no bearer check. */
  lemma AllowedIsUnread(w: World, call: Call)
    requires call.op.IssueToken? || call.op.RefreshToken? || call.op.Logout?
    ensures var free := call.(allowed := true);
            Step(w, call) == Step(w, free) && Accepted(w, call) == Accepted(w, free)
  {
  }

  /** Only these calls write device or credential records. */
  lemma RecordsKept(w: World, call: Call)
    requires !call.op.Enroll? && !call.op.Approve? && !call.op.IssueToken? && !call.op.Revoke?
    ensures Step(w, call).devices == w.devices && Step(w, call).credentials == w.credentials
  {
  }

  lemma StepStaysRevoked(w: World, call: Call, c: Id)
    requires IdsUsed(w) && Paired(w) && Revoked(w, c)
    ensures Revoked(Step(w, call), c) && Step(w, call).credentials[c].revokedAt == w.credentials[c].revokedAt
  {
    if !call.op.Enroll? && !call.op.Approve? && !call.op.IssueToken? && !call.op.Revoke? {
      RecordsKept(w, call);
    }
  }

  lemma NoTokenWhenRevoked(w: World, call: Call, c: Id)
    requires c in w.devices && w.devices[c].revokedAt.Some?
    ensures TokensOf(Step(w, call), c) == TokensOf(w, c)
  {
    var token := StepTokens(w, call);
    FilterAppend(w.tokens, token, Of(c));
    assert w.tokens + [] == w.tokens;
  }

  /** A revoked credential stays revoked, keeps its first revocation time and gets no token. */
  lemma StepRevoked(w: World, call: Call, c: Id)
    requires Invariant(w) && Revoked(w, c)
    ensures var w' := Step(w, call);
            && Revoked(w', c) && w'.credentials[c].revokedAt == w.credentials[c].revokedAt
            && TokensOf(w', c) == TokensOf(w, c)
  {
    StepStaysRevoked(w, call, c);
    NoTokenWhenRevoked(w, call, c);
  }

  lemma {:induction false} RunRevoked(w: World, calls: seq<Call>, c: Id)
    requires Invariant(w) && Timed(w, calls) && Revoked(w, c)
    ensures var w' := Run(w, calls);
            && Revoked(w', c) && w'.credentials[c].revokedAt == w.credentials[c].revokedAt
            && TokensOf(w', c) == TokensOf(w, c)
    decreases calls
  {
    if calls != [] {
      StepKeeps(w, calls[0]);
      StepRevoked(w, calls[0], c);
      RunRevoked(Step(w, calls[0]), calls[1..], c);
    }
  }

  /** After a known credential is revoked, no continuation issues it a token, and those it has expire within 900 s. */
  lemma RevocationIsFinal(before: seq<Call>, c: Id, now: int, after: seq<Call>)
    requires Timed(Empty, before) && Run(Empty, before).clock <= now && c in Run(Empty, before).devices
    requires Timed(Step(Run(Empty, before), Call(Revoke(c), now, true)), after)
    ensures var w1 := Step(Run(Empty, before), Call(Revoke(c), now, true));
            var w := Run(w1, after);
            && TokensOf(w, c) == TokensOf(w1, c)
            && forall token :: token in TokensOf(w, c) ==> token.exp <= now / 1000 + ACCESS_TTL
  {
    var w0, call := Run(Empty, before), Call(Revoke(c), now, true);
    var w1 := Step(w0, call);
    RunKeeps(Empty, before);
    StepKeeps(w0, call);
    RunRevoked(w1, after, c);
    forall token | token in TokensOf(w1, c) ensures token.exp <= now / 1000 + ACCESS_TTL {
      var i :| 0 <= i < |w1.tokens| && w1.tokens[i] == token;
      assert TokenOk(w1, w1.tokens[i]);
    }
  }

  // ---------------------------------------------------------------- counting

  /** How many calls of a run satisfy `p` when they are made. */
  function Count(w: World, calls: seq<Call>, p: (World, Call) -> bool): nat
    decreases calls
  {
    if calls == [] then 0 else (if p(w, calls[0]) then 1 else 0) + Count(Step(w, calls[0]), calls[1..], p)
  }

  function Enrolls(): (World, Call) -> bool { (w: World, call: Call) => call.op.Enroll? && Accepted(w, call) }

  function Approves(): (World, Call) -> bool { (w: World, call: Call) => call.op.Approve? && Accepted(w, call) }

  function Decides(r: Id): (World, Call) -> bool {
    (w: World, call: Call) => (call.op == Approve(r) || call.op == Reject(r)) && Accepted(w, call)
  }

  function Presents(t: Id): (World, Call) -> bool {
    (w: World, call: Call) => (call.op == RefreshToken(t) || call.op == Logout(t)) && Rotates(w, t, call.now)
  }

  lemma StepDevices(w: World, call: Call)
    ensures Step(w, call).devices.Keys ==
      w.devices.Keys + if Enrolls()(w, call) || Approves()(w, call) then {w.nextId} else {}
  {
    if call.op.Enroll? || call.op.Approve? || call.op.IssueToken? || call.op.Revoke? {
      NewDevices(w, call);
    } else {
      RecordsKept(w, call);
    }
  }

  lemma NewDevices(w: World, call: Call)
    requires call.op.Enroll? || call.op.Approve? || call.op.IssueToken? || call.op.Revoke?
    ensures Step(w, call).devices.Keys ==
      w.devices.Keys + if Enrolls()(w, call) || Approves()(w, call) then {w.nextId} else {}
  {
  }

  lemma StepDeviceCount(w: World, call: Call)
    requires IdsUsed(w)
    ensures |Step(w, call).devices| ==
      |w.devices| + (if Enrolls()(w, call) then 1 else 0) + (if Approves()(w, call) then 1 else 0)
  {
    StepDevices(w, call);
    assert |Step(w, call).devices| == |Step(w, call).devices.Keys| && |w.devices| == |w.devices.Keys|;
    assert w.nextId !in w.devices.Keys;
  }

  /** One device for each accepted enrollment and each approval, and no others. */
  lemma {:induction false} DeviceCount(w: World, calls: seq<Call>)
    requires Invariant(w) && Timed(w, calls)
    ensures |Run(w, calls).devices| == |w.devices| + Count(w, calls, Enrolls()) + Count(w, calls, Approves())
    decreases calls
  {
    if calls != [] {
      StepKeeps(w, calls[0]);
      StepDeviceCount(w, calls[0]);
      DeviceCount(Step(w, calls[0]), calls[1..]);
    }
  }

  function DecidedCount(w: World, r: Id): nat { if r in w.requests && w.requests[r].status != Pending then 1 else 0 }

  lemma RequestsKept(w: World, call: Call)
    requires !call.op.RequestEnrollment? && !call.op.Approve? && !call.op.Reject?
    ensures Step(w, call).requests == w.requests
  {
  }

  lemma StepDecides(w: World, call: Call, r: Id)
    requires r in w.requests ==> r < w.nextId
    ensures DecidedCount(Step(w, call), r) == DecidedCount(w, r) + if Decides(r)(w, call) then 1 else 0
    ensures DecidedCount(w, r) == 1 ==> r in Step(w, call).requests && Step(w, call).requests[r] == w.requests[r]
  {
    if !call.op.RequestEnrollment? && !call.op.Approve? && !call.op.Reject? {
      RequestsKept(w, call);
    }
  }

  /** A request is decided at most once, and the decision and its credential stand. */
  lemma {:induction false} DecidedOnce(w: World, calls: seq<Call>, r: Id)
    requires Invariant(w) && Timed(w, calls)
    ensures DecidedCount(w, r) + Count(w, calls, Decides(r)) == DecidedCount(Run(w, calls), r) <= 1
    ensures DecidedCount(w, r) == 1 ==> r in Run(w, calls).requests && Run(w, calls).requests[r] == w.requests[r]
    decreases calls
  {
    if calls != [] {
      StepKeeps(w, calls[0]);
      StepDecides(w, calls[0], r);
      DecidedOnce(Step(w, calls[0]), calls[1..], r);
    }
  }

  predicate IsApproved(w: World, r: Id) { r in w.requests && w.requests[r].status == Approved }

  /** Distinct approved requests hold distinct credentials, each of an enrolled device. */
  lemma ApprovalsDistinct(calls: seq<Call>, r: Id, q: Id)
    requires Timed(Empty, calls)
    ensures var w := Run(Empty, calls);
            IsApproved(w, r) && IsApproved(w, q) ==>
              && w.requests[r].credentialId.Some? && w.requests[r].credentialId.value in w.devices
              && (w.requests[r].credentialId == w.requests[q].credentialId <==> r == q)
  {
    RunKeeps(Empty, calls);
    var w := Run(Empty, calls);
    assert SameCredential(w.requests, r, q) ==> r == q;
  }

  function UsedCount(w: World, t: Id): nat { if t in w.refresh && w.refresh[t].usedAt.Some? then 1 else 0 }

  lemma RotationUses(w: World, call: Call, t: Id)
    requires t in w.refresh ==> t < w.nextId
    requires call.op.RefreshToken? || call.op.Logout?
    ensures UsedCount(Effect(w, call), t) == UsedCount(w, t) + if Presents(t)(w, call) then 1 else 0
  {
  }

  lemma OthersUse(w: World, call: Call, t: Id)
    requires t in w.refresh ==> t < w.nextId
    requires !call.op.RefreshToken? && !call.op.Logout?
    ensures UsedCount(Effect(w, call), t) == UsedCount(w, t)
  {
  }

  lemma StepUses(w: World, call: Call, t: Id)
    requires IdsUsed(w)
    ensures UsedCount(Step(w, call), t) == UsedCount(w, t) + if Presents(t)(w, call) then 1 else 0
  {
    if call.op.RefreshToken? || call.op.Logout? {
      RotationUses(Tick(w, call.now), call, t);
    } else {
      OthersUse(Tick(w, call.now), call, t);
    }
  }

  /** A refresh token is exchanged at most once, whoever presents it. */
  lemma {:induction false} RefreshUsedOnce(w: World, calls: seq<Call>, t: Id)
    requires Invariant(w) && Timed(w, calls)
    ensures UsedCount(w, t) + Count(w, calls, Presents(t)) == UsedCount(Run(w, calls), t) <= 1
    decreases calls
  {
    if calls != [] {
      StepKeeps(w, calls[0]);
      StepUses(w, calls[0], t);
      RefreshUsedOnce(Step(w, calls[0]), calls[1..], t);
    }
  }

  /** No access token outlives 900 s or carries a scope its device was not enrolled with. */
  lemma TokensBounded(calls: seq<Call>, token: Token)
    requires Timed(Empty, calls) && token in Run(Empty, calls).tokens
    ensures var w := Run(Empty, calls);
            && token.credentialId in w.devices && token.scopes <= w.devices[token.credentialId].scopes <= DEFAULT_SCOPES
            && token.exp == token.iat + ACCESS_TTL && token.iat * 1000 <= w.clock
  {
    RunKeeps(Empty, calls);
    var w := Run(Empty, calls);
    var i :| 0 <= i < |w.tokens| && w.tokens[i] == token;
    assert TokenOk(w, w.tokens[i]);
  }
}
