/** The remote-client routes as they run: after the bearer check each body is one synchronous block. */
module RemoteClientRoutes {
  import opened Prelude
  import opened RemoteClients
  import opened RemoteClientLaws

  class RemoteClientApi {
    var devices: map<Id, Metadata>
    var enrollmentRequests: map<Id, EnrollmentRequest>
    var credentials: map<Id, Credential>
    var refreshTokens: map<Id, Refresh>
    var accessTokens: seq<Token>
    var clock: int
    var nextId: Id

    function State(): World
      reads this
    {
      World(devices, enrollmentRequests, credentials, refreshTokens, accessTokens, clock, nextId)
    }

    ghost predicate Valid()
      reads this
    {
      Invariant(State())
    }

    constructor ()
      ensures State() == Empty && Valid()
    {
      devices, enrollmentRequests, credentials, refreshTokens := map[], map[], map[], map[];
      accessTokens, clock, nextId := [], 0, 0;
    }

    method FreshId() returns (id: Id)
      modifies this`nextId
      ensures id == old(nextId) && nextId == id + 1
    {
      id := nextId;
      nextId := nextId + 1;
    }

    /** Issues a credential and registers its device. */
    method IssueCredential(given: Option<string>, ttlSeconds: int, scopes: set<string>, now: int)
      returns (credentialId: Id, deviceId: DeviceId)
      modifies this
      ensures State() == Issued(old(State()), given, ttlSeconds, scopes, now)
      ensures credentialId == old(nextId) && deviceId == DeviceName(given, old(nextId) + 1)
    {
      credentialId := FreshId();
      var next := FreshId();
      deviceId := DeviceName(given, next);
      var secret := FreshId();
      var expiresAt := now + ttlSeconds * 1000;
      credentials := credentials[credentialId := Credential(deviceId, secret, expiresAt, None, None)];
      devices := devices[credentialId := Metadata(deviceId, scopes, now, expiresAt, None)];
    }

    method EnrollDevice(
      given: Option<string>, ttlSeconds: Option<int>, requested: Option<set<string>>, now: int, allowed: bool)
      returns (credentialId: Option<Id>)
      modifies this
      ensures var call := Call(Enroll(given, ttlSeconds, requested), now, allowed);
              State() == Step(old(State()), call) && credentialId.Some? == Accepted(old(State()), call)
    {
      clock := Max(clock, now);
      if !allowed || (given.Some? && !(1 <= |given.value| <= 128)) {
        return None;
      }
      if ttlSeconds.Some? && !(60 <= ttlSeconds.value <= MAX_TTL) {
        return None;
      }
      if requested.Some? && !(requested.value <= DEFAULT_SCOPES) {
        return None;
      }
      var scopes := if requested.Some? then requested.value else DEFAULT_SCOPES;
      var ttl := if ttlSeconds.Some? then ttlSeconds.value else CREDENTIAL_TTL;
      var c, _ := IssueCredential(given, ttl, scopes, now);
      credentialId := Some(c);
    }

    method RequestDevice(userId: Id, now: int, allowed: bool) returns (requestId: Option<Id>)
      modifies this
      ensures State() == Step(old(State()), Call(RequestEnrollment(userId), now, allowed))
      ensures requestId.Some? == allowed
    {
      clock := Max(clock, now);
      if !allowed {
        return None;
      }
      var id := FreshId();
      enrollmentRequests := enrollmentRequests[id := EnrollmentRequest(userId, Pending, None, None, None)];
      requestId := Some(id);
    }

    method ApproveRequest(requestId: Id, now: int, allowed: bool) returns (credentialId: Option<Id>)
      modifies this
      ensures var call := Call(Approve(requestId), now, allowed);
              State() == Step(old(State()), call) && credentialId.Some? == Accepted(old(State()), call)
    {
      clock := Max(clock, now);
      if !allowed || requestId !in enrollmentRequests || enrollmentRequests[requestId].status != Pending {
        return None;
      }
      var record := enrollmentRequests[requestId];
      var c, d := IssueCredential(None, CREDENTIAL_TTL, DEFAULT_SCOPES, now);
      record := record.(status := Approved, decidedAt := Some(now));
      record := record.(credentialId := Some(c), deviceId := Some(d));
      enrollmentRequests := enrollmentRequests[requestId := record];
      credentialId := Some(c);
    }

    method RejectRequest(requestId: Id, now: int, allowed: bool) returns (rejected: bool)
      modifies this
      ensures var call := Call(Reject(requestId), now, allowed);
              State() == Step(old(State()), call) && rejected == Accepted(old(State()), call)
    {
      clock := Max(clock, now);
      if !allowed || requestId !in enrollmentRequests || enrollmentRequests[requestId].status != Pending {
        return false;
      }
      var record := enrollmentRequests[requestId].(status := Rejected, decidedAt := Some(now));
      enrollmentRequests := enrollmentRequests[requestId := record];
      rejected := true;
    }

    method IssueAccessToken(credentialId: Id, scopes: set<string>, now: int) returns (token: Token)
      modifies this`accessTokens
      ensures State() == Signed(old(State()), credentialId, scopes, now) && accessTokens == old(accessTokens) + [token]
      ensures token == Token(credentialId, scopes, now / 1000, now / 1000 + 900)
    {
      var iat := now / 1000;
      token := Token(credentialId, scopes, iat, iat + ACCESS_TTL);
      accessTokens := accessTokens + [token];
    }

    method TokenForSecret(credentialId: Id, secret: Id, now: int) returns (token: Option<Token>)
      modifies this
      ensures var call := Call(IssueToken(credentialId, secret), now, true);
              && State() == Step(old(State()), call) && token.Some? == Accepted(old(State()), call)
              && (token.Some? ==> accessTokens == old(accessTokens) + [token.value])
      ensures token.Some? <==> old(Opens(State(), credentialId, secret, now))
      ensures token.Some? ==>
        token.value == Token(credentialId, old(devices)[credentialId].scopes, now / 1000, now / 1000 + 900)
    {
      clock := Max(clock, now);
      var authenticated := false;
      if credentialId in credentials {
        var record := credentials[credentialId];
        if record.revokedAt.None? && now < record.expiresAt && record.secret == secret {
          credentials := credentials[credentialId := record.(lastUsedAt := Some(now))];
          authenticated := true;
        }
      }
      if !authenticated || credentialId !in devices || devices[credentialId].revokedAt.Some? {
        return None;
      }
      var scopes := devices[credentialId].scopes;
      var access := IssueAccessToken(credentialId, scopes, now);
      var refreshId := FreshId();
      refreshTokens := refreshTokens[refreshId := Refresh(credentialId, scopes, now + REFRESH_TTL * 1000, None, None)];
      token := Some(access);
    }

    method Rotate(token: Id, now: int) returns (replacement: Option<Id>)
      modifies this`refreshTokens, this`nextId
      ensures replacement.Some? == old(Rotates(State(), token, now))
      ensures State() == if replacement.Some? then Rotated(old(State()), token, now) else old(State())
      ensures replacement.Some? ==> replacement.value == old(nextId)
    {
      if token !in refreshTokens {
        return None;
      }
      var record := refreshTokens[token];
      if record.revokedAt.Some? || record.usedAt.Some? || record.expiresAt <= now {
        return None;
      }
      refreshTokens := refreshTokens[token := record.(usedAt := Some(now))];
      var id := FreshId();
      refreshTokens := refreshTokens[id := Refresh(record.subject, record.scopes, record.expiresAt, None, None)];
      replacement := Some(id);
    }

    method RevokeRefresh(token: Id, now: int)
      modifies this`refreshTokens
      ensures State() == RevokedToken(old(State()), token, now)
    {
      if token in refreshTokens && refreshTokens[token].revokedAt.None? {
        refreshTokens := refreshTokens[token := refreshTokens[token].(revokedAt := Some(now))];
      }
    }

    method RefreshAccess(token: Id, now: int) returns (access: Option<Token>)
      modifies this
      ensures var call := Call(RefreshToken(token), now, true);
              && State() == Step(old(State()), call) && access.Some? == Accepted(old(State()), call)
              && (access.Some? ==> accessTokens == old(accessTokens) + [access.value])
      ensures access.Some? <==> old(Exchangeable(State(), token, now))
      ensures access.Some? ==>
        var r := old(refreshTokens)[token];
        access.value == Token(r.subject, r.scopes, now / 1000, now / 1000 + 900)
    {
      clock := Max(clock, now);
      var rotated := Rotate(token, now);
      if rotated.None? {
        return None;
      }
      var subject, scopes := refreshTokens[rotated.value].subject, refreshTokens[rotated.value].scopes;
      if subject !in devices || devices[subject].revokedAt.Some? {
        RevokeRefresh(rotated.value, now);
        return None;
      }
      var signed := IssueAccessToken(subject, scopes, now);
      access := Some(signed);
    }

    method LogoutSession(token: Id, now: int) returns (loggedOut: bool)
      modifies this
      ensures var call := Call(Logout(token), now, true);
              State() == Step(old(State()), call) && loggedOut == Accepted(old(State()), call)
      ensures loggedOut <==> old(Unspent(State(), token, now))
    {
      clock := Max(clock, now);
      var rotated := Rotate(token, now);
      if rotated.None? {
        return false;
      }
      RevokeRefresh(rotated.value, now);
      loggedOut := true;
    }

    /** Revokes every refresh token of the subject that is not revoked yet, and counts them. */
    method RevokeSubject(subject: Id, now: int) returns (count: nat)
      modifies this`refreshTokens
      ensures refreshTokens == RevokedSubject(old(refreshTokens), subject, now)
      ensures count == |set t | t in old(refreshTokens) && old(refreshTokens)[t].subject == subject
                              && old(refreshTokens)[t].revokedAt.None?|
    {
      ghost var before := refreshTokens;
      var rest := refreshTokens.Keys;
      ghost var hit := {};
      count := 0;
      while rest != {}
        invariant refreshTokens.Keys == before.Keys && rest <= before.Keys
        invariant forall t :: t in rest ==> refreshTokens[t] == before[t]
        invariant forall t :: t in before && t !in rest ==> refreshTokens[t] == RevokedSubject(before, subject, now)[t]
        invariant hit == set t | t in before && t !in rest && before[t].subject == subject && before[t].revokedAt.None?
        invariant count == |hit|
        decreases |rest|
      {
        var t :| t in rest;
        var record := refreshTokens[t];
        rest := rest - {t};
        if record.subject == subject && record.revokedAt.None? {
          refreshTokens := refreshTokens[t := record.(revokedAt := Some(now))];
          count := count + 1;
          hit := hit + {t};
        }
      }
      assert hit == set t | t in before && before[t].subject == subject && before[t].revokedAt.None?;
    }

    /** The answer says whether the device is known, or its credential was still unrevoked. */
    method RevokeDevice(credentialId: Id, now: int, allowed: bool) returns (revoked: bool)
      modifies this
      ensures State() == Step(old(State()), Call(Revoke(credentialId), now, allowed))
      ensures revoked <==> allowed && old(credentialId in devices ||
        (credentialId in credentials && credentials[credentialId].revokedAt.None?))
    {
      clock := Max(clock, now);
      if !allowed {
        return false;
      }
      revoked := false;
      if credentialId in credentials && credentials[credentialId].revokedAt.None? {
        credentials := credentials[credentialId := credentials[credentialId].(revokedAt := Some(now))];
        revoked := true;
      }
      var _ := RevokeSubject(credentialId, now);
      if credentialId in devices {
        devices := devices[credentialId := devices[credentialId].(revokedAt := Some(now))];
        revoked := true;
      }
    }

    /**
     * Any route, on a consistent state at a later time: the state stays consistent, at most one
     * access token is issued, in order and to a live device, and a revoked device is revoked.
     */
    method Serve(call: Call) returns (issued: Option<Token>)
      requires Valid() && clock <= call.now
      modifies this
      ensures Valid() && State() == Step(old(State()), call)
      ensures accessTokens == old(accessTokens) + if issued.Some? then [issued.value] else []
      ensures issued.Some? ==> TokenOk(State(), issued.value) && LiveDevice(State(), issued.value.credentialId)
      ensures call.op.Revoke? && call.allowed && call.op.credentialId in old(devices) ==>
        Revoked(State(), call.op.credentialId)
    {
      ghost var before := State();
      issued := Dispatch(call);
      StepKeeps(before, call);
      if call.op.IssueToken? || call.op.RefreshToken? {
        TokenGuarantee(before, call, issued);
      } else {
        NoTokens(before, call);
      }
      if call.op.Revoke? {
        RevokeGuarantee(before, call);
      }
    }

    method Dispatch(call: Call) returns (issued: Option<Token>)
      modifies this
      ensures State() == Step(old(State()), call) && issued.Some? == Beneficiary(old(State()), call).Some?
      ensures issued.Some? ==> accessTokens == old(accessTokens) + [issued.value]
    {
      issued := None;
      if call.op.IssueToken? || call.op.RefreshToken? || call.op.Logout? {
        AllowedIsUnread(State(), call);
      }
      match call.op
      case Enroll(given, ttl, requested) => var _ := EnrollDevice(given, ttl, requested, call.now, call.allowed);
      case RequestEnrollment(user) => var _ := RequestDevice(user, call.now, call.allowed);
      case Approve(r) => var _ := ApproveRequest(r, call.now, call.allowed);
      case Reject(r) => var _ := RejectRequest(r, call.now, call.allowed);
      case IssueToken(c, secret) => issued := TokenForSecret(c, secret, call.now);
      case RefreshToken(t) => issued := RefreshAccess(t, call.now);
      case Logout(t) => var _ := LogoutSession(t, call.now);
      case Revoke(c) => var _ := RevokeDevice(c, call.now, call.allowed);
    }
  }
}
