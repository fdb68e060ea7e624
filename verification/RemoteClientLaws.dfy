/**
 * What each remote-client route accepts and does, in terms of the records alone, and what a secret
 * is worth over a whole run.
 */
module RemoteClientLaws {
  import opened Prelude
  import opened Characters
  import opened RemoteClients

  // ---------------------------------------------------------------- logging in

  /** The credential has this secret, is unrevoked and unexpired, and its device is known and unrevoked. */
  ghost predicate Opens(w: World, c: Id, secret: Id, now: int) {
    && c in w.credentials && w.credentials[c].secret == secret
    && w.credentials[c].revokedAt.None? && now < w.credentials[c].expiresAt
    && c in w.devices && w.devices[c].revokedAt.None?
  }

  /**
   * A login is accepted exactly for the credential's own secret, whatever the bearer check says. It
   * issues an access token for 900 s and a refresh token for 30 days, both with the device's scopes.
   */
  lemma LoginExactly(w: World, c: Id, secret: Id, now: int, allowed: bool)
    ensures var call := Call(IssueToken(c, secret), now, allowed);
            Accepted(w, call) <==> Opens(w, c, secret, now)
    ensures Opens(w, c, secret, now) ==>
      var w', scopes := Step(w, Call(IssueToken(c, secret), now, allowed)), w.devices[c].scopes;
      && w'.tokens == w.tokens + [Token(c, scopes, now / 1000, now / 1000 + 900)]
      && w'.refresh == w.refresh[w.nextId := Refresh(c, scopes, now + 2_592_000_000, None, None)]
      && w'.devices == w.devices && w'.requests == w.requests
      && w'.credentials == w.credentials[c := w.credentials[c].(lastUsedAt := Some(now))]
    ensures !Opens(w, c, secret, now) ==>
      var w' := Step(w, Call(IssueToken(c, secret), now, allowed));
      w'.tokens == w.tokens && w'.refresh == w.refresh && w'.devices == w.devices && w'.requests == w.requests
  {
  }

  // ---------------------------------------------------------------- exchanging a refresh token

  /** The token is on file, neither used nor revoked, and unexpired. */
  ghost predicate Unspent(w: World, t: Id, now: int) {
    && t in w.refresh && w.refresh[t].usedAt.None? && w.refresh[t].revokedAt.None? && now < w.refresh[t].expiresAt
  }

  /** A known refresh token of a known, unrevoked device. */
  ghost predicate Exchangeable(w: World, t: Id, now: int) {
    && Unspent(w, t, now) && w.refresh[t].subject in w.devices && w.devices[w.refresh[t].subject].revokedAt.None?
  }

  /**
   * An exchange is accepted exactly for an unspent token of a live device. It marks the token as
   * used, stores a replacement that expires when the old one would have, and issues an access token.
   */
  lemma RefreshExactly(w: World, t: Id, now: int, allowed: bool)
    ensures var call := Call(RefreshToken(t), now, allowed);
            Accepted(w, call) <==> Exchangeable(w, t, now)
    ensures Exchangeable(w, t, now) && t < w.nextId ==>
      var w', r := Step(w, Call(RefreshToken(t), now, allowed)), w.refresh[t];
      && w'.tokens == w.tokens + [Token(r.subject, r.scopes, now / 1000, now / 1000 + 900)]
      && w'.refresh == w.refresh[t := r.(usedAt := Some(now))][w.nextId := r]
      && w'.devices == w.devices && w'.requests == w.requests && w'.credentials == w.credentials
    ensures Unspent(w, t, now) && !Exchangeable(w, t, now) && t < w.nextId ==>
      var w', r := Step(w, Call(RefreshToken(t), now, allowed)), w.refresh[t];
      w'.tokens == w.tokens
      && w'.refresh == w.refresh[t := r.(usedAt := Some(now))][w.nextId := r.(revokedAt := Some(now))]
    ensures !Unspent(w, t, now) ==> Step(w, Call(RefreshToken(t), now, allowed)) == Tick(w, now)
  {
  }

  /** A logout is accepted exactly for an unspent token, and leaves it used and its replacement revoked. */
  lemma LogoutExactly(w: World, t: Id, now: int, allowed: bool)
    ensures var call := Call(Logout(t), now, allowed);
            Accepted(w, call) <==> Unspent(w, t, now)
    ensures Unspent(w, t, now) && t < w.nextId ==>
      var w', r := Step(w, Call(Logout(t), now, allowed)), w.refresh[t];
      && w'.refresh == w.refresh[t := r.(usedAt := Some(now))][w.nextId := r.(revokedAt := Some(now))]
      && w'.tokens == w.tokens && w'.devices == w.devices && w'.requests == w.requests
      && w'.credentials == w.credentials
    ensures !Unspent(w, t, now) ==> Step(w, Call(Logout(t), now, allowed)) == Tick(w, now)
  {
  }

  // ---------------------------------------------------------------- routes behind the bearer check

  /** No route that makes the bearer check does anything when it fails. */
  lemma DeniedDoesNothing(w: World, call: Call)
    requires !call.allowed && !call.op.IssueToken? && !call.op.RefreshToken? && !call.op.Logout?
    ensures !Accepted(w, call) && Step(w, call) == Tick(w, call.now)
  {
  }

  const Scopes := {"runtime.read", "runtime.inspect", "autopilot.read", "measurements.read", "platform.status"}

  /** A new credential with its secret, and the record of its device. */
  ghost predicate Adds(w: World, w': World, deviceId: DeviceId, scopes: set<string>, now: int, until: int) {
    && w'.credentials == w.credentials[w.nextId := Credential(deviceId, w.nextId + 2, until, None, None)]
    && w'.devices == w.devices[w.nextId := Metadata(deviceId, scopes, now, until, None)]
    && w'.refresh == w.refresh && w'.tokens == w.tokens && w'.nextId == w.nextId + 3
  }

  /**
   * An enrollment is accepted exactly when the check passes, a given name has 1 to 128 characters, a
   * given lifetime lies between a minute and a year, and only the five known scopes are asked for.
   * The credential lasts for that lifetime or 90 days and carries those scopes or all five.
   */
  lemma EnrollExactly(w: World, given: Option<string>, ttl: Option<int>, requested: Option<set<string>>,
                      now: int, allowed: bool)
    ensures var call := Call(Enroll(given, ttl, requested), now, allowed);
            Accepted(w, call) <==>
              && allowed && (given.Some? ==> 1 <= |given.value| <= 128)
              && (ttl.Some? ==> 60 <= ttl.value <= 31_536_000)
              && (requested.Some? ==> requested.value <= Scopes)
    ensures var call := Call(Enroll(given, ttl, requested), now, allowed);
            if Accepted(w, call) then
              && Step(w, call).requests == w.requests
              && Adds(w, Step(w, call), DeviceName(given, w.nextId + 1),
                      if requested.Some? then requested.value else Scopes, now,
                      now + 1000 * if ttl.Some? then ttl.value else 7_776_000)
            else Step(w, call) == Tick(w, now)
  {
  }

  /** The device is called as given, without the white space around it, or gets a fresh name if that is blank. */
  lemma DeviceNameExactly(given: Option<string>, next: Id, name: string)
    ensures DeviceName(given, next) == Chosen(name) <==>
      given.Some? && name != "" && Bare(name) && Padded(given.value, name)
    ensures DeviceName(given, next) == Generated(next) <==>
      given.None? || AllSpace(given.value)
  {
    if given.Some? {
      TrimCharacterization(given.value, name);
      TrimBlank(given.value);
    }
  }

  /** A request for enrollment is accepted exactly when the check passes, and waits for a decision under a fresh id. */
  lemma RequestExactly(w: World, user: Id, now: int, allowed: bool)
    ensures var call := Call(RequestEnrollment(user), now, allowed);
            && (Accepted(w, call) <==> allowed)
            && Step(w, call) == if allowed then Tick(w, now).(nextId := w.nextId + 1,
                 requests := w.requests[w.nextId := EnrollmentRequest(user, Pending, None, None, None)])
               else Tick(w, now)
  {
  }

  /**
   * An approval is accepted exactly for a pending request when the check passes. It adds a
   * credential for 90 days with all five scopes under a fresh device name, and records both in the request.
   */
  lemma ApproveExactly(w: World, r: Id, now: int, allowed: bool)
    ensures var call := Call(Approve(r), now, allowed);
            Accepted(w, call) <==> allowed && r in w.requests && w.requests[r].status == Pending
    ensures var call := Call(Approve(r), now, allowed);
            if Accepted(w, call) then
              var deviceId := Generated(w.nextId + 1);
              && Adds(w, Step(w, call), deviceId, Scopes, now, now + 7_776_000_000)
              && Step(w, call).requests == w.requests[r := EnrollmentRequest(
                   w.requests[r].userId, Approved, Some(w.nextId), Some(deviceId), Some(now))]
            else Step(w, call) == Tick(w, now)
  {
  }

  /** A rejection is accepted exactly for a pending request when the check passes, and issues nothing. */
  lemma RejectExactly(w: World, r: Id, now: int, allowed: bool)
    ensures var call := Call(Reject(r), now, allowed);
            && (Accepted(w, call) <==> allowed && r in w.requests && w.requests[r].status == Pending)
            && Step(w, call) == if Accepted(w, call) then Tick(w, now).(requests :=
                 w.requests[r := w.requests[r].(status := Rejected, decidedAt := Some(now))])
               else Tick(w, now)
  {
  }

  /**
   * A revocation that passes the check revokes the credential unless it was revoked before, sets the
   * device's revocation time, and revokes every refresh token of the credential that was not.
   */
  lemma RevokeExactly(w: World, c: Id, now: int)
    ensures var w' := Step(w, Call(Revoke(c), now, true));
            && w'.tokens == w.tokens && w'.requests == w.requests
            && w'.credentials.Keys == w.credentials.Keys && w'.devices.Keys == w.devices.Keys
            && w'.refresh.Keys == w.refresh.Keys
            && (forall k :: k in w.credentials ==>
                 w'.credentials[k] == w.credentials[k].(revokedAt := w'.credentials[k].revokedAt)
                 && w'.credentials[k].revokedAt ==
                      if k == c && w.credentials[k].revokedAt.None? then Some(now) else w.credentials[k].revokedAt)
            && (forall k :: k in w.devices ==>
                 w'.devices[k] == if k == c then w.devices[k].(revokedAt := Some(now)) else w.devices[k])
            && (forall t :: t in w.refresh ==>
                 w'.refresh[t] == w.refresh[t].(revokedAt := w'.refresh[t].revokedAt)
                 && w'.refresh[t].revokedAt ==
                      if w.refresh[t].subject == c && w.refresh[t].revokedAt.None? then Some(now)
                      else w.refresh[t].revokedAt)
  {
  }

  // ---------------------------------------------------------------- what a secret is worth over a run

  /** The lifetime in seconds of the credential a call creates, if it creates one. */
  function Lifetime(w: World, call: Call): Option<int> {
    match call.op
    case Enroll(_, ttl, _) =>
      if Accepted(w, call) then Some(if ttl.Some? then ttl.value else 7_776_000) else None
    case Approve(_) => if Accepted(w, call) then Some(7_776_000) else None
    case _ => None
  }

  /** The `i`-th call of the run created credential `c`. */
  ghost predicate Created(calls: seq<Call>, i: nat, c: Id) {
    i < |calls| && Lifetime(Run(Empty, calls[..i]), calls[i]).Some? && c == Run(Empty, calls[..i]).nextId
  }

  /** When the credential of that call runs out. */
  ghost function Until(calls: seq<Call>, i: nat): int
    requires i < |calls| && Lifetime(Run(Empty, calls[..i]), calls[i]).Some?
  {
    calls[i].now + 1000 * Lifetime(Run(Empty, calls[..i]), calls[i]).value
  }

  /** An administrator revoked `c` after the `i`-th call. */
  ghost predicate RevokedAfter(calls: seq<Call>, i: nat, c: Id) {
    exists j :: i < j < |calls| && calls[j].op == Revoke(c) && calls[j].allowed
  }

  lemma {:induction false} RunSplits(w: World, calls: seq<Call>)
    requires calls != []
    ensures Run(w, calls) == Step(Run(w, calls[..|calls| - 1]), calls[|calls| - 1])
    decreases calls
  {
    var n := |calls| - 1;
    if n > 0 {
      RunSplits(Step(w, calls[0]), calls[1..]);
      assert calls[1..][..n - 1] == calls[..n][1..];
    } else {
      assert calls[..0] == [] && calls[1..] == [];
      assert Run(w, calls) == Run(Step(w, calls[0]), []);
    }
  }

  lemma {:induction false} TimedPrefix(w: World, calls: seq<Call>, n: nat)
    requires Timed(w, calls) && n <= |calls|
    ensures Timed(w, calls[..n])
    decreases calls
  {
    if n > 0 {
      TimedPrefix(Step(w, calls[0]), calls[1..], n - 1);
      assert calls[1..][..n - 1] == calls[..n][1..];
    }
  }

  /** How one call changes the credential records. */
  lemma StepCredential(w: World, call: Call, c: Id)
    requires IdsUsed(w) && Paired(w)
    ensures c in Step(w, call).credentials <==> c in w.credentials || (Lifetime(w, call).Some? && c == w.nextId)
    ensures c in Step(w, call).credentials && c !in w.credentials ==>
      var record := Step(w, call).credentials[c];
      record.secret == c + 2 && record.expiresAt == call.now + 1000 * Lifetime(w, call).value && record.revokedAt.None?
    ensures c in w.credentials ==>
      var record := Step(w, call).credentials[c];
      && record.secret == w.credentials[c].secret && record.expiresAt == w.credentials[c].expiresAt
      && (record.revokedAt.None? <==> w.credentials[c].revokedAt.None? && !(call.op == Revoke(c) && call.allowed))
  {
    if !call.op.Enroll? && !call.op.Approve? && !call.op.IssueToken? && !call.op.Revoke? {
      RecordsKept(w, call);
    }
  }

  /** The record of `c` is what the call that created it and the later revocations say. */
  ghost predicate FromHistory(calls: seq<Call>, w: World, i: nat, c: Id)
    requires Created(calls, i, c)
  {
    && c in w.credentials && w.credentials[c].secret == c + 2 && w.credentials[c].expiresAt == Until(calls, i)
    && (w.credentials[c].revokedAt.None? <==> !RevokedAfter(calls, i, c))
  }

  lemma CreatedBefore(calls: seq<Call>, i: nat, c: Id)
    requires calls != [] && i < |calls| - 1
    ensures Created(calls, i, c) <==> Created(calls[..|calls| - 1], i, c)
    ensures Created(calls, i, c) ==> Until(calls, i) == Until(calls[..|calls| - 1], i)
  {
    assert calls[..|calls| - 1][..i] == calls[..i];
  }

  lemma RevokedMore(calls: seq<Call>, i: nat, c: Id)
    requires i < |calls| - 1
    ensures var n := |calls| - 1;
            RevokedAfter(calls, i, c) <==>
              RevokedAfter(calls[..n], i, c) || (calls[n].op == Revoke(c) && calls[n].allowed)
  {
    var n := |calls| - 1;
    if RevokedAfter(calls[..n], i, c) {
      var j :| i < j < n && calls[..n][j].op == Revoke(c) && calls[..n][j].allowed;
      assert calls[j] == calls[..n][j];
    }
    if RevokedAfter(calls, i, c) {
      var j :| i < j < |calls| && calls[j].op == Revoke(c) && calls[j].allowed;
      assert j < n ==> calls[..n][j] == calls[j];
    }
  }

  /** A credential is on file exactly when a call of the run created it, with the record that history gives it. */
  lemma {:induction false} CredentialHistory(calls: seq<Call>, c: Id)
    requires Timed(Empty, calls)
    ensures c in Run(Empty, calls).credentials ==> exists i :: Created(calls, i, c)
    ensures forall i :: Created(calls, i, c) ==> FromHistory(calls, Run(Empty, calls), i, c)
  {
    if calls != [] {
      var n := |calls| - 1;
      var front, w := calls[..n], Run(Empty, calls[..n]);
      TimedPrefix(Empty, calls, n);
      CredentialHistory(front, c);
      RunKeeps(Empty, front);
      RunSplits(Empty, calls);
      StepCredential(w, calls[n], c);
      if c in w.credentials {
        var i :| Created(front, i, c);
        CreatedBefore(calls, i, c);
      } else if c in Run(Empty, calls).credentials {
        assert Created(calls, n, c);
      }
      forall i: nat | Created(calls, i, c) ensures FromHistory(calls, Run(Empty, calls), i, c) {
        if i < n {
          CreatedBefore(calls, i, c);
          RevokedMore(calls, i, c);
        }
      }
    }
  }

  /** Some call handed out this secret for `c`, its time has not run out, and `c` was not revoked since. */
  ghost predicate Good(calls: seq<Call>, c: Id, secret: Id, now: int) {
    exists i :: Created(calls, i, c) && secret == c + 2 && now < Until(calls, i) && !RevokedAfter(calls, i, c)
  }

  /**
   * Over every run: a secret logs in exactly when the enrollment or approval that created the
   * credential handed it out, the lifetime granted then has not run out, and no administrator revoked
   * the credential since. Nothing else that happened matters.
   */
  lemma LoginByHistory(calls: seq<Call>, c: Id, secret: Id, now: int, allowed: bool)
    requires Timed(Empty, calls)
    ensures Accepted(Run(Empty, calls), Call(IssueToken(c, secret), now, allowed)) <==> Good(calls, c, secret, now)
  {
    var w := Run(Empty, calls);
    RunKeeps(Empty, calls);
    CredentialHistory(calls, c);
    if Good(calls, c, secret, now) {
      var i :| Created(calls, i, c) && secret == c + 2 && now < Until(calls, i) && !RevokedAfter(calls, i, c);
      assert FromHistory(calls, w, i, c);
    }
    if Accepted(w, Call(IssueToken(c, secret), now, allowed)) {
      var i :| Created(calls, i, c);
      assert FromHistory(calls, w, i, c);
    }
  }
}
