/**
 * What each subscription request answers and writes, in terms of the rows of the tables alone, and
 * how long a revocation lasts. A request is served to its end unless stated otherwise.
 */
module SubscriptionLaws {
  import opened Prelude
  import opened Subscriptions
  import opened SubscriptionRuns
  import opened SubscriptionGuarantees

  /** The customer has a subscription in this status. */
  ghost predicate HasSub(db: Db, user: Id, status: SubStatus) {
    exists s :: s in db.subs && db.subs[s].userId == user && db.subs[s].status == status
  }

  /** Of the tables, a request at `now` leaves these contents in three and keeps the others. */
  ghost predicate Becomes(
    before: Db, after: Db, now: int,
    subs: map<Id, Subscription>, payments: map<Id, Payment>, devices: map<Id, Device>)
  {
    && after.plans == before.plans && after.ents == before.ents && after.clock == Max(before.clock, now)
    && after.subs == subs && after.payments == payments && after.devices == devices
  }

  /** The devices satisfying `hit` get the status, and no device changes otherwise. */
  ghost predicate Marks(before: Db, after: Db, hit: Device -> bool, status: DeviceStatus) {
    && after.devices.Keys == before.devices.Keys
    && forall d :: d in before.devices ==> MarkedIf(before.devices[d], after.devices[d], hit, status)
  }

  predicate MarkedIf(before: Device, after: Device, hit: Device -> bool, status: DeviceStatus) {
    after == if hit(before) then before.(status := status) else before
  }

  // ---------------------------------------------------------------- buying, renewing, cancelling

  predicate Offered(db: Db, planId: Id) { planId in db.plans && db.plans[planId].isActive }

  /**
   * A purchase is refused exactly for a plan that is not on offer and, as a conflict, when the newest
   * open subscription is active; otherwise it adds a registered subscription and its pending payment.
   */
  lemma PurchaseExactly(db: Db, call: Call)
    requires Legal(db, call) && call.req.Purchase?
    ensures Handle(db, call) == Err(NotFound) <==> !Offered(db, call.req.planId)
    ensures Handle(db, call) == Err(Conflict) <==>
      && Offered(db, call.req.planId) && call.req.latest.Some? && call.req.latest.value in db.subs
      && db.subs[call.req.latest.value].status == Active
    ensures Handle(db, call).Err? ==> Handle(db, call).error == NotFound || Handle(db, call).error == Conflict
    ensures Handle(db, call).Ok? ==>
      var n := db.nextId;
      Becomes(db, Serve(db, call), call.now,
        db.subs[n := Subscription(call.req.user, call.req.planId, Registered, None, None, None, None, call.now)],
        db.payments[n + 1 := Payment(n, call.req.user, Pending, call.req.provider, None, None)], db.devices)
  {
    if call.req.latest.Some? {
      assert call.req.latest.value in SubsOf(db, call.req.user, {Registered, PaymentPending, Active});
    }
    if Handle(db, call).Ok? {
      ServeWhole(db, call, 2);
    }
  }

  /** Without an active subscription an offered plan can be bought; with active ones and no other open one it cannot. */
  lemma PurchaseWhileActive(db: Db, call: Call)
    requires Legal(db, call) && call.req.Purchase? && Offered(db, call.req.planId)
    ensures !HasSub(db, call.req.user, Active) ==> Handle(db, call).Ok?
    ensures
      && HasSub(db, call.req.user, Active)
      && !HasSub(db, call.req.user, Registered) && !HasSub(db, call.req.user, PaymentPending)
      ==> Handle(db, call) == Err(Conflict)
  {
    var open := SubsOf(db, call.req.user, {Registered, PaymentPending, Active});
    if HasSub(db, call.req.user, Active) {
      var s :| s in db.subs && db.subs[s].userId == call.req.user && db.subs[s].status == Active;
      assert s in open;
    }
    if call.req.latest.Some? {
      assert call.req.latest.value in open;
    }
  }

  /** A renewal is refused exactly without an active subscription; otherwise the newest one awaits a new payment. */
  lemma RenewExactly(db: Db, call: Call)
    requires SubsOk(db.subs, db.plans) && Legal(db, call) && call.req.Renew?
    ensures Handle(db, call).Ok? <==> HasSub(db, call.req.user, Active)
    ensures Handle(db, call).Err? ==> Handle(db, call).error == NotFound
    ensures Handle(db, call).Ok? ==>
      && call.req.latest.Some? && call.req.latest.value in db.subs
      && var s := call.req.latest.value;
         Becomes(db, Serve(db, call), call.now, db.subs[s := db.subs[s].(status := PaymentPending)],
           db.payments[db.nextId := Payment(s, call.req.user, Pending, call.req.provider, None, None)], db.devices)
  {
    ActiveAnswered(db, call.req.user, call.req.latest);
    if Handle(db, call).Ok? {
      RenewShape(db, call);
      ServeWhole(db, call, 2);
    }
  }

  lemma ActiveAnswered(db: Db, user: Id, latest: Option<Id>)
    requires AnswersLatest(db, latest, SubsOf(db, user, {Active}))
    ensures latest.Some? <==> HasSub(db, user, Active)
    ensures latest.Some? ==>
      latest.value in db.subs && db.subs[latest.value].userId == user && db.subs[latest.value].status == Active
  {
    var active := SubsOf(db, user, {Active});
    if HasSub(db, user, Active) {
      var s :| s in db.subs && db.subs[s].userId == user && db.subs[s].status == Active;
      assert s in active;
    }
    if latest.Some? {
      assert active != {} && latest.value in active;
    }
  }

  /**
   * A cancellation is refused exactly without an active subscription. It cancels the newest one and
   * suspends exactly the customer's devices on it, revoked ones included.
   */
  lemma CancelExactly(db: Db, call: Call)
    requires Legal(db, call) && call.req.Cancel?
    ensures Handle(db, call).Ok? <==> HasSub(db, call.req.user, Active)
    ensures Handle(db, call).Err? ==> Handle(db, call).error == NotFound
    ensures Handle(db, call).Ok? ==>
      && call.req.latest.Some? && call.req.latest.value in db.subs
      && var s, after := call.req.latest.value, Serve(db, call);
         && Becomes(db, after, call.now, db.subs[s := db.subs[s].(status := Cancelled, canceledAt := Some(call.now))],
                    db.payments, after.devices)
         && Marks(db, after, (x: Device) => x.userId == call.req.user && x.subId == Some(s), Suspended)
  {
    ActiveAnswered(db, call.req.user, call.req.latest);
    if Handle(db, call).Ok? {
      ServeWhole(db, call, 2);
    }
  }

  // ---------------------------------------------------------------- paying

  /**
   * An accepted verification marks the payment successful now, under the reference given or else one
   * of its own, and makes its subscription active from now on for the days of its plan.
   */
  lemma VerifyWritesExactly(db: Db, call: Call)
    requires Invariant(db) && Legal(db, call) && call.req.VerifyPayment? && Handle(db, call).Ok?
    ensures call.req.payId in db.payments && db.payments[call.req.payId].subId in db.subs
    ensures var p, s, after := call.req.payId, db.payments[call.req.payId].subId, Serve(db, call);
            && after.payments == db.payments[p := db.payments[p].(status := Succeeded, paidAt := Some(call.now),
                 reference := Some(match call.req.reference case Some(text) => Given(text) case None => Generated(p)))]
            && db.subs[s].planId in db.plans
            && after.subs == db.subs[s := db.subs[s].(status := Active, startedAt := Some(call.now),
                 expiresAt := Some(call.now + 86_400_000 * db.plans[db.subs[s].planId].durationDays))]
            && after.devices == db.devices && after.plans == db.plans
  {
    VerifyShape(db, call);
    ServeWhole(db, call, 2);
  }

  /** The features that get an entitlement by the verification are the enabled ones that had none. */
  lemma VerifyGrantsExactly(db: Db, call: Call, e: Id)
    requires Invariant(db) && Legal(db, call) && call.req.VerifyPayment? && Handle(db, call).Ok?
    requires e in Serve(db, call).ents && e !in db.ents
    ensures call.req.payId in db.payments && db.payments[call.req.payId].subId in db.subs
    ensures var s, ent := db.payments[call.req.payId].subId, Serve(db, call).ents[e];
            && ent.subId == s && ent.userId == call.req.user && ent.active && ent.startedAt == Some(call.now)
            && s in Serve(db, call).subs && ent.expiresAt == Serve(db, call).subs[s].expiresAt
            && db.subs[s].planId in db.plans && EnabledIn(db.plans[db.subs[s].planId].features, ent.feature)
            && forall f :: f in db.ents && db.ents[f].subId == s ==> db.ents[f].feature != ent.feature
  {
    var db0, ws := Tick(db, call.now), Handle(db, call).value;
    VerifyShape(db, call);
    ServeWhole(db, call, 2);
    var db1, s, row := Apply(db0, ws[0]), ws[0].id, VerifyRow(db, call);
    assert |ws| == 2;
    GrantedRows(db1, s, row, e);
    var ent := Serve(db, call).ents[e];
    forall f | f in db.ents && db.ents[f].subId == s ensures db.ents[f].feature != ent.feature {
      assert Covered(db.ents[f], db.subs, db.plans);
      assert db1.ents[f].feature in ActiveFeatures(db1, s);
    }
  }

  // ---------------------------------------------------------------- devices

  /** The customer has an unrevoked device of that name. */
  ghost predicate HasDevice(db: Db, user: Id, name: string) {
    exists d :: d in db.devices && Mine(db.devices[d], user, name)
  }

  /** The customer's devices of that name, revoked or not. */
  function Owned(user: Id, name: string): Device -> bool {
    (x: Device) => x.userId == user && x.deviceId == name
  }

  predicate Mine(device: Device, user: Id, name: string) {
    device.userId == user && device.deviceId == name && device.status != Revoked
  }

  lemma HasDeviceSet(db: Db, user: Id, name: string)
    ensures HasDevice(db, user, name) <==> DevicesOf(db, user) * Named(db, name) != {}
  {
    if HasDevice(db, user, name) {
      var d :| d in db.devices && Mine(db.devices[d], user, name);
      assert d in DevicesOf(db, user) * Named(db, name);
    }
  }

  /** A request whose one write gives the status to the devices satisfying `hit` that lack it. */
  lemma PutMarks(db: Db, call: Call, changed: map<Id, Device>, hit: Device -> bool, status: DeviceStatus)
    requires Handle(db, call) == Ok([PutDevices(changed)])
    requires forall d :: d in changed ==>
      d in db.devices && hit(db.devices[d]) && changed[d] == db.devices[d].(status := status)
    requires forall d :: d in db.devices && hit(db.devices[d]) && d !in changed ==> db.devices[d].status == status
    ensures Becomes(db, Serve(db, call), call.now, db.subs, db.payments, Serve(db, call).devices)
    ensures Marks(db, Serve(db, call), hit, status)
  {
    ServeWhole(db, call, 2);
    assert Serve(db, call) == Apply(Tick(db, call.now), PutDevices(changed));
  }

  /**
   * A revocation is refused exactly when the customer has no unrevoked device of that name. It
   * leaves every device of that customer and name revoked and changes nothing else.
   */
  lemma RevokeExactly(db: Db, call: Call)
    requires call.req.RevokeDevice?
    ensures Handle(db, call).Ok? <==> HasDevice(db, call.req.user, call.req.deviceId)
    ensures Handle(db, call).Err? ==> Handle(db, call).error == NotFound
    ensures Handle(db, call).Ok? ==>
      && Becomes(db, Serve(db, call), call.now, db.subs, db.payments, Serve(db, call).devices)
      && Marks(db, Serve(db, call), Owned(call.req.user, call.req.deviceId), Revoked)
  {
    var user, name := call.req.user, call.req.deviceId;
    HasDeviceSet(db, user, name);
    if Handle(db, call).Ok? {
      var changed := map d | d in DevicesOf(db, user) * Named(db, name) :: db.devices[d].(status := Revoked);
      PutMarks(db, call, changed, Owned(user, name), Revoked);
    }
  }

  /** After an accepted revocation neither a connect, whatever the join answers, nor a revocation finds the device. */
  lemma RevokedIsGone(db: Db, call: Call, ent: Option<Id>, now: int)
    requires call.req.RevokeDevice? && Handle(db, call).Ok?
    ensures Handle(Serve(db, call), Call(Connect(call.req.user, call.req.deviceId, ent), now)) == Err(NotFound)
    ensures Handle(Serve(db, call), Call(RevokeDevice(call.req.user, call.req.deviceId), now)) == Err(NotFound)
  {
    RevokeExactly(db, call);
    var after, user, name := Serve(db, call), call.req.user, call.req.deviceId;
    forall d | d in after.devices ensures !Mine(after.devices[d], user, name) {
      assert MarkedIf(db.devices[d], after.devices[d], Owned(user, name), Revoked);
    }
    HasDeviceSet(after, user, name);
  }

  /** The entitlement is the customer's to connect, active and unexpired. */
  ghost predicate LetsConnect(db: Db, e: Id, user: Id, now: int)
    requires e in db.ents
  {
    && db.ents[e].userId == user && db.ents[e].feature == "connect" && db.ents[e].active
    && forall t :: db.ents[e].expiresAt == Some(t) ==> now < t
  }

  /** The customer's device of that name is on an active subscription that has not run out. */
  ghost predicate OnActive(db: Db, user: Id, name: string, now: int) {
    exists d :: d in db.devices && Mine(db.devices[d], user, name) &&
      exists s :: db.devices[d].subId == Some(s) && s in db.subs && db.subs[s].status == Active &&
        forall t :: db.subs[s].expiresAt == Some(t) ==> now < t
  }

  /**
   * A connect finds no device exactly when the customer has no unrevoked one of that name, and is
   * accepted exactly when that device is on an active, unexpired subscription and the answered
   * entitlement is active and unexpired.
   */
  lemma ConnectAnswersExactly(db: Db, call: Call)
    requires Invariant(db) && Legal(db, call) && call.req.Connect?
    ensures Handle(db, call) == Err(NotFound) <==> !HasDevice(db, call.req.user, call.req.deviceId)
    ensures Handle(db, call).Ok? <==>
      && OnActive(db, call.req.user, call.req.deviceId, call.now)
      && call.req.ent.Some? && call.req.ent.value in db.ents
      && LetsConnect(db, call.req.ent.value, call.req.user, call.now)
    ensures Handle(db, call).Err? ==> Handle(db, call).error == NotFound || Handle(db, call).error == Forbidden
  {
    var user, name := call.req.user, call.req.deviceId;
    HasDeviceSet(db, user, name);
    ConnectAnswered(db, user, name, call.req.ent, call.now);
    OnActiveIsReady(db, user, name, call.now);
  }

  /** An accepted connect marks every device of the name as in use and changes nothing else. */
  lemma ConnectWritesExactly(db: Db, call: Call)
    requires call.req.Connect? && Handle(db, call).Ok?
    ensures Becomes(db, Serve(db, call), call.now, db.subs, db.payments, Serve(db, call).devices)
    ensures Marks(db, Serve(db, call), (x: Device) => x.deviceId == call.req.deviceId, InUse)
  {
    var changed := map d | d in Named(db, call.req.deviceId) :: db.devices[d].(status := InUse);
    PutMarks(db, call, changed, (x: Device) => x.deviceId == call.req.deviceId, InUse);
  }

  lemma OnActiveIsReady(db: Db, user: Id, name: string, now: int)
    ensures OnActive(db, user, name, now) <==> Ready(db, user, name, now)
  {
    if OnActive(db, user, name, now) {
      var d, s :| d in db.devices && Mine(db.devices[d], user, name) && db.devices[d].subId == Some(s) &&
        s in db.subs && db.subs[s].status == Active && forall t :: db.subs[s].expiresAt == Some(t) ==> now < t;
      assert d in DevicesOf(db, user) * Named(db, name) && OnLiveSubscription(db, d, now);
    }
    if Ready(db, user, name, now) {
      var d :| d in DevicesOf(db, user) * Named(db, name) && OnLiveSubscription(db, d, now);
      assert Mine(db.devices[d], user, name) && db.devices[d].subId == Some(db.devices[d].subId.value);
    }
  }

  /**
   * A disconnect is refused exactly when the customer has no device of that name, revoked or not. It
   * makes every one of them enrolled and changes nothing else.
   */
  lemma DisconnectExactly(db: Db, call: Call)
    requires call.req.Disconnect?
    ensures Handle(db, call).Ok? <==>
      exists d :: d in db.devices && Owned(call.req.user, call.req.deviceId)(db.devices[d])
    ensures Handle(db, call).Err? ==> Handle(db, call).error == NotFound
    ensures Handle(db, call).Ok? ==>
      && Becomes(db, Serve(db, call), call.now, db.subs, db.payments, Serve(db, call).devices)
      && Marks(db, Serve(db, call), Owned(call.req.user, call.req.deviceId), Enrolled)
  {
    if exists d :: d in db.devices && Owned(call.req.user, call.req.deviceId)(db.devices[d]) {
      var d :| d in db.devices && Owned(call.req.user, call.req.deviceId)(db.devices[d]);
      assert d in Held(db, call.req.user, call.req.deviceId);
    }
    if Handle(db, call).Ok? {
      var changed := map d | d in Held(db, call.req.user, call.req.deviceId) :: db.devices[d].(status := Enrolled);
      PutMarks(db, call, changed, Owned(call.req.user, call.req.deviceId), Enrolled);
    }
  }

  ghost predicate MayConnect(db: Db, user: Id, now: int) {
    exists e :: e in db.ents && LetsConnect(db, e, user, now)
  }

  /** How many unrevoked devices the customer has. */
  function DeviceCount(db: Db, user: Id): nat {
    |set d | d in db.devices && db.devices[d].userId == user && db.devices[d].status != Revoked|
  }

  /**
   * An enrollment is forbidden exactly without a live entitlement to connect, and otherwise accepted
   * exactly when the customer is below the limit and nobody's device has that name.
   */
  lemma EnrollExactly(db: Db, call: Call)
    requires Legal(db, call) && call.req.Enroll?
    ensures Handle(db, call) == Err(Forbidden) <==> !MayConnect(db, call.req.user, call.now)
    ensures Handle(db, call).Ok? <==>
      && MayConnect(db, call.req.user, call.now) && DeviceCount(db, call.req.user) < DeviceLimit(db, call.req.sub)
      && forall d :: d in db.devices ==> db.devices[d].deviceId != call.req.deviceId
    ensures Handle(db, call) == Err(Conflict) <==>
      && MayConnect(db, call.req.user, call.now)
      && (|| DeviceCount(db, call.req.user) >= DeviceLimit(db, call.req.sub)
          || HasDevice(db, call.req.user, call.req.deviceId))
    ensures Handle(db, call) == Err(Constraint) <==>
      && MayConnect(db, call.req.user, call.now) && DeviceCount(db, call.req.user) < DeviceLimit(db, call.req.sub)
      && !HasDevice(db, call.req.user, call.req.deviceId)
      && exists d :: d in db.devices && db.devices[d].deviceId == call.req.deviceId
    ensures Handle(db, call).Ok? ==>
      Becomes(db, Serve(db, call), call.now, db.subs, db.payments,
        db.devices[db.nextId := Device(call.req.user, call.req.sub, call.req.deviceId, Enrolled)])
  {
    var user, name := call.req.user, call.req.deviceId;
    HasDeviceSet(db, user, name);
    LiveIsMayConnect(db, user, call.now);
    assert DevicesOf(db, user) == set d | d in db.devices && db.devices[d].userId == user
                                          && db.devices[d].status != Revoked;
    forall d | d in db.devices && db.devices[d].deviceId == name ensures Named(db, name) != {} {
      assert d in Named(db, name);
    }
    if Handle(db, call).Ok? {
      ServeWhole(db, call, 2);
    }
  }

  lemma LiveIsMayConnect(db: Db, user: Id, now: int)
    ensures MayConnect(db, user, now) <==> LiveEntitlements(db, user, now) != {}
  {
    if MayConnect(db, user, now) {
      var e :| e in db.ents && LetsConnect(db, e, user, now);
      assert e in LiveEntitlements(db, user, now);
    }
    if LiveEntitlements(db, user, now) != {} {
      var e :| e in LiveEntitlements(db, user, now);
    }
  }

  /** The limit is that of the plan of the answered active subscription, or one without any. */
  lemma LimitExactly(db: Db, call: Call)
    requires SubsOk(db.subs, db.plans) && Legal(db, call) && call.req.Enroll?
    ensures if HasSub(db, call.req.user, Active)
            then exists s :: s in db.subs && db.subs[s].userId == call.req.user && db.subs[s].status == Active &&
                   db.subs[s].planId in db.plans &&
                   DeviceLimit(db, call.req.sub) == db.plans[db.subs[s].planId].maxDevices
            else DeviceLimit(db, call.req.sub) == 1
  {
    var active := SubsOf(db, call.req.user, {Active});
    if HasSub(db, call.req.user, Active) {
      var s :| s in db.subs && db.subs[s].userId == call.req.user && db.subs[s].status == Active;
      assert s in active;
      assert call.req.sub.value in active;
    } else {
      assert active == {};
    }
  }

  // ---------------------------------------------------------------- how long a revocation lasts

  /** The request brings back the revoked device `d`: it disconnects its name or cancels its subscription. */
  ghost predicate Revives(db: Db, call: Call, k: nat, d: Id)
    requires d in db.devices
  {
    match call.req
    case Disconnect(user, name) => k >= 1 && db.devices[d].userId == user && db.devices[d].deviceId == name
    case Cancel(user, latest) =>
      k >= 2 && db.devices[d].userId == user && latest.Some? && db.devices[d].subId == latest
    case _ => false
  }

  lemma DevicesAtStop(db: Db, call: Call, k: nat)
    requires Handle(db, call).Ok?
    ensures ServeUpTo(db, call, k).devices ==
      if k >= 2 || (k == 1 && OnDevices(call.req)) then Serve(db, call).devices else db.devices
  {
    var ws := Handle(db, call).value;
    ServeWhole(db, call, 2);
    if k >= 2 {
      ServeWhole(db, call, k);
    } else if k == 1 {
      assert ws[..1] == [ws[0]];
      ApplyTwo(Tick(db, call.now), [ws[0]]);
    } else {
      assert ws[..0] == [];
    }
  }

  /** The device `d` after the request served to its end, if it was revoked before. */
  ghost predicate RevivedIf(db: Db, call: Call, d: Id)
    requires d in db.devices
  {
    && d in Serve(db, call).devices
    && var device := Serve(db, call).devices[d];
       device == db.devices[d].(status := device.status) && (device.status != Revoked <==> Revives(db, call, 2, d))
  }

  lemma BillingRevives(db: Db, call: Call, d: Id)
    requires Invariant(db) && Legal(db, call) && d in db.devices && db.devices[d].status == Revoked
    requires !OnDevices(call.req)
    ensures RevivedIf(db, call, d)
  {
    match call.req
    case Purchase(_, _, _, _) => PurchaseExactly(db, call);
    case VerifyPayment(_, _, _) => if Handle(db, call).Ok? { VerifyWritesExactly(db, call); }
    case Renew(_, _, _) => RenewExactly(db, call);
    case Cancel(user, latest) =>
      CancelExactly(db, call);
      ActiveAnswered(db, user, latest);
  }

  lemma ConnectRevives(db: Db, call: Call, d: Id)
    requires Invariant(db) && Legal(db, call) && d in db.devices && db.devices[d].status == Revoked
    requires call.req.Connect?
    ensures RevivedIf(db, call, d)
  {
    ConnectAnswersExactly(db, call);
    if Handle(db, call).Ok? {
      ConnectWritesExactly(db, call);
      var c :| c in db.devices && Mine(db.devices[c], call.req.user, call.req.deviceId);
      assert c != d;
      assert db.devices[d].deviceId != call.req.deviceId;
    }
  }

  lemma DeviceRevives(db: Db, call: Call, d: Id)
    requires Invariant(db) && Legal(db, call) && d in db.devices && db.devices[d].status == Revoked
    requires OnDevices(call.req)
    ensures RevivedIf(db, call, d)
  {
    match call.req
    case Enroll(_, _, _, _) => EnrollExactly(db, call);
    case RevokeDevice(_, _) => RevokeExactly(db, call);
    case Connect(_, _, _) => ConnectRevives(db, call, d);
    case Disconnect(user, name) =>
      DisconnectExactly(db, call);
      assert Owned(user, name)(db.devices[d]) <==> db.devices[d].userId == user && db.devices[d].deviceId == name;
  }

  /**
   * Of all requests, wherever they stop, exactly those two take a revocation back; a request never
   * removes a device or changes its owner, name or subscription.
   */
  lemma RevivedExactly(db: Db, call: Call, k: nat, d: Id)
    requires Invariant(db) && Legal(db, call) && d in db.devices && db.devices[d].status == Revoked
    ensures var after := ServeUpTo(db, call, k);
            && d in after.devices && after.devices[d] == db.devices[d].(status := after.devices[d].status)
            && (after.devices[d].status != Revoked <==> Revives(db, call, k, d))
  {
    if OnDevices(call.req) {
      DeviceRevives(db, call, d);
    } else {
      BillingRevives(db, call, d);
    }
    if Handle(db, call).Ok? {
      DevicesAtStop(db, call, k);
    }
  }

  /** No request of the run takes the revocation of `d` back. */
  ghost predicate NeverRevived(db: Db, events: seq<Event>, d: Id)
    decreases events
  {
    events != [] ==>
      && (d in db.devices ==> !Revives(db, events[0].call, events[0].writes, d))
      && NeverRevived(ServeUpTo(db, events[0].call, events[0].writes), events[1..], d)
  }

  lemma RevokedIsNotFound(db: Db, d: Id, ent: Option<Id>, now: int)
    requires DevicesUnique(db.devices) && d in db.devices && db.devices[d].status == Revoked
    ensures Handle(db, Call(Connect(db.devices[d].userId, db.devices[d].deviceId, ent), now)) == Err(NotFound)
    ensures Handle(db, Call(RevokeDevice(db.devices[d].userId, db.devices[d].deviceId), now)) == Err(NotFound)
  {
    var user, name := db.devices[d].userId, db.devices[d].deviceId;
    HasDeviceSet(db, user, name);
  }

  /**
   * Over every run, complete or stopped: until a request takes it back, a revoked device stays
   * revoked and its owner can neither connect nor revoke it, whatever is bought meanwhile.
   */
  lemma {:induction false} RevokedUntilRevived(db: Db, events: seq<Event>, d: Id, ent: Option<Id>, now: int)
    requires Invariant(db) && LegalRun(db, events) && NeverRevived(db, events, d)
    requires d in db.devices && db.devices[d].status == Revoked
    ensures var after, device := Run(db, events), db.devices[d];
            && d in after.devices && after.devices[d] == device
            && Handle(after, Call(Connect(device.userId, device.deviceId, ent), now)) == Err(NotFound)
            && Handle(after, Call(RevokeDevice(device.userId, device.deviceId), now)) == Err(NotFound)
    decreases events
  {
    if events == [] {
      RevokedIsNotFound(db, d, ent, now);
    } else {
      var call, k := events[0].call, events[0].writes;
      StepKeeps(db, call, k);
      RevivedExactly(db, call, k, d);
      RevokedUntilRevived(ServeUpTo(db, call, k), events[1..], d, ent, now);
    }
  }

  /** The state after a customer's revocation of a device and a disconnect of it. */
  function RevokedAndBack(db: Db, user: Id, name: string, t: int): Db {
    Serve(Serve(db, Call(RevokeDevice(user, name), t)), Call(Disconnect(user, name), t))
  }

  lemma RevokedAndBackRows(db: Db, user: Id, name: string, t: int)
    requires Invariant(db) && db.clock <= t && HasDevice(db, user, name)
    ensures var back := RevokedAndBack(db, user, name, t);
            && Becomes(db, back, t, db.subs, db.payments, back.devices)
            && Marks(db, back, Owned(user, name), Enrolled)
  {
    var revoke, disconnect := Call(RevokeDevice(user, name), t), Call(Disconnect(user, name), t);
    var revoked := Serve(db, revoke);
    RevokeExactly(db, revoke);
    var d :| d in db.devices && Mine(db.devices[d], user, name);
    assert MarkedIf(db.devices[d], revoked.devices[d], Owned(user, name), Revoked);
    assert d in revoked.devices && Owned(user, name)(revoked.devices[d]);
    DisconnectExactly(revoked, disconnect);
    BackRows(db, revoked, RevokedAndBack(db, user, name, t), user, name);
  }

  lemma RevokedAndBackKeeps(db: Db, user: Id, name: string, t: int)
    requires Invariant(db) && db.clock <= t
    ensures Invariant(RevokedAndBack(db, user, name, t))
  {
    var revoke, disconnect := Call(RevokeDevice(user, name), t), Call(Disconnect(user, name), t);
    StepKeeps(db, revoke, 2);
    assert Serve(db, revoke).clock <= t by {
      if Handle(db, revoke).Ok? {
        ServeWhole(db, revoke, 2);
      }
    }
    StepKeeps(Serve(db, revoke), disconnect, 2);
  }

  lemma BackRows(db: Db, revoked: Db, back: Db, user: Id, name: string)
    requires Marks(db, revoked, Owned(user, name), Revoked)
    requires Marks(revoked, back, Owned(user, name), Enrolled)
    ensures Marks(db, back, Owned(user, name), Enrolled)
  {
    forall d | d in db.devices
      ensures MarkedIf(db.devices[d], back.devices[d], Owned(user, name), Enrolled)
    {
      assert MarkedIf(db.devices[d], revoked.devices[d], Owned(user, name), Revoked);
      assert MarkedIf(revoked.devices[d], back.devices[d], Owned(user, name), Enrolled);
    }
  }

  /**
   * A disconnect undoes a revocation: once a customer has revoked a device and then disconnected it,
   * a connect is accepted in just the cases in which it was before.
   */
  lemma DisconnectUndoesRevocation(db: Db, t: int, connect: Call)
    requires Invariant(db) && db.clock <= t <= connect.now && Legal(db, connect) && connect.req.Connect?
    requires HasDevice(db, connect.req.user, connect.req.deviceId)
    ensures var back := RevokedAndBack(db, connect.req.user, connect.req.deviceId, t);
            Legal(back, connect) && (Handle(back, connect).Ok? <==> Handle(db, connect).Ok?)
  {
    RevokedAndBackRows(db, connect.req.user, connect.req.deviceId, t);
    RevokedAndBackKeeps(db, connect.req.user, connect.req.deviceId, t);
    BackAlike(db, RevokedAndBack(db, connect.req.user, connect.req.deviceId, t), t, connect);
  }

  lemma BackAlike(db: Db, back: Db, t: int, connect: Call)
    requires Invariant(db) && Invariant(back) && db.clock <= t <= connect.now
    requires Legal(db, connect) && connect.req.Connect? && HasDevice(db, connect.req.user, connect.req.deviceId)
    requires Becomes(db, back, t, db.subs, db.payments, back.devices)
    requires Marks(db, back, Owned(connect.req.user, connect.req.deviceId), Enrolled)
    ensures Legal(back, connect) && (Handle(back, connect).Ok? <==> Handle(db, connect).Ok?)
  {
    var user, name := connect.req.user, connect.req.deviceId;
    assert ConnectEntitlements(back, user) == ConnectEntitlements(db, user);
    var d :| d in db.devices && Mine(db.devices[d], user, name);
    assert MarkedIf(db.devices[d], back.devices[d], Owned(user, name), Enrolled);
    SameOnActive(db, back, d, connect.now);
    ConnectAlike(db, back, connect);
  }

  /** Connect is decided by the device's subscription and the answered entitlement. */
  lemma ConnectAlike(a: Db, b: Db, connect: Call)
    requires Invariant(a) && Invariant(b) && connect.req.Connect? && Legal(a, connect) && Legal(b, connect)
    requires a.ents == b.ents
    requires OnActive(a, connect.req.user, connect.req.deviceId, connect.now)
      <==> OnActive(b, connect.req.user, connect.req.deviceId, connect.now)
    ensures Handle(b, connect).Ok? <==> Handle(a, connect).Ok?
  {
    ConnectAnswersExactly(a, connect);
    ConnectAnswersExactly(b, connect);
  }

  /** The device is unrevoked in both states, which agree on whether it is on an active subscription. */
  lemma SameOnActive(a: Db, b: Db, d: Id, now: int)
    requires DevicesUnique(a.devices) && DevicesUnique(b.devices) && a.subs == b.subs
    requires d in a.devices && d in b.devices && b.devices[d] == a.devices[d].(status := b.devices[d].status)
    requires a.devices[d].status != Revoked && b.devices[d].status != Revoked
    ensures OnActive(a, a.devices[d].userId, a.devices[d].deviceId, now)
      <==> OnActive(b, a.devices[d].userId, a.devices[d].deviceId, now)
  {
  }
}
