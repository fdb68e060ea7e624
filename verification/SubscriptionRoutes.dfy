/** The route handlers as they run: queries and statements in order, over the tables. */
module SubscriptionRoutes {
  import opened Prelude
  import opened Subscriptions
  import opened SubscriptionRuns
  import opened SubscriptionGuarantees
  import opened SubscriptionLaws
  import opened EntitlementInsert

  /** Looking at one more row keeps the latest of those seen. */
  lemma LatestOfMore(db: Db, latest: Option<Id>, seen: set<Id>, s: Id)
    requires AnswersLatest(db, latest, seen) && s in db.subs && seen <= db.subs.Keys
    ensures AnswersLatest(db,
      if latest.None? || db.subs[s].createdAt > db.subs[latest.value].createdAt then Some(s) else latest, seen + {s})
  {
  }

  /** A request without the query answers it was served with. */
  function Asked(req: Request): Request {
    match req
    case Purchase(user, planId, provider, _) => Purchase(user, planId, provider, None)
    case Renew(user, provider, _) => Renew(user, provider, None)
    case Cancel(user, _) => Cancel(user, None)
    case Enroll(user, deviceId, _, _) => Enroll(user, deviceId, None, None)
    case Connect(user, deviceId, _) => Connect(user, deviceId, None)
    case _ => req
  }

  class SubscriptionApi {
    const plans: map<Id, Plan>
    var subs: map<Id, Subscription>
    var payments: map<Id, Payment>
    var ents: map<Id, Entitlement>
    var devices: map<Id, Device>
    var clock: int
    var nextId: Id

    function Tables(): Db
      reads this
    {
      Db(plans, subs, payments, ents, devices, clock, nextId)
    }

    ghost predicate Valid()
      reads this
    {
      Invariant(Tables())
    }

    constructor (plans: map<Id, Plan>, clock: int)
      ensures Tables() == Initial(plans, clock) && (PlansOk(plans) ==> Valid())
    {
      this.plans := plans;
      subs, payments, ents, devices := map[], map[], map[], map[];
      this.clock, nextId := clock, 0;
    }

    /** `crypto.randomUUID()`: an identifier never handed out before. */
    method FreshId() returns (id: Id)
      modifies this`nextId
      ensures id == old(nextId) && nextId == id + 1
    {
      id := nextId;
      nextId := nextId + 1;
    }

    /** `SELECT … ORDER BY "createdAt" DESC LIMIT 1` over the customer's subscriptions in some statuses. */
    method LatestSubscription(user: Id, statuses: set<SubStatus>) returns (latest: Option<Id>)
      ensures AnswersLatest(Tables(), latest, SubsOf(Tables(), user, statuses))
    {
      latest := None;
      var rest, seen := SubsOf(Tables(), user, statuses), {};
      while rest != {}
        invariant rest + seen == SubsOf(Tables(), user, statuses) && AnswersLatest(Tables(), latest, seen)
        decreases |rest|
      {
        var s :| s in rest;
        LatestOfMore(Tables(), latest, seen, s);
        if latest.None? || subs[s].createdAt > subs[latest.value].createdAt {
          latest := Some(s);
        }
        rest, seen := rest - {s}, seen + {s};
      }
    }

    method Purchase(user: Id, planId: Id, provider: string, now: int)
      returns (outcome: Result<(Id, Id), Error>, latest: Option<Id>)
      modifies this
      ensures var db, call := old(Tables()), Call(Request.Purchase(user, planId, provider, latest), now);
              && AnswersLatest(db, latest, SubsOf(db, user, {Registered, PaymentPending, Active}))
              && Tables() == Serve(db, call)
              && outcome.Ok? == Handle(db, call).Ok? && (outcome.Err? ==> outcome.error == Handle(db, call).error)
    {
      latest := LatestSubscription(user, {Registered, PaymentPending, Active});
      ghost var db, call := Tables(), Call(Request.Purchase(user, planId, provider, latest), now);
      clock := Max(clock, now);
      if planId !in plans || !plans[planId].isActive {
        return Err(NotFound), latest;
      }
      if latest.Some? && subs[latest.value].status == Active {
        return Err(Conflict), latest;
      }
      ServeWhole(db, call, 2);
      var subId := FreshId();
      subs := subs[subId := Subscription(user, planId, Registered, None, None, None, None, now)];
      var txId := FreshId();
      payments := payments[txId := Payment(subId, user, Pending, provider, None, None)];
      outcome := Ok((subId, txId));
    }

    method CheckPayment(user: Id, payId: Id, reference: Option<string>) returns (problem: Option<Error>)
      ensures problem == VerifyError(Tables(), user, payId, reference)
    {
      if payId !in payments || payments[payId].userId != user || payments[payId].subId !in subs {
        return Some(NotFound);
      }
      var tx := payments[payId];
      var subStatus := subs[tx.subId].status;
      if tx.status != Pending {
        return Some(Conflict);
      }
      if subStatus != Registered && subStatus != PaymentPending {
        return Some(Conflict);
      }
      if tx.provider != "test" {
        return Some(NotConfigured);
      }
      if ReferenceTaken(Tables(), ReferenceFor(payId, reference)) {
        return Some(Constraint);
      }
      problem := None;
    }

    method ActivatePaid(user: Id, payId: Id, reference: Option<string>, now: int)
      requires payId in payments && payments[payId].subId in subs
      modifies this
      ensures Tables() == old(ApplyAll(Tables(), VerifyWrites(Tables(), user, payId, reference, now)))
    {
      ghost var db := Tables();
      var tx := payments[payId];
      var s, sub := tx.subId, subs[tx.subId];
      var durationDays := if sub.planId in plans then plans[sub.planId].durationDays else 30;
      var isRenewal := sub.status == Active;
      var expiresAt := Some(BaseDate(isRenewal, sub.expiresAt, now) + Days(durationDays));
      var startedAt := if isRenewal then None else Some(now);
      subs := subs[s := sub.(status := Active, expiresAt := expiresAt,
                             startedAt := if startedAt.Some? then startedAt else sub.startedAt,
                             renewedAt := if isRenewal then Some(now) else sub.renewedAt)];
      var providerRef := ReferenceFor(payId, reference);
      payments := payments[payId := tx.(status := Succeeded, reference := Some(providerRef), paidAt := Some(now))];
      assert ActiveFeatures(Tables(), s) == ActiveFeatures(db, s);
      IssueEntitlements(Entitlement(s, user, "", true, startedAt, expiresAt), PlanFeatures(Tables(), sub.planId), now);
      ApplyTwo(db, VerifyWrites(db, user, payId, reference, now));
    }

    method VerifyPayment(user: Id, payId: Id, reference: Option<string>, now: int) returns (outcome: Result<Id, Error>)
      modifies this
      ensures var db, call := old(Tables()), Call(Request.VerifyPayment(user, payId, reference), now);
              && Tables() == Serve(db, call)
              && outcome.Ok? == Handle(db, call).Ok? && (outcome.Err? ==> outcome.error == Handle(db, call).error)
    {
      ghost var db := Tables();
      var problem := CheckPayment(user, payId, reference);
      clock := Max(clock, now);
      if problem.Some? {
        return Err(problem.value);
      }
      ghost var ws := VerifyWrites(db, user, payId, reference, now);
      assert |ws| <= 2 && (if 2 <= |ws| then ws[..2] else ws) == ws;
      assert VerifyWrites(Tables(), user, payId, reference, now) == ws;
      outcome := Ok(payments[payId].subId);
      ActivatePaid(user, payId, reference, now);
    }

    /** The entitlements of an activation: one statement, if any feature is missing. */
    method IssueEntitlements(row: Entitlement, features: seq<Feature>, now: int)
      requires row.active
      modifies this
      ensures var rows := MissingRows(features, old(ActiveFeatures(Tables(), row.subId)), row);
              Tables() == if rows == [] then old(Tables()) else Apply(old(Tables()), AddEntitlements(old(nextId), rows))
    {
      var existing := ActiveFeatures(Tables(), row.subId);
      ghost var rows := MissingRows(features, existing, row);
      var entInserts, entValues, _ := BuildInsert(features, existing, row, nextId, now);
      if |entInserts| > 0 {
        MissingRowsActive(features, existing, row, rows);
        ExecutedInserts(ents, entInserts, entValues, rows, nextId, now);
        ents := Executed(ents, entInserts, entValues);
        nextId := nextId + |entInserts|;
      }
    }

    method Renew(user: Id, provider: string, now: int) returns (outcome: Result<Id, Error>, latest: Option<Id>)
      modifies this
      ensures var db, call := old(Tables()), Call(Request.Renew(user, provider, latest), now);
              && AnswersLatest(db, latest, SubsOf(db, user, {Active})) && Tables() == Serve(db, call)
              && outcome.Ok? == Handle(db, call).Ok? && (outcome.Err? ==> outcome.error == Handle(db, call).error)
    {
      latest := LatestSubscription(user, {Active});
      ghost var db, call := Tables(), Call(Request.Renew(user, provider, latest), now);
      clock := Max(clock, now);
      if latest.None? {
        return Err(NotFound), latest;
      }
      var s := latest.value;
      assert s in SubsOf(db, user, {Active});
      if subs[s].planId !in plans {
        return Err(NotFound), latest;
      }
      ServeWhole(db, call, 2);
      subs := subs[s := subs[s].(status := PaymentPending)];
      var txId := FreshId();
      payments := payments[txId := Payment(s, user, Pending, provider, None, None)];
      outcome := Ok(txId);
    }

    method Cancel(user: Id, now: int) returns (outcome: Result<Id, Error>, latest: Option<Id>)
      modifies this
      ensures var db, call := old(Tables()), Call(Request.Cancel(user, latest), now);
              && AnswersLatest(db, latest, SubsOf(db, user, {Active})) && Tables() == Serve(db, call)
              && outcome.Ok? == Handle(db, call).Ok? && (outcome.Err? ==> outcome.error == Handle(db, call).error)
    {
      latest := LatestSubscription(user, {Active});
      ghost var db, call := Tables(), Call(Request.Cancel(user, latest), now);
      clock := Max(clock, now);
      if latest.None? {
        return Err(NotFound), latest;
      }
      var s := latest.value;
      assert s in SubsOf(db, user, {Active});
      ServeWhole(db, call, 2);
      subs := subs[s := subs[s].(status := Cancelled, canceledAt := Some(now))];
      devices := devices + map d | d in devices && devices[d].userId == user && devices[d].subId == Some(s)
                             :: devices[d].(status := Suspended);
      outcome := Ok(s);
    }

    /** A row of a `LIMIT 1` query without an order. */
    method AnyRow(rows: set<Id>) returns (answer: Option<Id>)
      ensures Answers(answer, rows)
    {
      if rows == {} {
        return None;
      }
      var row :| row in rows;
      answer := Some(row);
    }

    method CheckEnrollment(user: Id, deviceId: string, ent: Option<Id>, sub: Option<Id>)
      returns (problem: Option<Error>)
      ensures problem == EnrollError(Tables(), user, deviceId, ent, sub)
    {
      if ent.None? {
        return Some(Forbidden);
      }
      var maxDevices := 1;
      if sub.Some? && sub.value in subs && subs[sub.value].planId in plans {
        maxDevices := plans[subs[sub.value].planId].maxDevices;
      }
      if |DevicesOf(Tables(), user)| >= maxDevices {
        return Some(Conflict);
      }
      if DevicesOf(Tables(), user) * Named(Tables(), deviceId) != {} {
        return Some(Conflict);
      }
      if Named(Tables(), deviceId) != {} {
        return Some(Constraint);
      }
      problem := None;
    }

    method Enroll(user: Id, deviceId: string, now: int)
      returns (outcome: Result<Id, Error>, ent: Option<Id>, sub: Option<Id>)
      modifies this
      ensures var db, call := old(Tables()), Call(Request.Enroll(user, deviceId, ent, sub), now);
              && Answers(ent, LiveEntitlements(db, user, now)) && Answers(sub, SubsOf(db, user, {Active}))
              && Tables() == Serve(db, call)
              && outcome.Ok? == Handle(db, call).Ok? && (outcome.Err? ==> outcome.error == Handle(db, call).error)
    {
      ent := AnyRow(LiveEntitlements(Tables(), user, now));
      sub := AnyRow(SubsOf(Tables(), user, {Active}));
      ghost var db, call := Tables(), Call(Request.Enroll(user, deviceId, ent, sub), now);
      var problem := CheckEnrollment(user, deviceId, ent, sub);
      clock := Max(clock, now);
      if problem.Some? {
        return Err(problem.value), ent, sub;
      }
      ServeWhole(db, call, 2);
      var devId := FreshId();
      devices := devices[devId := Device(user, sub, deviceId, Enrolled)];
      outcome := Ok(devId);
    }

    method RevokeDevice(user: Id, deviceId: string, now: int) returns (outcome: Result<(), Error>)
      modifies this
      ensures var db, call := old(Tables()), Call(Request.RevokeDevice(user, deviceId), now);
              && Tables() == Serve(db, call)
              && outcome.Ok? == Handle(db, call).Ok? && (outcome.Err? ==> outcome.error == Handle(db, call).error)
      ensures outcome.Ok? <==> old(HasDevice(Tables(), user, deviceId))
      ensures outcome.Ok? ==> Marks(old(Tables()), Tables(), Owned(user, deviceId), Revoked)
    {
      ghost var db, call := Tables(), Call(Request.RevokeDevice(user, deviceId), now);
      RevokeExactly(db, call);
      clock := Max(clock, now);
      var mine := DevicesOf(Tables(), user) * Named(Tables(), deviceId);
      assert mine == DevicesOf(db, user) * Named(db, deviceId);
      if mine == {} {
        return Err(NotFound);
      }
      ServeWhole(db, call, 2);
      devices := devices + map d | d in mine :: devices[d].(status := Revoked);
      outcome := Ok(());
    }

    method Connect(user: Id, deviceId: string, now: int) returns (outcome: Result<(), Error>, ent: Option<Id>)
      modifies this
      ensures var db, call := old(Tables()), Call(Request.Connect(user, deviceId, ent), now);
              && Answers(ent, ConnectEntitlements(db, user)) && Tables() == Serve(db, call)
              && outcome.Ok? == Handle(db, call).Ok? && (outcome.Err? ==> outcome.error == Handle(db, call).error)
    {
      ent := AnyRow(ConnectEntitlements(Tables(), user));
      ghost var db, call := Tables(), Call(Request.Connect(user, deviceId, ent), now);
      clock := Max(clock, now);
      var authz := DevicesOf(Tables(), user) * Named(Tables(), deviceId);
      assert authz == DevicesOf(db, user) * Named(db, deviceId);
      if authz == {} {
        return Err(NotFound), ent;
      }
      if exists d :: d in authz && !Authorized(Tables(), d, ent, now) {
        return Err(Forbidden), ent;
      }
      ServeWhole(db, call, 2);
      devices := devices + map d | d in Named(Tables(), deviceId) :: devices[d].(status := InUse);
      outcome := Ok(());
    }

    method Disconnect(user: Id, deviceId: string, now: int) returns (outcome: Result<(), Error>)
      modifies this
      ensures var db, call := old(Tables()), Call(Request.Disconnect(user, deviceId), now);
              && Tables() == Serve(db, call)
              && outcome.Ok? == Handle(db, call).Ok? && (outcome.Err? ==> outcome.error == Handle(db, call).error)
    {
      ghost var db, call := Tables(), Call(Request.Disconnect(user, deviceId), now);
      clock := Max(clock, now);
      var mine := Held(Tables(), user, deviceId);
      assert mine == Held(db, user, deviceId);
      if mine == {} {
        return Err(NotFound);
      }
      ServeWhole(db, call, 2);
      devices := devices + map d | d in mine :: devices[d].(status := Enrolled);
      outcome := Ok(());
    }

    /**
     * Any route, on consistent tables at a later time: the tables become those of the step for some
     * legal query answers and stay consistent, and an accepted connect is paid for.
     */
    method ServeRoute(asked: Request, now: int) returns (call: Call, refused: bool)
      requires Valid() && clock <= now
      modifies this
      ensures call.now == now && Asked(call.req) == Asked(asked) && Legal(old(Tables()), call)
      ensures Valid() && Tables() == Serve(old(Tables()), call) && refused == Handle(old(Tables()), call).Err?
      ensures call.req.Connect? && !refused ==> ConnectionPaid(old(Tables()), call.req.user, call.req.deviceId, now)
    {
      ghost var before := Tables();
      call, refused := Dispatch(asked, now);
      StepKeeps(before, call, 2);
      if call.req.Connect? && !refused {
        ConnectPaid(before, call);
      }
    }

    method Dispatch(asked: Request, now: int) returns (call: Call, refused: bool)
      requires clock <= now
      modifies this
      ensures call.now == now && Asked(call.req) == Asked(asked) && Legal(old(Tables()), call)
      ensures Tables() == Serve(old(Tables()), call) && refused == Handle(old(Tables()), call).Err?
    {
      match asked
      case Purchase(user, planId, provider, _) =>
        var outcome, latest := Purchase(user, planId, provider, now);
        return Call(Request.Purchase(user, planId, provider, latest), now), outcome.Err?;
      case VerifyPayment(user, payId, reference) =>
        var outcome := VerifyPayment(user, payId, reference, now);
        return Call(asked, now), outcome.Err?;
      case Renew(user, provider, _) =>
        var outcome, latest := Renew(user, provider, now);
        return Call(Request.Renew(user, provider, latest), now), outcome.Err?;
      case Cancel(user, _) =>
        var outcome, latest := Cancel(user, now);
        return Call(Request.Cancel(user, latest), now), outcome.Err?;
      case Enroll(user, deviceId, _, _) =>
        var outcome, ent, sub := Enroll(user, deviceId, now);
        return Call(Request.Enroll(user, deviceId, ent, sub), now), outcome.Err?;
      case RevokeDevice(user, deviceId) =>
        var outcome := RevokeDevice(user, deviceId, now);
        return Call(asked, now), outcome.Err?;
      case Connect(user, deviceId, _) =>
        var outcome, ent := Connect(user, deviceId, now);
        return Call(Request.Connect(user, deviceId, ent), now), outcome.Err?;
      case Disconnect(user, deviceId) =>
        var outcome := Disconnect(user, deviceId, now);
        return Call(asked, now), outcome.Err?;
    }
  }
}
