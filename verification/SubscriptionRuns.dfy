/**
 * Runs of subscription requests. Each request may be served to the end or stop after any of its
 * writes; what every reachable state keeps is proved write by write.
 */
module SubscriptionRuns {
  import opened Prelude
  import opened Subscriptions

  /** A request of which `writes` database writes are carried out. */
  datatype Event = Event(call: Call, writes: nat)

  function Run(db: Db, events: seq<Event>): Db
    decreases events
  {
    if events == [] then db else Run(ServeUpTo(db, events[0].call, events[0].writes), events[1..])
  }

  ghost predicate LegalRun(db: Db, events: seq<Event>)
    decreases events
  {
    events != [] ==>
      && Legal(db, events[0].call)
      && LegalRun(ServeUpTo(db, events[0].call, events[0].writes), events[1..])
  }

  function Initial(plans: map<Id, Plan>, clock: int): Db { Db(plans, map[], map[], map[], map[], clock, 0) }

  // ---------------------------------------------------------------- invariant

  predicate Payable(status: SubStatus) { status == Registered || status == PaymentPending }

  /** Plan features are the members of one JSON object, so their names differ. */
  ghost predicate PlansOk(plans: map<Id, Plan>) {
    forall i :: i in plans ==> NamesDiffer(plans[i].features)
  }

  ghost predicate NamesDiffer(features: seq<Feature>) {
    forall j, k :: 0 <= j < k < |features| ==> features[j].name != features[k].name
  }

  ghost predicate IdsUsed(db: Db) {
    && (forall s :: s in db.subs ==> s < db.nextId)
    && (forall p :: p in db.payments ==> p < db.nextId)
    && (forall e :: e in db.ents ==> e < db.nextId)
    && (forall d :: d in db.devices ==> d < db.nextId)
  }

  ghost predicate SubsOk(subs: map<Id, Subscription>, plans: map<Id, Plan>) {
    forall s :: s in subs ==>
      && subs[s].planId in plans && subs[s].renewedAt.None?
      && subs[s].expiresAt.Some? == subs[s].startedAt.Some?
      && (subs[s].status == Active ==> subs[s].expiresAt.Some?)
  }

  /** `p` is a successful payment for `s` whose paid period is the one the subscription records. */
  ghost predicate PaidBy(db: Db, s: Id, p: Id) {
    && s in db.subs && p in db.payments && db.payments[p].subId == s && db.payments[p].status == Succeeded
    && db.payments[p].paidAt.Some? && db.payments[p].paidAt.value <= db.clock
    && db.subs[s].expiresAt == Some(db.payments[p].paidAt.value + Days(DurationDays(db, db.subs[s].planId)))
  }

  ghost predicate Paid(db: Db, s: Id) { exists p :: PaidBy(db, s, p) }

  ghost predicate PaidOk(db: Db) {
    forall s :: s in db.subs && db.subs[s].expiresAt.Some? ==> Paid(db, s)
  }

  ghost predicate PaymentsOk(payments: map<Id, Payment>, subs: map<Id, Subscription>) {
    forall p :: p in payments ==>
      && payments[p].subId in subs && subs[payments[p].subId].userId == payments[p].userId
      && (payments[p].status == Pending ==> Payable(subs[payments[p].subId].status))
  }

  ghost predicate PendingOk(payments: map<Id, Payment>) {
    forall p, q :: BothPending(payments, p, q) ==> p == q
  }

  ghost predicate BothPending(payments: map<Id, Payment>, p: Id, q: Id) {
    && p in payments && q in payments && payments[p].subId == payments[q].subId
    && payments[p].status == Pending && payments[q].status == Pending
  }

  ghost predicate DevicesOk(devices: map<Id, Device>, subs: map<Id, Subscription>) {
    forall d :: d in devices && devices[d].subId.Some? ==>
      devices[d].subId.value in subs && subs[devices[d].subId.value].userId == devices[d].userId
  }

  ghost predicate DevicesUnique(devices: map<Id, Device>) {
    forall c, d :: c in devices && d in devices && devices[c].deviceId == devices[d].deviceId ==> c == d
  }

  ghost predicate EnabledIn(features: seq<Feature>, name: string) {
    exists i :: 0 <= i < |features| && features[i].enabled && features[i].name == name
  }

  /** An entitlement stands for an enabled feature and ends no later than its subscription. */
  ghost predicate Covered(e: Entitlement, subs: map<Id, Subscription>, plans: map<Id, Plan>) {
    && e.active && e.subId in subs && subs[e.subId].userId == e.userId
    && subs[e.subId].planId in plans && EnabledIn(plans[subs[e.subId].planId].features, e.feature)
    && e.startedAt.Some? && e.expiresAt.Some? && subs[e.subId].expiresAt.Some?
    && e.expiresAt.value <= subs[e.subId].expiresAt.value
  }

  ghost predicate EntsOk(ents: map<Id, Entitlement>, subs: map<Id, Subscription>, plans: map<Id, Plan>) {
    forall e :: e in ents ==> Covered(ents[e], subs, plans)
  }

  ghost predicate EntsUnique(ents: map<Id, Entitlement>) {
    forall e, f :: SameGrant(ents, e, f) ==> e == f
  }

  ghost predicate SameGrant(ents: map<Id, Entitlement>, e: Id, f: Id) {
    e in ents && f in ents && ents[e].subId == ents[f].subId && ents[e].feature == ents[f].feature
  }

  ghost predicate Billing(db: Db) {
    SubsOk(db.subs, db.plans) && PaidOk(db) && PaymentsOk(db.payments, db.subs) && PendingOk(db.payments)
  }

  ghost predicate Holdings(db: Db) {
    && DevicesOk(db.devices, db.subs) && DevicesUnique(db.devices)
    && EntsOk(db.ents, db.subs, db.plans) && EntsUnique(db.ents)
  }

  ghost predicate Invariant(db: Db) { PlansOk(db.plans) && IdsUsed(db) && Billing(db) && Holdings(db) }

  // ---------------------------------------------------------------- single writes

  ghost predicate SucceededKept(db: Db, db': Db) {
    forall p :: p in db.payments && db.payments[p].status == Succeeded ==>
      p in db'.payments && db'.payments[p] == db.payments[p]
  }

  /** Periods stay paid for while their subscriptions keep them and successful payments stay. */
  lemma PaidStays(db: Db, db': Db)
    requires PaidOk(db) && db'.plans == db.plans && db.clock <= db'.clock && SucceededKept(db, db')
    requires forall s :: s in db'.subs && db'.subs[s].expiresAt.Some? && !Paid(db', s) ==>
      && s in db.subs && db'.subs[s].expiresAt == db.subs[s].expiresAt && db'.subs[s].planId == db.subs[s].planId
    ensures PaidOk(db')
  {
    forall s | s in db'.subs && db'.subs[s].expiresAt.Some? ensures Paid(db', s) {
      if !Paid(db', s) {
        var p :| PaidBy(db, s, p);
        assert PaidBy(db', s, p);
      }
    }
  }

  /** Writes to devices and entitlements leave the billing tables consistent. */
  lemma BillingStays(db: Db, db': Db)
    requires Billing(db) && db'.plans == db.plans && db'.subs == db.subs && db'.payments == db.payments
    requires db.clock <= db'.clock
    ensures Billing(db')
  {
    PaidStays(db, db');
  }

  ghost predicate SubKept(before: Subscription, after: Subscription) {
    && after.userId == before.userId && after.planId == before.planId
    && (before.expiresAt.Some? ==> after.expiresAt.Some? && before.expiresAt.value <= after.expiresAt.value)
  }

  /** Writes to subscriptions that keep owners and never shorten a period leave devices and entitlements consistent. */
  lemma HoldingsStay(db: Db, db': Db)
    requires Holdings(db) && db'.plans == db.plans && db'.devices == db.devices && db'.ents == db.ents
    requires forall s :: s in db.subs ==> s in db'.subs && SubKept(db.subs[s], db'.subs[s])
    ensures Holdings(db')
  {
    forall e | e in db.ents ensures Covered(db'.ents[e], db'.subs, db'.plans) {
      assert Covered(db.ents[e], db.subs, db.plans);
    }
  }

  lemma TickKeeps(db: Db, now: int)
    requires Invariant(db) && db.clock <= now
    ensures Invariant(db.(clock := now))
  {
    BillingStays(db, db.(clock := now));
  }

  lemma AddSubKeeps(db: Db, n: Id, sub: Subscription)
    requires Invariant(db) && n >= db.nextId && sub.planId in db.plans
    requires sub.status == Registered && sub.startedAt.None? && sub.expiresAt.None? && sub.renewedAt.None?
    ensures Invariant(Apply(db, PutSub(n, sub)))
  {
    var db' := Apply(db, PutSub(n, sub));
    HoldingsStay(db, db');
    AddSubBilling(db, db', n);
  }

  lemma AddSubBilling(db: Db, db': Db, n: Id)
    requires Billing(db) && n !in db.subs && n in db'.subs && db'.subs[n].planId in db.plans
    requires db' == db.(subs := db.subs[n := db'.subs[n]], nextId := db'.nextId)
    requires db'.subs[n].status == Registered && db'.subs[n].startedAt.None? && db'.subs[n].expiresAt.None?
    requires db'.subs[n].renewedAt.None?
    ensures Billing(db')
  {
    PaidStays(db, db');
  }

  lemma AddPaymentKeeps(db: Db, n: Id, p: Payment)
    requires Invariant(db) && n >= db.nextId && p.status == Pending && p.subId in db.subs
    requires db.subs[p.subId].userId == p.userId && Payable(db.subs[p.subId].status)
    requires forall q :: q in db.payments && db.payments[q].subId == p.subId ==> db.payments[q].status != Pending
    ensures Invariant(Apply(db, PutPayment(n, p)))
  {
    var db' := Apply(db, PutPayment(n, p));
    HoldingsStay(db, db');
    AddPaymentBilling(db, db', n);
  }

  lemma AddPaymentBilling(db: Db, db': Db, n: Id)
    requires Billing(db) && n !in db.payments && n in db'.payments
    requires db' == db.(payments := db.payments[n := db'.payments[n]], nextId := db'.nextId)
    requires db'.payments[n].status == Pending && db'.payments[n].subId in db.subs
    requires db.subs[db'.payments[n].subId].userId == db'.payments[n].userId
    requires Payable(db.subs[db'.payments[n].subId].status)
    requires forall q :: q in db.payments && db.payments[q].subId == db'.payments[n].subId ==>
      db.payments[q].status != Pending
    ensures Billing(db')
  {
    PaidStays(db, db');
    forall q, r: Id | BothPending(db'.payments, q, r) ensures q == r {
      assert q != n && r != n ==> BothPending(db.payments, q, r);
    }
  }

  lemma NoPendingUnlessPayable(db: Db, s: Id)
    requires PaymentsOk(db.payments, db.subs) && s in db.subs && !Payable(db.subs[s].status)
    ensures forall q :: q in db.payments && db.payments[q].subId == s ==> db.payments[q].status != Pending
  {
  }

  predicate Lapsed(before: Subscription, after: Subscription) {
    && before.status == Active && (after.status == PaymentPending || after.status == Cancelled)
    && after == before.(status := after.status, canceledAt := after.canceledAt)
  }

  lemma LeaveActiveBilling(db: Db, db': Db, s: Id)
    requires Billing(db) && s in db.subs && s in db'.subs && Lapsed(db.subs[s], db'.subs[s])
    requires db' == db.(subs := db.subs[s := db'.subs[s]], nextId := db'.nextId)
    ensures Billing(db')
  {
    PaidStays(db, db');
  }

  /** Leaving the active status, by a renewal or a cancellation, keeps everything else. */
  lemma LeaveActiveKeeps(db: Db, s: Id, sub: Subscription)
    requires Invariant(db) && s in db.subs && Lapsed(db.subs[s], sub)
    ensures Invariant(Apply(db, PutSub(s, sub)))
  {
    var db' := Apply(db, PutSub(s, sub));
    HoldingsStay(db, db');
    LeaveActiveBilling(db, db', s);
  }

  /** A new period never ends before the recorded one. */
  lemma ExpiryGrows(db: Db, s: Id, now: int)
    requires PaidOk(db) && s in db.subs && db.subs[s].status != Active && db.clock <= now
    ensures var e := Activated(db.subs[s], DurationDays(db, db.subs[s].planId), now).expiresAt;
            e.Some? && (db.subs[s].expiresAt.Some? ==> db.subs[s].expiresAt.value <= e.value)
  {
    if db.subs[s].expiresAt.Some? {
      var p :| PaidBy(db, s, p);
    }
  }

  function ActivatedDb(db: Db, payId: Id, r: Reference): Db
    requires payId in db.payments && db.payments[payId].subId in db.subs
  {
    var s := db.payments[payId].subId;
    var sub := Activated(db.subs[s], DurationDays(db, db.subs[s].planId), db.clock);
    var p := db.payments[payId].(status := Succeeded, reference := Some(r), paidAt := Some(db.clock));
    Apply(db, Activate(s, sub, payId, p))
  }

  /** The activated payment was the only pending one. */
  lemma ActivatePayments(db: Db, payId: Id, r: Reference)
    requires PaymentsOk(db.payments, db.subs) && PendingOk(db.payments)
    requires payId in db.payments && db.payments[payId].status == Pending && db.payments[payId].subId in db.subs
    ensures PaymentsOk(ActivatedDb(db, payId, r).payments, ActivatedDb(db, payId, r).subs)
    ensures PendingOk(ActivatedDb(db, payId, r).payments)
  {
    var db' := ActivatedDb(db, payId, r);
    forall p, q: Id | BothPending(db'.payments, p, q) ensures p == q {
      assert BothPending(db.payments, p, q);
    }
    forall p | p in db.payments && p != payId && db.payments[p].status == Pending
      ensures db.payments[p].subId != db.payments[payId].subId
    {
      assert !BothPending(db.payments, p, payId);
    }
  }

  lemma ActivateBilling(db: Db, payId: Id, r: Reference)
    requires Billing(db) && payId in db.payments && db.payments[payId].status == Pending
    requires db.payments[payId].subId in db.subs
    ensures Billing(ActivatedDb(db, payId, r))
  {
    ActivatePayments(db, payId, r);
    ActivatePaid(db, payId, r);
  }

  /** The activated period is paid for by this payment, and the others still are by theirs. */
  lemma ActivatePaid(db: Db, payId: Id, r: Reference)
    requires PaidOk(db) && payId in db.payments && db.payments[payId].status == Pending
    requires db.payments[payId].subId in db.subs && db.subs[db.payments[payId].subId].status != Active
    ensures PaidOk(ActivatedDb(db, payId, r))
  {
    assert PaidBy(ActivatedDb(db, payId, r), db.payments[payId].subId, payId);
    PaidStays(db, ActivatedDb(db, payId, r));
  }

  lemma ActivateKeeps(db: Db, payId: Id, r: Reference)
    requires Invariant(db) && payId in db.payments && db.payments[payId].status == Pending
    requires db.payments[payId].subId in db.subs
    ensures Invariant(ActivatedDb(db, payId, r))
  {
    ExpiryGrows(db, db.payments[payId].subId, db.clock);
    HoldingsStay(db, ActivatedDb(db, payId, r));
    ActivateBilling(db, payId, r);
  }

  lemma {:induction false} MissingRowsFacts(features: seq<Feature>, existing: set<string>, row: Entitlement)
    requires NamesDiffer(features)
    ensures var rows := MissingRows(features, existing, row);
            && (forall i :: 0 <= i < |rows| ==>
                 && rows[i] == row.(feature := rows[i].feature)
                 && rows[i].feature !in existing && EnabledIn(features, rows[i].feature))
            && (forall i, j :: 0 <= i < j < |rows| ==> rows[i].feature != rows[j].feature)
            && (forall k :: 0 <= k < |features| && features[k].enabled && features[k].name !in existing ==>
                 exists i :: 0 <= i < |rows| && rows[i].feature == features[k].name)
  {
    if features != [] {
      var n := |features| - 1;
      var front, rest := features[..n], MissingRows(features[..n], existing, row);
      MissingRowsFacts(front, existing, row);
      var rows := MissingRows(features, existing, row);
      forall i | 0 <= i < |rest|
        ensures EnabledIn(features, rest[i].feature) && rest[i].feature != features[n].name
      {
        assert EnabledIn(front, rest[i].feature);
        var k :| 0 <= k < |front| && front[k].enabled && front[k].name == rest[i].feature;
        assert features[k] == front[k];
      }
      forall k | 0 <= k < n && features[k].enabled && features[k].name !in existing
        ensures exists i :: 0 <= i < |rows| && rows[i].feature == features[k].name
      {
        assert front[k] == features[k];
        var i :| 0 <= i < |rest| && rest[i].feature == features[k].name;
        assert rows[i] == rest[i];
      }
      if features[n].enabled && features[n].name !in existing {
        assert rows == rest + [row.(feature := features[n].name)];
        assert rows[|rest|].feature == features[n].name;
      }
    }
  }

  /** The table with the rows for the missing features of `s` added. */
  function Granted(db: Db, s: Id, row: Entitlement): Db
    requires s in db.subs && db.subs[s].planId in db.plans
  {
    Apply(db, AddEntitlements(db.nextId, NewRows(db, s, row)))
  }

  function NewRows(db: Db, s: Id, row: Entitlement): seq<Entitlement>
    requires s in db.subs && db.subs[s].planId in db.plans
  {
    MissingRows(db.plans[db.subs[s].planId].features, ActiveFeatures(db, s), row)
  }

  lemma GrantedAt(db: Db, s: Id, row: Entitlement, e: Id)
    requires s in db.subs && db.subs[s].planId in db.plans && e in Granted(db, s, row).ents && e !in db.ents
    ensures db.nextId <= e < db.nextId + |NewRows(db, s, row)|
    ensures Granted(db, s, row).ents[e] == NewRows(db, s, row)[e - db.nextId]
  {
    assert e in Numbered(db.nextId, NewRows(db, s, row));
  }

  /** What the entitlement table holds after a grant. */
  lemma GrantedRows(db: Db, s: Id, row: Entitlement, e: Id)
    requires PlansOk(db.plans) && s in db.subs && db.subs[s].planId in db.plans
    requires e in Granted(db, s, row).ents && e !in db.ents
    ensures var f := Granted(db, s, row).ents[e];
            && f == row.(feature := f.feature) && f.feature !in ActiveFeatures(db, s)
            && EnabledIn(db.plans[db.subs[s].planId].features, f.feature)
  {
    MissingRowsFacts(db.plans[db.subs[s].planId].features, ActiveFeatures(db, s), row);
    GrantedAt(db, s, row, e);
  }

  lemma NewGrantsDiffer(db: Db, s: Id, row: Entitlement, e: Id, f: Id)
    requires PlansOk(db.plans) && s in db.subs && db.subs[s].planId in db.plans
    requires e !in db.ents && f !in db.ents && SameGrant(Granted(db, s, row).ents, e, f)
    ensures e == f
  {
    MissingRowsFacts(db.plans[db.subs[s].planId].features, ActiveFeatures(db, s), row);
    GrantedAt(db, s, row, e);
    GrantedAt(db, s, row, f);
  }

  lemma OldAndNewGrantDiffer(db: Db, s: Id, row: Entitlement, e: Id, f: Id)
    requires Invariant(db) && s in db.subs && row.subId == s && e in db.ents && f !in db.ents
    ensures !SameGrant(Granted(db, s, row).ents, e, f) && !SameGrant(Granted(db, s, row).ents, f, e)
  {
    var ents := Granted(db, s, row).ents;
    if f in ents {
      GrantedRows(db, s, row, f);
      assert ents[e] == db.ents[e];
    }
  }

  lemma GrantsUnique(db: Db, s: Id, row: Entitlement)
    requires Invariant(db) && s in db.subs && row.subId == s
    ensures EntsUnique(Granted(db, s, row).ents)
  {
    var ents := Granted(db, s, row).ents;
    forall e, f: Id | SameGrant(ents, e, f) ensures e == f {
      if e in db.ents && f in db.ents {
        assert SameGrant(db.ents, e, f);
      } else if e in db.ents {
        OldAndNewGrantDiffer(db, s, row, e, f);
      } else if f in db.ents {
        OldAndNewGrantDiffer(db, s, row, f, e);
      } else {
        NewGrantsDiffer(db, s, row, e, f);
      }
    }
  }

  lemma GrantKeeps(db: Db, s: Id, row: Entitlement)
    requires Invariant(db) && s in db.subs
    requires row.subId == s && row.userId == db.subs[s].userId && row.active && row.startedAt.Some?
    requires row.expiresAt.Some? && row.expiresAt == db.subs[s].expiresAt
    ensures Invariant(Granted(db, s, row))
  {
    var db' := Granted(db, s, row);
    BillingStays(db, db');
    GrantsUnique(db, s, row);
    forall e | e in db'.ents ensures Covered(db'.ents[e], db.subs, db.plans) {
      if e !in db.ents {
        GrantedRows(db, s, row, e);
      } else {
        assert Covered(db.ents[e], db.subs, db.plans);
      }
    }
  }

  lemma DevicesKeep(db: Db, changed: map<Id, Device>)
    requires Invariant(db)
    requires forall d :: d in changed ==> d in db.devices && changed[d] == db.devices[d].(status := changed[d].status)
    ensures Invariant(Apply(db, PutDevices(changed)))
  {
    BillingStays(db, Apply(db, PutDevices(changed)));
    DevicesHoldings(db, changed);
  }

  lemma DevicesHoldings(db: Db, changed: map<Id, Device>)
    requires Holdings(db)
    requires forall d :: d in changed ==> d in db.devices && changed[d] == db.devices[d].(status := changed[d].status)
    ensures Holdings(Apply(db, PutDevices(changed)))
  {
  }

  lemma AddDeviceKeeps(db: Db, n: Id, device: Device)
    requires Invariant(db) && n >= db.nextId && Named(db, device.deviceId) == {}
    requires device.subId.Some? ==>
      device.subId.value in db.subs && db.subs[device.subId.value].userId == device.userId
    ensures Invariant(Apply(db, AddDevice(n, device)))
  {
    BillingStays(db, Apply(db, AddDevice(n, device)));
    forall d | d in db.devices ensures db.devices[d].deviceId != device.deviceId {
      assert d !in Named(db, device.deviceId);
    }
  }

  // ---------------------------------------------------------------- requests

  function Tick(db: Db, now: int): Db { db.(clock := Max(db.clock, now)) }

  /** What a request with writes `ws` can leave behind. */
  predicate Reaches(db: Db, ws: seq<Write>, db': Db) {
    || db' == db
    || (|ws| >= 1 && db' == Apply(db, ws[0]))
    || (|ws| >= 2 && db' == Apply(Apply(db, ws[0]), ws[1]))
  }

  lemma ApplyPrefix(db: Db, ws: seq<Write>, k: nat)
    requires |ws| <= 2
    ensures Reaches(db, ws, ApplyAll(db, if k <= |ws| then ws[..k] else ws))
  {
    var vs := if k <= |ws| then ws[..k] else ws;
    if |vs| == 2 {
      assert vs[1..] == [ws[1]] && [ws[1]][1..] == [];
      assert ApplyAll(db, vs) == ApplyAll(Apply(db, ws[0]), [ws[1]]);
    } else if |vs| == 1 {
      assert vs[1..] == [];
    }
  }

  lemma PurchaseKeeps(db: Db, call: Call, db': Db)
    requires Invariant(db) && db.clock <= call.now && call.req.Purchase? && Handle(db, call).Ok?
    requires Reaches(Tick(db, call.now), Handle(db, call).value, db')
    ensures Invariant(db')
  {
    var db0, ws := Tick(db, call.now), Handle(db, call).value;
    TickKeeps(db, call.now);
    AddSubKeeps(db0, ws[0].id, ws[0].sub);
    AddPaymentKeeps(Apply(db0, ws[0]), ws[1].id, ws[1].payment);
  }

  /** The writes of a successful verification: one activation, then the missing entitlements. */
  lemma VerifyShape(db: Db, call: Call)
    requires call.req.VerifyPayment? && Handle(db, call).Ok? && db.clock <= call.now
    requires SubsOk(db.subs, db.plans)
    ensures var db0, ws, payId := Tick(db, call.now), Handle(db, call).value, call.req.payId;
            && 1 <= |ws| <= 2 && ws[0].Activate?
            && payId in db.payments && db.payments[payId].status == Pending && db.payments[payId].subId in db.subs
            && db.payments[payId].userId == call.req.user && Payable(db.subs[db.payments[payId].subId].status)
            && ws[0].id == db.payments[payId].subId && ws[0].payId == payId && ws[0].payment.reference.Some?
            && ActivatedDb(db0, payId, ws[0].payment.reference.value) == Apply(db0, ws[0])
            && db.subs[ws[0].id].planId in db.plans
            && (if |ws| == 2
                then Granted(Apply(db0, ws[0]), ws[0].id, VerifyRow(db, call)) == Apply(Apply(db0, ws[0]), ws[1])
                else NewRows(Apply(db0, ws[0]), ws[0].id, VerifyRow(db, call)) == [])
  {
    var db0, ws := Tick(db, call.now), Handle(db, call).value;
    assert ActiveFeatures(Apply(db0, ws[0]), ws[0].id) == ActiveFeatures(db, ws[0].id);
  }

  function VerifyRow(db: Db, call: Call): Entitlement
    requires call.req.VerifyPayment? && call.req.payId in db.payments && db.payments[call.req.payId].subId in db.subs
  {
    var s := db.payments[call.req.payId].subId;
    Entitlement(s, call.req.user, "", true, Some(call.now),
                Activated(db.subs[s], DurationDays(db, db.subs[s].planId), call.now).expiresAt)
  }

  lemma VerifyKeeps(db: Db, call: Call, db': Db)
    requires Invariant(db) && db.clock <= call.now && call.req.VerifyPayment? && Handle(db, call).Ok?
    requires Reaches(Tick(db, call.now), Handle(db, call).value, db')
    ensures Invariant(db')
  {
    var db0, ws := Tick(db, call.now), Handle(db, call).value;
    VerifyShape(db, call);
    TickKeeps(db, call.now);
    VerifyWritesKeep(db0, call.req.payId, ws[0].payment.reference.value, VerifyRow(db, call));
  }

  lemma VerifyWritesKeep(db: Db, payId: Id, r: Reference, row: Entitlement)
    requires Invariant(db) && payId in db.payments && db.payments[payId].status == Pending
    requires var s := db.payments[payId].subId;
             && s in db.subs && row.subId == s && row.userId == db.payments[payId].userId
             && row.active && row.startedAt.Some?
             && row.expiresAt == Activated(db.subs[s], DurationDays(db, db.subs[s].planId), db.clock).expiresAt
    ensures var db', s := ActivatedDb(db, payId, r), db.payments[payId].subId;
            && Invariant(db') && s in db'.subs && db'.subs[s].planId in db'.plans
            && Invariant(Granted(db', s, row))
  {
    ActivateKeeps(db, payId, r);
    GrantKeeps(ActivatedDb(db, payId, r), db.payments[payId].subId, row);
  }

  lemma RenewShape(db: Db, call: Call)
    requires Legal(db, call) && call.req.Renew? && Handle(db, call).Ok?
    ensures call.req.latest.Some?
    ensures var ws, s := Handle(db, call).value, call.req.latest.value;
            && s in db.subs && db.subs[s].userId == call.req.user && db.subs[s].status == Active
            && ws == [PutSub(s, db.subs[s].(status := PaymentPending)),
                      PutPayment(db.nextId, Payment(s, call.req.user, Pending, call.req.provider, None, None))]
  {
    assert call.req.latest.value in SubsOf(db, call.req.user, {Active});
  }

  lemma RenewKeeps(db: Db, call: Call, db': Db)
    requires Invariant(db) && Legal(db, call) && call.req.Renew? && Handle(db, call).Ok?
    requires Reaches(Tick(db, call.now), Handle(db, call).value, db')
    ensures Invariant(db')
  {
    var db0, ws := Tick(db, call.now), Handle(db, call).value;
    RenewShape(db, call);
    TickKeeps(db, call.now);
    RenewWritesKeep(db0, ws[0].id, ws[0].sub, ws[1].id, ws[1].payment);
  }

  lemma RenewWritesKeep(db: Db, s: Id, sub: Subscription, n: Id, p: Payment)
    requires Invariant(db) && s in db.subs && Lapsed(db.subs[s], sub) && sub.status == PaymentPending
    requires n >= db.nextId && p.subId == s && p.userId == sub.userId && p.status == Pending
    ensures var db' := Apply(db, PutSub(s, sub));
            Invariant(db') && Invariant(Apply(db', PutPayment(n, p)))
  {
    LeaveActiveKeeps(db, s, sub);
    NoPendingUnlessPayable(db, s);
    AddPaymentKeeps(Apply(db, PutSub(s, sub)), n, p);
  }

  lemma CancelShape(db: Db, call: Call)
    requires Legal(db, call) && call.req.Cancel? && Handle(db, call).Ok?
    ensures call.req.latest.Some?
    ensures var ws, s := Handle(db, call).value, call.req.latest.value;
            && s in db.subs && db.subs[s].userId == call.req.user && db.subs[s].status == Active
            && |ws| == 2 && ws[0] == PutSub(s, db.subs[s].(status := Cancelled, canceledAt := Some(call.now)))
            && ws[1].PutDevices? && forall d :: d in ws[1].changed ==>
                 d in db.devices && ws[1].changed[d] == db.devices[d].(status := ws[1].changed[d].status)
  {
    assert call.req.latest.value in SubsOf(db, call.req.user, {Active});
  }

  lemma CancelKeeps(db: Db, call: Call, db': Db)
    requires Invariant(db) && Legal(db, call) && call.req.Cancel? && Handle(db, call).Ok?
    requires Reaches(Tick(db, call.now), Handle(db, call).value, db')
    ensures Invariant(db')
  {
    var db0, ws := Tick(db, call.now), Handle(db, call).value;
    CancelShape(db, call);
    TickKeeps(db, call.now);
    LeaveActiveKeeps(db0, ws[0].id, ws[0].sub);
    DevicesKeep(Apply(db0, ws[0]), ws[1].changed);
  }

  predicate OnDevices(req: Request) { req.Enroll? || req.RevokeDevice? || req.Connect? || req.Disconnect? }

  /** Apart from enrollment, requests on devices rewrite the status of existing rows. */
  lemma DeviceShape(db: Db, call: Call)
    requires OnDevices(call.req) && !call.req.Enroll? && Handle(db, call).Ok?
    ensures var ws := Handle(db, call).value;
            && |ws| == 1 && ws[0].PutDevices?
            && forall d :: d in ws[0].changed ==>
                 d in db.devices && ws[0].changed[d] == db.devices[d].(status := ws[0].changed[d].status)
  {
  }

  lemma EnrollShape(db: Db, call: Call)
    requires Legal(db, call) && call.req.Enroll? && Handle(db, call).Ok?
    ensures var ws, s := Handle(db, call).value, call.req.sub;
            && ws == [AddDevice(db.nextId, Device(call.req.user, s, call.req.deviceId, Enrolled))]
            && Named(db, call.req.deviceId) == {}
            && (s.Some? ==> s.value in db.subs && db.subs[s.value].userId == call.req.user)
  {
    var s := call.req.sub;
    assert s.Some? ==> s.value in SubsOf(db, call.req.user, {Active});
  }

  lemma EnrollKeeps(db: Db, call: Call, db': Db)
    requires Invariant(db) && Legal(db, call) && call.req.Enroll? && Handle(db, call).Ok?
    requires Reaches(Tick(db, call.now), Handle(db, call).value, db')
    ensures Invariant(db')
  {
    var db0, w := Tick(db, call.now), Handle(db, call).value[0];
    EnrollShape(db, call);
    assert Named(db0, call.req.deviceId) == Named(db, call.req.deviceId);
    TickKeeps(db, call.now);
    AddDeviceKeeps(db0, w.id, w.device);
  }

  lemma DeviceRequestKeeps(db: Db, call: Call, db': Db)
    requires Invariant(db) && Legal(db, call) && OnDevices(call.req) && Handle(db, call).Ok?
    requires Reaches(Tick(db, call.now), Handle(db, call).value, db')
    ensures Invariant(db')
  {
    if call.req.Enroll? {
      EnrollKeeps(db, call, db');
    } else {
      DeviceShape(db, call);
      TickKeeps(db, call.now);
      DevicesKeep(Tick(db, call.now), Handle(db, call).value[0].changed);
    }
  }

  lemma StepReaches(db: Db, call: Call, k: nat)
    requires Handle(db, call).Ok?
    ensures Reaches(Tick(db, call.now), Handle(db, call).value, ServeUpTo(db, call, k))
  {
    ApplyPrefix(Tick(db, call.now), Handle(db, call).value, k);
  }

  /** A request keeps the invariant wherever it stops. */
  lemma StepKeeps(db: Db, call: Call, k: nat)
    requires Invariant(db) && Legal(db, call)
    ensures Invariant(ServeUpTo(db, call, k))
  {
    var db' := ServeUpTo(db, call, k);
    if Handle(db, call).Err? {
      TickKeeps(db, call.now);
    } else {
      StepReaches(db, call, k);
      match call.req
      case Purchase(_, _, _, _) => PurchaseKeeps(db, call, db');
      case VerifyPayment(_, _, _) => VerifyKeeps(db, call, db');
      case Renew(_, _, _) => RenewKeeps(db, call, db');
      case Cancel(_, _) => CancelKeeps(db, call, db');
      case _ => DeviceRequestKeeps(db, call, db');
    }
  }

  lemma {:induction false} RunKeeps(db: Db, events: seq<Event>)
    requires Invariant(db) && LegalRun(db, events)
    ensures Invariant(Run(db, events))
    decreases events
  {
    if events != [] {
      StepKeeps(db, events[0].call, events[0].writes);
      RunKeeps(ServeUpTo(db, events[0].call, events[0].writes), events[1..]);
    }
  }
}
