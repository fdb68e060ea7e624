/** What the subscription routes guarantee over whole runs. */
module SubscriptionGuarantees {
  import opened Prelude
  import opened Subscriptions
  import opened SubscriptionRuns

  function PaymentsOf(db: Db, s: Id): set<Id> { PaymentsIn(db.payments, s, {Pending, Succeeded, Failed}) }

  function PendingOf(db: Db, s: Id): set<Id> { PaymentsIn(db.payments, s, {Pending}) }

  function SucceededOf(db: Db, s: Id): set<Id> { PaymentsIn(db.payments, s, {Succeeded}) }

  function PaymentsIn(payments: map<Id, Payment>, s: Id, statuses: set<PayStatus>): set<Id> {
    set p | p in payments && payments[p].subId == s && payments[p].status in statuses
  }

  /** The entitlements of `s` for one feature. */
  function Grants(db: Db, s: Id, feature: string): set<Id> {
    set e | e in db.ents && db.ents[e].subId == s && db.ents[e].feature == feature && db.ents[e].active
  }

  // ---------------------------------------------------------------- connecting is paid for

  /** `p` is a successful payment of `user` for `s` whose period contains `now`. */
  ghost predicate PaysFor(db: Db, p: Id, s: Id, user: Id, now: int) {
    && s in db.subs && db.subs[s].userId == user && db.subs[s].planId in db.plans
    && p in db.payments && db.payments[p].subId == s && db.payments[p].userId == user
    && db.payments[p].status == Succeeded && db.payments[p].paidAt.Some?
    && db.payments[p].paidAt.value <= now < db.payments[p].paidAt.value + Days(db.plans[db.subs[s].planId].durationDays)
  }

  /** A device of that name is the customer's and is on a subscription of the customer paid for now. */
  ghost predicate ConnectionPaid(db: Db, user: Id, deviceId: string, now: int) {
    exists d, s, p :: d in db.devices && db.devices[d].userId == user && db.devices[d].deviceId == deviceId &&
      db.devices[d].subId == Some(s) && PaysFor(db, p, s, user, now)
  }

  lemma AuthorizedIsPaid(db: Db, user: Id, d: Id, ent: Option<Id>, now: int)
    requires SubsOk(db.subs, db.plans) && PaidOk(db) && PaymentsOk(db.payments, db.subs)
    requires DevicesOk(db.devices, db.subs)
    requires d in db.devices && db.devices[d].userId == user && Authorized(db, d, ent, now) && db.clock <= now
    ensures ConnectionPaid(db, user, db.devices[d].deviceId, now)
  {
    var s := db.devices[d].subId.value;
    var p :| PaidBy(db, s, p);
    assert PaysFor(db, p, s, user, now);
  }

  lemma ConnectPaid(db: Db, call: Call)
    requires Invariant(db) && Legal(db, call) && call.req.Connect? && Handle(db, call).Ok?
    ensures ConnectionPaid(db, call.req.user, call.req.deviceId, call.now)
  {
    var d :| d in DevicesOf(db, call.req.user) * Named(db, call.req.deviceId);
    assert Authorized(db, d, call.req.ent, call.now);
    AuthorizedIsPaid(db, call.req.user, d, call.req.ent, call.now);
  }

  /** In every reachable state, also after requests that stopped half way, a connection is paid for. */
  lemma ConnectIsPaid(plans: map<Id, Plan>, clock: int, events: seq<Event>, call: Call)
    requires PlansOk(plans) && LegalRun(Initial(plans, clock), events) && call.req.Connect?
    ensures var db := Run(Initial(plans, clock), events);
            Legal(db, call) && Handle(db, call).Ok? ==> ConnectionPaid(db, call.req.user, call.req.deviceId, call.now)
  {
    var db := Run(Initial(plans, clock), events);
    RunKeeps(Initial(plans, clock), events);
    if Legal(db, call) && Handle(db, call).Ok? {
      ConnectPaid(db, call);
    }
  }

  // ---------------------------------------------------------------- what later requests cannot undo

  /** What any request, stopped or not, leaves of the rows that were there. */
  ghost predicate Grows(db: Db, db': Db) {
    && db'.plans == db.plans && db.clock <= db'.clock && db.nextId <= db'.nextId
    && (forall s :: s in db.subs ==> s in db'.subs && SubKept(db.subs[s], db'.subs[s]))
    && (forall e :: e in db.ents ==> e in db'.ents && db'.ents[e] == db.ents[e])
    && SucceededKept(db, db')
  }

  lemma GrowsTransitive(a: Db, b: Db, c: Db)
    requires Grows(a, b) && Grows(b, c)
    ensures Grows(a, c)
  {
  }

  /** The write adds rows or rewrites a subscription without shortening its period. */
  ghost predicate Harmless(db: Db, w: Write) {
    match w
    case PutSub(id, sub) => id in db.subs ==> SubKept(db.subs[id], sub)
    case PutPayment(id, _) => id !in db.payments
    case Activate(id, sub, payId, _) =>
      && id in db.subs && SubKept(db.subs[id], sub)
      && payId in db.payments && db.payments[payId].status == Pending
    case AddEntitlements(first, _) => forall e :: e in db.ents ==> e < first
    case _ => true
  }

  lemma WriteGrows(db: Db, w: Write)
    requires Harmless(db, w)
    ensures Grows(db, Apply(db, w))
  {
  }

  lemma VerifyHarmless(db: Db, call: Call)
    requires Invariant(db) && Legal(db, call) && call.req.VerifyPayment? && Handle(db, call).Ok?
    ensures var db0, ws := Tick(db, call.now), Handle(db, call).value;
            |ws| >= 1 && Harmless(db0, ws[0]) && (|ws| >= 2 ==> Harmless(Apply(db0, ws[0]), ws[1]))
  {
    VerifyShape(db, call);
    ExpiryGrows(db, db.payments[call.req.payId].subId, call.now);
  }

  lemma StepHarmless(db: Db, call: Call)
    requires Invariant(db) && Legal(db, call) && Handle(db, call).Ok?
    ensures var db0, ws := Tick(db, call.now), Handle(db, call).value;
            |ws| >= 1 && Harmless(db0, ws[0]) && (|ws| >= 2 ==> Harmless(Apply(db0, ws[0]), ws[1]))
  {
    match call.req
    case Purchase(_, _, _, _) =>
    case VerifyPayment(_, _, _) => VerifyHarmless(db, call);
    case Renew(_, _, _) => RenewShape(db, call);
    case Cancel(_, _) => CancelShape(db, call);
    case Enroll(_, _, _, _) => EnrollShape(db, call);
    case _ => DeviceShape(db, call);
  }

  lemma WritesGrow(db: Db, ws: seq<Write>, db': Db)
    requires Reaches(db, ws, db') && |ws| >= 1 && Harmless(db, ws[0])
    requires |ws| >= 2 ==> Harmless(Apply(db, ws[0]), ws[1])
    ensures Grows(db, db')
  {
    WriteGrows(db, ws[0]);
    if |ws| >= 2 {
      WriteGrows(Apply(db, ws[0]), ws[1]);
    }
  }

  lemma StepGrows(db: Db, call: Call, k: nat)
    requires Invariant(db) && Legal(db, call)
    ensures Grows(db, ServeUpTo(db, call, k))
  {
    var db0, db' := Tick(db, call.now), ServeUpTo(db, call, k);
    assert Grows(db, db0);
    if Handle(db, call).Ok? {
      assert Grows(db0, db') by {
        StepReaches(db, call, k);
        StepHarmless(db, call);
        WritesGrow(db0, Handle(db, call).value, db');
      }
      GrowsTransitive(db, db0, db');
    }
  }

  /** Expiry never moves backwards, entitlements never change, successful payments stay. */
  lemma {:induction false} RunGrows(db: Db, events: seq<Event>)
    requires Invariant(db) && LegalRun(db, events)
    ensures Grows(db, Run(db, events))
    decreases events
  {
    if events != [] {
      var db1 := ServeUpTo(db, events[0].call, events[0].writes);
      StepKeeps(db, events[0].call, events[0].writes);
      StepGrows(db, events[0].call, events[0].writes);
      RunGrows(db1, events[1..]);
      GrowsTransitive(db, db1, Run(db1, events[1..]));
    }
  }

  lemma AtMostOne(xs: set<Id>)
    requires forall x, y :: x in xs && y in xs ==> x == y
    ensures |xs| <= 1
  {
    if xs != {} {
      var x :| x in xs;
      assert xs == {x};
    }
  }

  lemma PendingAtMostOne(db: Db, s: Id)
    requires PendingOk(db.payments)
    ensures |PendingOf(db, s)| <= 1
  {
    forall p, q | p in PendingOf(db, s) && q in PendingOf(db, s) ensures p == q {
      assert BothPending(db.payments, p, q);
    }
    AtMostOne(PendingOf(db, s));
  }

  /** Whatever stops half way, a subscription ever active keeps a successful payment and has at most one pending. */
  lemma EverActive(plans: map<Id, Plan>, clock: int, before: seq<Event>, after: seq<Event>, s: Id)
    requires PlansOk(plans) && LegalRun(Initial(plans, clock), before)
    requires LegalRun(Run(Initial(plans, clock), before), after)
    requires var db := Run(Initial(plans, clock), before); s in db.subs && db.subs[s].status == Active
    ensures var db := Run(Run(Initial(plans, clock), before), after);
            s in db.subs && SucceededOf(db, s) != {} && |PendingOf(db, s)| <= 1
  {
    var db := Run(Initial(plans, clock), before);
    RunKeeps(Initial(plans, clock), before);
    RunKeeps(db, after);
    RunGrows(db, after);
    var p :| PaidBy(db, s, p);
    assert p in SucceededOf(Run(db, after), s);
    PendingAtMostOne(Run(db, after), s);
  }

  // ---------------------------------------------------------------- serial runs

  ghost predicate Serial(events: seq<Event>) { forall i :: 0 <= i < |events| ==> events[i].writes >= 2 }

  lemma ApplyTwo(db: Db, ws: seq<Write>)
    requires 1 <= |ws| <= 2
    ensures ApplyAll(db, ws) == if |ws| == 1 then Apply(db, ws[0]) else Apply(Apply(db, ws[0]), ws[1])
  {
    if |ws| == 2 {
      assert ws[1..] == [ws[1]] && [ws[1]][1..] == [];
      assert ApplyAll(Apply(db, ws[0]), [ws[1]]) == Apply(Apply(db, ws[0]), ws[1]);
    }
  }

  lemma ServeWhole(db: Db, call: Call, k: nat)
    requires k >= 2 && Handle(db, call).Ok?
    ensures var db0, ws := Tick(db, call.now), Handle(db, call).value;
            && 1 <= |ws| <= 2
            && ServeUpTo(db, call, k) ==
                 if |ws| == 1 then Apply(db0, ws[0]) else Apply(Apply(db0, ws[0]), ws[1])
  {
    var ws := Handle(db, call).value;
    assert (if k <= |ws| then ws[..k] else ws) == ws;
    ApplyTwo(Tick(db, call.now), ws);
  }

  predicate Creates(db: Db, call: Call, s: Id) { call.req.Purchase? && Handle(db, call).Ok? && s == db.nextId }

  predicate Renews(db: Db, call: Call, s: Id) { call.req.Renew? && Handle(db, call).Ok? && call.req.latest == Some(s) }

  predicate Activates(db: Db, call: Call, s: Id) {
    && call.req.VerifyPayment? && Handle(db, call).Ok?
    && call.req.payId in db.payments && db.payments[call.req.payId].subId == s
  }

  function Renewals(db: Db, events: seq<Event>, s: Id): nat
    decreases events
  {
    if events == [] then 0 else
      (if Renews(db, events[0].call, s) then 1 else 0) +
      Renewals(ServeUpTo(db, events[0].call, events[0].writes), events[1..], s)
  }

  function Activations(db: Db, events: seq<Event>, s: Id): nat
    decreases events
  {
    if events == [] then 0 else
      (if Activates(db, events[0].call, s) then 1 else 0) +
      Activations(ServeUpTo(db, events[0].call, events[0].writes), events[1..], s)
  }

  /** How one complete request changes the payments of `s`. */
  ghost predicate PaymentsStep(db: Db, call: Call, db': Db, s: Id) {
    && (s in db'.subs <==> s in db.subs || Creates(db, call, s))
    && |PaymentsOf(db', s)| ==
         |PaymentsOf(db, s)| + (if Creates(db, call, s) || Renews(db, call, s) then 1 else 0)
    && |SucceededOf(db', s)| == |SucceededOf(db, s)| + (if Activates(db, call, s) then 1 else 0)
  }

  lemma SizesDiffer(xs: set<Id>, ys: set<Id>, n: Id)
    requires xs - {n} == ys - {n}
    ensures |ys| - (if n in ys then 1 else 0) == |xs| - (if n in xs then 1 else 0)
  {
    assert |xs - {n}| == |xs| - if n in xs then 1 else 0;
    assert |ys - {n}| == |ys| - if n in ys then 1 else 0;
  }

  /** Writing one row moves at most that row in or out of a set of payments. */
  lemma PaymentsAfterWrite(payments: map<Id, Payment>, n: Id, p: Payment, s: Id, statuses: set<PayStatus>)
    ensures var xs, ys := PaymentsIn(payments, s, statuses), PaymentsIn(payments[n := p], s, statuses);
            |ys| - (if n in ys then 1 else 0) == |xs| - (if n in xs then 1 else 0)
  {
    var xs, ys := PaymentsIn(payments, s, statuses), PaymentsIn(payments[n := p], s, statuses);
    forall q | q != n ensures q in xs <==> q in ys {}
    SizesDiffer(xs, ys, n);
  }

  lemma NewPayment(db: Db, db': Db, n: Id, p: Payment, s: Id)
    requires n !in db.payments && db'.payments == db.payments[n := p] && p.status == Pending
    ensures |SucceededOf(db', s)| == |SucceededOf(db, s)|
    ensures |PaymentsOf(db', s)| == |PaymentsOf(db, s)| + if p.subId == s then 1 else 0
  {
    PaymentsAfterWrite(db.payments, n, p, s, {Succeeded});
    PaymentsAfterWrite(db.payments, n, p, s, {Pending, Succeeded, Failed});
  }

  lemma ActivatedPayment(db: Db, db': Db, n: Id, p: Payment, s: Id)
    requires n in db.payments && db.payments[n].status == Pending && db'.payments == db.payments[n := p]
    requires p.status == Succeeded && p.subId == db.payments[n].subId
    ensures |PaymentsOf(db', s)| == |PaymentsOf(db, s)|
    ensures |SucceededOf(db', s)| == |SucceededOf(db, s)| + if p.subId == s then 1 else 0
  {
    PaymentsAfterWrite(db.payments, n, p, s, {Succeeded});
    PaymentsAfterWrite(db.payments, n, p, s, {Pending, Succeeded, Failed});
  }

  lemma SamePayments(db: Db, db': Db, s: Id)
    requires db'.payments == db.payments
    ensures PaymentsOf(db', s) == PaymentsOf(db, s) && SucceededOf(db', s) == SucceededOf(db, s)
  {
  }

  lemma VerifyCounts(db: Db, call: Call, k: nat, s: Id)
    requires SubsOk(db.subs, db.plans) && db.clock <= call.now
    requires k >= 2 && call.req.VerifyPayment? && Handle(db, call).Ok?
    ensures PaymentsStep(db, call, ServeUpTo(db, call, k), s)
  {
    ServeWhole(db, call, k);
    VerifyShape(db, call);
    ActivatedPayment(db, ServeUpTo(db, call, k), call.req.payId, Handle(db, call).value[0].payment, s);
  }

  /** A complete purchase or renewal sets one subscription and adds its pending payment. */
  lemma NewPaymentFrame(db: Db, call: Call, k: nat) returns (s: Id, n: Id)
    requires IdsUsed(db) && Legal(db, call) && k >= 2 && Handle(db, call).Ok? && (call.req.Purchase? || call.req.Renew?)
    ensures var db' := ServeUpTo(db, call, k);
            && s in db'.subs && db'.subs == db.subs[s := db'.subs[s]] && Payable(db'.subs[s].status)
            && n !in db.payments && n in db'.payments && db'.payments == db.payments[n := db'.payments[n]]
            && db'.payments[n].subId == s && db'.payments[n].status == Pending
            && db'.ents == db.ents && db'.plans == db.plans
            && (if s in db.subs then Renews(db, call, s) && db'.subs[s] == db.subs[s].(status := PaymentPending)
                else Creates(db, call, s) && db'.subs[s].startedAt.None?)
  {
    ServeWhole(db, call, k);
    if call.req.Renew? {
      RenewShape(db, call);
      s, n := call.req.latest.value, db.nextId;
    } else {
      s, n := db.nextId, db.nextId + 1;
    }
  }

  lemma NewPaymentCounts(db: Db, call: Call, k: nat, s: Id)
    requires Invariant(db) && Legal(db, call) && k >= 2 && Handle(db, call).Ok?
    requires call.req.Purchase? || call.req.Renew?
    ensures PaymentsStep(db, call, ServeUpTo(db, call, k), s)
  {
    var db' := ServeUpTo(db, call, k);
    var r, n := NewPaymentFrame(db, call, k);
    NewPayment(db, db', n, db'.payments[n], s);
  }

  /** Cancelling and device requests touch no payment and create no subscription. */
  lemma OtherFrame(db: Db, call: Call, k: nat)
    requires Legal(db, call) && k >= 2 && Handle(db, call).Ok? && (call.req.Cancel? || OnDevices(call.req))
    ensures ServeUpTo(db, call, k).payments == db.payments && ServeUpTo(db, call, k).subs.Keys == db.subs.Keys
    ensures forall s :: s in db.subs ==>
      var sub := ServeUpTo(db, call, k).subs[s];
      sub == db.subs[s] || (sub.status == Cancelled && sub.startedAt == db.subs[s].startedAt)
    ensures ServeUpTo(db, call, k).ents == db.ents && ServeUpTo(db, call, k).plans == db.plans
  {
    ServeWhole(db, call, k);
    if call.req.Cancel? {
      CancelShape(db, call);
    } else if call.req.Enroll? {
      EnrollShape(db, call);
    } else {
      DeviceShape(db, call);
    }
  }

  lemma StepCounts(db: Db, call: Call, k: nat, s: Id)
    requires Invariant(db) && Legal(db, call) && k >= 2
    ensures PaymentsStep(db, call, ServeUpTo(db, call, k), s)
  {
    if Handle(db, call).Err? {
      SamePayments(db, ServeUpTo(db, call, k), s);
    } else {
      match call.req
      case Purchase(_, _, _, _) => NewPaymentCounts(db, call, k, s);
      case VerifyPayment(_, _, _) => VerifyCounts(db, call, k, s);
      case Renew(_, _, _) => NewPaymentCounts(db, call, k, s);
      case _ =>
        OtherFrame(db, call, k);
        SamePayments(db, ServeUpTo(db, call, k), s);
    }
  }

  /** Counting from any consistent state. */
  lemma {:induction false} CountsFrom(db: Db, events: seq<Event>, s: Id)
    requires Invariant(db) && LegalRun(db, events) && Serial(events)
    ensures var db' := Run(db, events);
            && |SucceededOf(db', s)| == |SucceededOf(db, s)| + Activations(db, events, s)
            && (s in db'.subs ==>
                 |PaymentsOf(db', s)| == |PaymentsOf(db, s)| + Renewals(db, events, s) + if s in db.subs then 0 else 1)
    decreases events
  {
    if events != [] {
      var call, k := events[0].call, events[0].writes;
      var db1 := ServeUpTo(db, call, k);
      StepKeeps(db, call, k);
      StepCounts(db, call, k, s);
      CountsFrom(db1, events[1..], s);
    }
  }

  /** Transactions = 1 + renewals, and successful transactions = activations. */
  lemma TransactionCounts(plans: map<Id, Plan>, clock: int, events: seq<Event>, s: Id)
    requires PlansOk(plans) && LegalRun(Initial(plans, clock), events) && Serial(events)
    ensures var db0 := Initial(plans, clock);
            var db := Run(db0, events);
            s in db.subs ==>
              && |PaymentsOf(db, s)| == 1 + Renewals(db0, events, s)
              && |SucceededOf(db, s)| == Activations(db0, events, s)
  {
    CountsFrom(Initial(plans, clock), events, s);
  }

  // ---------------------------------------------------------------- exactly one pending payment

  ghost predicate AwaitsPayment(db: Db) {
    forall s :: s in db.subs && Payable(db.subs[s].status) ==> PendingOf(db, s) != {}
  }

  /** Pending payments of `db` other than `except` are still pending in `db'`. */
  lemma StillAwaits(db: Db, db': Db, except: Id, s: Id)
    requires AwaitsPayment(db) && s in db.subs && Payable(db.subs[s].status)
    requires forall p :: p in db.payments && p != except ==> p in db'.payments && db'.payments[p] == db.payments[p]
    requires except in db.payments ==> db.payments[except].subId != s
    ensures PendingOf(db', s) != {}
  {
    var p :| p in PendingOf(db, s);
    assert p in PendingOf(db', s);
  }

  lemma VerifyAwaits(db: Db, call: Call, k: nat)
    requires SubsOk(db.subs, db.plans) && db.clock <= call.now
    requires k >= 2 && call.req.VerifyPayment? && Handle(db, call).Ok?
    requires AwaitsPayment(db)
    ensures AwaitsPayment(ServeUpTo(db, call, k))
  {
    var db' := ServeUpTo(db, call, k);
    ServeWhole(db, call, k);
    VerifyShape(db, call);
    forall s | s in db'.subs && Payable(db'.subs[s].status) ensures PendingOf(db', s) != {} {
      StillAwaits(db, db', call.req.payId, s);
    }
  }

  lemma NewPaymentAwaits(db: Db, call: Call, k: nat)
    requires Invariant(db) && Legal(db, call) && k >= 2 && Handle(db, call).Ok?
    requires call.req.Purchase? || call.req.Renew?
    requires AwaitsPayment(db)
    ensures AwaitsPayment(ServeUpTo(db, call, k))
  {
    var db' := ServeUpTo(db, call, k);
    var r, n := NewPaymentFrame(db, call, k);
    forall s | s in db'.subs && Payable(db'.subs[s].status) ensures PendingOf(db', s) != {} {
      if s == r {
        assert n in PendingOf(db', s);
      } else {
        StillAwaits(db, db', n, s);
      }
    }
  }

  lemma OtherAwaits(db: Db, call: Call, k: nat)
    requires Legal(db, call) && k >= 2 && Handle(db, call).Ok? && (call.req.Cancel? || OnDevices(call.req))
    requires AwaitsPayment(db)
    ensures AwaitsPayment(ServeUpTo(db, call, k))
  {
    var db' := ServeUpTo(db, call, k);
    OtherFrame(db, call, k);
    forall s | s in db'.subs && Payable(db'.subs[s].status) ensures PendingOf(db', s) != {} {
      assert PendingOf(db', s) == PendingOf(db, s);
    }
  }

  lemma StepAwaits(db: Db, call: Call, k: nat)
    requires Invariant(db) && Legal(db, call) && k >= 2 && AwaitsPayment(db)
    ensures AwaitsPayment(ServeUpTo(db, call, k))
  {
    if Handle(db, call).Err? {
      forall s ensures PendingOf(ServeUpTo(db, call, k), s) == PendingOf(db, s) {}
    } else {
      match call.req
      case Purchase(_, _, _, _) => NewPaymentAwaits(db, call, k);
      case VerifyPayment(_, _, _) => VerifyAwaits(db, call, k);
      case Renew(_, _, _) => NewPaymentAwaits(db, call, k);
      case _ => OtherAwaits(db, call, k);
    }
  }

  // ---------------------------------------------------------------- exactly one entitlement per feature

  /** Every subscription that was ever activated has an entitlement for each enabled feature of its plan. */
  ghost predicate Complete(db: Db) {
    forall s :: s in db.subs && db.subs[s].startedAt.Some? ==> CompleteFor(db, s)
  }

  ghost predicate CompleteFor(db: Db, s: Id)
    requires s in db.subs
  {
    && db.subs[s].planId in db.plans
    && forall name :: EnabledIn(db.plans[db.subs[s].planId].features, name) ==> Grants(db, s, name) != {}
  }

  lemma CompleteStays(db: Db, db': Db, s: Id)
    requires s in db.subs && CompleteFor(db, s) && s in db'.subs && db'.subs[s].planId == db.subs[s].planId
    requires db'.plans == db.plans && forall e :: e in db.ents ==> e in db'.ents && db'.ents[e] == db.ents[e]
    ensures CompleteFor(db', s)
  {
    forall name | EnabledIn(db.plans[db.subs[s].planId].features, name) ensures Grants(db', s, name) != {} {
      var e :| e in Grants(db, s, name);
      assert e in Grants(db', s, name);
    }
  }

  /** After a grant nothing is missing. */
  lemma GrantCompletes(db: Db, s: Id, row: Entitlement, name: string)
    requires PlansOk(db.plans) && s in db.subs && db.subs[s].planId in db.plans && row.subId == s && row.active
    requires EnabledIn(db.plans[db.subs[s].planId].features, name)
    requires IdsUsed(db)
    ensures Grants(Granted(db, s, row), s, name) != {}
  {
    var features, db', rows := db.plans[db.subs[s].planId].features, Granted(db, s, row), NewRows(db, s, row);
    MissingRowsFacts(features, ActiveFeatures(db, s), row);
    if name in ActiveFeatures(db, s) {
      var e :| e in db.ents && db.ents[e].subId == s && db.ents[e].active && db.ents[e].feature == name;
      assert db'.ents[e] == db.ents[e];
      assert e in Grants(db', s, name);
    } else {
      var i :| 0 <= i < |rows| && rows[i].feature == name;
      GrantedRow(db, db', rows, i);
      assert db.nextId + i in Grants(db', s, name);
    }
  }

  lemma GrantedRow(db: Db, db': Db, rows: seq<Entitlement>, i: nat)
    requires i < |rows| && db' == Apply(db, AddEntitlements(db.nextId, rows))
    ensures db.nextId + i in db'.ents && db'.ents[db.nextId + i] == rows[i]
  {
    assert db.nextId + i in Numbered(db.nextId, rows);
  }

  /** A complete verification is an activation followed by a grant. */
  ghost predicate ActivatesAndGrants(db: Db, db1: Db, db': Db, s: Id, row: Entitlement) {
    && s in db.subs && s in db1.subs && db1.subs[s].planId in db1.plans && IdsUsed(db1)
    && db1.plans == db.plans && db1.subs == db.subs[s := db1.subs[s]] && row.subId == s && row.active
    && db'.plans == db1.plans && db'.subs == db1.subs && db'.ents == Granted(db1, s, row).ents
  }

  lemma VerifyFrame(db: Db, call: Call, k: nat) returns (db1: Db, row: Entitlement)
    requires IdsUsed(db) && SubsOk(db.subs, db.plans) && db.clock <= call.now
    requires k >= 2 && call.req.VerifyPayment? && Handle(db, call).Ok?
    ensures call.req.payId in db.payments
    ensures ActivatesAndGrants(db, db1, ServeUpTo(db, call, k), db.payments[call.req.payId].subId, row)
  {
    var db0, ws := Tick(db, call.now), Handle(db, call).value;
    ServeWhole(db, call, k);
    VerifyShape(db, call);
    db1, row := Apply(db0, ws[0]), VerifyRow(db, call);
    assert |ws| == 1 ==> Granted(db1, ws[0].id, row).ents == db1.ents;
  }

  lemma ActivationCompletes(db: Db, db1: Db, db': Db, s: Id, row: Entitlement)
    requires PlansOk(db.plans) && ActivatesAndGrants(db, db1, db', s, row)
    ensures CompleteFor(db', s)
    ensures forall r :: r in db'.subs && r != s ==> r in db.subs && db'.subs[r] == db.subs[r]
  {
    forall name | EnabledIn(db1.plans[db1.subs[s].planId].features, name) ensures Grants(db', s, name) != {} {
      GrantCompletes(db1, s, row, name);
      assert Grants(db', s, name) == Grants(Granted(db1, s, row), s, name);
    }
  }

  lemma VerifyCompletes(db: Db, call: Call, k: nat)
    requires Invariant(db) && db.clock <= call.now && k >= 2 && call.req.VerifyPayment? && Handle(db, call).Ok?
    ensures var db', s := ServeUpTo(db, call, k), db.payments[call.req.payId].subId;
            && s in db'.subs && CompleteFor(db', s)
            && forall r :: r in db'.subs && r != s ==> r in db.subs && db'.subs[r] == db.subs[r]
  {
    var db1, row := VerifyFrame(db, call, k);
    ActivationCompletes(db, db1, ServeUpTo(db, call, k), db.payments[call.req.payId].subId, row);
  }

  /** Only a verification starts a subscription. */
  lemma StartedBefore(db: Db, call: Call, k: nat, s: Id)
    requires IdsUsed(db) && Legal(db, call) && k >= 2 && !call.req.VerifyPayment?
    requires s in ServeUpTo(db, call, k).subs && ServeUpTo(db, call, k).subs[s].startedAt.Some?
    ensures s in db.subs && db.subs[s].startedAt.Some?
  {
    if Handle(db, call).Ok? {
      if call.req.Purchase? || call.req.Renew? {
        var _, _ := NewPaymentFrame(db, call, k);
      } else {
        OtherFrame(db, call, k);
      }
    }
  }

  lemma StepCompletes(db: Db, call: Call, k: nat)
    requires Invariant(db) && Legal(db, call) && k >= 2 && Complete(db)
    ensures Complete(ServeUpTo(db, call, k))
  {
    var db' := ServeUpTo(db, call, k);
    StepGrows(db, call, k);
    if call.req.VerifyPayment? && Handle(db, call).Ok? {
      VerifyCompletes(db, call, k);
    }
    forall s | s in db'.subs && db'.subs[s].startedAt.Some? && !Activates(db, call, s) ensures CompleteFor(db', s) {
      if !call.req.VerifyPayment? {
        StartedBefore(db, call, k, s);
      }
      CompleteStays(db, db', s);
    }
  }

  lemma {:induction false} SerialRun(db: Db, events: seq<Event>)
    requires Invariant(db) && AwaitsPayment(db) && Complete(db) && LegalRun(db, events) && Serial(events)
    ensures Invariant(Run(db, events)) && AwaitsPayment(Run(db, events)) && Complete(Run(db, events))
    decreases events
  {
    if events != [] {
      var call, k := events[0].call, events[0].writes;
      StepKeeps(db, call, k);
      StepAwaits(db, call, k);
      StepCompletes(db, call, k);
      SerialRun(ServeUpTo(db, call, k), events[1..]);
    }
  }

  /** Between complete requests a subscription has one pending payment while payable and none otherwise. */
  lemma PendingExactly(plans: map<Id, Plan>, clock: int, events: seq<Event>, s: Id)
    requires PlansOk(plans) && LegalRun(Initial(plans, clock), events) && Serial(events)
    ensures var db := Run(Initial(plans, clock), events);
            s in db.subs ==> |PendingOf(db, s)| == if Payable(db.subs[s].status) then 1 else 0
  {
    var db := Run(Initial(plans, clock), events);
    SerialRun(Initial(plans, clock), events);
    if s in db.subs {
      PendingAtMostOne(db, s);
      if !Payable(db.subs[s].status) {
        NoPendingUnlessPayable(db, s);
        assert PendingOf(db, s) == {};
      }
    }
  }

  /** Once activated, a subscription has exactly one active entitlement per enabled feature, none outliving it. */
  lemma OneEntitlementPerFeature(plans: map<Id, Plan>, clock: int, events: seq<Event>, s: Id, name: string)
    requires PlansOk(plans) && LegalRun(Initial(plans, clock), events) && Serial(events)
    ensures var db := Run(Initial(plans, clock), events);
            s in db.subs ==>
              && db.subs[s].planId in db.plans
              && |Grants(db, s, name)| ==
                   (if db.subs[s].startedAt.Some? && EnabledIn(db.plans[db.subs[s].planId].features, name)
                    then 1 else 0)
              && (forall e :: e in Grants(db, s, name) ==>
                   && db.ents[e].expiresAt.Some? && db.subs[s].expiresAt.Some?
                   && db.ents[e].expiresAt.value <= db.subs[s].expiresAt.value)
  {
    SerialRun(Initial(plans, clock), events);
    if s in Run(Initial(plans, clock), events).subs {
      OneGrantExactly(Run(Initial(plans, clock), events), s, name);
    }
  }

  lemma OneGrantExactly(db: Db, s: Id, name: string)
    requires SubsOk(db.subs, db.plans) && EntsOk(db.ents, db.subs, db.plans) && EntsUnique(db.ents)
    requires Complete(db) && s in db.subs
    ensures |Grants(db, s, name)| ==
      (if db.subs[s].startedAt.Some? && EnabledIn(db.plans[db.subs[s].planId].features, name) then 1 else 0)
    ensures forall e :: e in Grants(db, s, name) ==>
      && db.ents[e].expiresAt.Some? && db.subs[s].expiresAt.Some?
      && db.ents[e].expiresAt.value <= db.subs[s].expiresAt.value
  {
    var grants := Grants(db, s, name);
    forall e, f | e in grants && f in grants ensures e == f {
      assert SameGrant(db.ents, e, f);
    }
    AtMostOne(grants);
    forall e | e in grants ensures Covered(db.ents[e], db.subs, db.plans) {}
    if db.subs[s].startedAt.Some? && EnabledIn(db.plans[db.subs[s].planId].features, name) {
      assert CompleteFor(db, s);
    } else {
      assert grants == {};
    }
  }

  // ---------------------------------------------------------------- activations

  /** The call makes its subscription active from now on for one duration, and changes no other subscription. */
  ghost predicate StartsNow(db: Db, call: Call) {
    && call.req.VerifyPayment? && call.req.payId in db.payments && db.payments[call.req.payId].subId in db.subs
    && var s := db.payments[call.req.payId].subId;
       db.subs[s].planId in db.plans && ServeUpTo(db, call, 2).subs ==
         db.subs[s := db.subs[s].(status := Active, startedAt := Some(call.now), renewedAt := None,
           expiresAt := Some(call.now + Days(db.plans[db.subs[s].planId].durationDays)))]
  }

  lemma PeriodStartsNow(db: Db, call: Call)
    requires SubsOk(db.subs, db.plans) && db.clock <= call.now && call.req.VerifyPayment? && Handle(db, call).Ok?
    ensures StartsNow(db, call)
  {
    VerifyShape(db, call);
    ServeWhole(db, call, 2);
  }

  /** The renewal branch of a verification is never taken: the new period always starts at once. */
  lemma ActivationStartsNow(plans: map<Id, Plan>, clock: int, events: seq<Event>, call: Call)
    requires PlansOk(plans) && LegalRun(Initial(plans, clock), events)
    requires call.req.VerifyPayment? && Run(Initial(plans, clock), events).clock <= call.now
    ensures Handle(Run(Initial(plans, clock), events), call).Ok? ==> StartsNow(Run(Initial(plans, clock), events), call)
  {
    RunKeeps(Initial(plans, clock), events);
    if Handle(Run(Initial(plans, clock), events), call).Ok? {
      PeriodStartsNow(Run(Initial(plans, clock), events), call);
    }
  }

  // ---------------------------------------------------------------- which payments are accepted, and how often

  /** Pending, of the test provider, and for a reference no other payment carries. */
  ghost predicate Verifiable(db: Db, user: Id, payId: Id, reference: Option<string>) {
    && payId in db.payments && db.payments[payId].userId == user
    && db.payments[payId].status == Pending && db.payments[payId].provider == "test"
    && (reference.Some? ==> forall p :: p in db.payments ==> db.payments[p].reference != Some(Given(reference.value)))
    && (reference.None? ==> forall p :: p in db.payments ==> db.payments[p].reference != Some(Generated(payId)))
  }

  /**
   * In every consistent state a verification is accepted exactly for the customer's own verifiable
   * payments, whatever the state of the subscription: the check of its status never decides. A
   * payment that is not the customer's is not found, and one that is no longer pending is a conflict.
   */
  lemma AcceptedExactly(db: Db, call: Call)
    requires Invariant(db) && call.req.VerifyPayment?
    ensures Handle(db, call).Ok? <==> Verifiable(db, call.req.user, call.req.payId, call.req.reference)
    ensures Handle(db, call) == Err(NotFound) <==>
      call.req.payId !in db.payments || db.payments[call.req.payId].userId != call.req.user
    ensures Handle(db, call) == Err(Conflict) <==>
      && call.req.payId in db.payments && db.payments[call.req.payId].userId == call.req.user
      && db.payments[call.req.payId].status != Pending
  {
  }

  /** A payment buys one activation: once a verification wrote anything, no later one of that payment succeeds. */
  lemma VerifiedOnce(db: Db, call: Call, k: nat, events: seq<Event>, again: Call)
    requires Invariant(db) && Legal(db, call) && call.req.VerifyPayment? && Handle(db, call).Ok? && k >= 1
    requires LegalRun(ServeUpTo(db, call, k), events)
    requires again.req.VerifyPayment? && again.req.payId == call.req.payId
    ensures Handle(Run(ServeUpTo(db, call, k), events), again).Err?
  {
    var db1 := ServeUpTo(db, call, k);
    StepKeeps(db, call, k);
    Spent(db, call, k);
    RunKeeps(db1, events);
    RunGrows(db1, events);
    AcceptedExactly(Run(db1, events), again);
  }

  lemma Spent(db: Db, call: Call, k: nat)
    requires SubsOk(db.subs, db.plans) && db.clock <= call.now
    requires call.req.VerifyPayment? && Handle(db, call).Ok? && k >= 1
    ensures var db' := ServeUpTo(db, call, k);
            call.req.payId in db'.payments && db'.payments[call.req.payId].status == Succeeded
  {
    VerifyShape(db, call);
    var db0, ws := Tick(db, call.now), Handle(db, call).value;
    if k == 1 {
      assert ws[..1] == [ws[0]];
      ApplyTwo(db0, [ws[0]]);
      assert ServeUpTo(db, call, k) == Apply(db0, ws[0]);
    } else {
      ServeWhole(db, call, k);
    }
  }

  // ---------------------------------------------------------------- what a renewal buys

  /** The customer has a device of that name on an active, unexpired subscription. */
  ghost predicate Ready(db: Db, user: Id, deviceId: string, now: int) {
    exists d :: d in DevicesOf(db, user) * Named(db, deviceId) && OnLiveSubscription(db, d, now)
  }

  predicate OnLiveSubscription(db: Db, d: Id, now: int)
    requires d in db.devices
  {
    var s := db.devices[d].subId;
    s.Some? && s.value in db.subs && db.subs[s.value].status == Active && LiveAt(db.subs[s.value].expiresAt, now)
  }

  function Connecting(user: Id, deviceId: string, ent: Option<Id>, now: int): Call {
    Call(Connect(user, deviceId, ent), now)
  }

  lemma SameDevice(db: Db, user: Id, deviceId: string, c: Id, d: Id)
    requires DevicesUnique(db.devices)
    requires c in DevicesOf(db, user) * Named(db, deviceId) && d in DevicesOf(db, user) * Named(db, deviceId)
    ensures c == d
  {
  }

  /** One answer of the join: the device must be ready and the answered entitlement unexpired. */
  lemma ConnectAnswered(db: Db, user: Id, deviceId: string, ent: Option<Id>, now: int)
    requires DevicesUnique(db.devices) && Answers(ent, ConnectEntitlements(db, user))
    ensures Handle(db, Connecting(user, deviceId, ent, now)).Ok? <==>
      Ready(db, user, deviceId, now) && ent.Some? && ent.value in LiveEntitlements(db, user, now)
  {
    var mine := DevicesOf(db, user) * Named(db, deviceId);
    forall d | d in mine
      ensures Authorized(db, d, ent, now) <==>
        OnLiveSubscription(db, d, now) && ent.Some? && ent.value in LiveEntitlements(db, user, now) {}
    if Ready(db, user, deviceId, now) {
      var c :| c in mine && OnLiveSubscription(db, c, now);
      forall d | d in mine ensures d == c {
        SameDevice(db, user, deviceId, c, d);
      }
    }
  }

  /**
   * For every customer: a connect is accepted whatever row the unordered join answers exactly when
   * the device is ready and the customer has connect entitlements, all unexpired; it is refused
   * whatever the answer exactly when the device is not ready or no connect entitlement is unexpired.
   */
  lemma ConnectExactly(db: Db, user: Id, deviceId: string, now: int)
    requires Invariant(db)
    ensures (forall ent :: Answers(ent, ConnectEntitlements(db, user)) ==>
              Handle(db, Connecting(user, deviceId, ent, now)).Ok?)
      <==>
      && Ready(db, user, deviceId, now) && ConnectEntitlements(db, user) != {}
      && LiveEntitlements(db, user, now) == ConnectEntitlements(db, user)
    ensures (forall ent :: Answers(ent, ConnectEntitlements(db, user)) ==>
              Handle(db, Connecting(user, deviceId, ent, now)).Err?)
      <==>
      !Ready(db, user, deviceId, now) || LiveEntitlements(db, user, now) == {}
  {
    var all, live := ConnectEntitlements(db, user), LiveEntitlements(db, user, now);
    forall ent | Answers(ent, all)
      ensures Handle(db, Connecting(user, deviceId, ent, now)).Ok? <==>
        Ready(db, user, deviceId, now) && ent.Some? && ent.value in live
    {
      ConnectAnswered(db, user, deviceId, ent, now);
    }
    forall e | e in all ensures Answers(Some(e), all) {}
    assert all == {} ==> Answers(None, all);
    assert live <= all;
  }

  lemma OnlyGrant(db: Db, e: Id)
    requires EntsOk(db.ents, db.subs, db.plans) && EntsUnique(db.ents) && e in db.ents
    ensures Grants(db, db.ents[e].subId, db.ents[e].feature) == {e}
  {
    assert Covered(db.ents[e], db.subs, db.plans);
    var grants := Grants(db, db.ents[e].subId, db.ents[e].feature);
    assert e in grants;
    forall f | f in grants ensures f == e {
      assert SameGrant(db.ents, e, f);
    }
  }

  /** An entitlement is never extended or replaced: it stays its subscription's only one for the feature. */
  lemma GrantNeverChanges(db: Db, events: seq<Event>, e: Id)
    requires Invariant(db) && LegalRun(db, events) && e in db.ents
    ensures var db' := Run(db, events);
            e in db'.ents && db'.ents[e] == db.ents[e] && Grants(db', db.ents[e].subId, db.ents[e].feature) == {e}
  {
    RunKeeps(db, events);
    RunGrows(db, events);
    OnlyGrant(Run(db, events), e);
  }

  lemma ExpiredAnswerRefuses(db: Db, e: Id, deviceId: string, now: int)
    requires DevicesUnique(db.devices) && e in db.ents && db.ents[e].active && db.ents[e].feature == "connect"
    requires db.ents[e].expiresAt.Some? && db.ents[e].expiresAt.value <= now
    ensures Answers(Some(e), ConnectEntitlements(db, db.ents[e].userId))
    ensures Handle(db, Connecting(db.ents[e].userId, deviceId, Some(e), now)).Err?
  {
    assert e in ConnectEntitlements(db, db.ents[e].userId);
    ConnectAnswered(db, db.ents[e].userId, deviceId, Some(e), now);
  }

  /**
   * Renewals buy no right to connect. From the expiry of a connect entitlement on, whatever is paid
   * or bought meanwhile, the entitlement stays as it is and stays its subscription's only one, the
   * join may answer it, and that answer refuses the connect.
   */
  lemma RenewalNeverExtendsConnect(db: Db, events: seq<Event>, e: Id, deviceId: string, now: int)
    requires Invariant(db) && LegalRun(db, events) && e in db.ents && db.ents[e].feature == "connect"
    requires db.ents[e].expiresAt.Some? && db.ents[e].expiresAt.value <= now
    ensures var db', user := Run(db, events), db.ents[e].userId;
            && Grants(db', db.ents[e].subId, "connect") == {e}
            && Answers(Some(e), ConnectEntitlements(db', user))
            && Handle(db', Connecting(user, deviceId, Some(e), now)).Err?
  {
    RunKeeps(db, events);
    GrantNeverChanges(db, events, e);
    assert Covered(db.ents[e], db.subs, db.plans);
    ExpiredAnswerRefuses(Run(db, events), e, deviceId, now);
  }

  // ---------------------------------------------------------------- device limit

  /** An accepted enrollment adds exactly one device, under a new name, within the limit, and for a live entitlement. */
  lemma EnrollWithinLimit(db: Db, call: Call)
    requires Invariant(db) && Legal(db, call) && call.req.Enroll? && Handle(db, call).Ok?
    ensures var db', user := ServeUpTo(db, call, 2), call.req.user;
            && |DevicesOf(db', user)| == |DevicesOf(db, user)| + 1 <= DeviceLimit(db, call.req.sub)
            && Named(db, call.req.deviceId) == {} && |Named(db', call.req.deviceId)| == 1
            && LiveEntitlements(db, user, call.now) != {}
  {
    EnrolledDevices(db, call);
    EnrolledSets(db, ServeUpTo(db, call, 2), db.nextId, call.req.user, call.req.deviceId);
  }

  lemma EnrolledDevices(db: Db, call: Call)
    requires Legal(db, call) && call.req.Enroll? && Handle(db, call).Ok?
    ensures ServeUpTo(db, call, 2).devices ==
      db.devices[db.nextId := Device(call.req.user, call.req.sub, call.req.deviceId, Enrolled)]
    ensures Named(db, call.req.deviceId) == {} && LiveEntitlements(db, call.req.user, call.now) != {}
    ensures |DevicesOf(db, call.req.user)| < DeviceLimit(db, call.req.sub)
  {
    EnrollShape(db, call);
    ServeWhole(db, call, 2);
  }

  lemma EnrolledSets(db: Db, db': Db, n: Id, user: Id, deviceId: string)
    requires n !in db.devices && n in db'.devices && db'.devices == db.devices[n := db'.devices[n]]
    requires db'.devices[n].userId == user && db'.devices[n].deviceId == deviceId && db'.devices[n].status == Enrolled
    ensures DevicesOf(db', user) == DevicesOf(db, user) + {n} && n !in DevicesOf(db, user)
    ensures Named(db', deviceId) == Named(db, deviceId) + {n}
  {
  }
}
