/** What a purchase or a renewal that stops after its first write leaves behind for good. */
module StrandedSubscriptions {
  import opened Prelude
  import opened Subscriptions
  import opened SubscriptionRuns
  import opened SubscriptionGuarantees

  /** The subscription waits for a payment that is not on file. */
  ghost predicate Stranded(db: Db, s: Id) {
    s in db.subs && Payable(db.subs[s].status) && PendingOf(db, s) == {}
  }

  /** The write leaves `s` and its payments alone. */
  ghost predicate Spares(db: Db, w: Write, s: Id) {
    match w
    case PutSub(id, _) => id != s
    case PutPayment(_, p) => p.subId != s
    case Activate(id, _, payId, p) => id != s && p.subId != s && payId in db.payments && db.payments[payId].subId != s
    case _ => true
  }

  lemma WriteSpares(db: Db, w: Write, s: Id)
    requires Stranded(db, s) && Spares(db, w, s)
    ensures Stranded(Apply(db, w), s) && Apply(db, w).subs[s] == db.subs[s]
  {
    forall p | p in PendingOf(Apply(db, w), s) ensures p in PendingOf(db, s) {}
  }

  lemma TickStranded(db: Db, s: Id, now: int)
    requires Stranded(db, s)
    ensures Stranded(Tick(db, now), s)
  {
    assert PendingOf(Tick(db, now), s) == PendingOf(db, s);
  }

  /** No request can touch a stranded subscription: it is neither payable, renewable nor cancellable. */
  lemma StepSpares(db: Db, call: Call, s: Id)
    requires Invariant(db) && Legal(db, call) && Handle(db, call).Ok? && Stranded(db, s)
    ensures var db0, ws := Tick(db, call.now), Handle(db, call).value;
            |ws| >= 1 && Spares(db0, ws[0], s) && (|ws| >= 2 ==> Spares(Apply(db0, ws[0]), ws[1], s))
  {
    match call.req
    case Purchase(_, _, _, _) =>
    case VerifyPayment(_, payId, _) =>
      VerifyShape(db, call);
      assert payId !in PendingOf(db, s);
    case Renew(_, _, _) => RenewShape(db, call);
    case Cancel(_, _) => CancelShape(db, call);
    case Enroll(_, _, _, _) => EnrollShape(db, call);
    case _ => DeviceShape(db, call);
  }

  lemma WritesSpare(db: Db, ws: seq<Write>, db': Db, s: Id)
    requires Stranded(db, s) && Reaches(db, ws, db') && |ws| >= 1 && Spares(db, ws[0], s)
    requires |ws| >= 2 ==> Spares(Apply(db, ws[0]), ws[1], s)
    ensures Stranded(db', s) && db'.subs[s] == db.subs[s]
  {
    WriteSpares(db, ws[0], s);
    if |ws| >= 2 {
      WriteSpares(Apply(db, ws[0]), ws[1], s);
    }
  }

  /** Whatever follows, a stranded subscription never changes again, and no device on it ever connects. */
  lemma {:induction false} StrandedForGood(db: Db, events: seq<Event>, s: Id)
    requires Invariant(db) && LegalRun(db, events) && Stranded(db, s)
    ensures var db' := Run(db, events);
            && Stranded(db', s) && db'.subs[s] == db.subs[s]
            && forall d, ent, now ::
                 d in db'.devices && db'.devices[d].subId == Some(s) ==> !Authorized(db', d, ent, now)
    decreases events
  {
    if events != [] {
      var call, k := events[0].call, events[0].writes;
      StepKeeps(db, call, k);
      TickStranded(db, s, call.now);
      if Handle(db, call).Ok? {
        StepReaches(db, call, k);
        StepSpares(db, call, s);
        WritesSpare(Tick(db, call.now), Handle(db, call).value, ServeUpTo(db, call, k), s);
      }
      StrandedForGood(ServeUpTo(db, call, k), events[1..], s);
    }
  }

  lemma FirstWriteOnly(db: Db, call: Call)
    requires Handle(db, call).Ok? && |Handle(db, call).value| >= 1
    ensures ServeUpTo(db, call, 1) == Apply(Tick(db, call.now), Handle(db, call).value[0])
  {
    var ws := Handle(db, call).value;
    assert ws[..1] == [ws[0]];
    ApplyTwo(Tick(db, call.now), [ws[0]]);
  }

  /** A renewal that stops after marking the subscription strands it, though it was active and paid for. */
  lemma StoppedRenewalStrands(db: Db, call: Call)
    requires Invariant(db) && Legal(db, call) && call.req.Renew? && Handle(db, call).Ok?
    ensures call.req.latest.Some? && call.req.latest.value in db.subs && db.subs[call.req.latest.value].status == Active
    ensures Stranded(ServeUpTo(db, call, 1), call.req.latest.value)
  {
    RenewShape(db, call);
    FirstWriteOnly(db, call);
    NoPendingUnlessPayable(db, call.req.latest.value);
    assert PendingOf(ServeUpTo(db, call, 1), call.req.latest.value) == {};
  }

  /** A purchase that stops after registering the subscription strands it. */
  lemma StoppedPurchaseStrands(db: Db, call: Call)
    requires Invariant(db) && Legal(db, call) && call.req.Purchase? && Handle(db, call).Ok?
    ensures Stranded(ServeUpTo(db, call, 1), db.nextId)
  {
    FirstWriteOnly(db, call);
    assert PendingOf(ServeUpTo(db, call, 1), db.nextId) == {};
  }

  // ---------------------------------------------------------------- exactly when a request strands

  /** The write does not make `s` wait for a payment and takes no pending payment away from it. */
  ghost predicate KeepsAwaiting(db: Db, w: Write, s: Id) {
    match w
    case PutSub(id, sub) => id == s ==> !Payable(sub.status)
    case PutPayment(id, _) => id !in db.payments
    case Activate(id, sub, payId, _) => !Payable(sub.status) && payId in db.payments && db.payments[payId].subId == id
    case _ => true
  }

  lemma WriteKeepsAwaiting(db: Db, w: Write, s: Id)
    requires !Stranded(db, s) && KeepsAwaiting(db, w, s)
    ensures !Stranded(Apply(db, w), s)
  {
    var db' := Apply(db, w);
    if s in db'.subs && Payable(db'.subs[s].status) {
      var p :| p in PendingOf(db, s);
      assert p in PendingOf(db', s);
    }
  }

  lemma WritesKeepAwaiting(db: Db, ws: seq<Write>, db': Db, s: Id)
    requires !Stranded(db, s) && Reaches(db, ws, db') && |ws| >= 1 && KeepsAwaiting(db, ws[0], s)
    requires |ws| >= 2 ==> KeepsAwaiting(Apply(db, ws[0]), ws[1], s)
    ensures !Stranded(db', s)
  {
    WriteKeepsAwaiting(db, ws[0], s);
    if |ws| >= 2 {
      WriteKeepsAwaiting(Apply(db, ws[0]), ws[1], s);
    }
  }

  /** Except for the subscription a purchase or renewal is about, every write of a request keeps payments awaited. */
  lemma OthersKeepAwaiting(db: Db, call: Call, s: Id)
    requires Invariant(db) && Legal(db, call) && Handle(db, call).Ok?
    requires !Creates(db, call, s) && !Renews(db, call, s)
    ensures var db0, ws := Tick(db, call.now), Handle(db, call).value;
            && |ws| >= 1 && KeepsAwaiting(db0, ws[0], s)
            && (|ws| >= 2 ==> KeepsAwaiting(Apply(db0, ws[0]), ws[1], s))
  {
    match call.req
    case Purchase(_, _, _, _) =>
    case VerifyPayment(_, _, _) => VerifyShape(db, call);
    case Renew(_, _, _) => RenewShape(db, call);
    case Cancel(_, _) => CancelShape(db, call);
    case Enroll(_, _, _, _) => EnrollShape(db, call);
    case _ => DeviceShape(db, call);
  }

  lemma WholeNeverStrands(db: Db, call: Call, k: nat, s: Id)
    requires Invariant(db) && Legal(db, call) && k >= 2 && (Creates(db, call, s) || Renews(db, call, s))
    ensures !Stranded(ServeUpTo(db, call, k), s)
  {
    var r, n := NewPaymentFrame(db, call, k);
    assert n in PendingOf(ServeUpTo(db, call, k), r);
    if call.req.Renew? {
      RenewShape(db, call);
    }
  }

  /** A request strands a subscription exactly when it is its purchase or renewal, stopped after one write. */
  lemma StrandsExactly(db: Db, call: Call, k: nat, s: Id)
    requires Invariant(db) && Legal(db, call) && !Stranded(db, s)
    ensures Stranded(ServeUpTo(db, call, k), s) <==> k == 1 && (Creates(db, call, s) || Renews(db, call, s))
  {
    var db0, db' := Tick(db, call.now), ServeUpTo(db, call, k);
    assert PendingOf(db0, s) == PendingOf(db, s);
    if Creates(db, call, s) || Renews(db, call, s) {
      if k >= 2 {
        WholeNeverStrands(db, call, k, s);
      } else if k == 1 {
        if call.req.Renew? {
          StoppedRenewalStrands(db, call);
        } else {
          StoppedPurchaseStrands(db, call);
        }
      } else {
      }
    } else if Handle(db, call).Ok? {
      StepReaches(db, call, k);
      OthersKeepAwaiting(db, call, s);
      WritesKeepAwaiting(db0, Handle(db, call).value, db', s);
    }
  }

}
