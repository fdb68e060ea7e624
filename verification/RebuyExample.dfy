/**
 * A customer who cancels and buys again: with the second subscription active and unexpired, a
 * connect succeeds or fails with the row the join answers, because the first subscription's
 * entitlement is still on file.
 */
module RebuyExample {
  import opened Prelude
  import opened Subscriptions
  import opened SubscriptionRuns
  import opened SubscriptionGuarantees
  import Renewal = RenewalExample

  const Dropped := Subscription(7, 0, Cancelled, Some(0), Some(Days(30)), None, Some(Days(5)), 0)

  function Second(status: SubStatus, started: Option<int>, expires: Option<int>): Subscription {
    Subscription(7, 0, status, started, expires, None, None, Days(10))
  }

  const Unpaid := Payment(3, 7, Pending, "test", None, None)
  const Paid := Payment(3, 7, Succeeded, "test", Some(Generated(4)), Some(Days(10)))
  const NewGrant := Entitlement(3, 7, "connect", true, Some(Days(10)), Some(Days(40)))

  const AfterCancel := Renewal.Started.(subs := map[0 := Dropped], clock := Days(5))

  const AfterPurchase := AfterCancel.(
    subs := map[0 := Dropped, 3 := Second(Registered, None, None)],
    payments := map[1 := Renewal.Paid(1, 0), 4 := Unpaid], clock := Days(10), nextId := 5)

  const AfterPayment := AfterPurchase.(
    subs := map[0 := Dropped, 3 := Second(Active, Some(Days(10)), Some(Days(40)))],
    payments := map[1 := Renewal.Paid(1, 0), 4 := Paid],
    ents := map[2 := Renewal.Grant, 5 := NewGrant], nextId := 6)

  const AfterEnroll := AfterPayment.(devices := map[6 := Device(7, Some(3), "phone", Enrolled)], nextId := 7)

  const Calls := [
    Call(Cancel(7, Some(0)), Days(5)), Call(Purchase(7, 0, "test", None), Days(10)),
    Call(VerifyPayment(7, 4, None), Days(10)), Call(Enroll(7, "phone", Some(5), Some(3)), Days(10))]

  lemma CancelStep()
    ensures Legal(Renewal.Started, Calls[0]) && ServeUpTo(Renewal.Started, Calls[0], 2) == AfterCancel
  {
    assert SubsOf(Renewal.Started, 7, {Active}) == {0};
    ServeWhole(Renewal.Started, Calls[0], 2);
  }

  lemma PurchaseStep()
    ensures Legal(AfterCancel, Calls[1]) && ServeUpTo(AfterCancel, Calls[1], 2) == AfterPurchase
  {
    assert SubsOf(AfterCancel, 7, {Registered, PaymentPending, Active}) == {};
    ServeWhole(AfterCancel, Calls[1], 2);
  }

  lemma PaymentWrites()
    ensures Handle(AfterPurchase, Calls[2]) ==
      Ok([Activate(3, Second(Active, Some(Days(10)), Some(Days(40))), 4, Paid), AddEntitlements(5, [NewGrant])])
  {
    assert ActiveFeatures(AfterPurchase, 3) == {};
    Renewal.FirstRows(Entitlement(3, 7, "", true, Some(Days(10)), Some(Days(40))));
    assert VerifyError(AfterPurchase, 7, 4, None) == None;
    var ws := VerifyWrites(AfterPurchase, 7, 4, None, Days(10));
    assert ws[0] == Activate(3, Second(Active, Some(Days(10)), Some(Days(40))), 4, Paid);
    assert ws[1] == AddEntitlements(5, [NewGrant]);
    assert ws == [ws[0], ws[1]];
  }

  lemma PaymentTables()
    ensures Apply(Apply(AfterPurchase, Activate(3, Second(Active, Some(Days(10)), Some(Days(40))), 4, Paid)),
                  AddEntitlements(5, [NewGrant])) == AfterPayment
  {
    assert Numbered(5, [NewGrant]) == map[5 := NewGrant];
  }

  lemma PaymentStep()
    ensures Legal(AfterPurchase, Calls[2]) && ServeUpTo(AfterPurchase, Calls[2], 2) == AfterPayment
  {
    PaymentWrites();
    ServeWhole(AfterPurchase, Calls[2], 2);
    PaymentTables();
  }

  lemma EnrollStep()
    ensures Legal(AfterPayment, Calls[3]) && ServeUpTo(AfterPayment, Calls[3], 2) == AfterEnroll
  {
    assert LiveEntitlements(AfterPayment, 7, Days(10)) == {2, 5} && SubsOf(AfterPayment, 7, {Active}) == {3};
    assert DevicesOf(AfterPayment, 7) == {} && Named(AfterPayment, "phone") == {};
    ServeWhole(AfterPayment, Calls[3], 2);
  }

  const Served := [Event(Renewal.Calls[0], 2)] + ([Event(Renewal.Calls[1], 2)] + ([Event(Calls[0], 2)] +
                  ([Event(Calls[1], 2)] + ([Event(Calls[2], 2)] + ([Event(Calls[3], 2)] + [])))))

  lemma Reached()
    ensures LegalRun(Initial(Renewal.Plans, 0), Served) && Run(Initial(Renewal.Plans, 0), Served) == AfterEnroll
  {
    var e1, e2 := Event(Renewal.Calls[1], 2), Event(Calls[0], 2);
    var e3, e4, e5 := Event(Calls[1], 2), Event(Calls[2], 2), Event(Calls[3], 2);
    Renewal.Step1();
    Renewal.First(Initial(Renewal.Plans, 0), Renewal.Calls[0], Renewal.Purchased,
                  [e1] + ([e2] + ([e3] + ([e4] + ([e5] + [])))));
    Renewal.Step2();
    Renewal.First(Renewal.Purchased, Renewal.Calls[1], Renewal.Started, [e2] + ([e3] + ([e4] + ([e5] + []))));
    CancelStep();
    Renewal.First(Renewal.Started, Calls[0], AfterCancel, [e3] + ([e4] + ([e5] + [])));
    PurchaseStep();
    Renewal.First(AfterCancel, Calls[1], AfterPurchase, [e4] + ([e5] + []));
    PaymentStep();
    Renewal.First(AfterPurchase, Calls[2], AfterPayment, [e5] + []);
    EnrollStep();
    Renewal.First(AfterPayment, Calls[3], AfterEnroll, []);
  }

  lemma BothRows()
    ensures ConnectEntitlements(AfterEnroll, 7) == {2, 5}
    ensures DevicesOf(AfterEnroll, 7) * Named(AfterEnroll, "phone") == {6}
  {
  }

  lemma OldRefusesNewAccepts()
    ensures Handle(AfterEnroll, Connecting(7, "phone", Some(2), Days(31))) == Err(Forbidden)
    ensures Handle(AfterEnroll, Connecting(7, "phone", Some(5), Days(31))).Ok?
  {
    BothRows();
  }

  /** On day 31 the join may answer the cancelled subscription's row, which refuses, or the new one, which accepts. */
  lemma AnswerDecides()
    ensures LegalRun(Initial(Renewal.Plans, 0), Served) && Serial(Served)
    ensures var db := Run(Initial(Renewal.Plans, 0), Served);
            && 3 in db.subs && db.subs[3].status == Active && db.subs[3].expiresAt == Some(Days(40))
            && ConnectEntitlements(db, 7) == {2, 5}
            && Handle(db, Connecting(7, "phone", Some(2), Days(31))) == Err(Forbidden)
            && Handle(db, Connecting(7, "phone", Some(5), Days(31))).Ok?
  {
    Reached();
    BothRows();
    OldRefusesNewAccepts();
  }
}
