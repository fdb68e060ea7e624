/** A paid renewal after which an active, unexpired subscription is refused a connection. */
module RenewalExample {
  import opened Prelude
  import opened Subscriptions
  import opened SubscriptionRuns
  import opened SubscriptionGuarantees

  const Plans: map<Id, Plan> := map[0 := Plan(30, 1, [Feature("connect", true)], true)]

  function Sub(status: SubStatus, started: Option<int>, expires: Option<int>): Subscription {
    Subscription(7, 0, status, started, expires, None, None, 0)
  }

  const Unpaid := Payment(0, 7, Pending, "test", None, None)

  function Paid(p: Id, t: int): Payment { Payment(0, 7, Succeeded, "test", Some(Generated(p)), Some(t)) }

  const Grant := Entitlement(0, 7, "connect", true, Some(0), Some(Days(30)))

  const Phone := Device(7, Some(0), "phone", Enrolled)

  const Purchased := Db(Plans, map[0 := Sub(Registered, None, None)], map[1 := Unpaid], map[], map[], 0, 2)

  const Started :=
    Db(Plans, map[0 := Sub(Active, Some(0), Some(Days(30)))], map[1 := Paid(1, 0)], map[2 := Grant], map[], 0, 3)

  const Ready := Started.(devices := map[3 := Phone], nextId := 4)

  const Renewing := Ready.(subs := map[0 := Sub(PaymentPending, Some(0), Some(Days(30)))],
                               payments := map[1 := Paid(1, 0), 4 := Unpaid], clock := Days(20), nextId := 5)

  const Renewed := Renewing.(subs := map[0 := Sub(Active, Some(Days(20)), Some(Days(50)))],
                             payments := map[1 := Paid(1, 0), 4 := Paid(4, Days(20))])

  const Calls := [
    Call(Purchase(7, 0, "test", None), 0), Call(VerifyPayment(7, 1, None), 0),
    Call(Enroll(7, "phone", Some(2), Some(0)), 0), Call(Renew(7, "test", Some(0)), Days(20)),
    Call(VerifyPayment(7, 4, None), Days(20))]

  lemma Step1()
    ensures Legal(Initial(Plans, 0), Calls[0]) && ServeUpTo(Initial(Plans, 0), Calls[0], 2) == Purchased
  {
    ServeWhole(Initial(Plans, 0), Calls[0], 2);
    assert SubsOf(Initial(Plans, 0), 7, {Registered, PaymentPending, Active}) == {};
  }

  lemma FirstRows(row: Entitlement)
    ensures MissingRows(Plans[0].features, {}, row) == [row.(feature := "connect")]
  {
    assert Plans[0].features[..0] == [];
  }

  lemma FirstWrites()
    ensures Handle(Purchased, Calls[1]) ==
      Ok([Activate(0, Sub(Active, Some(0), Some(Days(30))), 1, Paid(1, 0)), AddEntitlements(2, [Grant])])
  {
    assert ActiveFeatures(Purchased, 0) == {};
    FirstRows(Entitlement(0, 7, "", true, Some(0), Some(Days(30))));
    assert VerifyError(Purchased, 7, 1, None) == None;
    var ws := VerifyWrites(Purchased, 7, 1, None, 0);
    assert ws[0] == Activate(0, Sub(Active, Some(0), Some(Days(30))), 1, Paid(1, 0));
    assert ws[1] == AddEntitlements(2, [Grant]);
    assert ws == [ws[0], ws[1]];
  }

  lemma Step2()
    ensures Legal(Purchased, Calls[1]) && ServeUpTo(Purchased, Calls[1], 2) == Started
  {
    FirstWrites();
    ServeWhole(Purchased, Calls[1], 2);
    FirstTables();
  }

  lemma FirstTables()
    ensures Apply(Apply(Purchased, Activate(0, Sub(Active, Some(0), Some(Days(30))), 1, Paid(1, 0))),
                  AddEntitlements(2, [Grant])) == Started
  {
    assert Numbered(2, [Grant]) == map[2 := Grant];
  }

  lemma Step3()
    ensures Legal(Started, Calls[2]) && ServeUpTo(Started, Calls[2], 2) == Ready
  {
    assert LiveEntitlements(Started, 7, 0) == {2} && SubsOf(Started, 7, {Active}) == {0};
    assert DevicesOf(Started, 7) == {} && Named(Started, "phone") == {};
    ServeWhole(Started, Calls[2], 2);
  }

  lemma Step4()
    ensures Legal(Ready, Calls[3]) && ServeUpTo(Ready, Calls[3], 2) == Renewing
  {
    assert SubsOf(Ready, 7, {Active}) == {0};
    ServeWhole(Ready, Calls[3], 2);
  }

  lemma Step5()
    ensures Legal(Renewing, Calls[4]) && ServeUpTo(Renewing, Calls[4], 2) == Renewed
  {
    var features := Plans[0].features;
    assert features[..0] == [];
    assert Renewing.ents[2].feature in ActiveFeatures(Renewing, 0);
    assert VerifyError(Renewing, 7, 4, None) == None;
    var row := Entitlement(0, 7, "", true, Some(Days(20)), Some(Days(50)));
    assert MissingRows(features, ActiveFeatures(Renewing, 0), row) == [];
    ServeWhole(Renewing, Calls[4], 2);
  }

  const Served := [Event(Calls[0], 2)] + ([Event(Calls[1], 2)] + ([Event(Calls[2], 2)] +
                  ([Event(Calls[3], 2)] + ([Event(Calls[4], 2)] + []))))

  lemma First(db: Db, call: Call, db1: Db, rest: seq<Event>)
    requires Legal(db, call) && ServeUpTo(db, call, 2) == db1
    ensures Run(db, [Event(call, 2)] + rest) == Run(db1, rest)
    ensures LegalRun(db, [Event(call, 2)] + rest) == LegalRun(db1, rest)
  {
    assert ([Event(call, 2)] + rest)[1..] == rest;
  }

  lemma Reached()
    ensures LegalRun(Initial(Plans, 0), Served) && Run(Initial(Plans, 0), Served) == Renewed
  {
    var e1, e2, e3, e4 := Event(Calls[1], 2), Event(Calls[2], 2), Event(Calls[3], 2), Event(Calls[4], 2);
    Step1();
    First(Initial(Plans, 0), Calls[0], Purchased, [e1] + ([e2] + ([e3] + ([e4] + []))));
    Step2();
    First(Purchased, Calls[1], Started, [e2] + ([e3] + ([e4] + [])));
    Step3();
    First(Started, Calls[2], Ready, [e3] + ([e4] + []));
    Step4();
    First(Ready, Calls[3], Renewing, [e4] + []);
    Step5();
    First(Renewing, Calls[4], Renewed, []);
  }

  /** The renewal is paid and the subscription runs to day 50, yet the device cannot connect on day 30. */
  lemma PaidYetRefused()
    ensures LegalRun(Initial(Plans, 0), Served) && Serial(Served)
    ensures var db := Run(Initial(Plans, 0), Served);
            && 0 in db.subs && db.subs[0].status == Active && db.subs[0].expiresAt == Some(Days(50))
            && Legal(db, Call(Connect(7, "phone", Some(2)), Days(30)))
            && Handle(db, Call(Connect(7, "phone", Some(2)), Days(30))) == Err(Forbidden)
  {
    Reached();
    assert ConnectEntitlements(Renewed, 7) == {2};
    assert 3 in DevicesOf(Renewed, 7) * Named(Renewed, "phone");
  }
}
