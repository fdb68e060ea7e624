/**
 * The subscription tables and the request handlers over them.
 *
 * A handler is the list of SQL writes it issues, computed from the tables it reads; the two
 * statements inside `sql.transaction` are one write. A `LIMIT 1` query without a total order may
 * answer any matching row: the answer is a parameter of the request, checked against the tables.
 */
module Subscriptions {
  import opened Prelude

  type Id = nat

  /** A number of days in milliseconds. */
  function Days(n: int): int { n * 86_400_000 }

  datatype SubStatus = Registered | PaymentPending | Active | Expired | Cancelled
  datatype PayStatus = Pending | Succeeded | Failed
  datatype DeviceStatus = Enrolled | InUse | Suspended | Revoked

  datatype Feature = Feature(name: string, enabled: bool)

  datatype Plan = Plan(durationDays: int, maxDevices: int, features: seq<Feature>, isActive: bool)

  datatype Subscription = Subscription(
    userId: Id, planId: Id, status: SubStatus, startedAt: Option<int>, expiresAt: Option<int>,
    renewedAt: Option<int>, canceledAt: Option<int>, createdAt: int)

  /** The reference a client supplied, or the one generated for a payment. */
  datatype Reference = Given(text: string) | Generated(payId: Id)

  datatype Payment = Payment(
    subId: Id, userId: Id, status: PayStatus, provider: string, reference: Option<Reference>, paidAt: Option<int>)

  datatype Entitlement = Entitlement(
    subId: Id, userId: Id, feature: string, active: bool, startedAt: Option<int>, expiresAt: Option<int>)

  datatype Device = Device(userId: Id, subId: Option<Id>, deviceId: string, status: DeviceStatus)

  /** `nextId` stands for the supply of fresh identifiers, `clock` for the time of the last request. */
  datatype Db = Db(
    plans: map<Id, Plan>, subs: map<Id, Subscription>, payments: map<Id, Payment>,
    ents: map<Id, Entitlement>, devices: map<Id, Device>, clock: int, nextId: Id)

  datatype Error = NotFound | Conflict | NotConfigured | Forbidden | Constraint

  // ---------------------------------------------------------------- writes

  datatype Write =
    | PutSub(id: Id, sub: Subscription)
    | PutPayment(id: Id, payment: Payment)
    | Activate(id: Id, sub: Subscription, payId: Id, payment: Payment)
    | AddEntitlements(first: Id, rows: seq<Entitlement>)
    | AddDevice(id: Id, device: Device)
    | PutDevices(changed: map<Id, Device>)

  /** The rows under consecutive identifiers. */
  function Numbered(first: Id, rows: seq<Entitlement>): (r: map<Id, Entitlement>)
    ensures forall i :: i in r <==> first <= i < first + |rows|
    ensures forall i :: i in r ==> r[i] == rows[i - first]
  {
    if rows == [] then map[] else
      var n := |rows| - 1;
      Numbered(first, rows[..n])[first + n := rows[n]]
  }

  function Apply(db: Db, w: Write): Db {
    match w
    case PutSub(id, sub) =>
      db.(subs := db.subs[id := sub], nextId := if id in db.subs then db.nextId else Max(db.nextId, id + 1))
    case PutPayment(id, p) => db.(payments := db.payments[id := p], nextId := Max(db.nextId, id + 1))
    case Activate(id, sub, payId, p) => db.(subs := db.subs[id := sub], payments := db.payments[payId := p])
    case AddEntitlements(first, rows) =>
      db.(ents := db.ents + Numbered(first, rows), nextId := Max(db.nextId, first + |rows|))
    case PutDevices(changed) => db.(devices := db.devices + changed)
    case AddDevice(id, device) => db.(devices := db.devices[id := device], nextId := Max(db.nextId, id + 1))
  }

  function ApplyAll(db: Db, ws: seq<Write>): Db
    decreases ws
  {
    if ws == [] then db else ApplyAll(Apply(db, ws[0]), ws[1..])
  }

  // ---------------------------------------------------------------- requests

  datatype Request =
    | Purchase(user: Id, planId: Id, provider: string, latest: Option<Id>)
    | VerifyPayment(user: Id, payId: Id, reference: Option<string>)
    | Renew(user: Id, provider: string, latest: Option<Id>)
    | Cancel(user: Id, latest: Option<Id>)
    | Enroll(user: Id, deviceId: string, ent: Option<Id>, sub: Option<Id>)
    | RevokeDevice(user: Id, deviceId: string)
    | Connect(user: Id, deviceId: string, ent: Option<Id>)
    | Disconnect(user: Id, deviceId: string)

  datatype Call = Call(req: Request, now: int)

  /** `answer` is a row id in `matching`, or nothing when nothing matches. */
  ghost predicate Answers(answer: Option<Id>, matching: set<Id>) {
    if matching == {} then answer.None? else answer.Some? && answer.value in matching
  }

  function SubsOf(db: Db, user: Id, statuses: set<SubStatus>): set<Id> {
    set s | s in db.subs && db.subs[s].userId == user && db.subs[s].status in statuses
  }

  /** `ORDER BY "createdAt" DESC LIMIT 1`. */
  ghost predicate AnswersLatest(db: Db, answer: Option<Id>, matching: set<Id>) {
    && Answers(answer, matching)
    && (answer.Some? && answer.value in db.subs ==>
      forall s :: s in matching && s in db.subs ==> db.subs[s].createdAt <= db.subs[answer.value].createdAt)
  }

  predicate LiveAt(expiresAt: Option<int>, now: int) { expiresAt.None? || expiresAt.value > now }

  function ConnectEntitlements(db: Db, user: Id): set<Id> {
    set e | e in db.ents && db.ents[e].userId == user && db.ents[e].feature == "connect" && db.ents[e].active
  }

  function LiveEntitlements(db: Db, user: Id, now: int): set<Id> {
    set e | e in ConnectEntitlements(db, user) && LiveAt(db.ents[e].expiresAt, now)
  }

  /** Time does not run backwards, and the query answers are ones the tables allow. */
  ghost predicate Legal(db: Db, call: Call) {
    && db.clock <= call.now
    && match call.req
       case Purchase(user, _, _, latest) =>
         AnswersLatest(db, latest, SubsOf(db, user, {Registered, PaymentPending, Active}))
       case Renew(user, _, latest) => AnswersLatest(db, latest, SubsOf(db, user, {Active}))
       case Cancel(user, latest) => AnswersLatest(db, latest, SubsOf(db, user, {Active}))
       case Enroll(user, _, ent, sub) =>
         Answers(ent, LiveEntitlements(db, user, call.now)) && Answers(sub, SubsOf(db, user, {Active}))
       case Connect(user, _, ent) => Answers(ent, ConnectEntitlements(db, user))
       case _ => true
  }

  // ---------------------------------------------------------------- handlers

  function HandlePurchase(db: Db, user: Id, planId: Id, provider: string, latest: Option<Id>, now: int):
    Result<seq<Write>, Error>
  {
    if planId !in db.plans || !db.plans[planId].isActive then Err(NotFound)
    else if latest.Some? && latest.value in db.subs && db.subs[latest.value].status == Active then Err(Conflict)
    else
      var n := db.nextId;
      Ok([PutSub(n, Subscription(user, planId, Registered, None, None, None, None, now)),
          PutPayment(n + 1, Payment(n, user, Pending, provider, None, None))])
  }

  function DurationDays(db: Db, planId: Id): int {
    if planId in db.plans then db.plans[planId].durationDays else 30
  }

  function PlanFeatures(db: Db, planId: Id): seq<Feature> {
    if planId in db.plans then db.plans[planId].features else []
  }

  function ActiveFeatures(db: Db, s: Id): set<string> {
    set e | e in db.ents && db.ents[e].subId == s && db.ents[e].active :: db.ents[e].feature
  }

  /** One row for each enabled feature the subscription has no active entitlement for. */
  function MissingRows(features: seq<Feature>, existing: set<string>, row: Entitlement): seq<Entitlement> {
    if features == [] then [] else
      var rest := MissingRows(features[..|features| - 1], existing, row);
      var f := features[|features| - 1];
      if f.enabled && f.name !in existing then rest + [row.(feature := f.name)] else rest
  }

  /** When the new period starts counting: a renewal extends an unexpired period. */
  function BaseDate(renewal: bool, expiresAt: Option<int>, now: int): int {
    if renewal && expiresAt.Some? && expiresAt.value > now then expiresAt.value else now
  }

  function Activated(sub: Subscription, durationDays: int, now: int): Subscription {
    var renewal := sub.status == Active;
    sub.(status := Active,
         startedAt := if renewal then sub.startedAt else Some(now),
         renewedAt := if renewal then Some(now) else sub.renewedAt,
         expiresAt := Some(BaseDate(renewal, sub.expiresAt, now) + Days(durationDays)))
  }

  predicate ReferenceTaken(db: Db, r: Reference) {
    exists p :: p in db.payments && db.payments[p].reference == Some(r)
  }

  function ReferenceFor(payId: Id, reference: Option<string>): Reference {
    if reference.Some? then Given(reference.value) else Generated(payId)
  }

  /** Why a verification is refused, if it is. */
  function VerifyError(db: Db, user: Id, payId: Id, reference: Option<string>): Option<Error> {
    if payId !in db.payments || db.payments[payId].userId != user || db.payments[payId].subId !in db.subs then
      Some(NotFound)
    else
      var p, sub := db.payments[payId], db.subs[db.payments[payId].subId];
      if p.status != Pending then Some(Conflict)
      else if sub.status != Registered && sub.status != PaymentPending then Some(Conflict)
      else if p.provider != "test" then Some(NotConfigured)
      else if ReferenceTaken(db, ReferenceFor(payId, reference)) then Some(Constraint)
      else None
  }

  function VerifyWrites(db: Db, user: Id, payId: Id, reference: Option<string>, now: int): seq<Write>
    requires payId in db.payments && db.payments[payId].subId in db.subs
  {
    var s := db.payments[payId].subId;
    var sub := db.subs[s];
    var sub' := Activated(sub, DurationDays(db, sub.planId), now);
    var r := ReferenceFor(payId, reference);
    var p := db.payments[payId].(status := Succeeded, reference := Some(r), paidAt := Some(now));
    var startedAt := if sub.status == Active then None else Some(now);
    var rows := MissingRows(PlanFeatures(db, sub.planId), ActiveFeatures(db, s),
                            Entitlement(s, user, "", true, startedAt, sub'.expiresAt));
    [Activate(s, sub', payId, p)] + if rows == [] then [] else [AddEntitlements(db.nextId, rows)]
  }

  function HandleVerify(db: Db, user: Id, payId: Id, reference: Option<string>, now: int): Result<seq<Write>, Error> {
    match VerifyError(db, user, payId, reference)
    case Some(e) => Err(e)
    case None => Ok(VerifyWrites(db, user, payId, reference, now))
  }

  function HandleRenew(db: Db, user: Id, provider: string, latest: Option<Id>): Result<seq<Write>, Error> {
    if latest.None? || latest.value !in db.subs then Err(NotFound)
    else
      var s := latest.value;
      if db.subs[s].planId !in db.plans then Err(NotFound)
      else Ok([PutSub(s, db.subs[s].(status := PaymentPending)),
               PutPayment(db.nextId, Payment(s, user, Pending, provider, None, None))])
  }

  function HandleCancel(db: Db, user: Id, latest: Option<Id>, now: int): Result<seq<Write>, Error> {
    if latest.None? || latest.value !in db.subs then Err(NotFound)
    else
      var s := latest.value;
      var held := map d | d in db.devices && db.devices[d].userId == user && db.devices[d].subId == Some(s)
                    :: db.devices[d].(status := Suspended);
      Ok([PutSub(s, db.subs[s].(status := Cancelled, canceledAt := Some(now))), PutDevices(held)])
  }

  function DevicesOf(db: Db, user: Id): set<Id> {
    set d | d in db.devices && db.devices[d].userId == user && db.devices[d].status != Revoked
  }

  function Named(db: Db, deviceId: string): set<Id> {
    set d | d in db.devices && db.devices[d].deviceId == deviceId
  }

  /** The number of devices the enrolling customer may hold: that of the plan of `sub`, or one. */
  function DeviceLimit(db: Db, sub: Option<Id>): int {
    if sub.Some? && sub.value in db.subs && db.subs[sub.value].planId in db.plans
    then db.plans[db.subs[sub.value].planId].maxDevices else 1
  }

  function EnrollError(db: Db, user: Id, deviceId: string, ent: Option<Id>, sub: Option<Id>): Option<Error> {
    if ent.None? then Some(Forbidden)
    else if |DevicesOf(db, user)| >= DeviceLimit(db, sub) then Some(Conflict)
    else if DevicesOf(db, user) * Named(db, deviceId) != {} then Some(Conflict)
    else if Named(db, deviceId) != {} then Some(Constraint)
    else None
  }

  function HandleEnroll(
    db: Db, user: Id, deviceId: string, ent: Option<Id>, sub: Option<Id>): Result<seq<Write>, Error>
  {
    match EnrollError(db, user, deviceId, ent, sub)
    case Some(e) => Err(e)
    case None => Ok([AddDevice(db.nextId, Device(user, sub, deviceId, Enrolled))])
  }

  function HandleRevokeDevice(db: Db, user: Id, deviceId: string): Result<seq<Write>, Error> {
    var mine := DevicesOf(db, user) * Named(db, deviceId);
    if mine == {} then Err(NotFound)
    else Ok([PutDevices(map d | d in mine :: db.devices[d].(status := Revoked))])
  }

  /** The check both the authorize and the connect handler make, for the row the join answers. */
  predicate Authorized(db: Db, d: Id, ent: Option<Id>, now: int)
    requires d in db.devices
  {
    var s := db.devices[d].subId;
    && s.Some? && s.value in db.subs
    && db.subs[s.value].status == Active && LiveAt(db.subs[s.value].expiresAt, now)
    && ent.Some? && ent.value in db.ents
    && db.ents[ent.value].active && LiveAt(db.ents[ent.value].expiresAt, now)
  }

  function HandleConnect(db: Db, user: Id, deviceId: string, ent: Option<Id>, now: int): Result<seq<Write>, Error> {
    var mine := DevicesOf(db, user) * Named(db, deviceId);
    if mine == {} then Err(NotFound)
    else if exists d :: d in mine && !Authorized(db, d, ent, now) then Err(Forbidden)
    else Ok([PutDevices(map d | d in Named(db, deviceId) :: db.devices[d].(status := InUse))])
  }

  /** The customer's devices of that name, revoked or not. */
  function Held(db: Db, user: Id, deviceId: string): set<Id> {
    set d | d in Named(db, deviceId) && db.devices[d].userId == user
  }

  function HandleDisconnect(db: Db, user: Id, deviceId: string): Result<seq<Write>, Error> {
    if Held(db, user, deviceId) == {} then Err(NotFound)
    else Ok([PutDevices(map d | d in Held(db, user, deviceId) :: db.devices[d].(status := Enrolled))])
  }

  function Handle(db: Db, call: Call): Result<seq<Write>, Error> {
    match call.req
    case Purchase(user, planId, provider, latest) => HandlePurchase(db, user, planId, provider, latest, call.now)
    case VerifyPayment(user, payId, reference) => HandleVerify(db, user, payId, reference, call.now)
    case Renew(user, provider, latest) => HandleRenew(db, user, provider, latest)
    case Cancel(user, latest) => HandleCancel(db, user, latest, call.now)
    case Enroll(user, deviceId, ent, sub) => HandleEnroll(db, user, deviceId, ent, sub)
    case RevokeDevice(user, deviceId) => HandleRevokeDevice(db, user, deviceId)
    case Connect(user, deviceId, ent) => HandleConnect(db, user, deviceId, ent, call.now)
    case Disconnect(user, deviceId) => HandleDisconnect(db, user, deviceId)
  }

  /** The request served until `k` of its writes are done; an error writes nothing. */
  function ServeUpTo(db: Db, call: Call, k: nat): Db {
    var db' := db.(clock := Max(db.clock, call.now));
    match Handle(db, call)
    case Err(_) => db'
    case Ok(ws) => ApplyAll(db', if k <= |ws| then ws[..k] else ws)
  }

  function Serve(db: Db, call: Call): Db { ServeUpTo(db, call, 2) }
}
