/** The intent lifecycle: creation and transition of one intent. */
module Intents {
  import opened Prelude
  import opened Characters

  datatype Status = Draft | Active | Completed | Superseded | Cancelled | Expired

  /** `body` holds the fields no command changes: priority, specification, metadata and the like. */
  datatype Intent = Intent(
    id: string, version: nat, status: Status, body: string, createdAt: int, updatedAt: int,
    effectiveFrom: Option<int>, expiresAt: Option<int>, supersedes: Option<string>)

  datatype Command = Activate | Complete | Supersede(replacementId: string) | Cancel | Expire

  datatype Request = Request(id: string, body: string, effectiveFrom: Option<int>, expiresAt: Option<int>)

  /** `createNetworkIntent`; `None` is its refusal of a blank id or an empty effective period. */
  function CreateIntent(req: Request, now: int): Option<Intent> {
    if Trim(req.id) == "" then None
    else if req.effectiveFrom.Some? && req.expiresAt.Some? && req.effectiveFrom.value >= req.expiresAt.value then None
    else Some(Intent(req.id, 1, Draft, req.body, now, now, req.effectiveFrom, req.expiresAt, None))
  }

  function Target(c: Command): Status {
    match c
    case Activate => Active
    case Complete => Completed
    case Supersede(_) => Superseded
    case Cancel => Cancelled
    case Expire => Expired
  }

  predicate Allowed(source: Status, target: Status) {
    match source
    case Draft => target in {Active, Cancelled, Expired}
    case Active => target in {Completed, Superseded, Cancelled, Expired}
    case _ => false
  }

  /** `transitionIntent`; `None` is any of the errors it throws. */
  function Transition(i: Intent, c: Command, at: int): Option<Intent> {
    if !Allowed(i.status, Target(c)) || (c.Supersede? && Trim(c.replacementId) == "") then None
    else
      Some(i.(version := i.version + 1, status := Target(c), updatedAt := at,
              supersedes := if c.Supersede? then Some(c.replacementId) else i.supersedes))
  }

  /**
   * What a command makes of an intent, written out: a draft is activated, cancelled or expires; an
   * active intent is completed, superseded by a replacement whose id is not blank, cancelled or
   * expires; nothing else is possible. Only a supersede sets `supersedes`, and no other field changes.
   */
  predicate Leads(i: Intent, c: Command, at: int, to: Intent) {
    var next := i.(version := i.version + 1, updatedAt := at, status := to.status);
    match c
    case Activate => i.status == Draft && to.status == Active && to == next
    case Complete => i.status == Active && to.status == Completed && to == next
    case Supersede(id) =>
      i.status == Active && to.status == Superseded && !AllSpace(id) && to == next.(supersedes := Some(id))
    case Cancel => (i.status == Draft || i.status == Active) && to.status == Cancelled && to == next
    case Expire => (i.status == Draft || i.status == Active) && to.status == Expired && to == next
  }

  /** A transition takes a command to an intent exactly when the table does. */
  lemma TransitionExactly(i: Intent, c: Command, at: int, to: Intent)
    ensures Transition(i, c, at) == Some(to) <==> Leads(i, c, at, to)
  {
    if c.Supersede? {
      TrimBlank(c.replacementId);
    }
  }

  /** The id has a character other than white space, and the period, if both ends are given, is not empty. */
  predicate Creatable(req: Request) {
    && !AllSpace(req.id)
    && (req.effectiveFrom.Some? && req.expiresAt.Some? ==> req.effectiveFrom.value < req.expiresAt.value)
  }

  /** Exactly then an intent is created, as a draft at version 1 with the fields asked for. */
  lemma CreateExactly(req: Request, now: int)
    ensures CreateIntent(req, now).Some? <==> Creatable(req)
    ensures CreateIntent(req, now).Some? ==>
      var i := CreateIntent(req, now).value;
      && i.id == req.id && i.version == 1 && i.status == Draft && i.body == req.body && i.supersedes.None?
      && i.createdAt == i.updatedAt == now && i.effectiveFrom == req.effectiveFrom && i.expiresAt == req.expiresAt
  {
    TrimBlank(req.id);
  }

  ghost predicate Follows(from: Intent, to: Intent) {
    exists c, at :: Transition(from, c, at) == Some(to)
  }

  lemma TransitionFacts(from: Intent, to: Intent)
    requires Follows(from, to)
    ensures to.id == from.id && to.version == from.version + 1
    ensures to.status != Draft
    ensures to.status == Active ==> from.status == Draft
  {
  }
}
