/**
 * Runs of the intent routes. A create request is served in one step; a command is a read step
 * followed, any number of other steps later, by a compare-and-set step.
 */
module IntentRoutes {
  import opened Prelude
  import opened Characters
  import opened Intents
  import opened IntentStore

  datatype Response =
    | Created(intent: Intent)
    | Replayed(intent: Intent)
    | KeyReuse
    | Invalid
    | Conflict(error: Error)

  /** The create route. The key and the fingerprint are non-empty: the header is required, a hash is text. */
  function Respond(rows: seq<Row>, o: Owner, key: string, fp: string, req: Request, now: int): Response {
    var previous := FindByKey(rows, o, key);
    if previous.Some? then
      if previous.value.1 != fp then KeyReuse else Replayed(previous.value.0)
    else
      var intent := CreateIntent(req, now);
      if intent.None? then Invalid else
        var put := Put(rows, intent.value, o, Some(key), Some(fp), None);
        if put.Err? then Conflict(put.error) else Created(intent.value)
  }

  function RowsAfter(rows: seq<Row>, o: Owner, key: string, fp: string, r: Response): seq<Row> {
    if !r.Created? then rows else
      var put := Put(rows, r.intent, o, Some(key), Some(fp), None);
      if put.Ok? then put.value else rows
  }

  method ServeCreate(store: InMemoryIntentStore, o: Owner, key: string, fp: string, req: Request, now: int)
    returns (r: Response)
    modifies store
    ensures r == Respond(old(store.rows), o, key, fp, req, now)
    ensures store.rows == RowsAfter(old(store.rows), o, key, fp, r)
  {
    var previous := store.FindByIdempotency(o, key);
    if previous.Some? {
      return if previous.value.1 != fp then KeyReuse else Replayed(previous.value.0);
    }
    var intent := CreateIntent(req, now);
    if intent.None? {
      return Invalid;
    }
    var put := store.PutIntent(intent.value, o, Some(key), Some(fp), None);
    r := if put.Err? then Conflict(put.error) else Created(intent.value);
  }

  // ---------------------------------------------------------------- runs

  datatype Event =
    | Creation(intent: Intent, owner: Owner, key: string, fingerprint: string)
    | Commit(from: Intent, to: Intent)

  datatype Snapshot = Snapshot(intent: Intent, owner: Owner)

  /** The store, the command handlers between their read and their write, and the writes so far. */
  datatype State = State(rows: seq<Row>, handlers: map<nat, Snapshot>, log: seq<Event>)

  datatype Action =
    | Create(owner: Owner, key: string, fingerprint: string, req: Request, now: int)
    | Read(handler: nat, id: string, owner: Owner)
    | Write(handler: nat, command: Command, at: int)

  const Initial := State([], map[], [])

  predicate WellFormedAction(a: Action) { a.Create? ==> a.key != "" && a.fingerprint != "" }

  function Step(s: State, a: Action): State {
    match a
    case Create(o, key, fp, req, now) =>
      var r := Respond(s.rows, o, key, fp, req, now);
      if r.Created? then
        s.(rows := RowsAfter(s.rows, o, key, fp, r), log := s.log + [Creation(r.intent, o, key, fp)])
      else s
    case Read(h, id, o) =>
      var i := Get(s.rows, id, o);
      if i.None? then s else s.(handlers := s.handlers[h := Snapshot(i.value, o)])
    case Write(h, c, at) =>
      if h !in s.handlers then s else
        var Snapshot(i, o) := s.handlers[h];
        var done := s.(handlers := s.handlers - {h});
        var to := Transition(i, c, at);
        if to.None? then done else
          var put := Put(s.rows, to.value, o, None, None, Some(i.version));
          if put.Err? then done else done.(rows := put.value, log := s.log + [Commit(i, to.value)])
  }

  function Run(s: State, actions: seq<Action>): State {
    if actions == [] then s else Step(Run(s, actions[..|actions| - 1]), actions[|actions| - 1])
  }

  /** The write half of the command route, run by handler `h` of state `s` on the live store. */
  method ServeWrite(store: InMemoryIntentStore, s: State, h: nat, c: Command, at: int)
    returns (committed: Option<Intent>)
    requires h in s.handlers && store.rows == s.rows
    modifies store
    ensures store.rows == Step(s, Write(h, c, at)).rows
    ensures Step(s, Write(h, c, at)).log ==
      s.log + if committed.Some? then [Commit(s.handlers[h].intent, committed.value)] else []
    ensures committed.Some? ==>
      && Leads(s.handlers[h].intent, c, at, committed.value)
      && Row(committed.value, s.handlers[h].owner, None, None) in store.rows
  {
    var Snapshot(i, o) := s.handlers[h];
    committed := Transition(i, c, at);
    if committed.Some? {
      TransitionExactly(i, c, at, committed.value);
      SetStores(s.rows, Row(committed.value, o, None, None));
      var put := store.PutIntent(committed.value, o, None, None, Some(i.version));
      if put.Err? {
        committed := None;
      }
    }
  }

  // ---------------------------------------------------------------- no lost update

  function IdOf(e: Event): string { if e.Creation? then e.intent.id else e.to.id }

  function StateOf(e: Event): Intent { if e.Creation? then e.intent else e.to }

  /** The states intent `id` was stored in, oldest first. */
  function States(log: seq<Event>, id: string): seq<Intent> {
    if log == [] then [] else
      var rest := States(log[..|log| - 1], id);
      var e := log[|log| - 1];
      if IdOf(e) == id then rest + [StateOf(e)] else rest
  }

  /** A creation is the first write of its id; a commit continues from the state stored last. */
  ghost predicate Extends(log: seq<Event>, e: Event) {
    var before := States(log, IdOf(e));
    match e
    case Creation(i, _, _, _) => before == [] && i.version == 1 && i.status == Draft
    case Commit(from, to) => before != [] && Last(before) == from && Follows(from, to)
  }

  /** Every write extends the chain of its intent: no write ever overwrites an unseen one. */
  ghost predicate Serial(log: seq<Event>) {
    log == [] || (Serial(log[..|log| - 1]) && Extends(log[..|log| - 1], log[|log| - 1]))
  }

  function Ids(rows: seq<Row>): set<string> { set r | r in rows :: r.intent.id }

  /** Every stored intent is the last state of its chain. */
  ghost predicate RowsCurrent(rows: seq<Row>, log: seq<Event>) {
    forall r :: r in rows ==> States(log, r.intent.id) != [] && Last(States(log, r.intent.id)) == r.intent
  }

  ghost predicate EventsStored(rows: seq<Row>, log: seq<Event>) {
    forall e :: e in log ==> IdOf(e) in Ids(rows)
  }

  /** What a handler read was stored at some time. */
  ghost predicate SnapshotsSeen(handlers: map<nat, Snapshot>, log: seq<Event>) {
    forall h :: h in handlers ==> handlers[h].intent in States(log, handlers[h].intent.id)
  }

  /** A row keeps its idempotency key and fingerprint until the first command on its intent. */
  ghost predicate KeysUntilCommand(rows: seq<Row>) {
    forall r :: r in rows ==> (r.key.Some? <==> r.intent.version == 1) && (r.key.Some? <==> r.fingerprint.Some?)
  }

  /** At most one row carries a given scope and idempotency key. */
  ghost predicate KeysUnique(rows: seq<Row>) {
    forall i, j :: 0 <= i < j < |rows| && rows[i].key.Some? && rows[i].key == rows[j].key
      ==> ScopeKey(rows[i].owner) != ScopeKey(rows[j].owner)
  }

  ghost predicate Invariant(s: State) {
    && UniqueIds(s.rows)
    && Serial(s.log)
    && RowsCurrent(s.rows, s.log)
    && EventsStored(s.rows, s.log)
    && SnapshotsSeen(s.handlers, s.log)
    && KeysUntilCommand(s.rows)
    && KeysUnique(s.rows)
  }

  function Last<T>(xs: seq<T>): T
    requires xs != []
  {
    xs[|xs| - 1]
  }

  lemma StatesAppend(log: seq<Event>, e: Event, id: string)
    ensures States(log + [e], id) == States(log, id) + (if IdOf(e) == id then [StateOf(e)] else [])
  {
    assert (log + [e])[..|log|] == log;
  }

  lemma SerialAppend(log: seq<Event>, e: Event)
    requires Serial(log) && Extends(log, e)
    ensures Serial(log + [e])
  {
    assert (log + [e])[..|log|] == log;
  }

  /** In a serial log the n-th state of an intent has version n + 1. */
  lemma {:induction false} VersionsCount(log: seq<Event>, id: string)
    requires Serial(log)
    ensures forall n :: 0 <= n < |States(log, id)| ==>
      States(log, id)[n].version == n + 1 && States(log, id)[n].id == id
  {
    if log != [] {
      var front, e := log[..|log| - 1], log[|log| - 1];
      VersionsCount(front, id);
      if IdOf(e) == id && e.Commit? {
        TransitionFacts(e.from, e.to);
      }
    }
  }

  /** A state an intent once had, at the version stored now, is the state stored now. */
  lemma VersionFixesState(log: seq<Event>, i: Intent, id: string)
    requires Serial(log) && i in States(log, id) && i.version == Last(States(log, id)).version
    ensures i == Last(States(log, id)) && i.id == id
  {
    VersionsCount(log, id);
    var states := States(log, id);
    var n :| 0 <= n < |states| && states[n] == i;
    assert n + 1 == |states|;
  }

  lemma {:induction false} NoStates(log: seq<Event>, id: string)
    requires forall e :: e in log ==> IdOf(e) != id
    ensures States(log, id) == []
  {
    if log != [] {
      assert log[|log| - 1] in log;
      NoStates(log[..|log| - 1], id);
    }
  }

  lemma IdsOfAppend(rows: seq<Row>, row: Row)
    ensures Ids(rows + [row]) == Ids(rows) + {row.intent.id}
  {
  }

  lemma IdsOfUpdate(rows: seq<Row>, n: nat, row: Row)
    requires n < |rows| && rows[n].intent.id == row.intent.id
    ensures Ids(rows[n := row]) == Ids(rows)
  {
    forall r | r in rows ensures r.intent.id in Ids(rows[n := row]) {
      var k :| 0 <= k < |rows| && rows[k] == r;
      assert rows[n := row][k].intent.id == r.intent.id;
    }
  }

  /** Writing state `e` of an intent extends the log and the bookkeeping of the other intents. */
  lemma LogGrows(rows: seq<Row>, handlers: map<nat, Snapshot>, log: seq<Event>, e: Event)
    requires RowsCurrent(rows, log) && SnapshotsSeen(handlers, log)
    ensures forall r :: r in rows && r.intent.id != IdOf(e) ==>
      States(log + [e], r.intent.id) != [] && Last(States(log + [e], r.intent.id)) == r.intent
    ensures States(log + [e], IdOf(e)) != [] && Last(States(log + [e], IdOf(e))) == StateOf(e)
    ensures SnapshotsSeen(handlers, log + [e])
  {
    forall id ensures States(log + [e], id) == States(log, id) + (if IdOf(e) == id then [StateOf(e)] else []) {
      StatesAppend(log, e, id);
    }
  }

  lemma AppendKeepsRowFacts(rows: seq<Row>, row: Row)
    requires UniqueIds(rows) && KeysUntilCommand(rows) && KeysUnique(rows)
    requires row.key.Some? && row.fingerprint.Some? && row.intent.version == 1
    requires forall r :: r in rows && r.key == row.key ==> ScopeKey(r.owner) != ScopeKey(row.owner)
    ensures KeysUntilCommand(rows + [row]) && KeysUnique(rows + [row])
  {
  }

  lemma AdditionKeepsInvariant(s: State, i: Intent, o: Owner, key: string, fp: string)
    requires Invariant(s) && i.id !in Ids(s.rows) && i.version == 1 && i.status == Draft
    requires FindByKey(s.rows, o, key).None?
    ensures Invariant(State(s.rows + [Row(i, o, Some(key), Some(fp))], s.handlers, s.log + [Creation(i, o, key, fp)]))
  {
    var row, e := Row(i, o, Some(key), Some(fp)), Creation(i, o, key, fp);
    IdsOfAppend(s.rows, row);
    NoStates(s.log, i.id);
    SerialAppend(s.log, e);
    LogGrows(s.rows, s.handlers, s.log, e);
    KeyWasFree(s.rows, o, key);
    AppendKeepsRowFacts(s.rows, row);
    AddedRowsCurrent(s.rows, s.log, row, e);
  }

  lemma AddedRowsCurrent(rows: seq<Row>, log: seq<Event>, row: Row, e: Event)
    requires RowsCurrent(rows, log) && StateOf(e) == row.intent && IdOf(e) == row.intent.id
    requires row.intent.id !in Ids(rows)
    ensures RowsCurrent(rows + [row], log + [e])
  {
    forall r | r in rows + [row]
      ensures States(log + [e], r.intent.id) != [] && Last(States(log + [e], r.intent.id)) == r.intent
    {
      StatesAppend(log, e, r.intent.id);
    }
  }

  lemma KeyWasFree(rows: seq<Row>, o: Owner, key: string)
    requires KeysUntilCommand(rows) && FindByKey(rows, o, key).None?
    ensures forall r :: r in rows && r.key == Some(key) ==> ScopeKey(r.owner) != ScopeKey(o)
  {
  }

  lemma UpdateKeepsRowFacts(rows: seq<Row>, n: nat, row: Row)
    requires UniqueIds(rows) && KeysUntilCommand(rows) && KeysUnique(rows)
    requires n < |rows| && row.intent.id == rows[n].intent.id
    requires row.key.None? && row.fingerprint.None? && row.intent.version != 1
    ensures UniqueIds(rows[n := row]) && KeysUntilCommand(rows[n := row]) && KeysUnique(rows[n := row])
    ensures forall r :: r in rows[n := row] ==> r == row || (r in rows && r.intent.id != row.intent.id)
  {
    forall r | r in rows[n := row] ensures r == row || (r in rows && r.intent.id != row.intent.id) {
      var k :| 0 <= k < |rows| && rows[n := row][k] == r;
      assert k == n || rows[k] == r;
    }
  }

  lemma CommitKeepsInvariant(s: State, h: nat, to: Intent, n: nat)
    requires Invariant(s) && h in s.handlers && n < |s.rows|
    requires s.rows[n].intent == s.handlers[h].intent && Follows(s.rows[n].intent, to)
    ensures var Snapshot(i, o) := s.handlers[h];
            Invariant(State(s.rows[n := Row(to, o, None, None)], s.handlers - {h}, s.log + [Commit(i, to)]))
  {
    var Snapshot(i, o) := s.handlers[h];
    var row, e := Row(to, o, None, None), Commit(i, to);
    TransitionFacts(i, to);
    assert s.rows[n] in s.rows;
    assert to.version > 1 by { VersionsCount(s.log, i.id); }
    SerialAppend(s.log, e);
    LogGrows(s.rows, s.handlers, s.log, e);
    IdsOfUpdate(s.rows, n, row);
    UpdateKeepsRowFacts(s.rows, n, row);
    UpdatedRowsCurrent(s.rows, s.log, n, row, e);
    assert SnapshotsSeen(s.handlers - {h}, s.log + [e]);
  }

  lemma UpdatedRowsCurrent(rows: seq<Row>, log: seq<Event>, n: nat, row: Row, e: Event)
    requires RowsCurrent(rows, log) && n < |rows| && StateOf(e) == row.intent && IdOf(e) == row.intent.id
    requires forall r :: r in rows[n := row] ==> r == row || (r in rows && r.intent.id != row.intent.id)
    ensures RowsCurrent(rows[n := row], log + [e])
  {
    forall r | r in rows[n := row]
      ensures States(log + [e], r.intent.id) != [] && Last(States(log + [e], r.intent.id)) == r.intent
    {
      StatesAppend(log, e, r.intent.id);
    }
  }

  datatype Change = Nothing | Added(row: Row) | Replaced(n: nat, row: Row)

  /** What a step does to the rows and the log: nothing, one new row, or one row advanced. */
  ghost predicate Describes(s: State, a: Action, s': State, c: Change) {
    match c
    case Nothing => s'.rows == s.rows && s'.log == s.log
    case Added(row) =>
      && a.Create? && row == Row(row.intent, a.owner, Some(a.key), Some(a.fingerprint))
      && row.intent.id !in Ids(s.rows) && row.intent.version == 1 && row.intent.status == Draft
      && FindByKey(s.rows, a.owner, a.key).None?
      && s'.rows == s.rows + [row]
      && s'.log == s.log + [Creation(row.intent, a.owner, a.key, a.fingerprint)]
    case Replaced(n, row) =>
      && a.Write? && a.handler in s.handlers && n < |s.rows|
      && s.rows[n].intent == s.handlers[a.handler].intent
      && row == Row(row.intent, s.handlers[a.handler].owner, None, None)
      && Transition(s.rows[n].intent, a.command, a.at) == Some(row.intent)
      && ScopeKey(row.owner) == ScopeKey(s.rows[n].owner)
      && s'.rows == s.rows[n := row]
      && s'.log == s.log + [Commit(s.rows[n].intent, row.intent)]
  }

  lemma CreateShape(s: State, a: Action) returns (c: Change)
    requires UniqueIds(s.rows) && a.Create? && WellFormedAction(a)
    ensures Describes(s, a, Step(s, a), c)
  {
    var Create(o, key, fp, req, now) := a;
    var r := Respond(s.rows, o, key, fp, req, now);
    c := Nothing;
    if r.Created? {
      var n := PutShape(s.rows, r.intent, o, Some(key), Some(fp), None);
      c := Added(Row(r.intent, o, Some(key), Some(fp)));
    }
  }

  lemma WriteShape(s: State, a: Action) returns (c: Change)
    requires UniqueIds(s.rows) && Serial(s.log) && RowsCurrent(s.rows, s.log) && SnapshotsSeen(s.handlers, s.log)
    requires a.Write?
    ensures Describes(s, a, Step(s, a), c)
  {
    var Write(h, command, at) := a;
    c := Nothing;
    if h in s.handlers {
      var Snapshot(i, o) := s.handlers[h];
      var to := Transition(i, command, at);
      if to.Some? && Put(s.rows, to.value, o, None, None, Some(i.version)).Ok? {
        var n := PutShape(s.rows, to.value, o, None, None, Some(i.version));
        assert s.rows[n] in s.rows;
        VersionFixesState(s.log, i, s.rows[n].intent.id);
        c := Replaced(n, Row(to.value, o, None, None));
      }
    }
  }

  lemma StepShape(s: State, a: Action) returns (c: Change)
    requires Invariant(s) && WellFormedAction(a)
    ensures Describes(s, a, Step(s, a), c)
  {
    match a
    case Create(_, _, _, _, _) => c := CreateShape(s, a);
    case Read(_, _, _) => c := Nothing;
    case Write(_, _, _) => c := WriteShape(s, a);
  }

  lemma StepKeepsInvariant(s: State, a: Action)
    requires Invariant(s) && WellFormedAction(a)
    ensures Invariant(Step(s, a))
  {
    var c := StepShape(s, a);
    match c
    case Nothing =>
      if a.Read? && Get(s.rows, a.id, a.owner).Some? {
        var i := Get(s.rows, a.id, a.owner).value;
        assert i in States(s.log, i.id);
      }
    case Added(row) => AdditionKeepsInvariant(s, row.intent, a.owner, a.key, a.fingerprint);
    case Replaced(n, row) => CommitKeepsInvariant(s, a.handler, row.intent, n);
  }

  /** Every run, whatever the interleaving of command handlers, keeps the invariant. */
  lemma {:induction false} RunKeepsInvariant(s: State, actions: seq<Action>)
    requires Invariant(s) && forall a :: a in actions ==> WellFormedAction(a)
    ensures Invariant(Run(s, actions))
  {
    if actions != [] {
      var n := |actions| - 1;
      assert actions == actions[..n] + [actions[n]];
      RunKeepsInvariant(s, actions[..n]);
      StepKeepsInvariant(Run(s, actions[..n]), actions[n]);
    }
  }

  // ---------------------------------------------------------------- versions and activations

  lemma {:induction false} SerialPrefix(log: seq<Event>, n: nat)
    requires Serial(log) && n <= |log|
    ensures Serial(log[..n])
  {
    if n < |log| {
      SerialPrefix(log[..|log| - 1], n);
      assert log[..|log| - 1][..n] == log[..n];
    } else {
      assert log[..n] == log;
    }
  }

  lemma {:induction false} EventIsAState(log: seq<Event>, n: nat)
    requires n < |log|
    ensures StateOf(log[n]) in States(log, IdOf(log[n]))
  {
    if n < |log| - 1 {
      EventIsAState(log[..|log| - 1], n);
    }
  }

  lemma LastWriteIsNewest(log: seq<Event>, j: nat)
    requires Serial(log) && j < |log| - 1 && IdOf(log[j]) == IdOf(log[|log| - 1])
    ensures StateOf(log[j]).version < StateOf(log[|log| - 1]).version
  {
    var front, e := log[..|log| - 1], log[|log| - 1];
    VersionsCount(front, IdOf(e));
    EventIsAState(front, j);
    if e.Commit? { TransitionFacts(e.from, e.to); }
  }

  /** Successive writes of one intent have increasing versions, so no version is written twice. */
  lemma {:induction false} VersionsIncrease(log: seq<Event>, j: nat, k: nat)
    requires Serial(log) && j < k < |log| && IdOf(log[j]) == IdOf(log[k])
    ensures StateOf(log[j]).version < StateOf(log[k]).version
  {
    if k == |log| - 1 {
      LastWriteIsNewest(log, j);
    } else {
      VersionsIncrease(log[..|log| - 1], j, k);
    }
  }

  /** No update is lost: of all handlers that read one version of an intent, at most one commits. */
  lemma {:induction false} AtMostOneCommitPerVersionRead(actions: seq<Action>, j: nat, k: nat)
    requires forall a :: a in actions ==> WellFormedAction(a)
    ensures var log := Run(Initial, actions).log;
            j < |log| && k < |log| && SameRead(log[j], log[k]) ==> j == k
  {
    var log := Run(Initial, actions).log;
    if j < |log| && k < |log| && SameRead(log[j], log[k]) {
      RunKeepsInvariant(Initial, actions);
      CommitFollows(log, j);
      CommitFollows(log, k);
      if j < k { VersionsIncrease(log, j, k); }
      if k < j { VersionsIncrease(log, k, j); }
    }
  }

  /** Two commits that started from the same version of the same intent. */
  predicate SameRead(e: Event, f: Event) {
    e.Commit? && f.Commit? && e.from.id == f.from.id && e.from.version == f.from.version
  }

  lemma CommitFollows(log: seq<Event>, n: nat)
    requires Serial(log) && n < |log| && log[n].Commit?
    ensures Follows(log[n].from, log[n].to)
    ensures log[n].from.id == log[n].to.id && log[n].to.version == log[n].from.version + 1
  {
    SerialPrefix(log, n + 1);
    assert log[..n + 1][n] == log[n];
    TransitionFacts(log[n].from, log[n].to);
  }

  /** A commit that leaves the intent active calls the activation callback. */
  predicate Activates(e: Event) { e.Commit? && e.to.status == Active }

  lemma DraftIsFirst(log: seq<Event>, n: nat)
    requires Serial(log) && n < |log| && StateOf(log[n]).status == Draft
    ensures StateOf(log[n]).version == 1
  {
    SerialPrefix(log, n + 1);
    assert log[..n + 1][n] == log[n];
    if log[n].Commit? { TransitionFacts(log[n].from, log[n].to); }
  }

  lemma {:induction false} StateIsAnEvent(log: seq<Event>, i: Intent, id: string) returns (n: nat)
    requires i in States(log, id)
    ensures n < |log| && StateOf(log[n]) == i && IdOf(log[n]) == id
  {
    var m := |log| - 1;
    if IdOf(log[m]) == id && StateOf(log[m]) == i {
      n := m;
    } else {
      n := StateIsAnEvent(log[..m], i, id);
    }
  }

  /** Over a whole run an intent is activated at most once, so no two callbacks share a run key. */
  lemma {:induction false} ActivatedAtMostOnce(actions: seq<Action>, j: nat, k: nat)
    requires forall a :: a in actions ==> WellFormedAction(a)
    ensures var log := Run(Initial, actions).log;
            j < |log| && k < |log| && Activates(log[j]) && Activates(log[k]) && log[j].to.id == log[k].to.id ==> j == k
  {
    var log := Run(Initial, actions).log;
    if j < |log| && k < |log| && Activates(log[j]) && Activates(log[k]) && log[j].to.id == log[k].to.id {
      RunKeepsInvariant(Initial, actions);
      ActivationLeavesVersionOne(log, j);
      ActivationLeavesVersionOne(log, k);
      AtMostOneCommitPerVersionRead(actions, j, k);
    }
  }

  lemma ActivationLeavesVersionOne(log: seq<Event>, n: nat)
    requires Serial(log) && n < |log| && Activates(log[n])
    ensures log[n].from.version == 1 && log[n].from.id == log[n].to.id
  {
    CommitFollows(log, n);
    TransitionFacts(log[n].from, log[n].to);
    SerialPrefix(log, n + 1);
    assert log[..n + 1][..n] == log[..n] && log[..n + 1][n] == log[n];
    SerialPrefix(log, n);
    var m := StateIsAnEvent(log[..n], log[n].from, log[n].to.id);
    DraftIsFirst(log[..n], m);
  }

  // ---------------------------------------------------------------- what reads and create requests answer

  /** The row of the scope a create request with this key was stored in. */
  predicate Keyed(r: Row, o: Owner, key: string) { ScopeKey(r.owner) == ScopeKey(o) && r.key == Some(key) }

  /** A read answers exactly the intent of this id, if it is one of the scope. */
  lemma GetExactly(s: State, id: string, o: Owner, i: Intent)
    requires Invariant(s)
    ensures Get(s.rows, id, o) == Some(i) <==>
      exists r :: r in s.rows && r.intent == i && i.id == id && ScopeKey(r.owner) == ScopeKey(o)
  {
    var row := First(s.rows, HasId(id));
    if row.Some? {
      assert HasId(id)(row.value);
      OnlyRow(s.rows, row.value);
    } else {
      Absent(s.rows, id);
    }
  }

  /** The key lookup answers exactly the row of the scope with this key, of which there is at most one. */
  lemma FindByKeyExactly(s: State, o: Owner, key: string)
    requires Invariant(s)
    ensures FindByKey(s.rows, o, key).None? <==> forall r :: r in s.rows ==> !Keyed(r, o, key)
    ensures forall r :: r in s.rows && Keyed(r, o, key) ==>
      r.fingerprint.Some? && FindByKey(s.rows, o, key) == Some((r.intent, r.fingerprint.value))
  {
    var row := First(s.rows, Carries(ScopeKey(o), key));
    if row.Some? {
      assert Carries(ScopeKey(o), key)(row.value) && Keyed(row.value, o, key);
      forall r | r in s.rows && Keyed(r, o, key) ensures r == row.value {
        OneKeyed(s.rows, r, row.value, o, key);
      }
    } else {
      forall r | r in s.rows ensures !Keyed(r, o, key) {
        assert !Carries(ScopeKey(o), key)(r);
      }
    }
  }

  lemma OneKeyed(rows: seq<Row>, a: Row, b: Row, o: Owner, key: string)
    requires KeysUnique(rows) && a in rows && b in rows && Keyed(a, o, key) && Keyed(b, o, key)
    ensures a == b
  {
    var m :| 0 <= m < |rows| && rows[m] == a;
    var n :| 0 <= n < |rows| && rows[n] == b;
    assert m == n;
  }

  /**
   * A create request whose key the scope has used is answered from that row, as a replay for the same
   * fingerprint and as a reuse of the key for another. Any other is invalid exactly for a
   * blank id or an empty period, else a conflict exactly when the id is taken, and else stored as a draft
   * under key and fingerprint.
   */
  lemma CreateAnswersExactly(s: State, o: Owner, key: string, fp: string, req: Request, now: int)
    requires Invariant(s) && key != "" && fp != ""
    ensures var answer := Respond(s.rows, o, key, fp, req, now);
            && (forall r :: r in s.rows && Keyed(r, o, key) ==>
                 answer == if r.fingerprint == Some(fp) then Replayed(r.intent) else KeyReuse)
            && ((forall r :: r in s.rows ==> !Keyed(r, o, key)) ==>
                 && (answer.Invalid? <==> !Creatable(req))
                 && (answer.Conflict? <==> !answer.Invalid? && exists r :: r in s.rows && r.intent.id == req.id)
                 && (answer.Conflict? ==> answer.error == OwnedByOther || answer.error == AlreadyExists)
                 && (!answer.Invalid? && !answer.Conflict? ==> Stores(s, o, key, fp, req, now, answer)))
            && (answer.Created? || RowsAfter(s.rows, o, key, fp, answer) == s.rows)
  {
    FindByKeyExactly(s, o, key);
    CreateExactly(req, now);
    if FindByKey(s.rows, o, key).None? && CreateIntent(req, now).Some? {
      var i := CreateIntent(req, now).value;
      PutExactly(s.rows, i, o, Some(key), Some(fp), None);
      if Put(s.rows, i, o, Some(key), Some(fp), None).Ok? {
        var n := PutShape(s.rows, i, o, Some(key), Some(fp), None);
      }
    }
  }

  /** The answer is the draft asked for, and its row is appended. */
  ghost predicate Stores(s: State, o: Owner, key: string, fp: string, req: Request, now: int, answer: Response) {
    var i := Intent(req.id, 1, Draft, req.body, now, now, req.effectiveFrom, req.expiresAt, None);
    answer == Created(i) && RowsAfter(s.rows, o, key, fp, answer) == s.rows + [Row(i, o, Some(key), Some(fp))]
  }

  // ---------------------------------------------------------------- what commands do

  /** The row of the intent is the one the handler read, in its scope. */
  ghost predicate Current(s: State, h: nat, n: nat)
    requires h in s.handlers
  {
    && n < |s.rows| && s.rows[n].intent == s.handlers[h].intent
    && ScopeKey(s.rows[n].owner) == ScopeKey(s.handlers[h].owner)
  }

  /**
   * A command is committed exactly when the table allows it on the intent the handler read and that
   * intent is still the one stored. It then replaces that row by what the table says, without key or
   * fingerprint, and otherwise no row changes.
   */
  lemma CommandExactly(s: State, h: nat, c: Command, at: int, to: Intent, n: nat)
    requires UniqueIds(s.rows) && h in s.handlers
    requires Current(s, h, n) && Leads(s.handlers[h].intent, c, at, to)
    ensures Step(s, Write(h, c, at)).rows == s.rows[n := Row(to, s.handlers[h].owner, None, None)]
    ensures Step(s, Write(h, c, at)).log == s.log + [Commit(s.handlers[h].intent, to)]
  {
    var Snapshot(i, o) := s.handlers[h];
    TransitionExactly(i, c, at, to);
    PutReplaces(s.rows, n, to, o);
  }

  /** A put at the version of the row of the scope replaces that row, without key and fingerprint. */
  lemma PutReplaces(rows: seq<Row>, n: nat, to: Intent, o: Owner)
    requires UniqueIds(rows) && n < |rows| && rows[n].intent.id == to.id && ScopeKey(rows[n].owner) == ScopeKey(o)
    ensures Put(rows, to, o, None, None, Some(rows[n].intent.version)) == Ok(rows[n := Row(to, o, None, None)])
  {
    OnlyHolder(rows, n);
    SetReplaces(rows, n, Row(to, o, None, None));
  }

  lemma CommandRefused(s: State, h: nat, c: Command, at: int)
    requires Invariant(s) && h in s.handlers
    requires (forall to :: !Leads(s.handlers[h].intent, c, at, to)) || forall n :: !Current(s, h, n)
    ensures Step(s, Write(h, c, at)).rows == s.rows && Step(s, Write(h, c, at)).log == s.log
  {
    var Snapshot(i, o) := s.handlers[h];
    var to := Transition(i, c, at);
    if to.Some? {
      TransitionExactly(i, c, at, to.value);
      var change := StepShape(s, Write(h, c, at));
      assert change.Replaced? ==> Current(s, h, change.n);
    }
  }

  lemma {:induction false} SetStores(rows: seq<Row>, row: Row)
    ensures row in Set(rows, row)
  {
    if rows != [] && rows[0].intent.id != row.intent.id {
      SetStores(rows[1..], row);
    }
  }

  predicate Final(status: Status) { status != Draft && status != Active }

  /**
   * The life of an intent over any interleaving: a draft, then perhaps active, then perhaps one final
   * status, after which nothing is committed. So at most two commands are ever committed on it.
   */
  lemma {:induction false} LifeOfAnIntent(actions: seq<Action>, id: string)
    requires forall a :: a in actions ==> WellFormedAction(a)
    ensures var states := States(Run(Initial, actions).log, id);
            && |states| <= 3
            && (forall n :: 0 <= n < |states| ==> (states[n].status == Draft <==> n == 0))
            && forall n :: 0 <= n < |states| && Final(states[n].status) ==> n == |states| - 1
  {
    RunKeepsInvariant(Initial, actions);
    LifeInLog(Run(Initial, actions).log, id);
  }

  lemma {:induction false} LifeInLog(log: seq<Event>, id: string)
    requires Serial(log)
    ensures var states := States(log, id);
            && |states| <= 3 && (|states| == 3 ==> Final(states[2].status))
            && (forall n :: 0 <= n < |states| ==> (states[n].status == Draft <==> n == 0))
            && forall n :: 0 <= n < |states| && Final(states[n].status) ==> n == |states| - 1
  {
    if log != [] {
      var e := log[|log| - 1];
      LifeInLog(log[..|log| - 1], id);
      if IdOf(e) == id && e.Commit? {
        FollowsTable(e.from, e.to);
      }
    }
  }

  lemma FollowsTable(from: Intent, to: Intent)
    requires Follows(from, to)
    ensures exists c, at :: Leads(from, c, at, to)
    ensures (from.status == Draft || from.status == Active) && to.status != Draft
    ensures to.status == Active ==> from.status == Draft
  {
    var c, at :| Transition(from, c, at) == Some(to);
    TransitionExactly(from, c, at, to);
  }

  // ---------------------------------------------------------------- run keys

  function Decimal(n: nat): string {
    if n < 10 then [('0' as int + n) as char] else Decimal(n / 10) + [('0' as int + n % 10) as char]
  }

  lemma {:induction false} DecimalRoundTrip(n: nat)
    ensures DecimalValue(Codes(Decimal(n))) == n
    ensures forall c :: c in Decimal(n) ==> '0' <= c <= '9'
  {
    if n < 10 {
      assert Codes(Decimal(n))[..0] == [];
    } else {
      DecimalRoundTrip(n / 10);
      assert Codes(Decimal(n))[..|Decimal(n)| - 1] == Codes(Decimal(n / 10));
    }
  }

  /** The idempotency key of the runtime run an activation starts. */
  function RunKey(i: Intent): string { "intent-" + i.id + "-v" + Decimal(i.version) }

  lemma NoMarkerAfter(p: string, d: string)
    requires 'v' !in d
    ensures var x := p + "v" + d;
            x[|p|] == 'v' && x[..|p|] == p && x[|p| + 1..] == d && forall m :: |p| < m < |x| ==> x[m] != 'v'
  {
    var x := p + "v" + d;
    forall m | |p| < m < |x| ensures x[m] != 'v' {
      assert x[m] == d[m - |p| - 1];
    }
  }

  lemma LastMarkerSplits(p: string, q: string, d: string, e: string)
    requires p + "v" + d == q + "v" + e && 'v' !in d && 'v' !in e
    ensures p == q && d == e
  {
    NoMarkerAfter(p, d);
    NoMarkerAfter(q, e);
  }

  /** Ids may themselves contain "-v" and digits; the keys still differ. */
  lemma RunKeyInjective(i: Intent, j: Intent)
    requires RunKey(i) == RunKey(j)
    ensures i.id == j.id && i.version == j.version
  {
    var d, e := Decimal(i.version), Decimal(j.version);
    DecimalRoundTrip(i.version);
    DecimalRoundTrip(j.version);
    var p, q := "intent-" + i.id + "-", "intent-" + j.id + "-";
    assert p + "v" + d == RunKey(i) && q + "v" + e == RunKey(j);
    LastMarkerSplits(p, q, d, e);
    assert i.id == p[7..|p| - 1] && j.id == q[7..|q| - 1];
  }

  predicate SameKeyActivations(e: Event, f: Event) {
    Activates(e) && Activates(f) && RunKey(e.to) == RunKey(f.to)
  }

  /** Two activation callbacks of a run never present the same key to the runtime. */
  lemma {:induction false} RunKeysNeverReused(actions: seq<Action>, j: nat, k: nat)
    requires forall a :: a in actions ==> WellFormedAction(a)
    ensures var log := Run(Initial, actions).log;
            j < |log| && k < |log| && SameKeyActivations(log[j], log[k]) ==> j == k
  {
    var log := Run(Initial, actions).log;
    if j < |log| && k < |log| && SameKeyActivations(log[j], log[k]) {
      RunKeyInjective(log[j].to, log[k].to);
      ActivatedAtMostOnce(actions, j, k);
    }
  }
}
