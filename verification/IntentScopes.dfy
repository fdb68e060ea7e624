/** What one ownership scope sees, and idempotent replay of create requests. */
module IntentScopes {
  import opened Prelude
  import opened Intents
  import opened IntentStore
  import opened IntentRoutes

  /** The rows of scope `k`, in store order. */
  function View(rows: seq<Row>, k: string): seq<Row> { Filter(rows, InScope(k)) }

  /** Scopes never collide: equal keys are the same organization or the same unaffiliated principal. */
  lemma ScopeKeyInjective(a: Owner, b: Owner)
    requires ScopeKey(a) == ScopeKey(b)
    ensures NonEmpty(a.organizationId) == NonEmpty(b.organizationId)
    ensures NonEmpty(a.organizationId).None? ==> a.principalId == b.principalId
  {
    var x, y := ScopeKey(a), ScopeKey(b);
    assert x[0] == y[0];
    if NonEmpty(a.organizationId).Some? {
      assert x[4..] == a.organizationId.value && y[4..] == b.organizationId.value;
    } else {
      assert x[10..] == a.principalId && y[10..] == b.principalId;
    }
  }

  // ---------------------------------------------------------------- reads depend on the view only

  lemma {:induction false} FirstCarrierInView(rows: seq<Row>, k: string, key: string)
    ensures First(rows, Carries(k, key)) == First(View(rows, k), HasKey(key))
  {
    if rows != [] {
      var n := |rows| - 1;
      FirstCarrierInView(rows[..n], k, key);
      var v := View(rows[..n], k);
      if ScopeKey(rows[n].owner) == k {
        assert View(rows, k) == v + [rows[n]];
        assert (v + [rows[n]])[..|v|] == v;
      }
    }
  }

  /** Two stores with the same rows of scope `k` answer every read of that scope alike, order included. */
  lemma ReadsSeeOnlyTheView(xs: seq<Row>, ys: seq<Row>, o: Owner)
    requires UniqueIds(xs) && UniqueIds(ys) && View(xs, ScopeKey(o)) == View(ys, ScopeKey(o))
    ensures forall id :: Get(xs, id, o) == Get(ys, id, o)
    ensures forall status, limit :: List(xs, status, o, limit) == List(ys, status, o, limit)
    ensures forall key :: FindByKey(xs, o, key) == FindByKey(ys, o, key)
  {
    var k := ScopeKey(o);
    forall id ensures Get(xs, id, o) == Get(ys, id, o) {
      GetInView(xs, id, o);
      GetInView(ys, id, o);
    }
    forall key ensures FindByKey(xs, o, key) == FindByKey(ys, o, key) {
      FirstCarrierInView(xs, k, key);
      FirstCarrierInView(ys, k, key);
    }
  }

  lemma GetInView(rows: seq<Row>, id: string, o: Owner)
    requires UniqueIds(rows)
    ensures Get(rows, id, o).Some? <==> exists r :: r in View(rows, ScopeKey(o)) && r.intent.id == id
    ensures forall r :: r in View(rows, ScopeKey(o)) && r.intent.id == id ==> Get(rows, id, o) == Some(r.intent)
  {
    var row := First(rows, HasId(id));
    forall r | r in View(rows, ScopeKey(o)) && r.intent.id == id
      ensures row == Some(r)
    {
      assert r in rows;
    }
  }

  // ---------------------------------------------------------------- non-interference

  /** The scope an action writes for; reads write for none. */
  ghost predicate WritesFor(s: State, a: Action, k: string) {
    match a
    case Create(o, _, _, _, _) => ScopeKey(o) == k
    case Read(_, _, _) => false
    case Write(h, _, _) => h in s.handlers && ScopeKey(s.handlers[h].owner) == k
  }

  lemma {:induction false} ForeignUpdateInvisible(rows: seq<Row>, n: nat, row: Row, k: string)
    requires n < |rows| && ScopeKey(rows[n].owner) == ScopeKey(row.owner) != k
    ensures View(rows[n := row], k) == View(rows, k)
  {
    FilterIgnores(rows, n, row, InScope(k));
  }

  /** A step for another scope leaves the view unchanged. */
  lemma StepInvisible(s: State, a: Action, k: string)
    requires Invariant(s) && WellFormedAction(a) && !WritesFor(s, a, k)
    ensures View(Step(s, a).rows, k) == View(s.rows, k)
  {
    var c := StepShape(s, a);
    match c
    case Nothing =>
    case Added(row) => FilterAppend(s.rows, row, InScope(k));
    case Replaced(n, row) => ForeignUpdateInvisible(s.rows, n, row, k);
  }

  /** No step moves a row or changes its scope. */
  lemma {:induction false} StepKeepsScope(s: State, a: Action, n: nat)
    requires Invariant(s) && WellFormedAction(a) && n < |s.rows|
    ensures n < |Step(s, a).rows|
    ensures Step(s, a).rows[n].intent.id == s.rows[n].intent.id
    ensures ScopeKey(Step(s, a).rows[n].owner) == ScopeKey(s.rows[n].owner)
  {
    var c := StepShape(s, a);
    ShapeKeepsScope(s, a, Step(s, a), c, n);
  }

  lemma ShapeKeepsScope(s: State, a: Action, s': State, c: Change, n: nat)
    requires Describes(s, a, s', c) && n < |s.rows|
    ensures n < |s'.rows| && s'.rows[n].intent.id == s.rows[n].intent.id
    ensures ScopeKey(s'.rows[n].owner) == ScopeKey(s.rows[n].owner)
  {
  }

  /** No step of the run writes for scope `k`. */
  ghost predicate ForeignRun(s: State, actions: seq<Action>, k: string) {
    actions == [] ||
    var n := |actions| - 1;
    ForeignRun(s, actions[..n], k) && !WritesFor(Run(s, actions[..n]), actions[n], k)
  }

  /** However long the others run, nothing a scope can read changes, and no row changes scope. */
  lemma {:induction false} NonInterference(s: State, actions: seq<Action>, o: Owner)
    requires Invariant(s) && forall a :: a in actions ==> WellFormedAction(a)
    requires ForeignRun(s, actions, ScopeKey(o))
    ensures var s' := Run(s, actions);
            && Invariant(s')
            && View(s'.rows, ScopeKey(o)) == View(s.rows, ScopeKey(o))
            && (forall id :: Get(s'.rows, id, o) == Get(s.rows, id, o))
            && (forall status, limit :: List(s'.rows, status, o, limit) == List(s.rows, status, o, limit))
            && (forall key :: FindByKey(s'.rows, o, key) == FindByKey(s.rows, o, key))
  {
    RunKeepsInvariant(s, actions);
    ViewStable(s, actions, ScopeKey(o));
    ReadsSeeOnlyTheView(Run(s, actions).rows, s.rows, o);
  }

  lemma {:induction false} ViewStable(s: State, actions: seq<Action>, k: string)
    requires Invariant(s) && forall a :: a in actions ==> WellFormedAction(a)
    requires ForeignRun(s, actions, k)
    ensures View(Run(s, actions).rows, k) == View(s.rows, k)
  {
    if actions != [] {
      var n := |actions| - 1;
      var front, last := actions[..n], actions[n];
      assert last in actions && forall a :: a in front ==> a in actions;
      ViewStable(s, front, k);
      RunKeepsInvariant(s, front);
      StepInvisible(Run(s, front), last, k);
    }
  }

  lemma {:induction false} ScopeNeverChanges(s: State, actions: seq<Action>, n: nat)
    requires Invariant(s) && (forall a :: a in actions ==> WellFormedAction(a)) && n < |s.rows|
    ensures n < |Run(s, actions).rows|
    ensures Run(s, actions).rows[n].intent.id == s.rows[n].intent.id
    ensures ScopeKey(Run(s, actions).rows[n].owner) == ScopeKey(s.rows[n].owner)
  {
    if actions != [] {
      var m := |actions| - 1;
      var front, last := actions[..m], actions[m];
      assert last in actions && forall a :: a in front ==> a in actions;
      ScopeNeverChanges(s, front, n);
      RunKeepsInvariant(s, front);
      StepKeepsScope(Run(s, front), last, n);
    }
  }

  /**
   * The one way another scope shows: a create request is answered as if the scope were alone in
   * the store exactly when the request is a replay, is invalid, or asks for an id no other scope holds.
   */
  lemma CreateInterference(rows: seq<Row>, o: Owner, key: string, fp: string, req: Request, now: int)
    requires UniqueIds(rows)
    ensures
      var alone := View(rows, ScopeKey(o));
      Respond(rows, o, key, fp, req, now) == Respond(alone, o, key, fp, req, now) <==>
        || FindByKey(rows, o, key).Some?
        || CreateIntent(req, now).None?
        || forall r :: r in rows && r.intent.id == req.id ==> ScopeKey(r.owner) == ScopeKey(o)
  {
    var k := ScopeKey(o);
    FirstCarrierInView(rows, k, key);
    FirstCarrierInView(View(rows, k), k, key);
    ViewOfView(rows, k);
    if CreateIntent(req, now).Some? {
      PutInterference(rows, CreateIntent(req, now).value, o, key, fp);
    }
  }

  lemma PutInterference(rows: seq<Row>, i: Intent, o: Owner, key: string, fp: string)
    requires UniqueIds(rows)
    ensures
      var p := Put(rows, i, o, Some(key), Some(fp), None);
      var q := Put(View(rows, ScopeKey(o)), i, o, Some(key), Some(fp), None);
      (p.Err? && q.Err? && p.error == q.error) || (p.Ok? && q.Ok?) <==>
        forall r :: r in rows && r.intent.id == i.id ==> ScopeKey(r.owner) == ScopeKey(o)
  {
    var k := ScopeKey(o);
    var alone := View(rows, k);
    var held, seen := First(rows, HasId(i.id)), First(alone, HasId(i.id));
    if held.Some? && ScopeKey(held.value.owner) == k {
      assert held.value in alone;
    }
    if seen.Some? {
      assert seen.value in rows && held == seen;
    }
  }

  lemma {:induction false} ViewOfView(rows: seq<Row>, k: string)
    ensures View(View(rows, k), k) == View(rows, k)
  {
    if rows != [] {
      var n := |rows| - 1;
      ViewOfView(rows[..n], k);
      if ScopeKey(rows[n].owner) == k {
        FilterAppend(View(rows[..n], k), rows[n], InScope(k));
      }
    }
  }

  // ---------------------------------------------------------------- idempotent creation

  /** The row stored for the intent a creation event made. */
  lemma CreationRow(s: State, e: Event) returns (r: Row)
    requires Invariant(s) && e in s.log
    ensures r in s.rows && r.intent.id == IdOf(e)
  {
    assert IdOf(e) in Ids(s.rows);
    r :| r in s.rows && r.intent.id == IdOf(e);
  }

  /** Until the first command a creation's row still carries what the creation put there. */
  ghost predicate CreationsKept(s: State) {
    forall e, r :: e in s.log && e.Creation? && r in s.rows && r.intent.id == e.intent.id ==>
      && ScopeKey(r.owner) == ScopeKey(e.owner)
      && (r.intent.version == 1 ==> r == Row(e.intent, e.owner, Some(e.key), Some(e.fingerprint)))
  }

  lemma {:induction false} StepKeepsCreations(s: State, a: Action)
    requires Invariant(s) && CreationsKept(s) && WellFormedAction(a)
    ensures CreationsKept(Step(s, a))
  {
    var c := StepShape(s, a);
    match c
    case Nothing =>
    case Added(row) =>
    case Replaced(n, row) =>
      assert s.rows[n] in s.rows;
      VersionsCount(s.log, row.intent.id);
      ReplacedKeepsCreations(s, Step(s, a), n, row);
  }

  lemma ReplacedKeepsCreations(s: State, s': State, n: nat, row: Row)
    requires CreationsKept(s) && UniqueIds(s.rows) && n < |s.rows|
    requires row.intent.id == s.rows[n].intent.id && row.intent.version > 1
    requires ScopeKey(row.owner) == ScopeKey(s.rows[n].owner)
    requires s'.rows == s.rows[n := row] && s'.log == s.log + [Commit(s.rows[n].intent, row.intent)]
    ensures CreationsKept(s')
  {
    forall e, r | e in s'.log && e.Creation? && r in s'.rows && r.intent.id == e.intent.id
      ensures ScopeKey(r.owner) == ScopeKey(e.owner)
      ensures r.intent.version == 1 ==> r == Row(e.intent, e.owner, Some(e.key), Some(e.fingerprint))
    {
      assert e in s.log;
      var m :| 0 <= m < |s'.rows| && s'.rows[m] == r;
      assert s.rows[m] in s.rows;
    }
  }

  lemma {:induction false} RunKeepsCreations(actions: seq<Action>)
    requires forall a :: a in actions ==> WellFormedAction(a)
    ensures CreationsKept(Run(Initial, actions))
  {
    if actions != [] {
      var n := |actions| - 1;
      assert actions == actions[..n] + [actions[n]];
      RunKeepsCreations(actions[..n]);
      RunKeepsInvariant(Initial, actions[..n]);
      StepKeepsCreations(Run(Initial, actions[..n]), actions[n]);
    }
  }

  /** Some command was committed on the intent. */
  ghost predicate Commanded(log: seq<Event>, id: string) {
    exists n :: 0 <= n < |log| && log[n].Commit? && log[n].to.id == id
  }

  lemma CommitIsLater(log: seq<Event>, n: nat)
    requires Serial(log) && n < |log| && log[n].Commit?
    ensures log[n].to.version > 1
  {
    CommitFollows(log, n);
    SerialPrefix(log, n + 1);
    assert log[..n + 1][..n] == log[..n] && log[..n + 1][n] == log[n];
    SerialPrefix(log, n);
    VersionsCount(log[..n], log[n].to.id);
  }

  /** A stored intent has version 1 exactly when no command was committed on it. */
  lemma VersionOneExactly(s: State, r: Row)
    requires Invariant(s) && r in s.rows
    ensures r.intent.version == 1 <==> !Commanded(s.log, r.intent.id)
  {
    var log, id := s.log, r.intent.id;
    VersionsCount(log, id);
    var n := StateIsAnEvent(log, r.intent, id);
    if Commanded(log, id) {
      var m :| 0 <= m < |log| && log[m].Commit? && log[m].to.id == id;
      CommitIsLater(log, m);
      EventIsAState(log, m);
    } else {
      SerialPrefix(log, n + 1);
      assert log[..n + 1][n] == log[n];
    }
  }

  /**
   * Repeating a create request, at any later time and from anyone in the same scope, is answered
   * with the stored intent and changes nothing, exactly as long as no command was committed on the
   * intent. A different fingerprint under the same key is then refused, also without change.
   */
  lemma {:induction false} ReplayUntilFirstCommand(
    actions: seq<Action>, e: Event, o: Owner, fp: string, req: Request, now: int)
    returns (r: Row)
    requires (forall a :: a in actions ==> WellFormedAction(a)) && e.Creation?
    requires e in Run(Initial, actions).log && ScopeKey(o) == ScopeKey(e.owner)
    ensures r in Run(Initial, actions).rows && r.intent.id == e.intent.id
    ensures !Commanded(Run(Initial, actions).log, e.intent.id) ==>
      Respond(Run(Initial, actions).rows, o, e.key, fp, req, now)
      == if fp == e.fingerprint then Replayed(e.intent) else KeyReuse
    ensures Respond(Run(Initial, actions).rows, o, e.key, e.fingerprint, req, now) == Replayed(r.intent)
      <==> !Commanded(Run(Initial, actions).log, e.intent.id)
    ensures !Commanded(Run(Initial, actions).log, e.intent.id) || req.id == e.intent.id ==>
      Step(Run(Initial, actions), Create(o, e.key, fp, req, now)) == Run(Initial, actions)
  {
    RunKeepsInvariant(Initial, actions);
    RunKeepsCreations(actions);
    r := ReplayAnswer(Run(Initial, actions), e, o, fp, req, now);
    VersionOneExactly(Run(Initial, actions), r);
  }

  lemma ReplayAnswer(s: State, e: Event, o: Owner, fp: string, req: Request, now: int) returns (r: Row)
    requires Invariant(s) && CreationsKept(s) && e.Creation? && e in s.log && ScopeKey(o) == ScopeKey(e.owner)
    ensures r in s.rows && r.intent.id == e.intent.id
    ensures r.intent.version == 1 ==>
      Respond(s.rows, o, e.key, fp, req, now) == if fp == e.fingerprint then Replayed(e.intent) else KeyReuse
    ensures Respond(s.rows, o, e.key, e.fingerprint, req, now) == Replayed(r.intent) <==> r.intent.version == 1
    ensures r.intent.version == 1 || req.id == e.intent.id ==> Step(s, Create(o, e.key, fp, req, now)) == s
  {
    r := CreationRow(s, e);
    if r.intent.version == 1 {
      assert Keyed(r, o, e.key);
      FindByKeyExactly(s, o, e.key);
    } else {
      NotReplayed(s, o, e.key, e.fingerprint, req, now, r);
      if req.id == e.intent.id {
        StoredIdRefused(s.rows, o, e.key, fp, req, now, r);
      }
    }
  }

  lemma StoredIdRefused(rows: seq<Row>, o: Owner, key: string, fp: string, req: Request, now: int, r: Row)
    requires r in rows && r.intent.id == req.id
    ensures !Respond(rows, o, key, fp, req, now).Created?
  {
    var held := First(rows, HasId(req.id));
    assert held.Some?;
  }

  lemma NotReplayed(s: State, o: Owner, key: string, fp: string, req: Request, now: int, r: Row)
    requires Invariant(s) && r in s.rows && r.intent.version != 1
    ensures Respond(s.rows, o, key, fp, req, now) != Replayed(r.intent)
  {
    var f := First(s.rows, Carries(ScopeKey(o), key));
    if f.Some? {
      assert f.value in s.rows && f.value.key == Some(key);
      assert f.value.intent.version == 1;
    }
  }
}
