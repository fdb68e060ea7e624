/** Runs at which a create request is not replayed, and at which it reveals another scope. */
module IntentExamples {
  import opened Prelude
  import opened Intents
  import opened IntentStore
  import opened IntentRoutes
  import opened IntentScopes

  const Alice := Owner("alice", None)
  const Bob := Owner("bob", None)
  const Wanted := Request("x", "spec", None, None)

  const Stored := Intent("x", 1, Draft, "spec", 0, 0, None, None, None)
  const Running := Stored.(version := 2, status := Active, updatedAt := 1)

  const AfterCreate := State([Row(Stored, Alice, Some("k"), Some("f"))], map[], [Creation(Stored, Alice, "k", "f")])
  const AfterRead := AfterCreate.(handlers := map[0 := Snapshot(Stored, Alice)])
  const AfterCommand := State([Row(Running, Alice, None, None)], map[],
                              [Creation(Stored, Alice, "k", "f"), Commit(Stored, Running)])

  const Steps := [Create(Alice, "k", "f", Wanted, 0), Read(0, "x", Alice), Write(0, Activate, 1)]

  lemma OneRow(r: Row, p: Row -> bool)
    ensures First([r], p) == if p(r) then Some(r) else None
    ensures Filter([r], p) == if p(r) then [r] else []
  {
    assert [r][..0] == [];
  }

  lemma Reached()
    ensures Run(Initial, Steps[..1]) == AfterCreate && Run(Initial, Steps) == AfterCommand
  {
    assert Steps[..1][..0] == [] && Steps[..2][..1] == Steps[..1] && Steps[..3] == Steps;
    assert Run(Initial, Steps[..1]) == Step(Run(Initial, []), Steps[0]);
    assert Run(Initial, Steps[..2]) == Step(Run(Initial, Steps[..1]), Steps[1]);
  }

  /** Created, activated, and then requested again: the repeated request is a conflict, not a replay. */
  lemma ReplayEndsWithTheFirstCommand()
    ensures Respond(Run(Initial, Steps[..1]).rows, Alice, "k", "f", Wanted, 2) == Replayed(Stored)
    ensures Respond(Run(Initial, Steps).rows, Alice, "k", "f", Wanted, 2) == Conflict(AlreadyExists)
  {
    Reached();
    OneRow(AfterCreate.rows[0], Carries(ScopeKey(Alice), "k"));
    OneRow(AfterCommand.rows[0], Carries(ScopeKey(Alice), "k"));
    OneRow(AfterCommand.rows[0], HasId("x"));
  }

  lemma BobSees(rows: seq<Row>)
    requires rows == AfterCreate.rows
    ensures View(rows, ScopeKey(Bob)) == [] && FindByKey(rows, Bob, "b") == None
    ensures Respond(rows, Bob, "b", "g", Wanted, 2) == Conflict(OwnedByOther)
  {
    OneRow(rows[0], InScope(ScopeKey(Bob)));
    OneRow(rows[0], Carries(ScopeKey(Bob), "b"));
    OneRow(rows[0], HasId("x"));
  }

  /** Bob's first request is refused because Alice holds the id, though Bob sees an empty store. */
  lemma OtherScopeShows()
    ensures var rows := Run(Initial, Steps[..1]).rows;
            && View(rows, ScopeKey(Bob)) == []
            && Respond(rows, Bob, "b", "g", Wanted, 2) == Conflict(OwnedByOther)
            && Respond(View(rows, ScopeKey(Bob)), Bob, "b", "g", Wanted, 2).Created?
  {
    Reached();
    BobSees(AfterCreate.rows);
  }
}
