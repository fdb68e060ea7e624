/**
 * The multi-row `INSERT` of a verification: the loop that grows the row templates, the bound
 * values and the next placeholder number together, and what the statement then inserts.
 */
module EntitlementInsert {
  import opened Prelude
  import opened Subscriptions

  /** A column of a row template: a numbered placeholder, or the literal `'ACTIVE'`. */
  datatype Slot = Placeholder(number: nat) | LiteralActive

  datatype Cell = IdCell(id: Id) | TextCell(text: string) | TimeCell(time: Option<int>) | ActiveCell

  /** The value a placeholder is bound to; placeholders count from 1. */
  function Bound(slot: Slot, values: seq<Cell>): Option<Cell> {
    if slot.LiteralActive? then Some(ActiveCell)
    else if 1 <= slot.number <= |values| then Some(values[slot.number - 1])
    else None
  }

  function BindRow(template: seq<Slot>, values: seq<Cell>): seq<Option<Cell>> {
    seq(|template|, i requires 0 <= i < |template| => Bound(template[i], values))
  }

  /** The cells the ten columns of an entitlement row should receive. */
  function Columns(id: Id, e: Entitlement, now: int): seq<Option<Cell>> {
    [Some(IdCell(id)), Some(IdCell(e.subId)), Some(IdCell(e.userId)), Some(TextCell(e.feature)), Some(ActiveCell),
     Some(TimeCell(e.startedAt)), Some(TimeCell(e.expiresAt)), Some(TextCell("{}")), Some(TimeCell(Some(now))),
     Some(TimeCell(Some(now)))]
  }

  /** The nine values pushed for a row. */
  function Cells(id: Id, e: Entitlement, now: int): seq<Cell> {
    [IdCell(id), IdCell(e.subId), IdCell(e.userId), TextCell(e.feature), TimeCell(e.startedAt), TimeCell(e.expiresAt),
     TextCell("{}"), TimeCell(Some(now)), TimeCell(Some(now))]
  }

  /** A row template whose nine placeholders are numbered from `n`. */
  function Template(n: nat): seq<Slot> {
    [Placeholder(n), Placeholder(n + 1), Placeholder(n + 2), Placeholder(n + 3), LiteralActive,
     Placeholder(n + 4), Placeholder(n + 5), Placeholder(n + 6), Placeholder(n + 7), Placeholder(n + 8)]
  }

  /** Each template is numbered after the previous one and binds its own row. */
  ghost predicate BindsRows(inserts: seq<seq<Slot>>, values: seq<Cell>, rows: seq<Entitlement>, first: Id, now: int) {
    && |inserts| == |rows| && |values| == 9 * |inserts|
    && forall r :: 0 <= r < |rows| ==>
         inserts[r] == Template(1 + 9 * r) && BindRow(inserts[r], values) == Columns(first + r, rows[r], now)
  }

  /** The templates of `n` rows, numbered one after the other. */
  function Templates(n: nat): (r: seq<seq<Slot>>)
    ensures |r| == n
  {
    if n == 0 then [] else Templates(n - 1) + [Template(9 * n - 8)]
  }

  /** The values of all rows, row after row. */
  function ValuesOf(rows: seq<Entitlement>, first: Id, now: int): (r: seq<Cell>)
    ensures |r| == 9 * |rows|
  {
    if rows == [] then [] else
      var n := |rows| - 1;
      ValuesOf(rows[..n], first, now) + Cells(first + n, rows[n], now)
  }

  lemma NextValues(rows: seq<Entitlement>, e: Entitlement, first: Id, now: int)
    ensures ValuesOf(rows + [e], first, now) == ValuesOf(rows, first, now) + Cells(first + |rows|, e, now)
  {
    assert (rows + [e])[..|rows|] == rows;
  }

  lemma {:induction false} TemplateAt(n: nat, r: nat)
    requires r < n
    ensures Templates(n)[r] == Template(1 + 9 * r)
  {
    if r < n - 1 {
      TemplateAt(n - 1, r);
    }
  }

  lemma {:induction false} RowBinds(rows: seq<Entitlement>, first: Id, now: int, r: nat)
    requires r < |rows|
    ensures BindRow(Template(1 + 9 * r), ValuesOf(rows, first, now)) == Columns(first + r, rows[r], now)
  {
    var n := |rows| - 1;
    var values := ValuesOf(rows[..n], first, now);
    if r < n {
      RowBinds(rows[..n], first, now, r);
    } else {
    }
  }

  lemma BindsAll(rows: seq<Entitlement>, first: Id, now: int)
    ensures BindsRows(Templates(|rows|), ValuesOf(rows, first, now), rows, first, now)
  {
    forall r | 0 <= r < |rows|
      ensures Templates(|rows|)[r] == Template(1 + 9 * r)
      ensures BindRow(Template(1 + 9 * r), ValuesOf(rows, first, now)) == Columns(first + r, rows[r], now)
    {
      TemplateAt(|rows|, r);
      RowBinds(rows, first, now, r);
    }
  }

  lemma NextMissing(features: seq<Feature>, i: nat, existing: set<string>, row: Entitlement)
    requires i < |features|
    ensures MissingRows(features[..i + 1], existing, row) == MissingRows(features[..i], existing, row) +
      if features[i].enabled && features[i].name !in existing then [row.(feature := features[i].name)] else []
  {
    assert features[..i + 1][..i] == features[..i];
  }

  method NumberRow(start: nat) returns (slots: seq<Slot>, entIdx: nat)
    ensures slots == Template(start) && entIdx == start + 9
  {
    slots, entIdx := [], start;
    slots, entIdx := slots + [Placeholder(entIdx)], entIdx + 1;
    slots, entIdx := slots + [Placeholder(entIdx)], entIdx + 1;
    slots, entIdx := slots + [Placeholder(entIdx)], entIdx + 1;
    slots, entIdx := slots + [Placeholder(entIdx)], entIdx + 1;
    slots := slots + [LiteralActive];
    slots, entIdx := slots + [Placeholder(entIdx)], entIdx + 1;
    slots, entIdx := slots + [Placeholder(entIdx)], entIdx + 1;
    slots, entIdx := slots + [Placeholder(entIdx)], entIdx + 1;
    slots, entIdx := slots + [Placeholder(entIdx)], entIdx + 1;
    slots, entIdx := slots + [Placeholder(entIdx)], entIdx + 1;
  }

  /**
   * Builds the statement. `row` carries what all rows share; identifiers are drawn from `first` on.
   * The placeholders are 1 to `entIdx - 1`, nine to a row, and each binds its own row's value.
   */
  method BuildInsert(features: seq<Feature>, existing: set<string>, row: Entitlement, first: Id, now: int)
    returns (entInserts: seq<seq<Slot>>, entValues: seq<Cell>, entIdx: nat)
    ensures entIdx == 1 + |entValues| == 1 + 9 * |entInserts|
    ensures BindsRows(entInserts, entValues, MissingRows(features, existing, row), first, now)
  {
    entInserts, entValues, entIdx := [], [], 1;
    ghost var rows := [];
    for i := 0 to |features|
      invariant rows == MissingRows(features[..i], existing, row)
      invariant entInserts == Templates(|rows|) && entValues == ValuesOf(rows, first, now) && entIdx == 1 + |entValues|
      invariant |entInserts| == |rows| && |entValues| == 9 * |rows|
    {
      NextMissing(features, i, existing, row);
      if features[i].enabled && features[i].name !in existing {
        var e := row.(feature := features[i].name);
        NextValues(rows, e, first, now);
        var id := first + |entInserts|;
        var slots, next := NumberRow(entIdx);
        entInserts, entValues, entIdx := entInserts + [slots], entValues + Cells(id, e, now), next;
        rows := rows + [e];
      }
    }
    assert features[..|features|] == features;
    BindsAll(rows, first, now);
  }

  /** The row a bound template stands for, if every column has a value of its type. */
  function Decoded(cells: seq<Option<Cell>>): Option<(Id, Entitlement)> {
    if |cells| == 10 && (forall i :: 0 <= i < 10 ==> cells[i].Some?)
       && cells[0].value.IdCell? && cells[1].value.IdCell? && cells[2].value.IdCell? && cells[3].value.TextCell?
       && cells[4].value.ActiveCell? && cells[5].value.TimeCell? && cells[6].value.TimeCell?
    then Some((cells[0].value.id, Entitlement(cells[1].value.id, cells[2].value.id, cells[3].value.text, true,
                                              cells[5].value.time, cells[6].value.time)))
    else None
  }

  function DecodedRows(inserts: seq<seq<Slot>>, values: seq<Cell>): seq<Option<(Id, Entitlement)>> {
    seq(|inserts|, i requires 0 <= i < |inserts| => Decoded(BindRow(inserts[i], values)))
  }

  function InsertAll(ents: map<Id, Entitlement>, rows: seq<Option<(Id, Entitlement)>>): map<Id, Entitlement> {
    if rows == [] then ents else
      var last := rows[|rows| - 1];
      var before := InsertAll(ents, rows[..|rows| - 1]);
      if last.Some? then before[last.value.0 := last.value.1] else before
  }

  /** The table after executing the statement. */
  function Executed(ents: map<Id, Entitlement>, inserts: seq<seq<Slot>>, values: seq<Cell>): map<Id, Entitlement> {
    InsertAll(ents, DecodedRows(inserts, values))
  }

  /** The rows with the identifiers they are inserted under. */
  function Pairs(first: Id, rows: seq<Entitlement>): (r: seq<Option<(Id, Entitlement)>>)
    ensures |r| == |rows|
  {
    if rows == [] then [] else
      var n := |rows| - 1;
      Pairs(first, rows[..n]) + [Some((first + n, rows[n]))]
  }

  lemma {:induction false} PairsAt(first: Id, rows: seq<Entitlement>, i: nat)
    requires i < |rows|
    ensures Pairs(first, rows)[i] == Some((first + i, rows[i]))
  {
    if i < |rows| - 1 {
      PairsAt(first, rows[..|rows| - 1], i);
    }
  }

  lemma {:induction false} InsertsNumbered(ents: map<Id, Entitlement>, first: Id, rows: seq<Entitlement>)
    ensures InsertAll(ents, Pairs(first, rows)) == ents + Numbered(first, rows)
  {
    if rows != [] {
      var n := |rows| - 1;
      InsertsNumbered(ents, first, rows[..n]);
      assert Pairs(first, rows)[..n] == Pairs(first, rows[..n]);
    }
  }

  lemma {:induction false} MissingRowsActive(
    features: seq<Feature>, existing: set<string>, row: Entitlement, rows: seq<Entitlement>)
    requires row.active && rows == MissingRows(features, existing, row)
    ensures forall r :: 0 <= r < |rows| ==> rows[r].active
  {
    if features != [] {
      var front := features[..|features| - 1];
      MissingRowsActive(front, existing, row, MissingRows(front, existing, row));
    }
  }

  /** Executing the built statement inserts exactly the missing rows, under consecutive identifiers. */
  lemma ExecutedInserts(ents: map<Id, Entitlement>, inserts: seq<seq<Slot>>, values: seq<Cell>,
                        rows: seq<Entitlement>, first: Id, now: int)
    requires BindsRows(inserts, values, rows, first, now) && forall r :: 0 <= r < |rows| ==> rows[r].active
    ensures Executed(ents, inserts, values) == ents + Numbered(first, rows)
  {
    forall r | 0 <= r < |rows| ensures Decoded(BindRow(inserts[r], values)) == Some((first + r, rows[r])) {
    }
    forall r | 0 <= r < |rows| ensures Pairs(first, rows)[r] == Some((first + r, rows[r])) {
      PairsAt(first, rows, r);
    }
    assert DecodedRows(inserts, values) == Pairs(first, rows);
    InsertsNumbered(ents, first, rows);
  }
}
