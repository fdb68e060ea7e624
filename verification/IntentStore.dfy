/**
 * The in-memory intent store and the create and command routes over it.
 *
 * The store is a JavaScript `Map`, which iterates in insertion order and keeps a key's position
 * when its value is replaced: a sequence of rows with distinct intent ids.
 */
module IntentStore {
  import opened Prelude
  import opened Sorting
  import opened Intents

  datatype Owner = Owner(principalId: string, organizationId: Option<string>)

  datatype Row = Row(intent: Intent, owner: Owner, key: Option<string>, fingerprint: Option<string>)

  datatype Error = OwnedByOther | VersionConflict | AlreadyExists

  /** An empty organization id counts as absent. */
  function ScopeKey(o: Owner): string {
    if o.organizationId.Some? && o.organizationId.value != ""
    then "org:" + o.organizationId.value
    else "principal:" + o.principalId
  }

  /** The first element satisfying `p`. */
  function First<T(!new)>(xs: seq<T>, p: T -> bool): (r: Option<T>)
    ensures r.Some? ==> r.value in xs && p(r.value)
    ensures r.None? ==> forall x :: x in xs ==> !p(x)
  {
    if xs == [] then None else
      assert xs == xs[..|xs| - 1] + [xs[|xs| - 1]];
      var f := First(xs[..|xs| - 1], p);
      if f.Some? then f else if p(xs[|xs| - 1]) then Some(xs[|xs| - 1]) else None
  }

  function HasId(id: string): Row -> bool { (r: Row) => r.intent.id == id }

  function InScope(k: string): Row -> bool { (r: Row) => ScopeKey(r.owner) == k }

  function HasKey(key: string): Row -> bool { (r: Row) => r.key == Some(key) }

  function Carries(k: string, key: string): Row -> bool {
    (r: Row) => ScopeKey(r.owner) == k && r.key == Some(key)
  }

  predicate LaterFirst(a: Row, b: Row) { a.intent.updatedAt >= b.intent.updatedAt }

  function HasStatus(status: Option<Status>): Row -> bool {
    (r: Row) => status == None || status == Some(r.intent.status)
  }

  // ---------------------------------------------------------------- reading

  function Get(rows: seq<Row>, id: string, o: Owner): Option<Intent> {
    var row := First(rows, HasId(id));
    if row.None? || ScopeKey(row.value.owner) != ScopeKey(o) then None else Some(row.value.intent)
  }

  function Take<T>(xs: seq<T>, n: nat): seq<T> { if |xs| <= n then xs else xs[..n] }

  function Newest(rows: seq<Row>, limit: nat): seq<Row> { Take(Sort(rows, LaterFirst), limit) }

  function Matching(rows: seq<Row>, status: Option<Status>, o: Owner): seq<Row> {
    Filter(Filter(rows, InScope(ScopeKey(o))), HasStatus(status))
  }

  function List(rows: seq<Row>, status: Option<Status>, o: Owner, limit: nat): seq<Intent> {
    var chosen := Newest(Matching(rows, status, o), limit);
    seq(|chosen|, i requires 0 <= i < |chosen| => chosen[i].intent)
  }

  function FindByKey(rows: seq<Row>, o: Owner, key: string): Option<(Intent, string)> {
    var row := First(rows, Carries(ScopeKey(o), key));
    if row.None? || row.value.fingerprint.None? then None
    else Some((row.value.intent, row.value.fingerprint.value))
  }

  /** Newest first, and a row is left out only for rows at least as new. */
  lemma NewestAnswers(rows: seq<Row>, limit: nat)
    ensures var out := Newest(rows, limit);
            && |out| == (if |rows| <= limit then |rows| else limit)
            && Sorted(out, LaterFirst)
            && multiset(out) <= multiset(rows)
            && forall r, x :: r in rows && r !in out && x in out ==> LaterFirst(x, r)
  {
    var sorted, out := Sort(rows, LaterFirst), Newest(rows, limit);
    SortSorted(rows, LaterFirst);
    assert sorted == out + sorted[|out|..];
    forall r, x | r in rows && r !in out && x in out ensures LaterFirst(x, r) {
      assert r in multiset(sorted);
      var n :| 0 <= n < |sorted| && sorted[n] == r;
      var m :| 0 <= m < |out| && out[m] == x;
      assert out == sorted[..|out|];
      assert n >= |out|;
    }
  }

  /** The row is of the scope, and of the status asked for, if any. */
  predicate Wanted(r: Row, status: Option<Status>, o: Owner) {
    ScopeKey(r.owner) == ScopeKey(o) && (status.Some? ==> r.intent.status == status.value)
  }

  lemma {:induction false} FilterIsPart<T(!new)>(xs: seq<T>, p: T -> bool)
    ensures multiset(Filter(xs, p)) <= multiset(xs)
  {
    if xs != [] {
      FilterIsPart(xs[..|xs| - 1], p);
      assert xs == xs[..|xs| - 1] + [xs[|xs| - 1]];
    }
  }

  lemma DistinctPart<T(!new)>(xs: seq<T>, ys: seq<T>)
    requires Distinct(xs) && multiset(ys) <= multiset(xs)
    ensures Distinct(ys)
  {
    DistinctMultiplicity(xs);
    DistinctMultiplicity(ys);
  }

  lemma MatchingExactly(rows: seq<Row>, status: Option<Status>, o: Owner)
    requires UniqueIds(rows)
    ensures Distinct(Matching(rows, status, o))
    ensures forall r :: r in Matching(rows, status, o) <==> r in rows && Wanted(r, status, o)
  {
    var mine := Filter(rows, InScope(ScopeKey(o)));
    FilterIsPart(rows, InScope(ScopeKey(o)));
    FilterIsPart(mine, HasStatus(status));
    assert Distinct(rows);
    DistinctPart(rows, Matching(rows, status, o));
    forall r ensures r in Matching(rows, status, o) <==> r in rows && Wanted(r, status, o) {
      assert InScope(ScopeKey(o))(r) <==> ScopeKey(r.owner) == ScopeKey(o);
      assert r in mine <==> r in rows && ScopeKey(r.owner) == ScopeKey(o);
    }
  }

  lemma NewestExactly(rows: seq<Row>, limit: nat)
    requires Distinct(rows)
    ensures var out := Newest(rows, limit);
            && |out| <= limit && Distinct(out) && Sorted(out, LaterFirst)
            && (forall r :: r in out ==> r in rows)
            && forall r :: r in rows && r !in out ==> |out| == limit && forall x :: x in out ==> LaterFirst(x, r)
  {
    var out := Newest(rows, limit);
    NewestAnswers(rows, limit);
    DistinctPart(rows, out);
    forall r | r in out ensures r in rows {
      assert r in multiset(out) && r in multiset(rows);
    }
    if |out| < limit {
      NothingLeftOut(rows, limit);
    }
  }

  lemma NothingLeftOut(rows: seq<Row>, limit: nat)
    requires |Newest(rows, limit)| < limit
    ensures forall r :: r in rows ==> r in Newest(rows, limit)
  {
    NewestAnswers(rows, limit);
    forall r | r in rows ensures r in Newest(rows, limit) {
      assert r in multiset(rows) && r in multiset(Sort(rows, LaterFirst));
    }
  }

  lemma ListIsChosen(rows: seq<Row>, status: Option<Status>, o: Owner, limit: nat)
    ensures var chosen, out := Newest(Matching(rows, status, o), limit), List(rows, status, o, limit);
            && (forall r :: r in chosen ==> r.intent in out)
            && forall x :: x in out ==> exists r :: r in chosen && r.intent == x
  {
    var chosen, out := Newest(Matching(rows, status, o), limit), List(rows, status, o, limit);
    forall r | r in chosen ensures r.intent in out {
      var i :| 0 <= i < |chosen| && chosen[i] == r;
      assert out[i] == r.intent;
    }
    forall x | x in out ensures exists r :: r in chosen && r.intent == x {
      var i :| 0 <= i < |out| && out[i] == x;
      assert chosen[i] in chosen;
    }
  }

  /**
   * A list holds at most `limit` intents, each once and the last changed first. Each is one of the
   * scope and of the status asked for; one of those is missing only if the list is full and everything
   * listed was changed at least as late.
   */
  lemma ListExactly(rows: seq<Row>, status: Option<Status>, o: Owner, limit: nat)
    requires UniqueIds(rows)
    ensures var out := List(rows, status, o, limit);
            && |out| <= limit
            && (forall i, j :: 0 <= i < j < |out| ==> out[i].updatedAt >= out[j].updatedAt && out[i].id != out[j].id)
            && (forall x :: x in out ==> exists r :: r in rows && Wanted(r, status, o) && r.intent == x)
            && forall r :: r in rows && Wanted(r, status, o) && r.intent !in out ==>
                 |out| == limit && forall x :: x in out ==> x.updatedAt >= r.intent.updatedAt
  {
    var chosen, out := Newest(Matching(rows, status, o), limit), List(rows, status, o, limit);
    MatchingExactly(rows, status, o);
    NewestExactly(Matching(rows, status, o), limit);
    ListIsChosen(rows, status, o, limit);
    forall i, j | 0 <= i < j < |out| ensures out[i].updatedAt >= out[j].updatedAt && out[i].id != out[j].id {
      assert LaterFirst(chosen[i], chosen[j]) && chosen[i] != chosen[j] && chosen[i] in rows && chosen[j] in rows;
    }
    forall r | r in rows && Wanted(r, status, o) && r.intent !in out
      ensures |out| == limit && forall x :: x in out ==> x.updatedAt >= r.intent.updatedAt
    {
      assert r !in chosen;
      forall x | x in out ensures x.updatedAt >= r.intent.updatedAt {
        var y :| y in chosen && y.intent == x;
        assert LaterFirst(y, r);
      }
    }
  }

  // ---------------------------------------------------------------- writing

  function NonEmpty(s: Option<string>): Option<string> { if s == Some("") then None else s }

  /** Overwrites the row with this id, or appends one. */
  function Set(rows: seq<Row>, row: Row): seq<Row> {
    if rows == [] then [row]
    else if rows[0].intent.id == row.intent.id then [row] + rows[1..]
    else [rows[0]] + Set(rows[1..], row)
  }

  function Put(rows: seq<Row>, i: Intent, o: Owner, key: Option<string>, fp: Option<string>,
               expected: Option<nat>): Result<seq<Row>, Error>
  {
    var existing := First(rows, HasId(i.id));
    if existing.Some? && ScopeKey(existing.value.owner) != ScopeKey(o) then Err(OwnedByOther)
    else if expected.Some? && (existing.None? || existing.value.intent.version != expected.value) then
      Err(VersionConflict)
    else if expected.None? && existing.Some? then Err(AlreadyExists)
    else Ok(Set(rows, Row(i, o, NonEmpty(key), NonEmpty(fp))))
  }

  ghost predicate UniqueIds(rows: seq<Row>) {
    forall i, j :: 0 <= i < j < |rows| ==> rows[i].intent.id != rows[j].intent.id
  }

  lemma {:induction false} SetAppends(rows: seq<Row>, row: Row)
    requires forall r :: r in rows ==> r.intent.id != row.intent.id
    ensures Set(rows, row) == rows + [row]
  {
    if rows != [] {
      assert rows[0] in rows;
      SetAppends(rows[1..], row);
      assert rows == [rows[0]] + rows[1..];
    }
  }

  lemma {:induction false} SetReplaces(rows: seq<Row>, n: nat, row: Row)
    requires UniqueIds(rows) && n < |rows| && rows[n].intent.id == row.intent.id
    ensures Set(rows, row) == rows[n := row]
  {
    if n > 0 {
      SetReplaces(rows[1..], n - 1, row);
      assert rows[n := row] == [rows[0]] + rows[1..][n - 1 := row];
    }
  }

  lemma OnlyHolder(rows: seq<Row>, n: nat)
    requires UniqueIds(rows) && n < |rows|
    ensures First(rows, HasId(rows[n].intent.id)) == Some(rows[n])
  {
    assert HasId(rows[n].intent.id)(rows[n]) && rows[n] in rows;
    var r := First(rows, HasId(rows[n].intent.id)).value;
    var m :| 0 <= m < |rows| && rows[m] == r;
    assert m == n;
  }

  lemma OnlyRow(rows: seq<Row>, r: Row)
    requires UniqueIds(rows) && r in rows
    ensures First(rows, HasId(r.intent.id)) == Some(r)
    ensures forall x :: x in rows && x.intent.id == r.intent.id ==> x == r
  {
    var n :| 0 <= n < |rows| && rows[n] == r;
    OnlyHolder(rows, n);
  }

  lemma Absent(rows: seq<Row>, id: string)
    requires First(rows, HasId(id)).None?
    ensures forall x :: x in rows ==> x.intent.id != id
  {
    forall x | x in rows ensures x.intent.id != id {
      assert !HasId(id)(x);
    }
  }

  /**
   * A put is refused exactly in these cases: another scope holds the id; the version expected is not
   * that of the row of the scope, or there is none; or a new intent is put under an id of the scope.
   */
  lemma PutExactly(rows: seq<Row>, i: Intent, o: Owner, key: Option<string>, fp: Option<string>, expected: Option<nat>)
    requires UniqueIds(rows)
    ensures var put := Put(rows, i, o, key, fp, expected);
            && (put == Err(OwnedByOther) <==>
                 exists r :: r in rows && r.intent.id == i.id && ScopeKey(r.owner) != ScopeKey(o))
            && (put == Err(VersionConflict) <==>
                 && (forall r :: r in rows && r.intent.id == i.id ==> ScopeKey(r.owner) == ScopeKey(o))
                 && expected.Some?
                 && forall r :: r in rows && r.intent.id == i.id ==> r.intent.version != expected.value)
            && (put == Err(AlreadyExists) <==>
                 && expected.None?
                 && exists r :: r in rows && r.intent.id == i.id && ScopeKey(r.owner) == ScopeKey(o))
  {
    var existing := First(rows, HasId(i.id));
    if existing.Some? {
      assert existing.value in rows && HasId(i.id)(existing.value);
      OnlyRow(rows, existing.value);
    } else {
      Absent(rows, i.id);
    }
  }

  /** With distinct ids a successful `Put` appends a row or replaces the row of the same id and scope. */
  lemma PutShape(rows: seq<Row>, i: Intent, o: Owner, key: Option<string>, fp: Option<string>, expected: Option<nat>)
    returns (n: nat)
    requires UniqueIds(rows) && Put(rows, i, o, key, fp, expected).Ok?
    ensures var row := Row(i, o, NonEmpty(key), NonEmpty(fp));
            var rows' := Put(rows, i, o, key, fp, expected).value;
            && n <= |rows|
            && UniqueIds(rows')
            && (expected.None? ==> n == |rows| && rows' == rows + [row])
            && (expected.None? ==> forall r :: r in rows ==> r.intent.id != i.id)
            && (expected.Some? ==> n < |rows| && rows' == rows[n := row])
            && (n < |rows| ==> rows[n].intent.id == i.id && ScopeKey(rows[n].owner) == ScopeKey(o))
            && (n < |rows| ==> expected == Some(rows[n].intent.version))
  {
    var row := Row(i, o, NonEmpty(key), NonEmpty(fp));
    var existing := First(rows, HasId(i.id));
    if expected.None? {
      SetAppends(rows, row);
      n := |rows|;
    } else {
      n :| n < |rows| && rows[n] == existing.value;
      SetReplaces(rows, n, row);
    }
  }

  /** The store object: methods change `rows` in place. */
  class InMemoryIntentStore {
    var rows: seq<Row>

    constructor ()
      ensures rows == []
    {
      rows := [];
    }

    method PutIntent(i: Intent, o: Owner, key: Option<string>, fp: Option<string>, expected: Option<nat>)
      returns (r: Result<(), Error>)
      modifies this
      ensures var p := Put(old(rows), i, o, key, fp, expected);
              if p.Ok? then r == Ok(()) && rows == p.value else r == Err(p.error) && rows == old(rows)
    {
      var existing := First(rows, HasId(i.id));
      if existing.Some? && ScopeKey(existing.value.owner) != ScopeKey(o) {
        return Err(OwnedByOther);
      }
      if expected.Some? {
        if existing.None? || existing.value.intent.version != expected.value {
          return Err(VersionConflict);
        }
      } else if existing.Some? {
        return Err(AlreadyExists);
      }
      rows := Set(rows, Row(i, o, NonEmpty(key), NonEmpty(fp)));
      r := Ok(());
    }

    method FindByIdempotency(o: Owner, key: string) returns (r: Option<(Intent, string)>)
      ensures r == FindByKey(rows, o, key)
    {
      var n := 0;
      while n < |rows|
        invariant n <= |rows|
        invariant First(rows[..n], Carries(ScopeKey(o), key)) == None
      {
        assert rows[..n + 1][..n] == rows[..n];
        var row := rows[n];
        if ScopeKey(row.owner) == ScopeKey(o) && row.key == Some(key) {
          FirstExtends(rows, n + 1, Carries(ScopeKey(o), key));
          return if row.fingerprint.Some? then Some((row.intent, row.fingerprint.value)) else None;
        }
        n := n + 1;
      }
      assert rows[..n] == rows;
      r := None;
    }
  }

  lemma {:induction false} FirstExtends<T(!new)>(xs: seq<T>, n: nat, p: T -> bool)
    requires n <= |xs| && First(xs[..n], p).Some?
    ensures First(xs, p) == First(xs[..n], p)
  {
    if n < |xs| {
      assert xs[..|xs| - 1][..n] == xs[..n];
      FirstExtends(xs[..|xs| - 1], n, p);
    } else {
      assert xs[..n] == xs;
    }
  }
}
