/**
 * The incident centre in memory mode: repeated reports of one failure are folded into one
 * incident, which can be acknowledged, resolved and reopened, with a notification for each change.
 */
module Incidents {
  import opened Prelude
  import opened Sorting
  import opened Characters

  datatype Severity = Info | Warning | Critical
  datatype Status = Open | Acknowledged | Resolved
  datatype Kind = IncidentOpened | IncidentUpdated | IncidentResolved

  /** A validated report: `confidence` lies between 0 and 1. */
  datatype Report = Report(
    source: Option<string>, classification: string, rootCause: string, components: seq<string>,
    evidence: seq<string>, reason: string, confidence: real)

  /** The hashed text, taken as its own (injective) hash. */
  datatype Fingerprint = Fingerprint(classification: string, rootCause: string, components: seq<string>)

  datatype Incident = Incident(
    id: nat, fingerprint: Fingerprint, title: string, severity: Severity, status: Status, source: string,
    classification: string, rootCause: string, components: seq<string>, evidence: seq<string>,
    reason: string, confidence: real, occurrences: nat, firstSeenAt: int, lastSeenAt: int,
    acknowledgedAt: Option<int>, resolvedAt: Option<int>, updatedAt: int)

  datatype Notification = Notification(
    id: nat, incidentId: nat, kind: Kind, severity: Severity, title: string, actionable: bool,
    readAt: Option<int>, createdAt: int)

  function SeverityFor(classification: string, confidence: real): Severity {
    if classification == "security_failure" || classification == "policy_violation" then Critical
    else if classification == "primary_failure" || classification == "persistent_degradation" then Warning
    else if confidence >= 0.9 then Warning else Info
  }

  predicate StringLe(a: string, b: string) { LexLe(Codes(a), Codes(b)) }

  function FingerprintOf(r: Report): Fingerprint {
    Fingerprint(r.classification, r.rootCause, Sort(r.components, StringLe))
  }

  lemma StringOrder()
    ensures TotalPreorder(StringLe) && Antisymmetric(StringLe)
  {
    forall x, y ensures StringLe(x, y) || StringLe(y, x) { LexTotal(Codes(x), Codes(y)); }
    forall x, y, z | StringLe(x, y) && StringLe(y, z) ensures StringLe(x, z) {
      LexTransitive(Codes(x), Codes(y), Codes(z));
    }
    forall x, y | StringLe(x, y) && StringLe(y, x) ensures x == y {
      LexAntisymmetric(Codes(x), Codes(y));
      assert |x| == |Codes(x)| == |y|;
      forall i | 0 <= i < |x| ensures x[i] == y[i] {
        assert Codes(x)[i] == Codes(y)[i];
      }
    }
  }

  /** Reports are folded together exactly when they agree on cause, classification and the bag of components. */
  lemma FingerprintCharacterization(a: Report, b: Report)
    ensures FingerprintOf(a) == FingerprintOf(b) <==>
      a.classification == b.classification && a.rootCause == b.rootCause &&
      multiset(a.components) == multiset(b.components)
  {
    StringOrder();
    SortCanonical(a.components, b.components, StringLe);
  }

  // ---------------------------------------------------------------- operations

  /** Both tables keep insertion order; `nextId` stands for the supply of fresh identifiers. */
  datatype Centre = Centre(incidents: seq<Incident>, notifications: seq<Notification>, nextId: nat)

  function Join(a: Severity, b: Severity): Severity {
    if a == Critical || b == Critical then Critical
    else if a == Warning || b == Warning then Warning else Info
  }

  function Greater(a: real, b: real): real { if a >= b then a else b }

  function WithFingerprint(fp: Fingerprint): Incident -> bool { (i: Incident) => i.fingerprint == fp }

  function WithId(id: nat): Incident -> bool { (i: Incident) => i.id == id }

  function NoticeWithId(id: nat): Notification -> bool { (x: Notification) => x.id == id }

  function Fresh(id: nat, r: Report, now: int): Incident {
    Incident(id, FingerprintOf(r), r.rootCause, SeverityFor(r.classification, r.confidence), Open,
             if r.source.Some? then r.source.value else "resilience-runtime",
             r.classification, r.rootCause, r.components, r.evidence, r.reason, r.confidence, 1,
             now, now, None, None, now)
  }

  function Merged(i: Incident, r: Report, now: int): Incident {
    i.(title := r.rootCause,
       severity := Join(i.severity, SeverityFor(r.classification, r.confidence)),
       status := if i.status == Resolved then Open else i.status,
       rootCause := r.rootCause, components := r.components, evidence := r.evidence, reason := r.reason,
       confidence := Greater(i.confidence, r.confidence),
       source := if r.source.Some? then r.source.value else i.source,
       occurrences := i.occurrences + 1, lastSeenAt := now,
       acknowledgedAt := if i.status == Resolved then None else i.acknowledgedAt,
       resolvedAt := if i.status == Resolved then None else i.resolvedAt,
       updatedAt := now)
  }

  function Notice(id: nat, i: Incident, kind: Kind, now: int): Notification {
    Notification(id, i.id, kind, i.severity,
                 if kind == IncidentResolved then "Recovered: " + i.title else i.title,
                 i.severity != Info && i.status != Resolved, None, now)
  }

  function OpenAt(c: Centre, r: Report, now: int): Centre {
    var n := FirstIndex(c.incidents, WithFingerprint(FingerprintOf(r)));
    if n == |c.incidents| then
      var i := Fresh(c.nextId, r, now);
      Centre(c.incidents + [i], c.notifications + [Notice(c.nextId + 1, i, IncidentOpened, now)], c.nextId + 2)
    else
      var current := c.incidents[n];
      var i := Merged(current, r, now);
      var kind := if current.status == Resolved then IncidentOpened else IncidentUpdated;
      Centre(c.incidents[n := i], c.notifications + [Notice(c.nextId, i, kind, now)], c.nextId + 1)
  }

  function AcknowledgeAt(c: Centre, id: nat, now: int): Centre {
    var n := FirstIndex(c.incidents, WithId(id));
    if n == |c.incidents| || c.incidents[n].status == Resolved then c else
      var i := c.incidents[n].(status := Acknowledged, acknowledgedAt := Some(now), updatedAt := now);
      Centre(c.incidents[n := i], c.notifications + [Notice(c.nextId, i, IncidentUpdated, now)], c.nextId + 1)
  }

  function ResolveAt(c: Centre, id: nat, now: int): Centre {
    var n := FirstIndex(c.incidents, WithId(id));
    if n == |c.incidents| || c.incidents[n].status == Resolved then c else
      var i := c.incidents[n].(status := Resolved, resolvedAt := Some(now), updatedAt := now);
      Centre(c.incidents[n := i], c.notifications + [Notice(c.nextId, i, IncidentResolved, now)], c.nextId + 1)
  }

  function Mark(xs: seq<Notification>, id: nat, now: int): seq<Notification> {
    if xs == [] then []
    else if xs[0].id == id then
      [if xs[0].readAt.Some? then xs[0] else xs[0].(readAt := Some(now))] + xs[1..]
    else [xs[0]] + Mark(xs[1..], id, now)
  }

  /** At most the notification with this id changes, and only from unread to read. */
  ghost predicate MarkedFrom(xs: seq<Notification>, ys: seq<Notification>, id: nat, now: int) {
    && |ys| == |xs|
    && forall n :: 0 <= n < |xs| ==>
         ys[n] == xs[n] || (xs[n].id == id && xs[n].readAt.None? && ys[n] == xs[n].(readAt := Some(now)))
  }

  lemma {:induction false} MarkAtPosition(xs: seq<Notification>, id: nat, now: int)
    ensures var n := FirstIndex(xs, NoticeWithId(id));
            && (n < |xs| ==> xs[n].id == id)
            && (n == |xs| ==> forall m :: 0 <= m < |xs| ==> xs[m].id != id)
            && Mark(xs, id, now) ==
                 (if n < |xs| && xs[n].readAt.None? then xs[n := xs[n].(readAt := Some(now))] else xs)
  {
    if xs != [] && xs[0].id != id {
      MarkAtPosition(xs[1..], id, now);
      var n := FirstIndex(xs[1..], NoticeWithId(id));
      assert xs == [xs[0]] + xs[1..];
      if n < |xs| - 1 && xs[1..][n].readAt.None? {
        assert xs[n + 1 := xs[n + 1].(readAt := Some(now))] == [xs[0]] + xs[1..][n := xs[1..][n].(readAt := Some(now))];
      }
    }
  }

  /** Marking keeps order and contents, changes at most that one read time, and never an earlier one. */
  lemma MarkChangesReadAt(xs: seq<Notification>, id: nat, now: int)
    ensures MarkedFrom(xs, Mark(xs, id, now), id, now)
    ensures forall x :: x in xs && x.id == id ==> exists y :: y in Mark(xs, id, now) && y.id == id && y.readAt.Some?
  {
    MarkAtPosition(xs, id, now);
    var n := FirstIndex(xs, NoticeWithId(id));
    if n < |xs| {
      var y := Mark(xs, id, now)[n];
      assert y in Mark(xs, id, now) && y.id == id && y.readAt.Some?;
    }
  }

  datatype Operation = DoOpen(report: Report) | DoAcknowledge(id: nat) | DoResolve(id: nat) | DoMarkRead(id: nat)

  datatype Call = Call(op: Operation, now: int)

  function Step(c: Centre, call: Call): Centre {
    match call.op
    case DoOpen(r) => OpenAt(c, r, call.now)
    case DoAcknowledge(id) => AcknowledgeAt(c, id, call.now)
    case DoResolve(id) => ResolveAt(c, id, call.now)
    case DoMarkRead(id) => c.(notifications := Mark(c.notifications, id, call.now))
  }

  const Empty := Centre([], [], 0)

  function Run(c: Centre, calls: seq<Call>): Centre
    decreases calls
  {
    if calls == [] then c else Run(Step(c, calls[0]), calls[1..])
  }

  // ---------------------------------------------------------------- history of a run

  predicate Opens(call: Call, fp: Fingerprint) { call.op.DoOpen? && FingerprintOf(call.op.report) == fp }

  function Reports(calls: seq<Call>, fp: Fingerprint): (n: nat) {
    if calls == [] then 0 else
      Reports(calls[..|calls| - 1], fp) + if Opens(calls[|calls| - 1], fp) then 1 else 0
  }

  /** The greatest confidence reported for `fp`, once anything was reported. */
  function Peak(calls: seq<Call>, fp: Fingerprint): Option<real> {
    if calls == [] then None else
      var rest := Peak(calls[..|calls| - 1], fp);
      var call := calls[|calls| - 1];
      if !Opens(call, fp) then rest
      else if rest.None? then Some(call.op.report.confidence)
      else Some(Greater(rest.value, call.op.report.confidence))
  }

  lemma {:induction false} PeakIsGreatest(calls: seq<Call>, fp: Fingerprint)
    ensures Peak(calls, fp).Some? ==>
      exists call :: call in calls && Opens(call, fp) && call.op.report.confidence == Peak(calls, fp).value
    ensures forall call :: call in calls && Opens(call, fp) ==>
      Peak(calls, fp).Some? && call.op.report.confidence <= Peak(calls, fp).value
  {
    if calls != [] {
      var front, last := calls[..|calls| - 1], calls[|calls| - 1];
      PeakIsGreatest(front, fp);
      assert calls == front + [last];
    }
  }

  /** The latest report of `fp`, with its time. */
  function Latest(calls: seq<Call>, fp: Fingerprint): Option<Call> {
    if calls == [] then None
    else if Opens(calls[|calls| - 1], fp) then Some(calls[|calls| - 1])
    else Latest(calls[..|calls| - 1], fp)
  }

  /** When `fp` was first reported. */
  function Earliest(calls: seq<Call>, fp: Fingerprint): Option<int> {
    if calls == [] then None else
      var rest := Earliest(calls[..|calls| - 1], fp);
      if rest.None? && Opens(calls[|calls| - 1], fp) then Some(calls[|calls| - 1].now) else rest
  }

  /** The source named by the latest report that names one. */
  function Named(calls: seq<Call>, fp: Fingerprint): Option<string> {
    if calls == [] then None else
      var call := calls[|calls| - 1];
      if Opens(call, fp) && call.op.report.source.Some? then call.op.report.source
      else Named(calls[..|calls| - 1], fp)
  }

  /** The incident shows what the latest report says. */
  ghost predicate Shows(i: Incident, call: Call) {
    && call.op.DoOpen?
    && var r := call.op.report;
       && i.title == i.rootCause == r.rootCause && i.components == r.components && i.evidence == r.evidence
       && i.reason == r.reason && i.lastSeenAt == call.now
  }

  /** The kinds of the opened and resolved notifications of one incident, oldest first. */
  function Lifecycle(xs: seq<Notification>, id: nat): seq<Kind> {
    if xs == [] then [] else
      var rest := Lifecycle(xs[..|xs| - 1], id);
      var x := xs[|xs| - 1];
      if x.incidentId == id && x.kind != IncidentUpdated then rest + [x.kind] else rest
  }

  ghost predicate Alternates(ks: seq<Kind>) {
    forall n :: 0 <= n < |ks| ==> ks[n] == if n % 2 == 0 then IncidentOpened else IncidentResolved
  }

  /** The record agrees with everything reported for its fingerprint. */
  ghost predicate Faithful(i: Incident, calls: seq<Call>) {
    && i.classification == i.fingerprint.classification
    && i.rootCause == i.fingerprint.rootCause
    && multiset(i.components) == multiset(i.fingerprint.components)
    && i.severity == SeverityFor(i.classification, i.confidence)
    && Peak(calls, i.fingerprint) == Some(i.confidence)
    && i.occurrences == Reports(calls, i.fingerprint)
    && Recounts(i, calls)
  }

  /** The rest of the record: the latest report, the first time, and the source last named. */
  ghost predicate Recounts(i: Incident, calls: seq<Call>) {
    && Latest(calls, i.fingerprint).Some? && Shows(i, Latest(calls, i.fingerprint).value)
    && Earliest(calls, i.fingerprint) == Some(i.firstSeenAt)
    && i.source == match Named(calls, i.fingerprint) case None => "resilience-runtime" case Some(name) => name
  }

  ghost predicate TimesMatchStatus(i: Incident) {
    && (i.resolvedAt.Some? <==> i.status == Resolved)
    && (i.status == Open ==> i.acknowledgedAt.None?)
    && (i.status == Acknowledged ==> i.acknowledgedAt.Some?)
  }

  ghost predicate Notified(i: Incident, notifications: seq<Notification>) {
    var ks := Lifecycle(notifications, i.id);
    Alternates(ks) && (|ks| % 2 == 0 <==> i.status == Resolved)
  }

  ghost predicate UniqueIncidents(xs: seq<Incident>) {
    forall m, n :: 0 <= m < n < |xs| ==> xs[m].id != xs[n].id && xs[m].fingerprint != xs[n].fingerprint
  }

  ghost predicate FreshIds(c: Centre) {
    && (forall i :: i in c.incidents ==> i.id < c.nextId)
    && (forall x :: x in c.notifications ==> x.incidentId < c.nextId && x.id < c.nextId)
  }

  function Fingerprints(xs: seq<Incident>): set<Fingerprint> { set i | i in xs :: i.fingerprint }

  ghost predicate AllRecorded(c: Centre, calls: seq<Call>) {
    forall call :: call in calls && call.op.DoOpen? ==> FingerprintOf(call.op.report) in Fingerprints(c.incidents)
  }

  ghost predicate Good(i: Incident, calls: seq<Call>, notifications: seq<Notification>) {
    Faithful(i, calls) && TimesMatchStatus(i) && Notified(i, notifications)
  }

  ghost predicate RecordsGood(c: Centre, calls: seq<Call>) {
    forall i :: i in c.incidents ==> Good(i, calls, c.notifications)
  }

  ghost predicate Invariant(c: Centre, calls: seq<Call>) {
    && UniqueIncidents(c.incidents)
    && FreshIds(c)
    && RecordsGood(c, calls)
    && AllRecorded(c, calls)
  }

  // ---------------------------------------------------------------- preservation

  lemma PeakAppend(calls: seq<Call>, call: Call, fp: Fingerprint)
    requires call.op.DoOpen?
    ensures Peak(calls + [call], fp) ==
      if !Opens(call, fp) then Peak(calls, fp)
      else if Peak(calls, fp).None? then Some(call.op.report.confidence)
      else Some(Greater(Peak(calls, fp).value, call.op.report.confidence))
  {
    assert (calls + [call])[..|calls|] == calls;
  }

  lemma {:induction false} NothingReported(calls: seq<Call>, fp: Fingerprint)
    requires forall call :: call in calls ==> !Opens(call, fp)
    ensures Reports(calls, fp) == 0 && Peak(calls, fp) == None
    ensures Earliest(calls, fp) == None && Named(calls, fp) == None
  {
    if calls != [] {
      assert calls[|calls| - 1] in calls;
      NothingReported(calls[..|calls| - 1], fp);
    }
  }

  lemma {:induction false} NothingNotified(xs: seq<Notification>, id: nat)
    requires forall x :: x in xs ==> x.incidentId != id
    ensures Lifecycle(xs, id) == []
  {
    if xs != [] {
      assert xs[|xs| - 1] in xs;
      NothingNotified(xs[..|xs| - 1], id);
    }
  }

  /** Pairwise joins of severities are the severity of the greatest confidence. */
  lemma JoinIsMonotone(classification: string, a: real, b: real)
    ensures Join(SeverityFor(classification, a), SeverityFor(classification, b))
      == SeverityFor(classification, Greater(a, b))
  {
  }

  lemma FaithfulFresh(id: nat, r: Report, calls: seq<Call>, now: int)
    requires forall call :: call in calls ==> !Opens(call, FingerprintOf(r))
    ensures Faithful(Fresh(id, r, now), calls + [Call(DoOpen(r), now)])
  {
    var call, fp := Call(DoOpen(r), now), FingerprintOf(r);
    PeakAppend(calls, call, fp);
    NothingReported(calls, fp);
  }

  /** An opened notice follows an even lifecycle, a resolved one an odd lifecycle. */
  lemma NotifiedTurn(i: Incident, j: Incident, xs: seq<Notification>, x: Notification)
    requires Notified(i, xs) && i.id == j.id == x.incidentId
    requires (x.kind == IncidentOpened && i.status == Resolved && j.status != Resolved)
      || (x.kind == IncidentResolved && i.status != Resolved && j.status == Resolved)
    ensures Notified(j, xs + [x])
  {
  }

  lemma GoodElsewhere(i: Incident, calls: seq<Call>, call: Call, xs: seq<Notification>, x: Notification)
    requires Good(i, calls, xs) && !Opens(call, i.fingerprint) && x.incidentId != i.id
    ensures Good(i, calls + [call], xs + [x])
  {
  }

  lemma ReplaceKeepsRecords(c: Centre, calls: seq<Call>, call: Call, n: nat, j: Incident, x: Notification)
    requires UniqueIncidents(c.incidents) && RecordsGood(c, calls) && n < |c.incidents|
    requires j.id == c.incidents[n].id == x.incidentId && j.fingerprint == c.incidents[n].fingerprint
    requires Good(j, calls + [call], c.notifications + [x])
    requires call.op.DoOpen? ==> FingerprintOf(call.op.report) == j.fingerprint
    ensures forall i :: i in c.incidents[n := j] ==> Good(i, calls + [call], c.notifications + [x])
  {
    forall i | i in c.incidents[n := j] ensures Good(i, calls + [call], c.notifications + [x]) {
      var m :| 0 <= m < |c.incidents| && c.incidents[n := j][m] == i;
      if m != n {
        assert c.incidents[m] == i;
        GoodElsewhere(i, calls, call, c.notifications, x);
      }
    }
  }

  /** Replacing incident `n` by its next version `j` and emitting `x`. */
  lemma ReplaceKeepsInvariant(c: Centre, calls: seq<Call>, call: Call, n: nat, j: Incident, x: Notification)
    requires Invariant(c, calls) && n < |c.incidents|
    requires j.id == c.incidents[n].id == x.incidentId && j.fingerprint == c.incidents[n].fingerprint
    requires x.id == c.nextId && Good(j, calls + [call], c.notifications + [x])
    requires call.op.DoOpen? ==> FingerprintOf(call.op.report) == j.fingerprint
    ensures Invariant(Centre(c.incidents[n := j], c.notifications + [x], c.nextId + 1), calls + [call])
  {
    ReplaceKeepsRecords(c, calls, call, n, j, x);
    SameFingerprints(c.incidents, n, j);
    assert j.fingerprint in Fingerprints(c.incidents) by { assert c.incidents[n] in c.incidents; }
  }

  lemma SameFingerprints(xs: seq<Incident>, n: nat, j: Incident)
    requires n < |xs| && j.fingerprint == xs[n].fingerprint
    ensures Fingerprints(xs[n := j]) == Fingerprints(xs)
  {
    forall i | i in xs ensures i.fingerprint in Fingerprints(xs[n := j]) {
      var m :| 0 <= m < |xs| && xs[m] == i;
      assert xs[n := j][m] in xs[n := j];
    }
  }

  lemma OpenKeepsInvariant(c: Centre, calls: seq<Call>, r: Report, now: int)
    requires Invariant(c, calls)
    ensures Invariant(OpenAt(c, r, now), calls + [Call(DoOpen(r), now)])
  {
    var fp := FingerprintOf(r);
    var n := FirstIndex(c.incidents, WithFingerprint(fp));
    FirstIndexFinds(c.incidents, WithFingerprint(fp));
    if n == |c.incidents| {
      AddKeepsInvariant(c, calls, r, now);
    } else {
      var current := c.incidents[n];
      var i := Merged(current, r, now);
      assert current in c.incidents;
      if current.status == Resolved {
        NotifiedTurn(current, i, c.notifications, Notice(c.nextId, i, IncidentOpened, now));
        ReplaceKeepsInvariant(c, calls, Call(DoOpen(r), now), n, i, Notice(c.nextId, i, IncidentOpened, now));
      } else {
        ReplaceKeepsInvariant(c, calls, Call(DoOpen(r), now), n, i, Notice(c.nextId, i, IncidentUpdated, now));
      }
    }
  }

  lemma FirstNotice(i: Incident, xs: seq<Notification>, x: Notification)
    requires (forall y :: y in xs ==> y.incidentId != i.id) && i.status != Resolved
    requires x.incidentId == i.id && x.kind == IncidentOpened
    ensures Notified(i, xs + [x])
  {
    NothingNotified(xs, i.id);
    assert (xs + [x])[..|xs|] == xs;
    assert Lifecycle(xs + [x], i.id) == [IncidentOpened];
  }

  lemma AddKeepsInvariant(c: Centre, calls: seq<Call>, r: Report, now: int)
    requires Invariant(c, calls) && FirstIndex(c.incidents, WithFingerprint(FingerprintOf(r))) == |c.incidents|
    ensures Invariant(OpenAt(c, r, now), calls + [Call(DoOpen(r), now)])
  {
    var i := Fresh(c.nextId, r, now);
    var x := Notice(c.nextId + 1, i, IncidentOpened, now);
    FirstIndexFinds(c.incidents, WithFingerprint(FingerprintOf(r)));
    assert FingerprintOf(r) !in Fingerprints(c.incidents);
    FaithfulFresh(c.nextId, r, calls, now);
    FirstNotice(i, c.notifications, x);
    AppendKeepsInvariant(c, calls, Call(DoOpen(r), now), i, x);
  }

  lemma AppendKeepsInvariant(c: Centre, calls: seq<Call>, call: Call, i: Incident, x: Notification)
    requires Invariant(c, calls) && call.op.DoOpen? && FingerprintOf(call.op.report) == i.fingerprint
    requires i.id == c.nextId == x.incidentId && x.id == c.nextId + 1
    requires i.fingerprint !in Fingerprints(c.incidents) && Good(i, calls + [call], c.notifications + [x])
    ensures Invariant(Centre(c.incidents + [i], c.notifications + [x], c.nextId + 2), calls + [call])
  {
    forall k | k in c.incidents ensures Good(k, calls + [call], c.notifications + [x]) {
      assert k.fingerprint in Fingerprints(c.incidents);
      GoodElsewhere(k, calls, call, c.notifications, x);
    }
    assert Fingerprints(c.incidents + [i]) == Fingerprints(c.incidents) + {i.fingerprint};
  }

  lemma StatusChangeKeepsInvariant(c: Centre, calls: seq<Call>, call: Call)
    requires Invariant(c, calls) && (call.op.DoAcknowledge? || call.op.DoResolve?)
    ensures Invariant(Step(c, call), calls + [call])
  {
    var n := FirstIndex(c.incidents, WithId(call.op.id));
    FirstIndexFinds(c.incidents, WithId(call.op.id));
    if n == |c.incidents| || c.incidents[n].status == Resolved {
    } else {
      var current := c.incidents[n];
      assert current in c.incidents;
      if call.op.DoAcknowledge? {
        var i := current.(status := Acknowledged, acknowledgedAt := Some(call.now), updatedAt := call.now);
        ReplaceKeepsInvariant(c, calls, call, n, i, Notice(c.nextId, i, IncidentUpdated, call.now));
      } else {
        var i := current.(status := Resolved, resolvedAt := Some(call.now), updatedAt := call.now);
        NotifiedTurn(current, i, c.notifications, Notice(c.nextId, i, IncidentResolved, call.now));
        ReplaceKeepsInvariant(c, calls, call, n, i, Notice(c.nextId, i, IncidentResolved, call.now));
      }
    }
  }

  lemma {:induction false} MarkKeepsLifecycle(xs: seq<Notification>, ys: seq<Notification>, id: nat)
    requires |xs| == |ys| && forall n :: 0 <= n < |xs| ==> ys[n] == xs[n].(readAt := ys[n].readAt)
    ensures Lifecycle(ys, id) == Lifecycle(xs, id)
  {
    if xs != [] {
      MarkKeepsLifecycle(xs[..|xs| - 1], ys[..|xs| - 1], id);
    }
  }

  lemma MarkKeepsInvariant(c: Centre, calls: seq<Call>, call: Call)
    requires Invariant(c, calls) && call.op.DoMarkRead?
    ensures Invariant(Step(c, call), calls + [call])
  {
    var ys := Mark(c.notifications, call.op.id, call.now);
    MarkChangesReadAt(c.notifications, call.op.id, call.now);
    forall i | i in c.incidents ensures Notified(i, ys) {
      MarkKeepsLifecycle(c.notifications, ys, i.id);
    }
    forall y | y in ys ensures y.incidentId < c.nextId && y.id < c.nextId {
      var n :| 0 <= n < |ys| && ys[n] == y;
      assert c.notifications[n] in c.notifications;
    }
  }

  lemma StepKeepsInvariant(c: Centre, calls: seq<Call>, call: Call)
    requires Invariant(c, calls)
    ensures Invariant(Step(c, call), calls + [call])
  {
    match call.op
    case DoOpen(r) => OpenKeepsInvariant(c, calls, r, call.now);
    case DoAcknowledge(_) => StatusChangeKeepsInvariant(c, calls, call);
    case DoResolve(_) => StatusChangeKeepsInvariant(c, calls, call);
    case DoMarkRead(_) => MarkKeepsInvariant(c, calls, call);
  }

  /** Every state the centre can reach, by any sequence of calls, satisfies the invariant. */
  lemma {:induction false} RunKeepsInvariant(c: Centre, past: seq<Call>, calls: seq<Call>)
    requires Invariant(c, past)
    ensures Invariant(Run(c, calls), past + calls)
    decreases calls
  {
    if calls == [] {
      assert past + calls == past;
    } else {
      assert past + [calls[0]] + calls[1..] == past + calls;
      StepKeepsInvariant(c, past, calls[0]);
      RunKeepsInvariant(Step(c, calls[0]), past + [calls[0]], calls[1..]);
    }
  }

  /** What a reader of the incident list can rely on in every reachable state. */
  lemma ReachableIncidents(calls: seq<Call>, i: Incident)
    requires i in Run(Empty, calls).incidents
    ensures SeverityMatches(i, calls)
    ensures exists call :: call in calls && Opens(call, i.fingerprint) && call.op.report.confidence == i.confidence
    ensures forall call :: call in calls && Opens(call, i.fingerprint) ==> call.op.report.confidence <= i.confidence
    ensures i.occurrences == Reports(calls, i.fingerprint)
    ensures Recounts(i, calls) && TimesMatchStatus(i)
    ensures forall k :: k in Run(Empty, calls).incidents && k.fingerprint == i.fingerprint ==> k == i
    ensures var ks := Lifecycle(Run(Empty, calls).notifications, i.id);
            Alternates(ks) && Opened(ks) - ResolvedCount(ks) == if i.status == Resolved then 0 else 1
  {
    RunKeepsInvariant(Empty, [], calls);
    assert [] + calls == calls;
    PeakIsGreatest(calls, i.fingerprint);
    SeverityFromReports(i, calls);
    AlternationCounts(Lifecycle(Run(Empty, calls).notifications, i.id));
  }

  /**
   * Security failures and policy violations are critical. Anything else is a warning, except that a
   * failure of another kind is for information while every report of it had confidence below 0.9.
   */
  ghost predicate SeverityMatches(i: Incident, calls: seq<Call>) {
    && (i.severity == Critical <==> i.classification in {"security_failure", "policy_violation"})
    && (i.severity == Info <==>
         && i.classification !in {"security_failure", "policy_violation", "primary_failure", "persistent_degradation"}
         && forall call :: call in calls && Opens(call, i.fingerprint) ==> call.op.report.confidence < 0.9)
  }

  lemma SeverityFromReports(i: Incident, calls: seq<Call>)
    requires Faithful(i, calls)
    ensures SeverityMatches(i, calls)
  {
    PeakIsGreatest(calls, i.fingerprint);
  }

  /** The reports of `fp` in a run, and what a reader takes from them, in terms of positions in the run. */
  lemma {:induction false} LatestExactly(calls: seq<Call>, fp: Fingerprint, k: nat)
    requires k < |calls| && Opens(calls[k], fp) && forall j :: k < j < |calls| ==> !Opens(calls[j], fp)
    ensures Latest(calls, fp) == Some(calls[k])
  {
    if k < |calls| - 1 {
      LatestExactly(calls[..|calls| - 1], fp, k);
    }
  }

  lemma {:induction false} EarliestExactly(calls: seq<Call>, fp: Fingerprint, k: nat)
    requires k < |calls| && Opens(calls[k], fp) && forall j :: 0 <= j < k ==> !Opens(calls[j], fp)
    ensures Earliest(calls, fp) == Some(calls[k].now)
  {
    if k < |calls| - 1 {
      EarliestExactly(calls[..|calls| - 1], fp, k);
    } else {
      NothingReported(calls[..k], fp);
    }
  }

  // ---------------------------------------------------------------- what single calls do

  /** An unread notice about the incident, of its severity. */
  function NoticeOf(id: nat, i: Incident, kind: Kind, title: string, actionable: bool, now: int): Notification {
    Notification(id, i.id, kind, i.severity, title, actionable, None, now)
  }

  /** The table with incident `n` replaced and one more notice. */
  function Changed(c: Centre, n: nat, j: Incident, notice: Notification): Centre
    requires n < |c.incidents|
  {
    Centre(c.incidents[n := j], c.notifications + [notice], c.nextId + 1)
  }

  lemma PositionOf(c: Centre, calls: seq<Call>, n: nat)
    requires Invariant(c, calls) && n < |c.incidents|
    ensures FirstIndex(c.incidents, WithId(c.incidents[n].id)) == n
    ensures FirstIndex(c.incidents, WithFingerprint(c.incidents[n].fingerprint)) == n
  {
    FirstIndexFinds(c.incidents, WithId(c.incidents[n].id));
    FirstIndexFinds(c.incidents, WithFingerprint(c.incidents[n].fingerprint));
    assert !(FirstIndex(c.incidents, WithId(c.incidents[n].id)) > n);
    assert !(FirstIndex(c.incidents, WithFingerprint(c.incidents[n].fingerprint)) > n);
  }

  lemma NoPosition(c: Centre, id: nat)
    requires forall i :: i in c.incidents ==> i.id != id
    ensures FirstIndex(c.incidents, WithId(id)) == |c.incidents|
  {
    FirstIndexFinds(c.incidents, WithId(id));
  }

  /** Acknowledging changes exactly an unresolved incident with this id, which it marks and announces. */
  lemma AcknowledgeExactly(c: Centre, calls: seq<Call>, id: nat, now: int)
    requires Invariant(c, calls)
    ensures forall n :: 0 <= n < |c.incidents| && c.incidents[n].id == id && c.incidents[n].status != Resolved ==>
      var i := c.incidents[n];
      Step(c, Call(DoAcknowledge(id), now)) ==
        Changed(c, n, i.(status := Acknowledged, acknowledgedAt := Some(now), updatedAt := now),
                NoticeOf(c.nextId, i, IncidentUpdated, i.title, i.severity != Info, now))
    ensures (forall i :: i in c.incidents && i.id == id ==> i.status == Resolved) ==>
      Step(c, Call(DoAcknowledge(id), now)) == c
  {
    forall n | 0 <= n < |c.incidents| && c.incidents[n].id == id ensures FirstIndex(c.incidents, WithId(id)) == n {
      PositionOf(c, calls, n);
    }
    if forall i :: i in c.incidents ==> i.id != id {
      NoPosition(c, id);
    }
  }

  /** Resolving changes exactly an unresolved incident with this id, which it closes and announces as recovered. */
  lemma ResolveExactly(c: Centre, calls: seq<Call>, id: nat, now: int)
    requires Invariant(c, calls)
    ensures forall n :: 0 <= n < |c.incidents| && c.incidents[n].id == id && c.incidents[n].status != Resolved ==>
      var i := c.incidents[n];
      Step(c, Call(DoResolve(id), now)) ==
        Changed(c, n, i.(status := Resolved, resolvedAt := Some(now), updatedAt := now),
                NoticeOf(c.nextId, i, IncidentResolved, "Recovered: " + i.title, false, now))
    ensures (forall i :: i in c.incidents && i.id == id ==> i.status == Resolved) ==>
      Step(c, Call(DoResolve(id), now)) == c
  {
    forall n | 0 <= n < |c.incidents| && c.incidents[n].id == id ensures FirstIndex(c.incidents, WithId(id)) == n {
      PositionOf(c, calls, n);
    }
    if forall i :: i in c.incidents ==> i.id != id {
      NoPosition(c, id);
    }
  }

  /**
   * A report of a known failure reopens its incident if it was resolved, forgetting when it was
   * acknowledged and resolved, and else leaves its status and those times; it is announced as opened
   * or as updated. A report of an unknown failure opens one new incident and announces it as opened.
   */
  lemma OpenExactly(c: Centre, calls: seq<Call>, r: Report, now: int)
    requires Invariant(c, calls)
    ensures forall n :: 0 <= n < |c.incidents| && c.incidents[n].fingerprint == FingerprintOf(r) ==>
      var i, c' := c.incidents[n], Step(c, Call(DoOpen(r), now));
      && |c'.incidents| == |c.incidents|
      && var j, again := c'.incidents[n], i.status == Resolved;
         && j.id == i.id && j.updatedAt == now
         && (if again then j.status == Open && j.acknowledgedAt.None? && j.resolvedAt.None?
             else j.status == i.status && j.acknowledgedAt == i.acknowledgedAt && j.resolvedAt == i.resolvedAt)
         && c' == Changed(c, n, j, NoticeOf(
              c.nextId, j, if again then IncidentOpened else IncidentUpdated, r.rootCause, j.severity != Info, now))
    ensures (forall i :: i in c.incidents ==> i.fingerprint != FingerprintOf(r)) ==>
      var c' := Step(c, Call(DoOpen(r), now));
      && |c'.incidents| == |c.incidents| + 1
      && var j := c'.incidents[|c.incidents|];
         && j.id == c.nextId && j.status == Open && j.updatedAt == now
         && c' == Centre(c.incidents + [j], c.notifications +
              [NoticeOf(c.nextId + 1, j, IncidentOpened, r.rootCause, j.severity != Info, now)], c.nextId + 2)
  {
    forall n | 0 <= n < |c.incidents| && c.incidents[n].fingerprint == FingerprintOf(r)
      ensures FirstIndex(c.incidents, WithFingerprint(FingerprintOf(r))) == n
    {
      PositionOf(c, calls, n);
    }
    FirstIndexFinds(c.incidents, WithFingerprint(FingerprintOf(r)));
    if FirstIndex(c.incidents, WithFingerprint(FingerprintOf(r))) < |c.incidents| {
      assert c.incidents[FirstIndex(c.incidents, WithFingerprint(FingerprintOf(r)))] in c.incidents;
    }
  }

  function Opened(ks: seq<Kind>): nat {
    if ks == [] then 0 else Opened(ks[..|ks| - 1]) + if ks[|ks| - 1] == IncidentOpened then 1 else 0
  }

  function ResolvedCount(ks: seq<Kind>): nat {
    if ks == [] then 0 else ResolvedCount(ks[..|ks| - 1]) + if ks[|ks| - 1] == IncidentResolved then 1 else 0
  }

  lemma {:induction false} AlternationCounts(ks: seq<Kind>)
    requires Alternates(ks)
    ensures Opened(ks) - ResolvedCount(ks) == |ks| % 2
  {
    if ks != [] {
      AlternationCounts(ks[..|ks| - 1]);
    }
  }

  // ---------------------------------------------------------------- the centre

  class NotificationIncidentCenter {
    var incidents: seq<Incident>
    var notifications: seq<Notification>
    var nextId: nat
    ghost var history: seq<Call>

    function State(): Centre
      reads this
    {
      Centre(incidents, notifications, nextId)
    }

    /** The tables agree with all the calls made so far. */
    ghost predicate Valid()
      reads this
    {
      Invariant(State(), history)
    }

    constructor ()
      ensures State() == Empty && history == [] && Valid()
    {
      incidents, notifications, nextId, history := [], [], 0, [];
    }

    method FreshId() returns (id: nat)
      modifies this
      ensures id == old(nextId) && State() == old(State()).(nextId := id + 1) && history == old(history)
    {
      id := nextId;
      nextId := nextId + 1;
    }

    method Emit(i: Incident, kind: Kind, now: int)
      modifies this
      ensures State() == old(Centre(incidents, notifications + [Notice(nextId, i, kind, now)], nextId + 1))
      ensures history == old(history)
    {
      var id := FreshId();
      notifications := notifications + [Notice(id, i, kind, now)];
    }

    /** Creates the incident of a report, or folds the report into it, and notifies. */
    method Fold(r: Report, now: int) returns (i: Incident)
      modifies this
      ensures State() == OpenAt(old(State()), r, now) && history == old(history)
      ensures i in incidents && i.fingerprint == FingerprintOf(r) && i.status != Resolved
    {
      var n := FirstIndex(incidents, WithFingerprint(FingerprintOf(r)));
      FirstIndexFinds(incidents, WithFingerprint(FingerprintOf(r)));
      if n == |incidents| {
        var id := FreshId();
        i := Fresh(id, r, now);
        incidents := incidents + [i];
        Emit(i, IncidentOpened, now);
      } else {
        var current := incidents[n];
        i := Merged(current, r, now);
        incidents := incidents[n := i];
        Emit(i, if current.status == Resolved then IncidentOpened else IncidentUpdated, now);
        assert incidents[n] == i;
      }
    }

    method OpenIncident(r: Report, now: int) returns (i: Incident)
      requires Valid()
      modifies this
      ensures Valid() && history == old(history) + [Call(DoOpen(r), now)]
      ensures State() == OpenAt(old(State()), r, now)
      ensures i in incidents && i.fingerprint == FingerprintOf(r)
      ensures i.status != Resolved && Good(i, history, notifications) && SeverityMatches(i, history)
    {
      StepKeepsInvariant(State(), history, Call(DoOpen(r), now));
      i := Fold(r, now);
      history := history + [Call(DoOpen(r), now)];
      SeverityFromReports(i, history);
    }

    method Acknowledge(id: nat, now: int) returns (i: Option<Incident>)
      requires Valid()
      modifies this
      ensures Valid() && history == old(history) + [Call(DoAcknowledge(id), now)]
      ensures State() == AcknowledgeAt(old(State()), id, now)
      ensures i.Some? ==> i.value in incidents && i.value.id == id
    {
      StepKeepsInvariant(State(), history, Call(DoAcknowledge(id), now));
      history := history + [Call(DoAcknowledge(id), now)];
      var n := FirstIndex(incidents, WithId(id));
      FirstIndexFinds(incidents, WithId(id));
      if n == |incidents| {
        return None;
      }
      i := Some(incidents[n]);
      if incidents[n].status != Resolved {
        var updated := incidents[n].(status := Acknowledged, acknowledgedAt := Some(now), updatedAt := now);
        incidents := incidents[n := updated];
        Emit(updated, IncidentUpdated, now);
        i := Some(updated);
        assert incidents[n] == updated;
      }
    }

    method Resolve(id: nat, now: int) returns (i: Option<Incident>)
      requires Valid()
      modifies this
      ensures Valid() && history == old(history) + [Call(DoResolve(id), now)]
      ensures State() == ResolveAt(old(State()), id, now)
      ensures i.Some? ==> i.value in incidents && i.value.id == id && i.value.status == Resolved
    {
      StepKeepsInvariant(State(), history, Call(DoResolve(id), now));
      history := history + [Call(DoResolve(id), now)];
      var n := FirstIndex(incidents, WithId(id));
      FirstIndexFinds(incidents, WithId(id));
      if n == |incidents| {
        return None;
      }
      i := Some(incidents[n]);
      if incidents[n].status != Resolved {
        var updated := incidents[n].(status := Resolved, resolvedAt := Some(now), updatedAt := now);
        incidents := incidents[n := updated];
        Emit(updated, IncidentResolved, now);
        i := Some(updated);
        assert incidents[n] == updated;
      }
    }

    method SetRead(id: nat, now: int) returns (r: Option<Notification>)
      modifies this`notifications
      ensures notifications == Mark(old(notifications), id, now)
      ensures r.None? <==> forall n :: 0 <= n < |notifications| ==> notifications[n].id != id
      ensures r.Some? ==> r.value in notifications && r.value.id == id && r.value.readAt.Some?
    {
      MarkAtPosition(notifications, id, now);
      var n := FirstIndex(notifications, NoticeWithId(id));
      if n == |notifications| {
        return None;
      }
      if notifications[n].readAt.None? {
        notifications := notifications[n := notifications[n].(readAt := Some(now))];
      }
      r := Some(notifications[n]);
    }

    method MarkRead(id: nat, now: int) returns (r: Option<Notification>)
      requires Valid()
      modifies this
      ensures Valid() && history == old(history) + [Call(DoMarkRead(id), now)]
      ensures incidents == old(incidents) && nextId == old(nextId)
      ensures MarkedFrom(old(notifications), notifications, id, now)
      ensures r.None? <==> forall n :: 0 <= n < |notifications| ==> notifications[n].id != id
      ensures r.Some? ==> r.value in notifications && r.value.id == id && r.value.readAt.Some?
    {
      StepKeepsInvariant(State(), history, Call(DoMarkRead(id), now));
      MarkChangesReadAt(notifications, id, now);
      r := SetRead(id, now);
      history := history + [Call(DoMarkRead(id), now)];
    }
  }
}
