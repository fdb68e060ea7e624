/**
 * When resolving names settles, for every list of sources and every session map, whatever the list
 * was when the sessions were made.
 */
module ResolutionCycles {
  import opened Prelude
  import opened DeviceSessions

  /** After `n` hops resolution stays put or comes to an unknown name. */
  ghost predicate StopsAt(sources: seq<Source>, sessions: seq<Session>, name: string, n: nat) {
    match Follow(sources, sessions, name, n)
    case None => true
    case Some(m) => Resolve(sources, sessions, m).None? || Resolve(sources, sessions, m) == Some(m)
  }

  ghost predicate Settles(sources: seq<Source>, sessions: seq<Session>, name: string) {
    exists n :: StopsAt(sources, sessions, name, n)
  }

  predicate Unmatched(sources: seq<Source>, name: string) { Match(sources, name) == |sources| }

  /** Distinct names that match no source, each with a session leading to the next. */
  ghost predicate Path(sources: seq<Source>, sessions: seq<Session>, p: seq<string>) {
    && Distinct(p) && (forall i :: 0 <= i < |p| ==> Unmatched(sources, p[i]))
    && forall i :: 0 <= i < |p| - 1 ==> Lookup(sessions, p[i]) == Some(p[i + 1])
  }

  /** A path of two or more names that leads back to its first. */
  ghost predicate Cycle(sources: seq<Source>, sessions: seq<Session>, c: seq<string>) {
    |c| >= 2 && Path(sources, sessions, c) && Lookup(sessions, c[|c| - 1]) == Some(c[0])
  }

  /** Following `name` comes to the first name of the cycle. */
  ghost predicate Enters(sources: seq<Source>, sessions: seq<Session>, name: string, c: seq<string>) {
    Cycle(sources, sessions, c) && exists n :: Follow(sources, sessions, name, n) == Some(c[0])
  }

  // ---------------------------------------------------------------- following

  lemma {:induction false} FollowFrom(sources: seq<Source>, sessions: seq<Session>, name: string, m: nat, n: nat)
    requires Follow(sources, sessions, name, m).Some?
    ensures Follow(sources, sessions, name, m + n) ==
      Follow(sources, sessions, Follow(sources, sessions, name, m).value, n)
  {
    if n > 0 {
      FollowFrom(sources, sessions, name, m, n - 1);
      assert m + n - 1 == m + (n - 1);
    }
  }

  /** Where resolution stops it stays. */
  lemma {:induction false} StopsForGood(sources: seq<Source>, sessions: seq<Session>, name: string, m: nat, n: nat)
    requires StopsAt(sources, sessions, name, m) && m <= n
    ensures StopsAt(sources, sessions, name, n)
  {
    if m < n {
      StopsForGood(sources, sessions, name, m, n - 1);
    }
  }

  lemma SettlesAfter(sources: seq<Source>, sessions: seq<Session>, name: string, m: nat)
    requires Follow(sources, sessions, name, m).Some?
    requires Settles(sources, sessions, Follow(sources, sessions, name, m).value)
    ensures Settles(sources, sessions, name)
  {
    var n :| StopsAt(sources, sessions, Follow(sources, sessions, name, m).value, n);
    FollowFrom(sources, sessions, name, m, n);
    assert StopsAt(sources, sessions, name, m + n);
  }

  /** A name of a source settles whatever the sessions are: each hop moves earlier in the list. */
  lemma {:induction false} MatchedSettles(sources: seq<Source>, sessions: seq<Session>, name: string)
    requires !Unmatched(sources, name)
    ensures Settles(sources, sessions, name)
    decreases Match(sources, name), if Resolve(sources, sessions, name) == Some(name) then 0 else 1
  {
    var i := Match(sources, name);
    var sid := sources[i].sourceId;
    if sid == name {
      assert Follow(sources, sessions, name, 0) == Some(name);
      assert StopsAt(sources, sessions, name, 0);
    } else {
      MatchIsFirst(sources, sid, i);
      MatchedSettles(sources, sessions, sid);
      assert Follow(sources, sessions, name, 0) == Some(name);
      assert Follow(sources, sessions, name, 1) == Some(sid);
      SettlesAfter(sources, sessions, name, 1);
    }
  }

  lemma {:induction false} FollowPath(sources: seq<Source>, sessions: seq<Session>, p: seq<string>, i: nat)
    requires Path(sources, sessions, p) && i < |p|
    ensures Follow(sources, sessions, p[0], i) == Some(p[i])
  {
    if i > 0 {
      FollowPath(sources, sessions, p, i - 1);
    }
  }

  // ---------------------------------------------------------------- no cycle, so it settles

  function Devices(sessions: seq<Session>): set<string> { set s | s in sessions :: s.device }

  lemma MappedIsDevice(sessions: seq<Session>, name: string)
    requires Lookup(sessions, name).Some?
    ensures name in Devices(sessions)
  {
    var i := LookupIn(sessions, name);
    assert sessions[i] in sessions;
  }

  lemma PathCloses(sources: seq<Source>, sessions: seq<Session>, p: seq<string>, j: nat)
    requires Path(sources, sessions, p) && j < |p| - 1 && Lookup(sessions, p[|p| - 1]) == Some(p[j])
    ensures Enters(sources, sessions, p[0], p[j..])
  {
    var c := p[j..];
    forall i | 0 <= i < |c| - 1 ensures Lookup(sessions, c[i]) == Some(c[i + 1]) {
      assert c[i] == p[j + i] && c[i + 1] == p[j + i + 1];
    }
    FollowPath(sources, sessions, p, j);
  }

  /** Walking on from a path of unmatched names ends at a settled name or closes a cycle. */
  lemma {:induction false} Walk(sources: seq<Source>, sessions: seq<Session>, p: seq<string>)
    requires Path(sources, sessions, p) && p != []
    ensures Settles(sources, sessions, p[0]) || exists c :: Enters(sources, sessions, p[0], c)
    decreases Devices(sessions) - Elements(p[..|p| - 1])
  {
    var k := |p| - 1;
    FollowPath(sources, sessions, p, k);
    match Lookup(sessions, p[k])
    case None =>
      assert StopsAt(sources, sessions, p[0], k);
    case Some(next) =>
      MappedIsDevice(sessions, p[k]);
      assert Follow(sources, sessions, p[0], k + 1) == Some(next);
      if next == p[k] {
        assert StopsAt(sources, sessions, p[0], k);
      } else if !Unmatched(sources, next) {
        MatchedSettles(sources, sessions, next);
        SettlesAfter(sources, sessions, p[0], k + 1);
      } else if next in p {
        var j :| 0 <= j < |p| && p[j] == next;
        PathCloses(sources, sessions, p, j);
      } else {
        Shrinks(Devices(sessions), p);
        assert (p + [next])[..|p|] == p;
        Walk(sources, sessions, p + [next]);
      }
  }

  lemma Shrinks(devices: set<string>, p: seq<string>)
    requires p != [] && Distinct(p) && p[|p| - 1] in devices
    ensures devices - Elements(p) < devices - Elements(p[..|p| - 1])
  {
    var front, last := p[..|p| - 1], p[|p| - 1];
    assert p == front + [last];
    assert last !in front;
    assert last in devices - Elements(front) && last !in devices - Elements(p);
  }

  // ---------------------------------------------------------------- a cycle, so it does not

  /** Every name of a cycle leads to another one of it. */
  lemma CycleStep(sources: seq<Source>, sessions: seq<Session>, c: seq<string>, x: string)
    requires Cycle(sources, sessions, c) && x in c
    ensures Resolve(sources, sessions, x).Some?
    ensures Resolve(sources, sessions, x).value in c && Resolve(sources, sessions, x).value != x
  {
    var i :| 0 <= i < |c| && c[i] == x;
    if i < |c| - 1 {
      assert Lookup(sessions, c[i]) == Some(c[i + 1]);
    }
  }

  lemma {:induction false} RoundTheCycle(sources: seq<Source>, sessions: seq<Session>, c: seq<string>, n: nat)
    requires Cycle(sources, sessions, c)
    ensures Follow(sources, sessions, c[0], n).Some? && Follow(sources, sessions, c[0], n).value in c
  {
    if n > 0 {
      RoundTheCycle(sources, sessions, c, n - 1);
      CycleStep(sources, sessions, c, Follow(sources, sessions, c[0], n - 1).value);
    }
  }

  lemma NoStopInCycle(sources: seq<Source>, sessions: seq<Session>, name: string, c: seq<string>, m: nat, n: nat)
    requires Cycle(sources, sessions, c) && Follow(sources, sessions, name, m) == Some(c[0])
    ensures !StopsAt(sources, sessions, name, m + n)
  {
    FollowFrom(sources, sessions, name, m, n);
    RoundTheCycle(sources, sessions, c, n);
    CycleStep(sources, sessions, c, Follow(sources, sessions, c[0], n).value);
  }

  lemma CycleDiverges(sources: seq<Source>, sessions: seq<Session>, name: string, c: seq<string>)
    requires Enters(sources, sessions, name, c)
    ensures !Settles(sources, sessions, name)
  {
    var m: nat :| Follow(sources, sessions, name, m) == Some(c[0]);
    forall n: nat ensures !StopsAt(sources, sessions, name, n) {
      NoStopInCycle(sources, sessions, name, c, m, n);
      if StopsAt(sources, sessions, name, n) {
        StopsForGood(sources, sessions, name, n, m + n);
      }
    }
  }

  // ---------------------------------------------------------------- main results

  /** Resolution of a name settles exactly when following it enters no cycle of sessions. */
  lemma SettlesExactly(sources: seq<Source>, sessions: seq<Session>, name: string)
    ensures Settles(sources, sessions, name) <==> !exists c :: Enters(sources, sessions, name, c)
  {
    forall c | Enters(sources, sessions, name, c) ensures !Settles(sources, sessions, name) {
      CycleDiverges(sources, sessions, name, c);
    }
    if Unmatched(sources, name) {
      Walk(sources, sessions, [name]);
    } else {
      MatchedSettles(sources, sessions, name);
    }
  }

  /** All names settle exactly when the sessions hold no cycle among unmatched names. */
  lemma AllSettleExactly(sources: seq<Source>, sessions: seq<Session>)
    ensures (forall name :: Settles(sources, sessions, name)) <==> !exists c :: Cycle(sources, sessions, c)
  {
    forall name ensures Settles(sources, sessions, name) || exists c :: Cycle(sources, sessions, c) {
      SettlesExactly(sources, sessions, name);
    }
    forall c | Cycle(sources, sessions, c) ensures !Settles(sources, sessions, c[0]) {
      assert Follow(sources, sessions, c[0], 0) == Some(c[0]);
      CycleDiverges(sources, sessions, c[0], c);
    }
  }

  lemma ValidHasNoCycle(sources: seq<Source>, sessions: seq<Session>, c: seq<string>)
    requires ValidSessions(sources, sessions)
    ensures !Cycle(sources, sessions, c)
  {
    if |c| >= 2 && Lookup(sessions, c[0]) == Some(c[1]) {
      SessionLeadsToSource(sources, sessions, c[0]);
      assert !Unmatched(sources, c[1]);
    }
  }

  /** Sessions made under one fixed list hold no cycle, so then all names settle. */
  lemma FixedListSettles(sources: seq<Source>, requests: seq<Request>)
    requires forall i :: 0 <= i < |requests| ==> requests[i].device != ""
    ensures forall name :: Settles(sources, Run(sources, [], requests), name)
  {
    var sessions := Run(sources, [], requests);
    RunValid(sources, [], requests);
    forall c ensures !Cycle(sources, sessions, c) {
      ValidHasNoCycle(sources, sessions, c);
    }
    AllSettleExactly(sources, sessions);
  }

  // ---------------------------------------------------------------- a cycle the daemon can make

  const Mutual := [Session("p:a", "p:b"), Session("p:b", "p:a")]

  /** Two devices named like sources of provider `p`, each mapped while only the other's source was available. */
  lemma CycleArises()
    ensures var s1 := Connected([Source("b", "p:b", true)], [], "p:a");
            Connected([Source("a", "p:a", true)], s1, "p:b") == Mutual
  {
    var s1 := Connected([Source("b", "p:b", true)], [], "p:a");
    assert s1 == [Session("p:a", "p:b")];
    assert Lookup(s1[1..], "p:b") == None;
  }

  /** If availability changes between requests, sessions can form a cycle, and then resolution never settles. */
  lemma CycleNeverSettles()
    ensures var s1 := Connected([Source("b", "p:b", true)], [], "p:a");
            var s2 := Connected([Source("a", "p:a", true)], s1, "p:b");
            Cycle([], s2, ["p:a", "p:b"]) && !Settles([], s2, "p:a")
  {
    CycleArises();
    assert Follow([], Mutual, "p:a", 0) == Some("p:a");
    assert Enters([], Mutual, "p:a", ["p:a", "p:b"]);
    SettlesExactly([], Mutual, "p:a");
  }

  // ---------------------------------------------------------------- disconnecting under any list

  /** Following `name` comes to `m`, which resolves to itself. */
  ghost predicate SettlesOn(sources: seq<Source>, sessions: seq<Session>, name: string, m: string) {
    exists n :: Follow(sources, sessions, name, n) == Some(m) && Resolve(sources, sessions, m) == Some(m)
  }

  lemma {:induction false} StaysThere(sources: seq<Source>, sessions: seq<Session>, name: string, k: nat, n: nat)
    requires k <= n && Follow(sources, sessions, name, k).Some?
    requires var m := Follow(sources, sessions, name, k).value; Resolve(sources, sessions, m) == Some(m)
    ensures Follow(sources, sessions, name, n) == Follow(sources, sessions, name, k)
  {
    if k < n {
      StaysThere(sources, sessions, name, k, n - 1);
    }
  }

  lemma SettlesOnOne(sources: seq<Source>, sessions: seq<Session>, name: string, m: string, m': string)
    requires SettlesOn(sources, sessions, name, m) && SettlesOn(sources, sessions, name, m')
    ensures m == m'
  {
    var k: nat :| Follow(sources, sessions, name, k) == Some(m);
    var n: nat :| Follow(sources, sessions, name, n) == Some(m');
    if k <= n {
      StaysThere(sources, sessions, name, k, n);
    } else {
      StaysThere(sources, sessions, name, n, k);
    }
  }

  /**
   * The sessions after a disconnect, whatever the list: the first one on the source id the name
   * settles on is removed. An unknown name is an error and a cycle never ends; neither removes any.
   */
  ghost function AfterDisconnect(sources: seq<Source>, sessions: seq<Session>, name: string): seq<Session> {
    if exists m :: SettlesOn(sources, sessions, name, m) then
      var m :| SettlesOn(sources, sessions, name, m);
      DropFirstOn(sessions, m)
    else sessions
  }

  lemma AfterDisconnectOn(sources: seq<Source>, sessions: seq<Session>, name: string, m: string)
    requires SettlesOn(sources, sessions, name, m)
    ensures AfterDisconnect(sources, sessions, name) == DropFirstOn(sessions, m)
  {
    var after := AfterDisconnect(sources, sessions, name);
    var m' :| SettlesOn(sources, sessions, name, m') && after == DropFirstOn(sessions, m');
    SettlesOnOne(sources, sessions, name, m, m');
  }

  lemma {:induction false} UnknownSettlesNowhere(sources: seq<Source>, sessions: seq<Session>, name: string, n: nat)
    requires Resolve(sources, sessions, name).None?
    ensures Follow(sources, sessions, name, n) == if n == 0 then Some(name) else None
  {
    if n > 0 {
      UnknownSettlesNowhere(sources, sessions, name, n - 1);
    }
  }

  /** With sessions made under the present list this is what the daemon's disconnect does. */
  lemma DisconnectAgrees(sources: seq<Source>, sessions: seq<Session>, name: string)
    requires ValidSessions(sources, sessions)
    ensures AfterDisconnect(sources, sessions, name) == Disconnected(sources, sessions, name)
  {
    if Resolve(sources, sessions, name).None? {
      forall m ensures !SettlesOn(sources, sessions, name, m) {
        forall n: nat
          ensures !(Follow(sources, sessions, name, n) == Some(m) && Resolve(sources, sessions, m) == Some(m))
        {
          UnknownSettlesNowhere(sources, sessions, name, n);
        }
      }
    } else {
      var n := FollowSettles(sources, sessions, name);
      var m := TargetId(sources, sessions, name).value;
      assert Resolve(sources, sessions, m) == Some(m);
      AfterDisconnectOn(sources, sessions, name, m);
    }
  }

  lemma DroppedIsFirst(sessions: seq<Session>, i: nat, m: string)
    requires i < |sessions| && DevicesDiffer(sessions)
    ensures Lookup(DropFirstOn(sessions, m), sessions[i].device).None? <==> FirstOn(sessions, m) == i
  {
    var n, rest := FirstOn(sessions, m), DropFirstOn(sessions, m);
    if n == |sessions| {
      assert rest == sessions;
      LookupFinds(sessions, i);
    } else {
      assert rest == sessions[..n] + sessions[n + 1..];
      if n == i {
        GoneAfterDrop(sessions, i);
      } else {
        KeptElsewhere(sessions, n, i);
      }
    }
  }

  lemma KeptElsewhere(sessions: seq<Session>, n: nat, i: nat)
    requires n < |sessions| && i < |sessions| && n != i && DevicesDiffer(sessions)
    ensures Lookup(sessions[..n] + sessions[n + 1..], sessions[i].device).Some?
  {
    if n < i {
      KeptAfterDrop(sessions, n, i);
    } else {
      var rest := sessions[..n] + sessions[n + 1..];
      assert forall j :: 0 <= j <= i ==> rest[j] == sessions[j];
      LookupFinds(rest, i);
    }
  }

  /**
   * For every list and every session map: a disconnect removes the device's own session exactly when
   * the device settles on the source id of that session and no earlier session shares it.
   */
  lemma OwnSessionDroppedExactly(sources: seq<Source>, sessions: seq<Session>, i: nat)
    requires i < |sessions| && DevicesDiffer(sessions)
    ensures Lookup(AfterDisconnect(sources, sessions, sessions[i].device), sessions[i].device).None? <==>
      && SettlesOn(sources, sessions, sessions[i].device, sessions[i].sourceId)
      && forall j :: 0 <= j < i ==> sessions[j].sourceId != sessions[i].sourceId
  {
    var device, sid := sessions[i].device, sessions[i].sourceId;
    if exists m :: SettlesOn(sources, sessions, device, m) {
      var m :| SettlesOn(sources, sessions, device, m);
      AfterDisconnectOn(sources, sessions, device, m);
      DroppedIsFirst(sessions, i, m);
      if SettlesOn(sources, sessions, device, sid) {
        SettlesOnOne(sources, sessions, device, m, sid);
      }
    } else {
      LookupFinds(sessions, i);
    }
  }

  /** The device's source has left the list: the disconnect fails and the session stays, though it is the only one. */
  lemma GoneSourceKeepsSession()
    ensures var sessions := Connected([Source("x", "p:x", true)], [], "d");
            AfterDisconnect([], sessions, "d") == sessions == [Session("d", "p:x")]
  {
    var sessions := [Session("d", "p:x")];
    assert Connected([Source("x", "p:x", true)], [], "d") == sessions;
    assert sessions[1..] == [] && Lookup(sessions, "d") == Some("p:x") && Lookup(sessions, "p:x") == None;
    forall m ensures !SettlesOn([], sessions, "d", m) {
      forall n: nat ensures !(Follow([], sessions, "d", n) == Some(m) && Resolve([], sessions, m) == Some(m)) {
        if n > 0 {
          FollowAfterHop([], sessions, "d", n - 1);
          UnknownSettlesNowhere([], sessions, "p:x", n - 1);
        }
      }
    }
  }
}
