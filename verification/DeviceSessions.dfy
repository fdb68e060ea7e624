/**
 * How the daemon resolves a logical device to a connectivity source, and the sessions it keeps.
 * The list of available sources stays the same during a run.
 */
module DeviceSessions {
  import opened Prelude

  /** `activatable`: the source's provider is registered and supports activation. */
  datatype Source = Source(id: string, sourceId: string, activatable: bool)

  /** An entry of the session map, which keeps insertion order. */
  datatype Session = Session(device: string, sourceId: string)

  datatype Effect = Activated(sourceId: string) | Deactivated(sourceId: string)

  datatype Error = NoSource | NotActivatable | UnknownDevice

  // ---------------------------------------------------------------- resolution

  predicate Names(s: Source, name: string) { s.id == name || s.sourceId == name }

  /** The position of the first source with this id or source id, or the length of the list. */
  function Match(sources: seq<Source>, name: string): (i: nat)
    ensures i <= |sources|
    ensures i < |sources| ==> Names(sources[i], name)
  {
    if sources == [] || Names(sources[0], name) then 0 else 1 + Match(sources[1..], name)
  }

  lemma {:induction false} MatchIsFirst(sources: seq<Source>, name: string, j: nat)
    requires j < |sources| && Names(sources[j], name)
    ensures Match(sources, name) <= j
  {
    if j > 0 && !Names(sources[0], name) {
      MatchIsFirst(sources[1..], name, j - 1);
    }
  }

  function Lookup(sessions: seq<Session>, device: string): Option<string> {
    if sessions == [] then None
    else if sessions[0].device == device then Some(sessions[0].sourceId)
    else Lookup(sessions[1..], device)
  }

  function Resolve(sources: seq<Source>, sessions: seq<Session>, name: string): Option<string> {
    var i := Match(sources, name);
    if i < |sources| then Some(sources[i].sourceId) else Lookup(sessions, name)
  }

  /** `i` is the first source with this id or source id. */
  ghost predicate FirstNamed(sources: seq<Source>, name: string, i: nat) {
    && i < |sources| && (sources[i].id == name || sources[i].sourceId == name)
    && forall j :: 0 <= j < i ==> sources[j].id != name && sources[j].sourceId != name
  }

  /** `i` is the first session of the device. */
  ghost predicate FirstSession(sessions: seq<Session>, device: string, i: nat) {
    i < |sessions| && sessions[i].device == device && forall j :: 0 <= j < i ==> sessions[j].device != device
  }

  lemma {:induction false} MatchNamed(sources: seq<Source>, name: string)
    ensures Match(sources, name) < |sources| ==> FirstNamed(sources, name, Match(sources, name))
    ensures Match(sources, name) == |sources| ==> forall s :: s in sources ==> s.id != name && s.sourceId != name
    ensures forall i: nat :: FirstNamed(sources, name, i) ==> Match(sources, name) == i
  {
    forall j: nat | j < Match(sources, name) ensures sources[j].id != name && sources[j].sourceId != name {
      if Names(sources[j], name) {
        MatchIsFirst(sources, name, j);
      }
    }
  }

  lemma {:induction false} LookupFirst(sessions: seq<Session>, device: string) returns (i: nat)
    ensures if Lookup(sessions, device).Some?
            then FirstSession(sessions, device, i) && sessions[i].sourceId == Lookup(sessions, device).value
            else forall s :: s in sessions ==> s.device != device
  {
    i := 0;
    if sessions != [] && sessions[0].device != device {
      var j := LookupFirst(sessions[1..], device);
      i := j + 1;
      assert sessions == [sessions[0]] + sessions[1..];
    }
  }

  /** A name leads to the first source it is the id or source id of, and else to the source of its own session. */
  lemma ResolveExactly(sources: seq<Source>, sessions: seq<Session>, name: string, sid: string)
    ensures Resolve(sources, sessions, name) == Some(sid) <==>
      || (exists i: nat :: FirstNamed(sources, name, i) && sources[i].sourceId == sid)
      || ((forall s :: s in sources ==> s.id != name && s.sourceId != name)
          && exists i: nat :: FirstSession(sessions, name, i) && sessions[i].sourceId == sid)
  {
    MatchNamed(sources, name);
    var j := LookupFirst(sessions, name);
    forall i: nat | FirstSession(sessions, name, i) ensures Lookup(sessions, name).Some? && i == j {
      assert sessions[i] in sessions;
    }
  }

  /** Following source ids from a matched source: each hop leads to an earlier source or stays put. */
  function Settle(sources: seq<Source>, i: nat): (k: nat)
    requires i < |sources|
    ensures k <= i && Match(sources, sources[k].sourceId) == k
    decreases i
  {
    var j := Match(sources, sources[i].sourceId);
    MatchIsFirst(sources, sources[i].sourceId, i);
    if j >= i then i else Settle(sources, j)
  }

  /** The source a name settles on, if any. */
  function Target(sources: seq<Source>, sessions: seq<Session>, name: string): (k: Option<nat>)
    ensures k.Some? ==> k.value < |sources| && Match(sources, sources[k.value].sourceId) == k.value
  {
    var i := Match(sources, name);
    if i < |sources| then Some(Settle(sources, i)) else
      match Lookup(sessions, name)
      case None => None
      case Some(sid) =>
        var j := Match(sources, sid);
        if j < |sources| then Some(Settle(sources, j)) else None
  }

  // ---------------------------------------------------------------- sessions

  ghost predicate Listed(sources: seq<Source>, sid: string) {
    exists i :: 0 <= i < |sources| && sources[i].sourceId == sid
  }

  /** A listed source id that resolves to itself. */
  predicate Settled(sources: seq<Source>, sid: string) {
    Match(sources, sid) < |sources| && sources[Match(sources, sid)].sourceId == sid
  }

  /** Devices have at most one session, are not names of sources, and their sessions lead to listed sources. */
  ghost predicate ValidSessions(sources: seq<Source>, sessions: seq<Session>) {
    && (forall i :: 0 <= i < |sessions| ==>
         && sessions[i].device != "" && Match(sources, sessions[i].device) == |sources|
         && Settled(sources, sessions[i].sourceId))
    && DevicesDiffer(sessions)
  }

  function CountOn(sessions: seq<Session>, sid: string): nat {
    if sessions == [] then 0 else (if sessions[0].sourceId == sid then 1 else 0) + CountOn(sessions[1..], sid)
  }

  /** The position of the first session on a source, or the number of sessions. */
  function FirstOn(sessions: seq<Session>, sid: string): (i: nat)
    ensures i <= |sessions|
    ensures i < |sessions| ==> sessions[i].sourceId == sid
    ensures forall j :: 0 <= j < i ==> sessions[j].sourceId != sid
  {
    if sessions == [] || sessions[0].sourceId == sid then 0 else 1 + FirstOn(sessions[1..], sid)
  }

  function DropFirstOn(sessions: seq<Session>, sid: string): seq<Session> {
    var i := FirstOn(sessions, sid);
    if i == |sessions| then sessions else sessions[..i] + sessions[i + 1..]
  }

  lemma LookupIn(sessions: seq<Session>, device: string) returns (i: nat)
    requires Lookup(sessions, device).Some?
    ensures i < |sessions| && sessions[i] == Session(device, Lookup(sessions, device).value)
  {
    if sessions[0].device == device {
      i := 0;
    } else {
      var j := LookupIn(sessions[1..], device);
      i := j + 1;
    }
  }

  lemma LookupFinds(sessions: seq<Session>, i: nat)
    requires i < |sessions| && forall j :: 0 <= j < i ==> sessions[j].device != sessions[i].device
    ensures Lookup(sessions, sessions[i].device) == Some(sessions[i].sourceId)
  {
    if i > 0 {
      LookupFinds(sessions[1..], i - 1);
    }
  }

  lemma LookupNone(sessions: seq<Session>, device: string)
    requires Lookup(sessions, device).None?
    ensures forall i :: 0 <= i < |sessions| ==> sessions[i].device != device
  {
    forall i | 0 <= i < |sessions| ensures sessions[i].device != device {
      if i > 0 {
        LookupNone(sessions[1..], device);
        assert sessions[1..][i - 1] == sessions[i];
      }
    }
  }

  /** With valid sessions every mapped device resolves to a matched source, so following names terminates. */
  lemma SessionLeadsToSource(sources: seq<Source>, sessions: seq<Session>, device: string)
    requires ValidSessions(sources, sessions) && Lookup(sessions, device).Some?
    ensures Match(sources, Lookup(sessions, device).value) < |sources|
  {
    var _ := LookupIn(sessions, device);
  }

  /** Following a name once moves strictly earlier in the list, or reaches a fixpoint; the target stays. */
  lemma Hop(sources: seq<Source>, sessions: seq<Session>, name: string)
    requires ValidSessions(sources, sessions) && Resolve(sources, sessions, name).Some?
    requires Resolve(sources, sessions, name).value != name
    ensures var sid := Resolve(sources, sessions, name).value;
            && Listed(sources, sid) && Match(sources, sid) <= Match(sources, name)
            && (Match(sources, sid) == Match(sources, name) ==> Resolve(sources, sessions, sid) == Some(sid))
            && Target(sources, sessions, sid) == Target(sources, sessions, name)
  {
    var sid, i := Resolve(sources, sessions, name).value, Match(sources, name);
    if i < |sources| {
      MatchIsFirst(sources, sid, i);
    } else {
      SessionLeadsToSource(sources, sessions, name);
      var _ := LookupIn(sessions, name);
    }
  }

  /** A name that resolves to itself is the source id of the first source it matches. */
  lemma Stay(sources: seq<Source>, sessions: seq<Session>, name: string)
    requires ValidSessions(sources, sessions) && Resolve(sources, sessions, name) == Some(name)
    ensures var k := Match(sources, name);
            k < |sources| && sources[k].sourceId == name && Target(sources, sessions, name) == Some(k)
  {
    if Match(sources, name) == |sources| {
      SessionLeadsToSource(sources, sessions, name);
    }
  }

  /** Sessions after a connect: an unknown device is mapped to the first source. */
  function Connected(sources: seq<Source>, sessions: seq<Session>, device: string): seq<Session> {
    if Resolve(sources, sessions, device).None? && sources != [] then sessions + [Session(device, sources[0].sourceId)]
    else sessions
  }

  /** Sessions after a disconnect: the first one on the settled source is removed. */
  function Disconnected(sources: seq<Source>, sessions: seq<Session>, device: string): seq<Session> {
    match Target(sources, sessions, device)
    case None => sessions
    case Some(k) => DropFirstOn(sessions, sources[k].sourceId)
  }

  /** Connecting an unknown device gives it a session on the first source; nothing else about sessions changes. */
  lemma ConnectMaps(sources: seq<Source>, sessions: seq<Session>, device: string, other: string)
    requires sources != []
    ensures var after := Connected(sources, sessions, device);
            && (Resolve(sources, sessions, device).None? ==>
                 Resolve(sources, after, device) == Some(sources[0].sourceId) && |after| == |sessions| + 1)
            && (Resolve(sources, sessions, device).Some? ==> after == sessions)
            && (other != device ==> Lookup(after, other) == Lookup(sessions, other))
  {
    if Resolve(sources, sessions, device).None? {
      LookupAppend(sessions, Session(device, sources[0].sourceId), device);
      LookupAppend(sessions, Session(device, sources[0].sourceId), other);
    }
  }

  lemma {:induction false} LookupAppend(sessions: seq<Session>, s: Session, device: string)
    ensures Lookup(sessions + [s], device) ==
      if Lookup(sessions, device).Some? then Lookup(sessions, device)
      else if s.device == device then Some(s.sourceId) else None
  {
    if sessions != [] {
      assert (sessions + [s])[1..] == sessions[1..] + [s];
      LookupAppend(sessions[1..], s, device);
    } else {
      assert [s][1..] == [];
    }
  }

  lemma ConnectedValid(sources: seq<Source>, sessions: seq<Session>, device: string)
    requires ValidSessions(sources, sessions) && device != ""
    ensures ValidSessions(sources, Connected(sources, sessions, device))
  {
    if Resolve(sources, sessions, device).None? && sources != [] {
      LookupNone(sessions, device);
      MatchIsFirst(sources, sources[0].sourceId, 0);
      assert Settled(sources, sources[0].sourceId);
    }
  }

  lemma DropValid(sources: seq<Source>, sessions: seq<Session>, i: nat)
    requires ValidSessions(sources, sessions) && i < |sessions|
    ensures ValidSessions(sources, sessions[..i] + sessions[i + 1..])
  {
    var rest := sessions[..i] + sessions[i + 1..];
    forall j | 0 <= j < |rest| ensures rest[j] == sessions[if j < i then j else j + 1] {}
  }

  lemma DisconnectedValid(sources: seq<Source>, sessions: seq<Session>, device: string)
    requires ValidSessions(sources, sessions)
    ensures ValidSessions(sources, Disconnected(sources, sessions, device))
  {
    var target := Target(sources, sessions, device);
    if target.Some? {
      var i := FirstOn(sessions, sources[target.value].sourceId);
      if i < |sessions| {
        DropValid(sources, sessions, i);
      }
    }
  }

  lemma DropLater(sessions: seq<Session>, sid: string)
    requires sessions != [] && sessions[0].sourceId != sid
    ensures DropFirstOn(sessions, sid) == [sessions[0]] + DropFirstOn(sessions[1..], sid)
  {
    var i := FirstOn(sessions[1..], sid);
    assert FirstOn(sessions, sid) == i + 1;
    if i + 1 < |sessions| {
      assert sessions[..i + 1] == [sessions[0]] + sessions[1..][..i];
      assert sessions[i + 2..] == sessions[1..][i + 1..];
    }
  }

  lemma CountFirst(x: Session, rest: seq<Session>, sid: string)
    ensures CountOn([x] + rest, sid) == (if x.sourceId == sid then 1 else 0) + CountOn(rest, sid)
  {
    assert ([x] + rest)[1..] == rest;
  }

  lemma {:induction false} CountAfterDrop(sessions: seq<Session>, sid: string, other: string)
    ensures CountOn(DropFirstOn(sessions, sid), other) ==
      CountOn(sessions, other) - if other == sid && CountOn(sessions, sid) > 0 then 1 else 0
  {
    if sessions != [] {
      if sessions[0].sourceId == sid {
        assert DropFirstOn(sessions, sid) == sessions[1..];
      } else {
        DropLater(sessions, sid);
        CountFirst(sessions[0], DropFirstOn(sessions[1..], sid), other);
        CountAfterDrop(sessions[1..], sid, other);
      }
    }
  }

  /** A disconnect lowers the sessions of its source by one when there are any, and leaves other sources alone. */
  lemma DisconnectCounts(sources: seq<Source>, sessions: seq<Session>, device: string, k: nat, other: string)
    requires k < |sources| && Target(sources, sessions, device) == Some(k)
    ensures var sid := sources[k].sourceId;
            CountOn(Disconnected(sources, sessions, device), other) ==
              CountOn(sessions, other) - if other == sid && CountOn(sessions, sid) > 0 then 1 else 0
  {
    CountAfterDrop(sessions, sources[k].sourceId, other);
  }

  /** Two devices on the only source: disconnecting the second takes the first one's session away. */
  lemma OtherSessionDropped()
    ensures var sources := [Source("x", "p:x", true)];
            Run(sources, [], [Connect("a"), Connect("b"), Disconnect("b")]) == [Session("b", "p:x")]
  {
    var sources := [Source("x", "p:x", true)];
    var s1, s2 := [Session("a", "p:x")], [Session("a", "p:x"), Session("b", "p:x")];
    assert Connected(sources, [], "a") == s1;
    assert Lookup(s1[1..], "b") == None && Connected(sources, s1, "b") == s2;
    assert Lookup(s2[1..], "b") == Some("p:x");
    assert Target(sources, s2, "b") == Some(0) && Disconnected(sources, s2, "b") == [Session("b", "p:x")];
    RunThree(sources, [], Connect("a"), Connect("b"), Disconnect("b"));
  }

  lemma RunThree(sources: seq<Source>, sessions: seq<Session>, a: Request, b: Request, c: Request)
    ensures Run(sources, sessions, [a, b, c]) ==
      Serve(sources, Serve(sources, Serve(sources, sessions, a), b), c)
  {
    var s1 := Serve(sources, sessions, a);
    var s2 := Serve(sources, s1, b);
    assert [a, b, c][1..] == [b, c] && [b, c][1..] == [c] && [c][1..] == [];
    assert Run(sources, s1, [b, c]) == Run(sources, s2, [c]);
  }

  ghost predicate DevicesDiffer(sessions: seq<Session>) {
    forall i, j :: 0 <= i < j < |sessions| ==> sessions[i].device != sessions[j].device
  }

  lemma GoneAfterDrop(sessions: seq<Session>, i: nat)
    requires i < |sessions| && DevicesDiffer(sessions)
    ensures Lookup(sessions[..i] + sessions[i + 1..], sessions[i].device).None?
  {
    var rest := sessions[..i] + sessions[i + 1..];
    forall j | 0 <= j < |rest| ensures rest[j].device != sessions[i].device {
      assert rest[j] == sessions[if j < i then j else j + 1];
    }
    if Lookup(rest, sessions[i].device).Some? {
      var _ := LookupIn(rest, sessions[i].device);
    }
  }

  lemma KeptAfterDrop(sessions: seq<Session>, n: nat, i: nat)
    requires n < i < |sessions| && DevicesDiffer(sessions)
    ensures Lookup(sessions[..n] + sessions[n + 1..], sessions[i].device).Some?
  {
    var rest := sessions[..n] + sessions[n + 1..];
    assert rest[i - 1] == sessions[i];
    forall j | 0 <= j < i - 1 ensures rest[j].device != sessions[i].device {
      assert rest[j] == sessions[if j < n then j else j + 1];
    }
    LookupFinds(rest, i - 1);
  }

  // ---------------------------------------------------------------- runs

  datatype Request = Connect(device: string) | Disconnect(device: string)

  function Serve(sources: seq<Source>, sessions: seq<Session>, r: Request): seq<Session> {
    match r
    case Connect(device) => Connected(sources, sessions, device)
    case Disconnect(device) => Disconnected(sources, sessions, device)
  }

  function Run(sources: seq<Source>, sessions: seq<Session>, requests: seq<Request>): seq<Session>
    decreases requests
  {
    if requests == [] then sessions else Run(sources, Serve(sources, sessions, requests[0]), requests[1..])
  }

  /** In every run, sessions lead to listed sources and every mapped device settles on a listed source. */
  lemma {:induction false} RunValid(sources: seq<Source>, sessions: seq<Session>, requests: seq<Request>)
    requires ValidSessions(sources, sessions) && forall i :: 0 <= i < |requests| ==> requests[i].device != ""
    ensures var final := Run(sources, sessions, requests);
            && ValidSessions(sources, final)
            && forall name :: Resolve(sources, final, name).Some? ==> Target(sources, final, name).Some?
    decreases requests
  {
    if requests == [] {
      forall name | Lookup(sessions, name).Some? ensures Match(sources, Lookup(sessions, name).value) < |sources| {
        SessionLeadsToSource(sources, sessions, name);
      }
    } else {
      if requests[0].Connect? {
        ConnectedValid(sources, sessions, requests[0].device);
      } else {
        DisconnectedValid(sources, sessions, requests[0].device);
      }
      RunValid(sources, Serve(sources, sessions, requests[0]), requests[1..]);
    }
  }

  function TargetId(sources: seq<Source>, sessions: seq<Session>, name: string): Option<string> {
    match Target(sources, sessions, name)
    case None => None
    case Some(k) => Some(sources[k].sourceId)
  }

  lemma HopKeepsTarget(sources: seq<Source>, sessions: seq<Session>, name: string)
    requires ValidSessions(sources, sessions) && Resolve(sources, sessions, name).Some?
    ensures var sid := Resolve(sources, sessions, name).value;
            if sid == name then TargetId(sources, sessions, name) == Some(name)
            else
              && Resolve(sources, sessions, sid).Some?
              && TargetId(sources, sessions, sid) == TargetId(sources, sessions, name)
              && Match(sources, sid) <= Match(sources, name)
              && (Match(sources, sid) == Match(sources, name) ==> Resolve(sources, sessions, sid) == Some(sid))
  {
    if Resolve(sources, sessions, name).value == name {
      Stay(sources, sessions, name);
    } else {
      Hop(sources, sessions, name);
    }
  }

  /** The name reached after following resolution `n` times. */
  function Follow(sources: seq<Source>, sessions: seq<Session>, name: string, n: nat): Option<string> {
    if n == 0 then Some(name) else
      match Follow(sources, sessions, name, n - 1)
      case None => None
      case Some(m) => Resolve(sources, sessions, m)
  }

  /** With a fixed list and valid sessions, following a known name reaches its target in a bounded number of hops. */
  lemma {:induction false} FollowSettles(sources: seq<Source>, sessions: seq<Session>, name: string) returns (n: nat)
    requires ValidSessions(sources, sessions) && Resolve(sources, sessions, name).Some?
    ensures n <= Match(sources, name) + 1 && (Resolve(sources, sessions, name) == Some(name) ==> n == 0)
    ensures TargetId(sources, sessions, name).Some?
    ensures Follow(sources, sessions, name, n) == TargetId(sources, sessions, name)
    decreases Match(sources, name), if Resolve(sources, sessions, name) == Some(name) then 0 else 1
  {
    var sid := Resolve(sources, sessions, name).value;
    HopKeepsTarget(sources, sessions, name);
    if sid == name {
      n := 0;
    } else {
      var m := FollowSettles(sources, sessions, sid);
      FollowAfterHop(sources, sessions, name, m);
      n := m + 1;
    }
  }

  lemma {:induction false} FollowAfterHop(sources: seq<Source>, sessions: seq<Session>, name: string, n: nat)
    requires Resolve(sources, sessions, name).Some?
    ensures Follow(sources, sessions, name, n + 1) ==
      Follow(sources, sessions, Resolve(sources, sessions, name).value, n)
  {
    if n > 0 {
      FollowAfterHop(sources, sessions, name, n - 1);
    } else {
      assert Follow(sources, sessions, name, 0) == Some(name);
    }
  }

  // ---------------------------------------------------------------- the daemon

  class DeviceDaemon {
    const sources: seq<Source>
    var sessions: seq<Session>
    var effects: seq<Effect>

    ghost predicate Valid()
      reads this
    {
      && ValidSessions(sources, sessions)
      && forall i :: 0 <= i < |sources| ==> sources[i].sourceId != ""
    }

    constructor (sources: seq<Source>)
      requires forall i :: 0 <= i < |sources| ==> sources[i].sourceId != ""
      ensures Valid() && this.sources == sources && sessions == [] && effects == []
    {
      this.sources, sessions, effects := sources, [], [];
    }

    /** Connects a device; `committed` and `reachable` are the outcomes of activation and verification. */
    method ConnectDevice(name: string, committed: bool, reachable: bool)
      returns (r: Result<(string, string, bool), Error>)
      requires Valid() && name != ""
      modifies this
      ensures Valid() && sessions == Connected(sources, old(sessions), name)
      ensures Target(sources, sessions, name).None? <==> sources == []
      ensures match Target(sources, sessions, name)
              case None => r == Err(NoSource) && effects == old(effects)
              case Some(k) =>
                var sid := sources[k].sourceId;
                if !sources[k].activatable then r == Err(NotActivatable) && effects == old(effects)
                else
                  && r.Ok? && r.value.1 == sid && r.value.2 == (committed && reachable)
                  && effects == old(effects) + [Activated(sid)] +
                       if committed && !reachable then [Deactivated(sid)] else []
      decreases Match(sources, name), if Resolve(sources, sessions, name) == Some(name) then 0 else 1
    {
      var sourceId := Resolve(sources, sessions, name);
      if sourceId.None? {
        if |sources| == 0 {
          return Err(NoSource);
        }
        var primary := sources[0];
        ConnectedValid(sources, sessions, name);
        LookupNone(sessions, name);
        sessions := sessions + [Session(name, primary.sourceId)];
        LookupFinds(sessions, |sessions| - 1);
        Hop(sources, sessions, name);
        r := ConnectDevice(primary.sourceId, committed, reachable);
        return;
      }
      if sourceId.value != name {
        Hop(sources, sessions, name);
        r := ConnectDevice(sourceId.value, committed, reachable);
        return;
      }
      Stay(sources, sessions, name);
      var k := Match(sources, name);
      if !sources[k].activatable {
        return Err(NotActivatable);
      }
      effects := effects + [Activated(name)];
      var logicalId := name;
      if committed && reachable {
        var i := FirstOn(sessions, name);
        if i < |sessions| {
          logicalId := sessions[i].device;
        }
      } else if committed {
        effects := effects + [Deactivated(name)];
      }
      r := Ok((logicalId, name, committed && reachable));
    }

    /** Disconnects a device; `active`: its source is active; `deactivates`: deactivation succeeds. */
    method DisconnectDevice(name: string, active: bool, deactivates: bool) returns (r: Result<(string, string), Error>)
      requires Valid() && name != ""
      modifies this
      ensures Valid() && sessions == Disconnected(sources, old(sessions), name)
      ensures match Target(sources, old(sessions), name)
              case None => r == Err(UnknownDevice) && effects == old(effects)
              case Some(k) =>
                var sid := sources[k].sourceId;
                && r.Ok? && r.value.1 == sid
                && effects == old(effects) + if active && deactivates then [Deactivated(sid)] else []
      decreases Match(sources, name), if Resolve(sources, sessions, name) == Some(name) then 0 else 1
    {
      DisconnectedValid(sources, sessions, name);
      var sourceId := Resolve(sources, sessions, name);
      if sourceId.None? {
        return Err(UnknownDevice);
      }
      if sourceId.value != name {
        Hop(sources, sessions, name);
        r := DisconnectDevice(sourceId.value, active, deactivates);
        return;
      }
      Stay(sources, sessions, name);
      var k := Match(sources, name);
      if active && deactivates {
        effects := effects + [Deactivated(name)];
      }
      var logicalId := name;
      var i := FirstOn(sessions, name);
      if i < |sessions| {
        logicalId := sessions[i].device;
        sessions := sessions[..i] + sessions[i + 1..];
      }
      r := Ok((logicalId, name));
    }
  }
}
