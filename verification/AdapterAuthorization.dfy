/** What the host grants and what each adapter may therefore do. */
module AdapterAuthorization {
  import opened Prelude
  import opened HostAuthorization

  /** What the process can see of its host; the status text is missing when it cannot be read. */
  datatype Host = Host(
    platform: string, status: Option<string>, euid: Option<int>, ipOnPath: bool, resolvectlOnPath: bool)

  datatype Facts = Facts(
    platform: string, euid: Option<int>, effectiveCapabilities: Option<nat>, hasIp: bool, hasResolvectl: bool)

  datatype Blocker = NotLinux | CapabilityUnknown | LacksNetAdmin | NoIp | DnsNeedsRoot | NoResolvectl

  datatype Authorization = Authorization(
    requestedMode: Mode, effectiveMode: Mode, liveActive: bool, capabilities: seq<string>, actions: seq<string>,
    blockers: seq<Blocker>)

  function ReadEffectiveCapabilities(status: string): Option<nat> {
    match CapFrom(status, 0)
    case None => None
    case Some(hex) => Some(HexValue(hex))
  }

  function ProbeHostFacts(host: Host): Facts {
    var linux := host.platform == "linux";
    Facts(host.platform, host.euid,
          if linux && host.status.Some? then ReadEffectiveCapabilities(host.status.value) else None,
          linux && host.ipOnPath, linux && host.resolvectlOnPath)
  }

  const SafeActions := ["health_reprobe", "noop", "degraded_mode", "recovery", "rollback"]

  predicate RoutingAllowed(facts: Facts) {
    && facts.platform == "linux" && facts.hasIp
    && facts.effectiveCapabilities.Some? && HasNetAdmin(facts.effectiveCapabilities.value)
  }

  predicate DnsAllowed(facts: Facts) { RoutingAllowed(facts) && facts.hasResolvectl && facts.euid == Some(0) }

  /** The capabilities a request is granted on these facts. */
  function Granted(mode: Mode, facts: Facts): set<string> {
    {"network.observe"}
    + (if mode == Live && RoutingAllowed(facts) then {"route.write", "connectivity.failover"} else {})
    + (if mode == Live && DnsAllowed(facts) then {"dns.write"} else {})
  }

  /** What stands in the way of some live capability. */
  function Obstacles(mode: Mode, facts: Facts): set<Blocker> {
    if mode != Live then {} else
      (if facts.platform != "linux" then {NotLinux} else {})
      + (if facts.effectiveCapabilities.None? then {CapabilityUnknown} else {})
      + (if facts.effectiveCapabilities.Some? && !HasNetAdmin(facts.effectiveCapabilities.value)
         then {LacksNetAdmin} else {})
      + (if !facts.hasIp then {NoIp} else {})
      + (if RoutingAllowed(facts) && facts.hasResolvectl && facts.euid != Some(0) then {DnsNeedsRoot} else {})
      + (if RoutingAllowed(facts) && !facts.hasResolvectl then {NoResolvectl} else {})
  }

  lemma ElementsAppend<T>(xs: seq<T>, x: T)
    ensures Elements(xs + [x]) == Elements(xs) + {x}
  {
    forall y ensures y in Elements(xs + [x]) <==> y in Elements(xs) + {x} {}
  }

  function CapabilityList(mode: Mode, facts: Facts): seq<string> {
    ["network.observe"]
    + (if mode == Live && RoutingAllowed(facts) then ["route.write", "connectivity.failover"] else [])
    + (if mode == Live && DnsAllowed(facts) then ["dns.write"] else [])
  }

  function ActionList(mode: Mode, facts: Facts): seq<string> {
    SafeActions
    + (if mode == Live && RoutingAllowed(facts) then ["route_change", "connectivity_failover"] else [])
    + (if mode == Live && DnsAllowed(facts) then ["dns_switch"] else [])
  }

  /** Blockers found before routing is decided. */
  method RoutingBlockers(facts: Facts) returns (blockers: seq<Blocker>)
    ensures Elements(blockers) == Obstacles(Live, facts) - {DnsNeedsRoot, NoResolvectl}
  {
    blockers := [];
    if facts.platform != "linux" {
      blockers := blockers + [NotLinux];
    }
    if facts.effectiveCapabilities.None? {
      blockers := blockers + [CapabilityUnknown];
    } else if !HasNetAdmin(facts.effectiveCapabilities.value) {
      blockers := blockers + [LacksNetAdmin];
    }
    if !facts.hasIp {
      blockers := blockers + [NoIp];
    }
  }

  method AuthorizeHost(mode: Mode, facts: Facts) returns (a: Authorization)
    ensures a.requestedMode == mode
    ensures a.capabilities == CapabilityList(mode, facts) && a.actions == ActionList(mode, facts)
    ensures Elements(a.capabilities) == Granted(mode, facts) && Elements(a.blockers) == Obstacles(mode, facts)
    ensures a.liveActive <==> "route.write" in a.capabilities
    ensures a.effectiveMode == (if mode == Live && !a.liveActive then Safe else mode)
  {
    var blockers: seq<Blocker> := [];
    var capabilities, actions := ["network.observe"], SafeActions;
    if mode == Live {
      blockers := RoutingBlockers(facts);
      var routingAllowed := RoutingAllowed(facts);
      if routingAllowed {
        capabilities := capabilities + ["route.write", "connectivity.failover"];
        actions := actions + ["route_change", "connectivity_failover"];
      }
      if routingAllowed && facts.hasResolvectl && facts.euid == Some(0) {
        capabilities := capabilities + ["dns.write"];
        actions := actions + ["dns_switch"];
      } else if routingAllowed {
        var blocker := if facts.hasResolvectl then DnsNeedsRoot else NoResolvectl;
        ElementsAppend(blockers, blocker);
        blockers := blockers + [blocker];
      }
      assert Elements(blockers) == Obstacles(Live, facts);
    }
    var liveActive := mode == Live && "route.write" in capabilities;
    var effectiveMode := if mode == Live && !liveActive then Safe else mode;
    a := Authorization(mode, effectiveMode, liveActive, capabilities, actions, blockers);
  }

  // ---------------------------------------------------------------- adapters

  datatype Adapter = Adapter(id: string, capabilities: seq<string>, supportsLive: bool)

  datatype Effective = LiveAuthorized | HostBlocked | SafeOnly

  predicate EndsWith(s: string, suffix: string) { |suffix| <= |s| && s[|s| - |suffix|..] == suffix }

  predicate IsPrivileged(capability: string) { capability != "network.observe" && !EndsWith(capability, ".read") }

  function Lacks(granted: set<string>): string -> bool { (c: string) => IsPrivileged(c) && c !in granted }

  /** The privileged capabilities an adapter needs and is not granted, in its own order. */
  function Missing(adapter: Adapter, granted: set<string>): seq<string> { Filter(adapter.capabilities, Lacks(granted)) }

  function Classify(adapter: Adapter, liveActive: bool, granted: set<string>): Effective {
    if !adapter.supportsLive then SafeOnly
    else if liveActive && Missing(adapter, granted) == [] then LiveAuthorized
    else HostBlocked
  }

  function ClassifyAdapters(adapters: seq<Adapter>, a: Authorization): seq<Effective> {
    seq(|adapters|, i requires 0 <= i < |adapters| => Classify(adapters[i], a.liveActive, Elements(a.capabilities)))
  }

  /** From environment and host to every adapter's effective authorization, in order. */
  method Authorize(env: Environment, host: Host, adapters: seq<Adapter>) returns (r: Result<seq<Effective>, ModeError>)
    ensures r.Err? ==> forall adapter :: EndToEnd(env, host, adapter) == Err(r.error)
    ensures r.Ok? ==> |r.value| == |adapters|
    ensures r.Ok? ==> forall i :: 0 <= i < |adapters| ==> EndToEnd(env, host, adapters[i]) == Ok(r.value[i])
  {
    var mode := ResolveRuntimeMode(env);
    if mode.Err? {
      return Err(mode.error);
    }
    var a := AuthorizeHost(mode.value, ProbeHostFacts(host));
    r := Ok(ClassifyAdapters(adapters, a));
  }

  function EndToEnd(env: Environment, host: Host, adapter: Adapter): Result<Effective, ModeError> {
    match ResolveRuntimeMode(env)
    case Err(e) => Err(e)
    case Ok(mode) =>
      var granted := Granted(mode, ProbeHostFacts(host));
      Ok(Classify(adapter, "route.write" in granted, granted))
  }

  /** The first capability line of the status text has an odd fourth digit from the right. */
  ghost predicate HoldsNetAdmin(status: string) {
    exists p, hex :: FirstLine(status, 0, p, hex) && OddFourthDigit(hex)
  }

  ghost predicate HostPermits(host: Host) {
    host.platform == "linux" && host.ipOnPath && host.status.Some? && HoldsNetAdmin(host.status.value)
  }

  lemma {:induction false} NetAdminFromText(status: string)
    ensures HoldsNetAdmin(status) <==>
      ReadEffectiveCapabilities(status).Some? && HasNetAdmin(ReadEffectiveCapabilities(status).value)
  {
    CapFromFirst(status, 0);
    if CapFrom(status, 0).Some? {
      NetAdminDigit(CapFrom(status, 0).value);
      var q :| FirstLine(status, 0, q, CapFrom(status, 0).value);
      forall p, hex | FirstLine(status, 0, p, hex) ensures hex == CapFrom(status, 0).value {
        assert p == q;
        CapAtCharacterization(status, p, hex);
        CapAtCharacterization(status, p, CapFrom(status, 0).value);
      }
    }
  }

  lemma RoutingIsPermitted(host: Host)
    ensures RoutingAllowed(ProbeHostFacts(host)) <==> HostPermits(host)
  {
    if host.status.Some? {
      NetAdminFromText(host.status.value);
    }
  }

  /** A permitting host also lets the daemon switch DNS. */
  predicate DnsPermitted(host: Host) { host.resolvectlOnPath && host.euid == Some(0) }

  /** The privileged capabilities a permitting host grants. */
  predicate Grantable(host: Host, c: string) {
    || c == "route.write" || c == "connectivity.failover"
    || (c == "dns.write" && DnsPermitted(host))
  }

  /** An adapter that declares live support is live exactly when operator, host and platform all agree. */
  lemma LiveExactlyWhen(env: Environment, host: Host, adapter: Adapter)
    requires adapter.supportsLive
    ensures EndToEnd(env, host, adapter) == Ok(LiveAuthorized) <==>
      && OptedIn(env) && HostPermits(host)
      && forall c :: c in adapter.capabilities && IsPrivileged(c) ==> Grantable(host, c)
  {
    LiveNeedsBothOptIns(env);
    RoutingIsPermitted(host);
    if OptedIn(env) && HostPermits(host) {
      var granted := Granted(Live, ProbeHostFacts(host));
      forall c | IsPrivileged(c) ensures c in granted <==> Grantable(host, c) {}
      MissingIsEmpty(adapter, granted);
    }
  }

  /**
   * An adapter is classified whenever a mode is resolved: as safe-only exactly without declared live
   * support, and as blocked by the host exactly when it declares live support but is not live.
   */
  lemma ClassifiedExactly(env: Environment, host: Host, adapter: Adapter)
    ensures var e := EndToEnd(env, host, adapter);
            && (e.Err? ==> ResolveRuntimeMode(env) == Err(e.error))
            && (e.Ok? <==> ResolveRuntimeMode(env).Ok?)
            && (e == Ok(SafeOnly) <==> e.Ok? && !adapter.supportsLive)
            && (e == Ok(HostBlocked) <==>
                 && e.Ok? && adapter.supportsLive
                 && !(OptedIn(env) && HostPermits(host) &&
                      forall c :: c in adapter.capabilities && IsPrivileged(c) ==> Grantable(host, c)))
  {
    if adapter.supportsLive {
      LiveExactlyWhen(env, host, adapter);
    }
  }

  /**
   * The five safe actions are always allowed, route changes and failover in live mode on a permitting
   * host, and switching DNS if that host also has `resolvectl` and the daemon is root; nothing else.
   */
  lemma ActionsExactly(mode: Mode, host: Host)
    ensures forall a :: a in ActionList(mode, ProbeHostFacts(host)) <==>
      || a in {"health_reprobe", "noop", "degraded_mode", "recovery", "rollback"}
      || (mode == Live && HostPermits(host) && a in {"route_change", "connectivity_failover"})
      || (mode == Live && HostPermits(host) && DnsPermitted(host) && a == "dns_switch")
    ensures forall c :: c in CapabilityList(mode, ProbeHostFacts(host)) <==>
      || c == "network.observe"
      || (mode == Live && HostPermits(host) && c in {"route.write", "connectivity.failover"})
      || (mode == Live && HostPermits(host) && DnsPermitted(host) && c == "dns.write")
  {
    RoutingIsPermitted(host);
  }

  /** The status text can be read and has a capability line. */
  ghost predicate ShowsCapabilities(host: Host) {
    host.platform == "linux" && host.status.Some? && exists p, hex :: CapLine(host.status.value, p, hex)
  }

  /** Each blocker of a live request, from the host alone. */
  lemma BlockersExactly(host: Host)
    ensures var blockers := Obstacles(Live, ProbeHostFacts(host));
            && (NotLinux in blockers <==> host.platform != "linux")
            && (CapabilityUnknown in blockers <==> !ShowsCapabilities(host))
            && (LacksNetAdmin in blockers <==> ShowsCapabilities(host) && !HoldsNetAdmin(host.status.value))
            && (NoIp in blockers <==> host.platform != "linux" || !host.ipOnPath)
            && (DnsNeedsRoot in blockers <==>
                 HostPermits(host) && host.resolvectlOnPath && host.euid != Some(0))
            && (NoResolvectl in blockers <==> HostPermits(host) && !host.resolvectlOnPath)
  {
    RoutingIsPermitted(host);
    if host.status.Some? {
      NetAdminFromText(host.status.value);
      CapFromFirst(host.status.value, 0);
      if CapFrom(host.status.value, 0).Some? {
        var q :| FirstLine(host.status.value, 0, q, CapFrom(host.status.value, 0).value);
        assert CapLine(host.status.value, q, CapFrom(host.status.value, 0).value);
      }
    }
  }

  lemma MissingIsEmpty(adapter: Adapter, granted: set<string>)
    ensures Missing(adapter, granted) == [] <==>
      forall c :: c in adapter.capabilities && IsPrivileged(c) ==> c in granted
  {
    var missing := Missing(adapter, granted);
    if missing != [] {
      assert missing[0] in missing;
    }
    forall c | c in adapter.capabilities && Lacks(granted)(c) ensures missing != [] {
      assert c in missing;
    }
  }

  // ---------------------------------------------------------------- monotonicity and blockers

  /** `b` offers everything `a` does. */
  ghost predicate AtLeast(a: Facts, b: Facts) {
    && (a.platform == "linux" ==> b.platform == "linux")
    && (a.euid == Some(0) ==> b.euid == Some(0))
    && (a.hasIp ==> b.hasIp) && (a.hasResolvectl ==> b.hasResolvectl)
    && (a.effectiveCapabilities.Some? && HasNetAdmin(a.effectiveCapabilities.value) ==>
         b.effectiveCapabilities.Some? && HasNetAdmin(b.effectiveCapabilities.value))
  }

  /** More host facts never take a capability or an adapter's live authorization away. */
  lemma GrantsAreMonotone(mode: Mode, a: Facts, b: Facts, adapter: Adapter)
    requires AtLeast(a, b)
    ensures Granted(mode, a) <= Granted(mode, b)
    ensures var ga, gb := Granted(mode, a), Granted(mode, b);
            Classify(adapter, "route.write" in ga, ga) == LiveAuthorized ==>
              Classify(adapter, "route.write" in gb, gb) == LiveAuthorized
  {
    MissingIsEmpty(adapter, Granted(mode, a));
    MissingIsEmpty(adapter, Granted(mode, b));
  }

  /** A live request has no blockers exactly when even DNS writes are granted, and one whenever routing is refused. */
  lemma NoBlockersExactlyWhen(facts: Facts)
    ensures Obstacles(Live, facts) == {} <==> "dns.write" in Granted(Live, facts)
    ensures "route.write" !in Granted(Live, facts) ==> Obstacles(Live, facts) != {}
  {
  }
}
