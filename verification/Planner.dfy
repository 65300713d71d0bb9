/** The planner: which steps bring a reading of the account to what the user asked for, as far as
    they concern tunnels and DNS records. */
module Planner {
  import opened Characters
  import opened CloudAccount
  import opened Histories
  import opened Ingress
  import opened Plans
  import opened Wrappers

  datatype OwnTunnel = OwnTunnel(id: nat, name: string, version: nat, ingress: seq<Rule>)

  datatype Observed = Observed(id: nat, record: Record, owned: bool)

  datatype Elsewhere = Elsewhere(hostname: string, path: Option<string>)

  /** A reading of the account: this machine's tunnel, the records, the zone of each hostname, the
      routes of the machine's other tunnels, and the name a new tunnel would get. */
  datatype Snapshot = Snapshot(tunnel: Option<OwnTunnel>, records: seq<Observed>, zone: string -> Option<string>,
                               elsewhere: seq<Elsewhere>, freshName: string)

  datatype Route = Route(hostname: string, path: Option<string>, service: string, options: string, id: string, web: bool) {
    function Rule(): Rule {
      Ingress.Rule(Some(hostname), path, service, options)
    }
  }

  datatype Intent = AddRoute(route: Route) | RemoveRoute(hostname: string, path: Option<string>) | RemoveTunnel

  datatype PlanError = NoZone | RouteExists | NoSuchRoute | NoTunnel | RoutedElsewhere

  datatype Planned = Plan(steps: seq<Step>) | Refusal(error: PlanError)

  // ----- What is read off the snapshot -----

  function Current(s: Snapshot): seq<Rule> {
    if s.tunnel.Some? then s.tunnel.value.ingress else []
  }

  function Routes(s: Snapshot): seq<Rule> {
    WithHosts(Current(s))
  }

  predicate SameRoute(r: Rule, hostname: string, path: Option<string>) {
    r.hostname == Some(hostname) && r.path == path
  }

  function Find(rules: seq<Rule>, hostname: string, path: Option<string>): Option<Rule> {
    if rules == [] then None
    else if SameRoute(rules[0], hostname, path) then Some(rules[0])
    else Find(rules[1..], hostname, path)
  }

  function Others(rules: seq<Rule>, hostname: string, path: Option<string>): seq<Rule> {
    if rules == [] then []
    else (if SameRoute(rules[0], hostname, path) then [] else [rules[0]]) + Others(rules[1..], hostname, path)
  }

  function Chosen(records: seq<Observed>, want: Observed -> bool): seq<Observed> {
    if records == [] then []
    else Chosen(Init(records), want) + if want(Last(records)) then [Last(records)] else []
  }

  /** The records a hostname resolves by. */
  function Resolving(hostname: string): Observed -> bool {
    (o: Observed) => Same(o.record.name, hostname) && o.record.kind in {"A", "AAAA", CNAME}
  }

  /** The records Teitunnel made for a hostname that point at the tunnel. */
  function OwnPointing(hostname: string, id: nat): Observed -> bool {
    (o: Observed) => Same(o.record.name, hostname) && o.record.content == Tunnel(id) && o.owned
  }

  function Inserted(names: seq<string>, name: string): seq<string> {
    if names == [] || Less(name, names[0]) then [name] + names
    else if name == names[0] then names
    else [names[0]] + Inserted(names[1..], name)
  }

  /** The hostnames of the rules, each once, in order. */
  function Hostnames(rules: seq<Rule>): seq<string> {
    if rules == [] then []
    else
      var before := Hostnames(Init(rules));
      if Last(rules).hostname.Some? then Inserted(before, Last(rules).hostname.value) else before
  }

  // ----- The steps -----

  function TunnelFor(s: Snapshot): TunnelRef {
    if s.tunnel.Some? then Existing(s.tunnel.value.id) else NewTunnel
  }

  function TunnelSteps(s: Snapshot): seq<Step> {
    if s.tunnel.Some? then [] else [CreateTunnel(s.freshName)]
  }

  function ConfigSteps(s: Snapshot, desired: seq<Rule>): seq<Step> {
    if SortIngress(desired) == Current(s) then []
    else [PutConfig(TunnelFor(s), SortIngress(desired), if s.tunnel.Some? then Some(s.tunnel.value.version) else None, Current(s))]
  }

  function Deletions(found: seq<Observed>): seq<Step> {
    seq(|found|, i requires 0 <= i < |found| => DeleteRecord(found[i].id, found[i].record))
  }

  /** The records already are what they should be: one, proxied, at the tunnel. */
  predicate AlreadyOurs(s: Snapshot, found: seq<Observed>) {
    |found| == 1 && s.tunnel.Some? && found[0].record.content == Tunnel(s.tunnel.value.id) && found[0].record.proxied
  }

  function DnsSteps(s: Snapshot, zone: string, hostname: string, route: string): seq<Step> {
    var found := Chosen(s.records, Resolving(hostname));
    if AlreadyOurs(s, found) then []
    else if found == [] then [CreateRecord(zone, hostname, TunnelFor(s), route)]
    else [UpdateRecord(zone, found[0].id, hostname, TunnelFor(s), route, found[0].record)] + Deletions(found[1..])
  }

  function ReleaseSteps(s: Snapshot, hostname: string, id: nat): seq<Step> {
    Deletions(Chosen(s.records, OwnPointing(hostname, id)))
  }

  function ReleaseAll(s: Snapshot, hostnames: seq<string>, id: nat): seq<Step> {
    if hostnames == [] then [] else ReleaseAll(s, Init(hostnames), id) + ReleaseSteps(s, Last(hostnames), id)
  }

  function VerifySteps(route: Route): seq<Step> {
    if route.web then [Verify(route.hostname)] else []
  }

  /** A plan that only verifies has nothing to apply. */
  function Finished(steps: seq<Step>): seq<Step> {
    if exists i :: 0 <= i < |steps| && !steps[i].Verify? then steps else []
  }

  function AddSteps(s: Snapshot, route: Route, zone: string): seq<Step> {
    TunnelSteps(s)
    + (if Find(Routes(s), route.hostname, route.path).Some? then [] else ConfigSteps(s, Routes(s) + [route.Rule()]))
    + DnsSteps(s, zone, route.hostname, route.id)
    + VerifySteps(route)
  }

  function PlanAdd(s: Snapshot, route: Route): Planned {
    var zone, existing := s.zone(route.hostname), Find(Routes(s), route.hostname, route.path);
    if zone.None? then Refusal(NoZone)
    else if Elsewhere(route.hostname, route.path) in s.elsewhere then Refusal(RoutedElsewhere)
    else if existing.Some? && existing.value != route.Rule() then Refusal(RouteExists)
    else Plan(Finished(AddSteps(s, route, zone.value)))
  }

  /** The hostname's records are released unless another rule still uses it. */
  function ReleaseUnused(s: Snapshot, desired: seq<Rule>, hostname: string): seq<Step>
    requires s.tunnel.Some?
  {
    if exists i :: 0 <= i < |desired| && desired[i].hostname == Some(hostname) then []
    else ReleaseSteps(s, hostname, s.tunnel.value.id)
  }

  function RemoveSteps(s: Snapshot, hostname: string, path: Option<string>): seq<Step>
    requires s.tunnel.Some?
  {
    var desired := Others(Routes(s), hostname, path);
    ConfigSteps(s, desired) + ReleaseUnused(s, desired, hostname)
  }

  function PlanRemove(s: Snapshot, hostname: string, path: Option<string>): Planned {
    if s.tunnel.None? then Refusal(NoTunnel)
    else if Find(Routes(s), hostname, path).None? then Refusal(NoSuchRoute)
    else Plan(Finished(RemoveSteps(s, hostname, path)))
  }

  function RemoveTunnelSteps(s: Snapshot): seq<Step>
    requires s.tunnel.Some?
  {
    var id := s.tunnel.value.id;
    (if Routes(s) != [] then ConfigSteps(s, []) else [])
    + ReleaseAll(s, Hostnames(Routes(s)), id)
    + [DeleteTunnel(id)]
  }

  function PlanFor(intent: Intent, s: Snapshot): Planned {
    match intent
    case AddRoute(route) => PlanAdd(s, route)
    case RemoveRoute(hostname, path) => PlanRemove(s, hostname, path)
    case RemoveTunnel => if s.tunnel.None? then Refusal(NoTunnel) else Plan(Finished(RemoveTunnelSteps(s)))
  }

  // ----- The builder -----

  class Builder {
    const s: Snapshot
    var steps: seq<Step>

    constructor (s: Snapshot)
      ensures this.s == s && steps == []
    {
      this.s, steps := s, [];
    }

    method EnsureTunnel() returns (tunnel: TunnelRef)
      modifies this
      ensures tunnel == TunnelFor(s) && steps == old(steps) + TunnelSteps(s)
    {
      if s.tunnel.Some? {
        return Existing(s.tunnel.value.id);
      }
      steps := steps + [CreateTunnel(s.freshName)];
      return NewTunnel;
    }

    method WriteConfig(tunnel: TunnelRef, desired: seq<Rule>)
      requires tunnel == TunnelFor(s)
      modifies this
      ensures steps == old(steps) + ConfigSteps(s, desired)
    {
      var current := Current(s);
      var wanted := SortIngress(desired);
      if wanted != current {
        steps := steps + [PutConfig(tunnel, wanted, if s.tunnel.Some? then Some(s.tunnel.value.version) else None, current)];
      }
    }

    method DeleteAll(found: seq<Observed>)
      modifies this
      ensures steps == old(steps) + Deletions(found)
    {
      ghost var before := steps;
      for i := 0 to |found|
        invariant steps == before + Deletions(found)[..i]
      {
        assert Deletions(found)[..i + 1] == Deletions(found)[..i] + [Deletions(found)[i]];
        steps := steps + [DeleteRecord(found[i].id, found[i].record)];
      }
      assert Deletions(found)[..|found|] == Deletions(found);
    }

    method EnsureDns(zone: string, hostname: string, tunnel: TunnelRef, route: string)
      requires tunnel == TunnelFor(s)
      modifies this
      ensures steps == old(steps) + DnsSteps(s, zone, hostname, route)
    {
      var found := Chosen(s.records, Resolving(hostname));
      if AlreadyOurs(s, found) {
        return;
      }
      if found == [] {
        steps := steps + [CreateRecord(zone, hostname, tunnel, route)];
        return;
      }
      steps := steps + [UpdateRecord(zone, found[0].id, hostname, tunnel, route, found[0].record)];
      DeleteAll(found[1..]);
    }

    method ReleaseDns(hostname: string, id: nat)
      modifies this
      ensures steps == old(steps) + ReleaseSteps(s, hostname, id)
    {
      var matching := Chosen(s.records, OwnPointing(hostname, id));
      DeleteAll(matching);
    }

    method VerifyRoute(route: Route)
      modifies this
      ensures steps == old(steps) + VerifySteps(route)
    {
      if route.web {
        steps := steps + [Verify(route.hostname)];
      }
    }

    method Add(route: Route) returns (planned: Planned)
      requires steps == []
      modifies this
      ensures planned == PlanAdd(s, route)
    {
      hide TunnelSteps, ConfigSteps, DnsSteps, VerifySteps, Finished, Find, Routes;
      var zone := s.zone(route.hostname);
      if zone.None? {
        return Refusal(NoZone);
      }
      if Elsewhere(route.hostname, route.path) in s.elsewhere {
        return Refusal(RoutedElsewhere);
      }
      var existing := Find(Routes(s), route.hostname, route.path);
      if existing.Some? && existing.value != route.Rule() {
        return Refusal(RouteExists);
      }
      var tunnel := EnsureTunnel();
      if existing.None? {
        WriteConfig(tunnel, Routes(s) + [route.Rule()]);
      }
      EnsureDns(zone.value, route.hostname, tunnel, route.id);
      VerifyRoute(route);
      assert [] + TunnelSteps(s) == TunnelSteps(s) && TunnelSteps(s) + [] == TunnelSteps(s);
      assert steps == AddSteps(s, route, zone.value);
      return Plan(Finished(steps));
    }

    method Remove(hostname: string, path: Option<string>) returns (planned: Planned)
      requires steps == []
      modifies this
      ensures planned == PlanRemove(s, hostname, path)
    {
      if s.tunnel.None? {
        return Refusal(NoTunnel);
      }
      var existing := Find(Routes(s), hostname, path);
      if existing.None? {
        return Refusal(NoSuchRoute);
      }
      var desired := Others(Routes(s), hostname, path);
      WriteConfig(Existing(s.tunnel.value.id), desired);
      if !(exists i :: 0 <= i < |desired| && desired[i].hostname == Some(hostname)) {
        ReleaseDns(hostname, s.tunnel.value.id);
      }
      assert steps == RemoveSteps(s, hostname, path);
      return Plan(Finished(steps));
    }

    method TakeDown() returns (planned: Planned)
      requires steps == []
      modifies this
      ensures planned == PlanFor(RemoveTunnel, s)
    {
      if s.tunnel.None? {
        return Refusal(NoTunnel);
      }
      var id, hostnames := s.tunnel.value.id, Hostnames(Routes(s));
      if Routes(s) != [] {
        WriteConfig(Existing(id), []);
      }
      ghost var before := steps;
      for i := 0 to |hostnames|
        invariant steps == before + ReleaseAll(s, hostnames[..i], id)
      {
        assert Init(hostnames[..i + 1]) == hostnames[..i] && Last(hostnames[..i + 1]) == hostnames[i];
        ReleaseDns(hostnames[i], id);
      }
      assert hostnames[..|hostnames|] == hostnames;
      steps := steps + [DeleteTunnel(id)];
      assert steps == RemoveTunnelSteps(s);
      return Plan(Finished(steps));
    }
  }

  method MakePlan(intent: Intent, s: Snapshot) returns (planned: Planned)
    ensures planned == PlanFor(intent, s)
  {
    var b := new Builder(s);
    match intent {
      case AddRoute(route) => planned := b.Add(route);
      case RemoveRoute(hostname, path) => planned := b.Remove(hostname, path);
      case RemoveTunnel => planned := b.TakeDown();
    }
  }
}
