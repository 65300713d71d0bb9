/** What the planner's requests do to an account once their plan was applied, and when they are
    refused, told in terms of the rules and records alone. */
module RouteLaws {
  import opened Accuracy
  import opened Characters
  import opened CloudAccount
  import opened Convergence
  import opened Executor
  import opened Histories
  import opened Ingress
  import opened Meaning
  import opened Planner
  import opened Plans
  import opened Readings
  import opened RecordCounts
  import opened Sequences
  import opened Wrappers

  /** The rules of this machine's tunnel as they were read. */
  function RulesRead(s: Snapshot): seq<Rule> {
    match s.tunnel
    case Some(tunnel) => tunnel.ingress
    case None => []
  }

  /** Rule `i` is the first with the hostname and the path. */
  predicate FirstAt(rules: seq<Rule>, i: nat, hostname: string, path: Option<string>) {
    && i < |rules| && rules[i].hostname == Some(hostname) && rules[i].path == path
    && forall j :: 0 <= j < i ==> rules[j].hostname != Some(hostname) || rules[j].path != path
  }

  // ----- Looking rules up -----

  lemma {:induction false} FindFirst(rules: seq<Rule>, hostname: string, path: Option<string>)
    ensures Find(rules, hostname, path).None?
            <==> forall i :: 0 <= i < |rules| ==> rules[i].hostname != Some(hostname) || rules[i].path != path
    ensures Find(rules, hostname, path).Some? ==>
              exists i: nat :: FirstAt(rules, i, hostname, path) && rules[i] == Find(rules, hostname, path).value
  {
    if rules != [] {
      FindFirst(rules[1..], hostname, path);
      assert forall i :: 0 <= i < |rules| - 1 ==> rules[1..][i] == rules[i + 1];
      if SameRoute(rules[0], hostname, path) {
        assert FirstAt(rules, 0, hostname, path);
      } else if Find(rules, hostname, path).Some? {
        var i: nat :| FirstAt(rules[1..], i, hostname, path) && rules[1..][i] == Find(rules, hostname, path).value;
        assert FirstAt(rules, i + 1, hostname, path);
      } else {
        assert forall i :: 0 < i < |rules| ==> rules[i] == rules[1..][i - 1];
      }
    }
  }

  lemma FirstIsOne(rules: seq<Rule>, i: nat, j: nat, hostname: string, path: Option<string>)
    requires FirstAt(rules, i, hostname, path) && FirstAt(rules, j, hostname, path)
    ensures i == j
  {
  }

  lemma {:induction false} FindConcat(a: seq<Rule>, b: seq<Rule>, hostname: string, path: Option<string>)
    ensures Find(a + b, hostname, path)
            == if Find(a, hostname, path).Some? then Find(a, hostname, path) else Find(b, hostname, path)
  {
    if a == [] {
      assert a + b == b;
    } else {
      Tail(a, b);
      FindConcat(a[1..], b, hostname, path);
    }
  }

  lemma {:induction false} FindAmongHosts(rules: seq<Rule>, hostname: string, path: Option<string>)
    ensures Find(WithHosts(rules), hostname, path) == Find(rules, hostname, path)
  {
    if rules != [] {
      var before, last := Init(rules), Last(rules);
      FindAmongHosts(before, hostname, path);
      assert rules == before + [last];
      FindConcat(before, [last], hostname, path);
      FindConcat(WithHosts(before), if last.hostname.Some? then [last] else [], hostname, path);
      assert [last][1..] == [];
    }
  }

  lemma {:induction false} HostsCount(rules: seq<Rule>, r: Rule)
    ensures multiset(WithHosts(rules))[r] == if r.hostname.Some? then multiset(rules)[r] else 0
  {
    if rules != [] {
      HostsCount(Init(rules), r);
      assert rules == Init(rules) + [Last(rules)];
    }
  }

  lemma {:induction false} OthersCount(rules: seq<Rule>, hostname: string, path: Option<string>, r: Rule)
    ensures multiset(Others(rules, hostname, path))[r]
            == if r.hostname == Some(hostname) && r.path == path then 0 else multiset(rules)[r]
  {
    if rules != [] {
      OthersCount(rules[1..], hostname, path, r);
      assert rules == [rules[0]] + rules[1..];
    }
  }

  /** What is written holds the rules with a hostname, and the catch-all at its end. */
  ghost predicate Written(ingress: seq<Rule>) {
    && ingress != [] && Last(ingress) == Rule(None, None, "http_status:404", "")
    && forall i :: 0 <= i < |ingress| - 1 ==> ingress[i].hostname.Some?
  }

  lemma SortedCount(rules: seq<Rule>, r: Rule)
    requires r.hostname.Some?
    ensures multiset(SortIngress(rules))[r] == multiset(rules)[r]
    ensures Written(SortIngress(rules))
  {
    var out := SortIngress(rules);
    SortIngressIs(rules);
    HostsCount(rules, r);
    hide SortIngress, WithHosts;
    assert out == Init(out) + [Last(out)];
    assert multiset(out) == multiset(Init(out)) + multiset{CATCH_ALL};
  }

  // ----- What is refused -----

  /** Adding a route is refused, in this order, if its hostname is in no zone, if another tunnel of the
      machine serves hostname and path, and if the first rule with both is another route. */
  lemma AddRefused(route: Route, s: Snapshot)
    ensures var planned, rules := PlanFor(AddRoute(route), s), RulesRead(s);
            var elsewhere := Elsewhere(route.hostname, route.path) in s.elsewhere;
            var taken := exists i: nat :: FirstAt(rules, i, route.hostname, route.path)
                                          && (rules[i].service != route.service || rules[i].options != route.options);
            && (planned == Refusal(NoZone) <==> s.zone(route.hostname) == None)
            && (planned == Refusal(RoutedElsewhere) <==> s.zone(route.hostname) != None && elsewhere)
            && (planned == Refusal(RouteExists) <==> s.zone(route.hostname) != None && !elsewhere && taken)
            && (planned.Plan? <==> s.zone(route.hostname) != None && !elsewhere && !taken)
  {
    var rules, h, p := RulesRead(s), route.hostname, route.path;
    FindAmongHosts(rules, h, p);
    FindFirst(rules, h, p);
    var found := Find(Routes(s), h, p);
    assert found == Find(rules, h, p);
    hide Find, WithHosts, AddSteps, Finished;
    if found.Some? {
      var i: nat :| FirstAt(rules, i, h, p) && rules[i] == found.value;
      assert found.value == route.Rule() <==> found.value.service == route.service && found.value.options == route.options;
      forall j: nat | FirstAt(rules, j, h, p)
        ensures j == i
      {
        FirstIsOne(rules, i, j, h, p);
      }
    }
  }

  /** Removing a route is refused without a tunnel, and if no rule has the hostname and the path. */
  lemma RemoveRefused(hostname: string, path: Option<string>, s: Snapshot)
    ensures var planned, rules := PlanFor(RemoveRoute(hostname, path), s), RulesRead(s);
            var there := exists i :: 0 <= i < |rules| && rules[i].hostname == Some(hostname) && rules[i].path == path;
            && (planned == Refusal(NoTunnel) <==> s.tunnel == None)
            && (planned == Refusal(NoSuchRoute) <==> s.tunnel != None && !there)
            && (planned.Plan? <==> s.tunnel != None && there)
  {
    FindAmongHosts(RulesRead(s), hostname, path);
    FindFirst(RulesRead(s), hostname, path);
    hide Find, WithHosts, RemoveSteps, Finished;
  }

  lemma TakeDownRefused(s: Snapshot)
    ensures PlanFor(RemoveTunnel, s) == Refusal(NoTunnel) <==> s.tunnel == None
    ensures PlanFor(RemoveTunnel, s).Plan? <==> s.tunnel != None
  {
    hide RemoveTunnelSteps, Finished;
  }

  // ----- The rules afterwards -----

  /** The tunnels no step configures, creates or deletes are as they were. */
  ghost predicate OthersKept(job: Job, p: Progress, id: nat) {
    forall t :: t in job.start.tunnels && t != id ==>
      && t in p.cloud.tunnels
      && p.cloud.tunnels[t].name == job.start.tunnels[t].name && p.cloud.tunnels[t].ingress == job.start.tunnels[t].ingress
  }

  /** Steps that delete no tunnel and configure at most one. */
  ghost predicate OnlyAt(plan: seq<Step>, tunnel: TunnelRef) {
    forall i :: 0 <= i < |plan| ==> !plan[i].DeleteTunnel? && (plan[i].PutConfig? ==> plan[i].tunnel == tunnel)
  }

  lemma KeptOthers(job: Job, p: Progress, tunnel: TunnelRef, id: nat)
    requires AllDone(job, p) && OnlyAt(job.plan, tunnel) && (tunnel.Existing? ==> tunnel.id == id)
    ensures OthersKept(job, p, id)
    ensures id in job.start.tunnels ==> id in p.cloud.tunnels
  {
    TunnelsOf(job, p);
    hide Sound;
    forall t | t in job.start.tunnels && t != id
      ensures t in p.cloud.tunnels
      ensures p.cloud.tunnels[t].name == job.start.tunnels[t].name && p.cloud.tunnels[t].ingress == job.start.tunnels[t].ingress
    {
      assert ConfiguredAs(job.plan, p.Steps(), Existing(t), job.start.tunnels[t], p.cloud.tunnels[t]);
    }
  }

  lemma RemoveOnlyAt(s: Snapshot, hostname: string, path: Option<string>)
    requires s.tunnel.Some?
    ensures OnlyAt(Finished(RemoveSteps(s, hostname, path)), TunnelFor(s))
  {
    hide SortIngress, Chosen, Others, Routes;
  }

  lemma DesiredCount(s: Snapshot, hostname: string, path: Option<string>, r: Rule)
    requires r.hostname.Some?
    ensures multiset(SortIngress(Others(Routes(s), hostname, path)))[r]
            == if r.hostname == Some(hostname) && r.path == path then 0 else multiset(RulesRead(s))[r]
  {
    SortedCount(Others(Routes(s), hostname, path), r);
    OthersCount(Routes(s), hostname, path, r);
    HostsCount(RulesRead(s), r);
  }

  /** Once a route was removed, its rules are gone from the tunnel, every other rule with a hostname is
      there as often as before, and the catch-all stands last; other tunnels are as they were. */
  lemma RemovedRules(hostname: string, path: Option<string>, s: Snapshot, job: Job, p: Progress)
    requires Tells(s, job.start) && PlanFor(RemoveRoute(hostname, path), s) == Plan(job.plan) && AllDone(job, p)
    ensures s.tunnel.Some? && s.tunnel.value.id in p.cloud.tunnels
    ensures var after := p.cloud.tunnels[s.tunnel.value.id].ingress;
            && Written(after)
            && forall r: Rule :: r.hostname.Some? ==>
                 multiset(after)[r]
                 == if r.hostname == Some(hostname) && r.path == path then 0 else multiset(s.tunnel.value.ingress)[r]
    ensures OthersKept(job, p, s.tunnel.value.id)
  {
    var id, desired := s.tunnel.value.id, Others(Routes(s), hostname, path);
    ReadTunnel(s, job.start);
    RemoveOnlyAt(s, hostname, path);
    hide AllDone, Tells, Find, Finished, RemoveSteps, Others, Written;
    KeptOthers(job, p, TunnelFor(s), id);
    RemoveStepsAre(s, hostname, path);
    var now := p.cloud.tunnels[id];
    ConfiguredNow(job, p, 0, OwnTunnel(id, now.name, now.version, now.ingress));
    assert now.ingress == SortIngress(desired);
    hide SortIngress;
    SortedCount(desired, Rule(Some(hostname), path, "", ""));
    forall r: Rule | r.hostname.Some?
      ensures multiset(now.ingress)[r]
              == if r.hostname == Some(hostname) && r.path == path then 0 else multiset(s.tunnel.value.ingress)[r]
    {
      DesiredCount(s, hostname, path, r);
    }
  }

  lemma AddOnlyAt(s: Snapshot, route: Route, zone: string)
    ensures OnlyAt(Finished(AddSteps(s, route, zone)), TunnelFor(s))
    ensures s.tunnel.None? ==>
              var plan := Finished(AddSteps(s, route, zone)); plan != [] && plan[0] == CreateTunnel(s.freshName)
  {
    hide SortIngress, Chosen, Routes, Find, AlreadyOurs;
    if s.tunnel.None? {
      var steps := AddSteps(s, route, zone);
      assert steps[0] == CreateTunnel(s.freshName) && !steps[0].Verify?;
    }
  }

  /** A tunnel the plan creates is in the account, under the name the reading proposed. */
  lemma NewTunnelIs(job: Job, p: Progress, name: string) returns (id: nat)
    requires AllDone(job, p) && job.plan != [] && job.plan[0] == CreateTunnel(name)
    ensures p.created == Some(id) && id in p.cloud.tunnels && id !in job.start.tunnels && p.cloud.tunnels[id].name == name
  {
    TunnelsOf(job, p);
    assert 0 in p.Steps();
    hide Sound;
    assert Creates(job.plan, p.Steps());
    id := p.created.value;
    assert CreatedAs(job.plan, p.Steps(), p.cloud.tunnels[id]);
    assert ConfiguredAs(job.plan, p.Steps(), NewTunnel, TunnelState(name, [], 0), p.cloud.tunnels[id]);
  }

  /** The tunnel an added route is served by: the machine's, or the new one. */
  lemma ServedBy(route: Route, s: Snapshot, job: Job, p: Progress) returns (id: nat)
    requires Tells(s, job.start) && PlanFor(AddRoute(route), s) == Plan(job.plan) && AllDone(job, p)
    ensures s.tunnel.Some? ==> id == s.tunnel.value.id
    ensures s.tunnel.None? ==> p.created == Some(id) && id in p.cloud.tunnels && p.cloud.tunnels[id].name == s.freshName
    ensures id in p.cloud.tunnels && Resolve(p.created, TunnelFor(s)) == Some(id)
    ensures s.tunnel.Some? <==> id in job.start.tunnels
    ensures OthersKept(job, p, id)
  {
    AddPlanned(route, s, job.plan);
    AddOnlyAt(s, route, s.zone(route.hostname).value);
    ReadOwn(s, job.start);
    hide AllDone, Tells, AddSteps, Finished, OthersKept;
    if s.tunnel.None? {
      id := NewTunnelIs(job, p, s.freshName);
    } else {
      id := s.tunnel.value.id;
    }
    KeptOthers(job, p, TunnelFor(s), id);
  }

  lemma NewRuleWritten(route: Route, s: Snapshot, zone: string, job: Job, p: Progress, id: nat)
    requires job.plan == Finished(AddSteps(s, route, zone)) && AllDone(job, p)
    requires Find(Routes(s), route.hostname, route.path).None?
    requires id in p.cloud.tunnels && Resolve(p.created, TunnelFor(s)) == Some(id) && (s.tunnel.Some? ==> id in job.start.tunnels)
    ensures p.cloud.tunnels[id].ingress == SortIngress(Routes(s) + [route.Rule()])
  {
    hide AllDone, Find, SortIngress, DnsSteps, VerifySteps, WithHosts, Finished;
    var before, desired := TunnelSteps(s), Routes(s) + [route.Rule()];
    var after := DnsSteps(s, zone, route.hostname, route.id) + VerifySteps(route);
    NewRuleFound(s, route);
    ConfigAmong(s, before, desired, after);
    Assoc(before + ConfigSteps(s, desired), DnsSteps(s, zone, route.hostname, route.id), VerifySteps(route));
    assert AddSteps(s, route, zone) == before + ConfigSteps(s, desired) + after;
    var now := p.cloud.tunnels[id];
    ConfiguredNow(job, p, |before|, OwnTunnel(id, now.name, now.version, now.ingress));
  }

  lemma OldRulesKept(route: Route, s: Snapshot, zone: string, job: Job, p: Progress)
    requires Tells(s, job.start) && job.plan == Finished(AddSteps(s, route, zone)) && AllDone(job, p)
    requires Find(Routes(s), route.hostname, route.path).Some?
    ensures s.tunnel.Some?
    ensures s.tunnel.value.id in p.cloud.tunnels ==> p.cloud.tunnels[s.tunnel.value.id].ingress == s.tunnel.value.ingress
  {
    ReadOwn(s, job.start);
    hide AllDone, Tells, Find, WithHosts, AddSteps, Finished;
    NoConfig(s, route, zone);
    var id := s.tunnel.value.id;
    if id in p.cloud.tunnels {
      var now := p.cloud.tunnels[id];
      KeptNow(job, p, OwnTunnel(id, now.name, now.version, now.ingress));
    }
  }

  lemma MoreCount(s: Snapshot, rule: Rule, r: Rule)
    requires r.hostname.Some?
    ensures multiset(SortIngress(Routes(s) + [rule]))[r] == multiset(RulesRead(s))[r] + if r == rule then 1 else 0
    ensures Written(SortIngress(Routes(s) + [rule]))
  {
    SortedCount(Routes(s) + [rule], r);
    HostsCount(RulesRead(s), r);
    hide WithHosts, SortIngress;
    assert multiset(Routes(s) + [rule]) == multiset(Routes(s)) + multiset{rule};
  }

  /** The rules with a hostname are the old ones, all of them, and the route's, unless a rule had its
      hostname and path already; then nothing is written. */
  ghost predicate RuleAdded(route: Route, was: seq<Rule>, now: seq<Rule>) {
    var there := exists i :: 0 <= i < |was| && was[i].hostname == Some(route.hostname) && was[i].path == route.path;
    && (there ==> now == was)
    && (!there ==> Written(now))
    && (!there ==> forall r: Rule :: r.hostname.Some? ==>
          multiset(now)[r]
          == multiset(was)[r] + if r == Rule(Some(route.hostname), route.path, route.service, route.options) then 1 else 0)
  }

  /** Once a route was added, its tunnel has the rules it had and the route's; a new tunnel has the name
      the reading proposed, and other tunnels are as they were. */
  lemma AddedRules(route: Route, s: Snapshot, job: Job, p: Progress) returns (id: nat)
    requires Tells(s, job.start) && PlanFor(AddRoute(route), s) == Plan(job.plan) && AllDone(job, p)
    ensures s.tunnel.Some? ==> id == s.tunnel.value.id
    ensures s.tunnel.None? ==> p.created == Some(id) && id in p.cloud.tunnels && p.cloud.tunnels[id].name == s.freshName
    ensures id in p.cloud.tunnels && RuleAdded(route, RulesRead(s), p.cloud.tunnels[id].ingress)
    ensures OthersKept(job, p, id)
  {
    id := ServedBy(route, s, job, p);
    AddPlanned(route, s, job.plan);
    var zone := s.zone(route.hostname).value;
    hide AllDone, Tells, Find, Routes, AddSteps, Finished, OthersKept, RuleAdded, PlanFor;
    if Find(Routes(s), route.hostname, route.path).None? {
      NewRuleWritten(route, s, zone, job, p, id);
      NewRuleAdded(route, s);
    } else {
      OldRulesKept(route, s, zone, job, p);
      NoRuleAdded(route, s);
    }
  }

  lemma NewRuleAdded(route: Route, s: Snapshot)
    requires Find(Routes(s), route.hostname, route.path).None?
    ensures RuleAdded(route, RulesRead(s), SortIngress(Routes(s) + [route.Rule()]))
  {
    var was, now := RulesRead(s), SortIngress(Routes(s) + [route.Rule()]);
    FindAmongHosts(was, route.hostname, route.path);
    FindFirst(was, route.hostname, route.path);
    assert Find(was, route.hostname, route.path).None?;
    hide Find, WithHosts, SortIngress, Routes, Written;
    MoreCount(s, route.Rule(), route.Rule());
    forall r: Rule | r.hostname.Some?
      ensures multiset(now)[r] == multiset(was)[r] + if r == route.Rule() then 1 else 0
    {
      MoreCount(s, route.Rule(), r);
    }
  }

  lemma NoRuleAdded(route: Route, s: Snapshot)
    requires Find(Routes(s), route.hostname, route.path).Some?
    ensures RuleAdded(route, RulesRead(s), RulesRead(s))
  {
    var was := RulesRead(s);
    FindAmongHosts(was, route.hostname, route.path);
    FindFirst(was, route.hostname, route.path);
    assert Find(was, route.hostname, route.path).Some?;
    hide Find, WithHosts, Routes, Written;
    var i: nat :| FirstAt(was, i, route.hostname, route.path);
  }

  // ----- The records afterwards -----

  lemma {:induction false} ChosenSize(records: seq<Observed>, want: Observed -> bool, r: Record)
    ensures Values(Chosen(records, want))[r] == |set i: nat | i < |records| && want(records[i]) && records[i].record == r|
  {
    if records != [] {
      ChosenSize(Init(records), want, r);
      ChosenValues(records, want);
      hide Chosen, Values;
      IndicesMore(records, want, r);
    }
  }

  lemma IndicesMore(records: seq<Observed>, want: Observed -> bool, r: Record)
    requires records != []
    ensures |set i: nat | i < |records| && want(records[i]) && records[i].record == r|
            == |set i: nat | i < |Init(records)| && want(Init(records)[i]) && Init(records)[i].record == r|
               + if want(Last(records)) && Last(records).record == r then 1 else 0
  {
    var n := |records| - 1;
    var before := set i: nat | i < n && want(Init(records)[i]) && Init(records)[i].record == r;
    assert forall i :: 0 <= i < n ==> Init(records)[i] == records[i];
    assert (set i: nat | i < |records| && want(records[i]) && records[i].record == r)
           == before + if want(records[n]) && records[n].record == r then {n} else {};
  }

  /** Once a route was removed, Teitunnel's own records of the hostname at the tunnel are gone, as often as
      they were read, and no other record is, if no rule with the hostname and another path was there; if
      one was, no record is. */
  lemma RemovedRecords(hostname: string, path: Option<string>, s: Snapshot, job: Job, p: Progress)
    requires Reads(s, job.start, [hostname]) && PlanFor(RemoveRoute(hostname, path), s) == Plan(job.plan) && AllDone(job, p)
    ensures s.tunnel.Some?
    ensures var rules := s.tunnel.value.ingress;
            if exists i :: 0 <= i < |rules| && rules[i].hostname == Some(hostname) && rules[i].path != path then
              Data(p.cloud) == Data(job.start)
            else
              forall r: Record ::
                Data(p.cloud)[r]
                + |set i: nat |
                     && i < |s.records| && s.records[i].record == r && s.records[i].owned
                     && s.records[i].record.content == Content.Tunnel(s.tunnel.value.id) && Same(s.records[i].record.name, hostname)|
                == Data(job.start)[r]
  {
    RemoveReleases(hostname, path, s, job, p);
    UsedByOther(s, hostname, path);
    if !StillUsed(s, hostname, path) {
      var id := s.tunnel.value.id;
      var own := Values(Chosen(s.records, OwnPointing(hostname, id)));
      assert Data(p.cloud) + own == Data(job.start);
      forall r: Record
        ensures Data(p.cloud)[r]
                + |set i: nat |
                     && i < |s.records| && s.records[i].record == r && s.records[i].owned
                     && s.records[i].record.content == Content.Tunnel(id) && Same(s.records[i].record.name, hostname)|
                == Data(job.start)[r]
      {
        ChosenSize(s.records, OwnPointing(hostname, id), r);
        SameIndices(s.records, hostname, id, r);
        hide *;
        assert (Data(p.cloud) + own)[r] == Data(job.start)[r];
      }
    }
  }

  lemma SameIndices(records: seq<Observed>, hostname: string, id: nat, r: Record)
    ensures (set i: nat | i < |records| && OwnPointing(hostname, id)(records[i]) && records[i].record == r)
            == (set i: nat |
                  && i < |records| && records[i].record == r && records[i].owned
                  && records[i].record.content == Content.Tunnel(id) && Same(records[i].record.name, hostname))
  {
    hide Same;
  }

  lemma UsedByOther(s: Snapshot, hostname: string, path: Option<string>)
    ensures StillUsed(s, hostname, path)
            <==> var rules := RulesRead(s);
                 exists i :: 0 <= i < |rules| && rules[i].hostname == Some(hostname) && rules[i].path != path
  {
    var rules, desired := RulesRead(s), Others(Routes(s), hostname, path);
    OthersAre(Routes(s), hostname, path);
    WithHostsAre(rules);
    hide WithHosts, Others;
    if StillUsed(s, hostname, path) {
      var i :| 0 <= i < |desired| && desired[i].hostname == Some(hostname);
      assert desired[i] in desired && desired[i] in rules;
    }
    if i :| 0 <= i < |rules| && rules[i].hostname == Some(hostname) && rules[i].path != path {
      assert rules[i] in rules && rules[i] in desired;
    }
  }

  lemma {:induction false} NoneChosen(records: seq<Observed>, want: Observed -> bool)
    requires Chosen(records, want) == []
    ensures forall i :: 0 <= i < |records| ==> !want(records[i])
  {
    if records != [] {
      NoneChosen(Init(records), want);
      assert forall i :: 0 <= i < |records| - 1 ==> Init(records)[i] == records[i];
    }
  }

  lemma {:induction false} OneChosen(records: seq<Observed>, want: Observed -> bool) returns (k: nat)
    requires |Chosen(records, want)| == 1
    ensures k < |records| && records[k] == Chosen(records, want)[0]
    ensures forall i :: 0 <= i < |records| ==> (want(records[i]) <==> i == k)
  {
    var n := |records| - 1;
    assert forall i :: 0 <= i < n ==> Init(records)[i] == records[i];
    if want(records[n]) {
      k := n;
      NoneChosen(Init(records), want);
    } else {
      k := OneChosen(Init(records), want);
    }
  }

  lemma {:induction false} FirstChosen(records: seq<Observed>, want: Observed -> bool) returns (f: nat)
    requires Chosen(records, want) != []
    ensures f < |records| && want(records[f]) && records[f] == Chosen(records, want)[0]
    ensures forall j :: 0 <= j < f ==> !want(records[j])
  {
    assert forall i :: 0 <= i < |records| - 1 ==> Init(records)[i] == records[i];
    if Chosen(Init(records), want) == [] {
      f := |records| - 1;
      NoneChosen(Init(records), want);
    } else {
      f := FirstChosen(Init(records), want);
    }
  }

  predicate Resolves(r: Record, hostname: string) {
    Same(r.name, hostname) && r.kind in {"A", "AAAA", "CNAME"}
  }

  /** Record `f` is the first of a reading the hostname resolves by. */
  predicate FirstResolving(records: seq<Observed>, f: nat, hostname: string) {
    f < |records| && Resolves(records[f].record, hostname) && forall j :: 0 <= j < f ==> !Resolves(records[j].record, hostname)
  }

  /** Record `f` is the only one, and proxied at the tunnel. */
  predicate Right(s: Snapshot, f: nat, hostname: string) {
    && s.tunnel.Some? && f < |s.records|
    && (forall i :: 0 <= i < |s.records| ==> (Resolves(s.records[i].record, hostname) <==> i == f))
    && s.records[f].record.content == Content.Tunnel(s.tunnel.value.id) && s.records[f].record.proxied
  }

  /** The record a hostname has once a route was added: the old one, if it was right already, and else a
      CNAME of the route's, whose comment keeps what the first record it resolved by reserved. */
  ghost predicate RecordAdded(route: Route, zone: string, id: nat, comments: Comments, s: Snapshot, r: Record) {
    var right := exists f: nat :: Right(s, f, route.hostname);
    && (forall f: nat :: Right(s, f, route.hostname) ==> r == s.records[f].record)
    && (!right ==>
          && r.zone == zone && r.name == route.hostname && r.kind == "CNAME" && r.content == Content.Tunnel(id) && r.proxied && r.ttl == 1
          && (forall f: nat :: FirstResolving(s.records, f, route.hostname) ==>
                r.comment == Some(comments(route.id, s.records[f].record.comment)))
          && ((forall f :: 0 <= f < |s.records| ==> !Resolves(s.records[f].record, route.hostname)) ==>
                r.comment == Some(comments(route.id, None))))
  }

  lemma {:induction false} OnlyChosen(records: seq<Observed>, want: Observed -> bool, k: nat)
    requires k < |records| && forall i :: 0 <= i < |records| ==> (want(records[i]) <==> i == k)
    ensures Chosen(records, want) == [records[k]]
  {
    var n := |records| - 1;
    assert forall i :: 0 <= i < n ==> Init(records)[i] == records[i];
    if k < n {
      OnlyChosen(Init(records), want, k);
    } else {
      NothingChosen(Init(records), want);
    }
  }

  lemma {:induction false} NothingChosen(records: seq<Observed>, want: Observed -> bool)
    requires forall i :: 0 <= i < |records| ==> !want(records[i])
    ensures Chosen(records, want) == []
  {
    if records != [] {
      assert forall i :: 0 <= i < |records| - 1 ==> Init(records)[i] == records[i];
      NothingChosen(Init(records), want);
    }
  }

  lemma RightIsOurs(s: Snapshot, hostname: string)
    ensures (exists f: nat :: Right(s, f, hostname)) <==> AlreadyOurs(s, Chosen(s.records, Resolving(hostname)))
    ensures forall f: nat :: Right(s, f, hostname) ==> Chosen(s.records, Resolving(hostname)) == [s.records[f]]
  {
    hide Chosen, Same;
    forall f: nat | Right(s, f, hostname)
      ensures Chosen(s.records, Resolving(hostname)) == [s.records[f]]
    {
      OnlyChosen(s.records, Resolving(hostname), f);
    }
    if AlreadyOurs(s, Chosen(s.records, Resolving(hostname))) {
      var f := OneChosen(s.records, Resolving(hostname));
      assert Right(s, f, hostname);
    }
  }

  lemma RecordAddedIs(route: Route, zone: string, id: nat, comments: Comments, s: Snapshot, r: Record)
    requires var found := Chosen(s.records, Resolving(route.hostname));
             r == if AlreadyOurs(s, found) then found[0].record else Target(route, zone, id, comments, OldComment(found))
    ensures RecordAdded(route, zone, id, comments, s, r)
  {
    var h := route.hostname;
    var found := Chosen(s.records, Resolving(h));
    RightIsOurs(s, h);
    hide Right, Same, Chosen;
    if !AlreadyOurs(s, found) {
      hide AlreadyOurs;
      if found == [] {
        NoneChosen(s.records, Resolving(h));
      } else {
        var g := FirstChosen(s.records, Resolving(h));
        forall f: nat | FirstResolving(s.records, f, h)
          ensures f == g
        {
          assert FirstResolving(s.records, g, h);
        }
        assert Resolves(s.records[g].record, h);
      }
    }
  }

  /** Once a route was added, a reading of its hostname finds one record it resolves by, proxied and at
      the tunnel, as it was if it was right already; what it did not resolve by is in the account as often
      as before. */
  lemma AddedRecords(route: Route, s: Snapshot, job: Job, p: Progress, next: Snapshot) returns (k: nat)
    requires Reads(s, job.start, [route.hostname]) && PlanFor(AddRoute(route), s) == Plan(job.plan)
    requires AllDone(job, p) && TellsAfter(s, p, next) && Reads(next, p.cloud, [route.hostname])
    ensures k < |next.records|
    ensures forall i :: 0 <= i < |next.records| ==>
              (Same(next.records[i].record.name, route.hostname) && next.records[i].record.kind in {"A", "AAAA", "CNAME"} <==> i == k)
    ensures next.records[k].record.content == Content.Tunnel(next.tunnel.value.id) && next.records[k].record.proxied
    ensures s.zone(route.hostname).Some?
    ensures RecordAdded(route, s.zone(route.hostname).value, next.tunnel.value.id, job.comments, s, next.records[k].record)
    ensures forall r: Record ::
              !(Same(r.name, route.hostname) && r.kind in {"A", "AAAA", "CNAME"} && s.zone(route.hostname) == Some(r.zone)) ==>
                Data(p.cloud)[r] == Data(job.start)[r]
  {
    AddPlanned(route, s, job.plan);
    var zone := s.zone(route.hostname).value;
    hide AllDone, Tells, Reads, AddSteps, Finished, PlanFor, Chosen, Find, Routes;
    RecordsSettled(s, route, zone, job, p, next);
    k := OneChosen(next.records, Resolving(route.hostname));
    RecordAddedIs(route, zone, next.tunnel.value.id, job.comments, s, next.records[k].record);
    hide RecordAdded;
    forall r: Record |
        !(Same(r.name, route.hostname) && r.kind in {"A", "AAAA", "CNAME"} && s.zone(route.hostname) == Some(r.zone))
      ensures Data(p.cloud)[r] == Data(job.start)[r]
    {
      UnansweredKept(route, s, zone, job, p, next, r);
    }
  }

  lemma UnansweredKept(route: Route, s: Snapshot, zone: string, job: Job, p: Progress, next: Snapshot, r: Record)
    requires Reads(s, job.start, [route.hostname]) && s.zone(route.hostname) == Some(zone)
    requires job.plan == Finished(AddSteps(s, route, zone)) && AllDone(job, p) && TellsAfter(s, p, next)
    requires !(Same(r.name, route.hostname) && r.kind in {"A", "AAAA", "CNAME"} && s.zone(route.hostname) == Some(r.zone))
    ensures Data(p.cloud)[r] == Data(job.start)[r]
  {
    hide AllDone, Tells, Reads, AddSteps, Finished, Values, Cname, Chosen, AlreadyOurs, RemovedBy, AddedBy, DnsSteps, Data;
    var id := next.tunnel.value.id;
    var removed, added := RemovedBy(job.plan), AddedBy(job.plan, p.created, job.comments);
    ChangesDone(job, p);
    FinishedChange(AddSteps(s, route, zone), p.created, job.comments);
    AddChange(s, route, zone, p.created, job.comments);
    DnsChange(s, zone, route, p.created, job.comments, id);
    FoundCounts(s, job.start, route.hostname);
    assert (Data(p.cloud) + removed)[r] == (Data(job.start) + added)[r];
    if !AlreadyOurs(s, Chosen(s.records, Resolving(route.hostname))) {
      TargetResolves(route, zone, id, job.comments, OldComment(Chosen(s.records, Resolving(route.hostname))));
    }
  }

  // ----- Taking down the tunnel -----

  /** A plan to take down the tunnel first empties its rules, if any has a hostname, so that nothing is
      served any more, and deletes the tunnel last, once. */
  lemma TakeDownOrder(s: Snapshot)
    requires s.tunnel.Some?
    ensures var plan := PlanFor(RemoveTunnel, s).steps;
            && plan != [] && Last(plan) == DeleteTunnel(s.tunnel.value.id)
            && (forall i :: 0 <= i < |plan| - 1 ==> plan[i].PutConfig? || plan[i].DeleteRecord?)
            && ((exists i :: 0 <= i < |s.tunnel.value.ingress| && s.tunnel.value.ingress[i].hostname.Some?) ==>
                  plan[0] == PutConfig(Existing(s.tunnel.value.id), [Rule(None, None, "http_status:404", "")],
                                       Some(s.tunnel.value.version), s.tunnel.value.ingress))
  {
    var id, rules := s.tunnel.value.id, s.tunnel.value.ingress;
    var release := ReleaseAll(s, Hostnames(Routes(s)), id);
    WithHostsAre(rules);
    ReleasesOnly(s, Hostnames(Routes(s)), id);
    assert SortIngress([]) == [CATCH_ALL];
    var config := if Routes(s) != [] then ConfigSteps(s, []) else [];
    assert RemoveTunnelSteps(s) == config + release + [DeleteTunnel(id)];
    if i :| 0 <= i < |rules| && rules[i].hostname.Some? {
      assert rules[i] in Routes(s) && rules != [CATCH_ALL];
    }
    hide SortIngress, ReleaseAll, Routes, Hostnames;
    assert !RemoveTunnelSteps(s)[|RemoveTunnelSteps(s)| - 1].Verify?;
  }

  lemma {:induction false} ReleasesOnly(s: Snapshot, names: seq<string>, id: nat)
    ensures forall i :: 0 <= i < |ReleaseAll(s, names, id)| ==> ReleaseAll(s, names, id)[i].DeleteRecord?
  {
    if names != [] {
      ReleasesOnly(s, Init(names), id);
    }
  }
}
