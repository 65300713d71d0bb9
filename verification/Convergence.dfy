/** Planning again after a plan was applied changes nothing more. */
module Convergence {
  import opened Accuracy
  import opened Characters
  import opened CloudAccount
  import opened Effects
  import opened Executor
  import opened Histories
  import opened Ingress
  import opened Meaning
  import opened Planner
  import opened Plans
  import opened Readings
  import opened RecordCounts
  import opened Sequences
  import opened Wrappers

  // ----- What a plan's steps add and remove -----

  function RemovedBy(steps: seq<Step>): multiset<Record> {
    if steps == [] then multiset{} else RemovedBy(Init(steps)) + Removes(Last(steps))
  }

  function AddedBy(steps: seq<Step>, created: Option<nat>, comments: Comments): multiset<Record> {
    if steps == [] then multiset{} else AddedBy(Init(steps), created, comments) + Adds(Last(steps), created, comments)
  }

  lemma {:induction false} ChangesConcat(a: seq<Step>, b: seq<Step>, created: Option<nat>, comments: Comments)
    ensures RemovedBy(a + b) == RemovedBy(a) + RemovedBy(b)
    ensures AddedBy(a + b, created, comments) == AddedBy(a, created, comments) + AddedBy(b, created, comments)
  {
    if b == [] {
      assert a + b == a;
    } else {
      assert Init(a + b) == a + Init(b) && Last(a + b) == Last(b);
      ChangesConcat(a, Init(b), created, comments);
    }
  }

  lemma NoChange(step: Step, created: Option<nat>, comments: Comments)
    requires OffRecords(step) || step.Verify?
    ensures Removes(step) == multiset{} && Adds(step, created, comments) == multiset{}
  {
  }

  lemma {:induction false} NoChanges(steps: seq<Step>, created: Option<nat>, comments: Comments)
    requires forall i :: 0 <= i < |steps| ==> OffRecords(steps[i]) || steps[i].Verify?
    ensures RemovedBy(steps) == multiset{} && AddedBy(steps, created, comments) == multiset{}
  {
    if steps != [] {
      NoChange(Last(steps), created, comments);
      hide Removes, Adds;
      assert forall i :: 0 <= i < |Init(steps)| ==> Init(steps)[i] == steps[i];
      NoChanges(Init(steps), created, comments);
    }
  }

  lemma {:induction false} DeletionsChange(found: seq<Observed>, created: Option<nat>, comments: Comments)
    ensures RemovedBy(Deletions(found)) == Values(found) && AddedBy(Deletions(found), created, comments) == multiset{}
  {
    if found != [] {
      DeletionsChange(Init(found), created, comments);
      assert Init(Deletions(found)) == Deletions(Init(found));
    }
  }

  lemma {:induction false} SumIsRemoved(plan: seq<Step>, steps: set<nat>, n: nat)
    requires n <= |plan| && forall i :: 0 <= i < n ==> (i in steps <==> !plan[i].Verify?)
    ensures Sum(Removals(plan), steps, n) == RemovedBy(plan[..n])
  {
    if n > 0 {
      if plan[n - 1].Verify? {
        NoChange(plan[n - 1], None, (route, was) => route);
      }
      hide Removes;
      SumIsRemoved(plan, steps, n - 1);
      assert Init(plan[..n]) == plan[..n - 1] && Last(plan[..n]) == plan[n - 1];
    }
  }

  lemma AdditionAt(plan: seq<Step>, created: Option<nat>, comments: Comments, i: nat)
    requires i < |plan|
    ensures |Additions(plan, created, comments)| == |plan|
    ensures Additions(plan, created, comments)[i] == Adds(plan[i], created, comments)
    ensures plan[i].Verify? ==> Adds(plan[i], created, comments) == multiset{}
  {
  }

  lemma AddedOneMore(plan: seq<Step>, created: Option<nat>, comments: Comments, n: nat)
    requires 0 < n <= |plan|
    ensures AddedBy(plan[..n], created, comments) == AddedBy(plan[..n - 1], created, comments) + Adds(plan[n - 1], created, comments)
  {
    hide Adds;
    assert Init(plan[..n]) == plan[..n - 1] && Last(plan[..n]) == plan[n - 1];
  }

  lemma {:induction false} SumIsAdded(plan: seq<Step>, created: Option<nat>, comments: Comments, steps: set<nat>, n: nat)
    requires n <= |plan| == |Additions(plan, created, comments)|
    requires forall i :: 0 <= i < n ==> (i in steps <==> !plan[i].Verify?)
    ensures Sum(Additions(plan, created, comments), steps, n) == AddedBy(plan[..n], created, comments)
  {
    hide Adds, Additions;
    if n > 0 {
      SumIsAdded(plan, created, comments, steps, n - 1);
      AdditionAt(plan, created, comments, n - 1);
      AddedOneMore(plan, created, comments, n);
      hide AddedBy;
    } else {
      assert plan[..0] == [];
    }
  }

  /** All of the plan is in effect, and nothing else. */
  ghost predicate AllDone(job: Job, p: Progress) {
    && Sound(job, p) && p.traces == []
    && p.Steps() == Performed(job.plan, |job.plan|)
  }

  lemma ChangesDone(job: Job, p: Progress)
    requires AllDone(job, p)
    ensures Data(p.cloud) + RemovedBy(job.plan) == Data(job.start) + AddedBy(job.plan, p.created, job.comments)
  {
    hide Sound, Sum, RemovedBy, AddedBy, Live, Removals, Additions, Marks;
    var n, plan := |job.plan|, job.plan;
    RecordsByPlan(job, p);
    assert plan[..n] == plan;
    DoneSteps(job, p);
    PartsAll(job, p.created);
    SumIsRemoved(plan, p.Steps(), n);
    SumIsAdded(plan, p.created, job.comments, p.Steps(), n);
    SumNone(Removals(plan), n);
    SumNone(Marks(job), n);
    DropEmpty(Data(p.cloud), RemovedBy(plan), Data(job.start), AddedBy(plan, p.created, job.comments));
  }

  lemma PartsAll(job: Job, created: Option<nat>)
    ensures |Removals(job.plan)| == |Additions(job.plan, created, job.comments)| == |Marks(job)| == |job.plan|
  {
  }

  lemma DoneSteps(job: Job, p: Progress)
    requires AllDone(job, p)
    ensures forall i :: 0 <= i < |job.plan| ==> (i in p.Steps() <==> !job.plan[i].Verify?)
    ensures TraceSteps(p) == {}
  {
    hide Sound;
  }

  lemma DropEmpty(a: multiset<Record>, x: multiset<Record>, b: multiset<Record>, y: multiset<Record>)
    requires a + (x + multiset{}) == b + (y + multiset{})
    ensures a + x == b + y
  {
    assert x + multiset{} == x && y + multiset{} == y;
  }

  lemma FinishedChange(steps: seq<Step>, created: Option<nat>, comments: Comments)
    ensures RemovedBy(Finished(steps)) == RemovedBy(steps)
    ensures AddedBy(Finished(steps), created, comments) == AddedBy(steps, created, comments)
  {
    if Finished(steps) != steps {
      NoChanges(steps, created, comments);
    }
  }

  // ----- The hostname's records after adding a route -----

  function Target(route: Route, zone: string, id: nat, comments: Comments, was: Option<string>): Record {
    Cname(comments, zone, route.hostname, id, route.id, was)
  }

  /** The comment the new record keeps what it reserved of: that of the first record it takes over. */
  function OldComment(found: seq<Observed>): Option<string> {
    if found == [] then None else found[0].record.comment
  }

  /** What adding a route does to the records: the ones it resolved by make way for one. */
  lemma DnsChange(s: Snapshot, zone: string, route: Route, created: Option<nat>, comments: Comments, id: nat)
    requires Resolve(created, TunnelFor(s)) == Some(id)
    ensures var found, steps := Chosen(s.records, Resolving(route.hostname)), DnsSteps(s, zone, route.hostname, route.id);
            if AlreadyOurs(s, found) then RemovedBy(steps) == multiset{} && AddedBy(steps, created, comments) == multiset{}
            else
              && RemovedBy(steps) == Values(found)
              && AddedBy(steps, created, comments) == multiset{Target(route, zone, id, comments, OldComment(found))}
  {
    var found, steps := Chosen(s.records, Resolving(route.hostname)), DnsSteps(s, zone, route.hostname, route.id);
    if AlreadyOurs(s, found) {
    } else if found == [] {
      OneChange(steps, created, comments);
      assert AddedBy(steps, created, comments) == multiset{Target(route, zone, id, comments, None)};
    } else {
      var first := UpdateRecord(zone, found[0].id, route.hostname, TunnelFor(s), route.id, found[0].record);
      ChangesConcat([first], Deletions(found[1..]), created, comments);
      OneChange([first], created, comments);
      DeletionsChange(found[1..], created, comments);
      ValuesCons(found);
      assert AddedBy(steps, created, comments) == multiset{Target(route, zone, id, comments, found[0].record.comment)};
    }
  }

  lemma OneChange(steps: seq<Step>, created: Option<nat>, comments: Comments)
    requires |steps| == 1
    ensures RemovedBy(steps) == Removes(steps[0]) && AddedBy(steps, created, comments) == Adds(steps[0], created, comments)
  {
    assert Init(steps) == [];
  }

  /** The snapshot is of the account as it is once the plan was applied. */
  ghost predicate TellsAfter(s: Snapshot, p: Progress, next: Snapshot) {
    && Tells(next, p.cloud) && next.zone == s.zone && next.elsewhere == s.elsewhere
    && next.tunnel.Some? && Some(next.tunnel.value.id) == Resolve(p.created, TunnelFor(s))
  }

  lemma TunnelPartOff(s: Snapshot, route: Route)
    ensures forall i :: 0 <= i < |TunnelPartOf(s, route)| ==> OffRecords(TunnelPartOf(s, route)[i])
  {
    hide SortIngress, Routes, Find;
  }

  lemma AddChange(s: Snapshot, route: Route, zone: string, created: Option<nat>, comments: Comments)
    ensures var steps, dns := AddSteps(s, route, zone), DnsSteps(s, zone, route.hostname, route.id);
            RemovedBy(steps) == RemovedBy(dns) && AddedBy(steps, created, comments) == AddedBy(dns, created, comments)
  {
    hide TunnelPartOf, DnsSteps, RemovedBy, AddedBy, AddSteps, OffRecords;
    var a, dns, verify := TunnelPartOf(s, route), DnsSteps(s, zone, route.hostname, route.id), VerifySteps(route);
    AddStepsAre(s, route, zone);
    TunnelPartOff(s, route);
    ChangesConcat(a, dns, created, comments);
    ChangesConcat(a + dns, verify, created, comments);
    NoChanges(a, created, comments);
    NoChanges(verify, created, comments);
  }

  /** The hostname's records are then what adding the route would make them. */
  lemma RecordsSettled(s: Snapshot, route: Route, zone: string, job: Job, p: Progress, next: Snapshot)
    requires Reads(s, job.start, [route.hostname]) && s.zone(route.hostname) == Some(zone)
    requires job.plan == Finished(AddSteps(s, route, zone)) && AllDone(job, p)
    requires TellsAfter(s, p, next) && Reads(next, p.cloud, [route.hostname])
    ensures AlreadyOurs(next, Chosen(next.records, Resolving(route.hostname)))
    ensures var found := Chosen(s.records, Resolving(route.hostname));
            Chosen(next.records, Resolving(route.hostname))[0].record
            == if AlreadyOurs(s, found) then found[0].record
               else Target(route, zone, next.tunnel.value.id, job.comments, OldComment(found))
  {
    hide AllDone, Reads, Tells, AddSteps, DnsSteps, Finished, Values, Cname;
    var id := next.tunnel.value.id;
    var found, now := Chosen(s.records, Resolving(route.hostname)), Chosen(next.records, Resolving(route.hostname));
    ChangesDone(job, p);
    FinishedChange(AddSteps(s, route, zone), p.created, job.comments);
    AddChange(s, route, zone, p.created, job.comments);
    DnsChange(s, zone, route, p.created, job.comments, id);
    FoundCounts(s, job.start, route.hostname);
    FoundCounts(next, p.cloud, route.hostname);
    if AlreadyOurs(s, found) {
      assert Data(p.cloud) + multiset{} == Data(p.cloud) && Data(job.start) + multiset{} == Data(job.start);
      SameCounts(Values(now), Values(found));
      OneValue(found);
      SingleIs(now, found[0].record);
    } else {
      var r := Target(route, zone, id, job.comments, OldComment(found));
      TargetResolves(route, zone, id, job.comments, OldComment(found));
      OneLeft(Data(job.start), Data(p.cloud), Values(found), Values(now), r, s.zone, route.hostname);
      SingleIs(now, r);
    }
  }

  lemma TargetResolves(route: Route, zone: string, id: nat, comments: Comments, was: Option<string>)
    ensures var r := Target(route, zone, id, comments, was);
            ResolvesBy(r, route.hostname) && r.zone == zone && r.content == Tunnel(id) && r.proxied
  {
  }

  // ----- The rules after adding or removing a route -----

  lemma {:induction false} FindIs(rules: seq<Rule>, hostname: string, path: Option<string>)
    ensures Find(rules, hostname, path).None? <==> forall r :: r in rules ==> !SameRoute(r, hostname, path)
    ensures Find(rules, hostname, path).Some? ==>
              Find(rules, hostname, path).value in rules && SameRoute(Find(rules, hostname, path).value, hostname, path)
  {
    if rules != [] {
      FindIs(rules[1..], hostname, path);
      assert rules == [rules[0]] + rules[1..];
    }
  }

  lemma {:induction false} OthersAre(rules: seq<Rule>, hostname: string, path: Option<string>)
    ensures forall r :: r in Others(rules, hostname, path) <==> r in rules && !SameRoute(r, hostname, path)
  {
    if rules != [] {
      OthersAre(rules[1..], hostname, path);
      assert rules == [rules[0]] + rules[1..];
    }
  }

  /** The configuration step among the steps of a plan, done. */
  lemma ConfiguredNow(job: Job, p: Progress, i: nat, next: OwnTunnel)
    requires AllDone(job, p) && i < |job.plan| && job.plan[i].PutConfig?
    requires Resolve(p.created, job.plan[i].tunnel) == Some(next.id)
    requires next.id in p.cloud.tunnels && p.cloud.tunnels[next.id].ingress == next.ingress
    requires job.plan[i].tunnel.Existing? ==> next.id in job.start.tunnels
    ensures next.ingress == job.plan[i].ingress
  {
    TunnelsOf(job, p);
    assert i in p.Steps();
    hide Sound;
    if job.plan[i].tunnel.Existing? {
      assert Configures(job.plan[i], Existing(next.id));
      assert ConfiguredAs(job.plan, p.Steps(), Existing(next.id), job.start.tunnels[next.id], p.cloud.tunnels[next.id]);
    } else {
      assert Creates(job.plan, p.Steps());
      var k :| k in p.Steps() && k < |job.plan| && job.plan[k].CreateTunnel?;
      assert CreatedAs(job.plan, p.Steps(), p.cloud.tunnels[next.id]);
      assert Configures(job.plan[i], NewTunnel);
      assert ConfiguredAs(job.plan, p.Steps(), NewTunnel, TunnelState(job.plan[k].name, [], 0), p.cloud.tunnels[next.id]);
    }
  }

  /** A tunnel no step configures keeps its rules. */
  lemma KeptNow(job: Job, p: Progress, next: OwnTunnel)
    requires AllDone(job, p) && next.id in job.start.tunnels
    requires next.id in p.cloud.tunnels && p.cloud.tunnels[next.id].ingress == next.ingress
    requires forall i :: 0 <= i < |job.plan| ==> !job.plan[i].PutConfig?
    ensures next.ingress == job.start.tunnels[next.id].ingress
  {
    TunnelsOf(job, p);
    hide Sound;
    assert ConfiguredAs(job.plan, p.Steps(), Existing(next.id), job.start.tunnels[next.id], p.cloud.tunnels[next.id]);
  }

  lemma ReadTunnel(s: Snapshot, c: Cloud)
    requires Tells(s, c) && s.tunnel.Some?
    ensures var t := s.tunnel.value; t.id in c.tunnels && c.tunnels[t.id].ingress == t.ingress
  {
  }

  /** Steps that write the rules have the configuration step among them. */
  lemma ConfigAmong(s: Snapshot, before: seq<Step>, desired: seq<Rule>, after: seq<Step>)
    requires ConfigSteps(s, desired) != []
    ensures var steps := before + ConfigSteps(s, desired) + after;
            && |before| < |steps| && steps[|before|] == ConfigSteps(s, desired)[0] && Finished(steps) == steps
  {
    var steps := before + ConfigSteps(s, desired) + after;
    assert steps[|before|] == ConfigSteps(s, desired)[0];
  }

  lemma SortedHas(desired: seq<Rule>, hostname: string, path: Option<string>)
    ensures forall r :: r in WithHosts(SortIngress(desired)) <==> r in desired && r.hostname.Some?
  {
    SortIngressIs(desired);
    WithHostsAre(SortIngress(desired));
  }

  lemma OnlyOne(rules: seq<Rule>, rule: Rule, hostname: string, path: Option<string>)
    requires rule in rules && SameRoute(rule, hostname, path)
    requires forall r :: r in rules && SameRoute(r, hostname, path) ==> r == rule
    ensures Find(rules, hostname, path) == Some(rule)
  {
    FindIs(rules, hostname, path);
  }

  lemma NewRuleFound(s: Snapshot, route: Route)
    requires Find(Routes(s), route.hostname, route.path).None?
    ensures ConfigSteps(s, Routes(s) + [route.Rule()]) != []
    ensures Find(WithHosts(SortIngress(Routes(s) + [route.Rule()])), route.hostname, route.path) == Some(route.Rule())
  {
    var desired, rule := Routes(s) + [route.Rule()], route.Rule();
    FindIs(Routes(s), route.hostname, route.path);
    SortedHas(desired, route.hostname, route.path);
    assert desired[|Routes(s)|] == rule && rule in desired;
    assert rule !in Routes(s) && WithHosts(Current(s)) == Routes(s);
    OnlyOne(WithHosts(SortIngress(desired)), rule, route.hostname, route.path);
  }

  lemma NewRuleSettled(s: Snapshot, route: Route, zone: string, job: Job, p: Progress, next: Snapshot)
    requires Tells(s, job.start) && job.plan == Finished(AddSteps(s, route, zone)) && AllDone(job, p) && TellsAfter(s, p, next)
    requires Find(Routes(s), route.hostname, route.path).None?
    ensures Find(Routes(next), route.hostname, route.path) == Some(route.Rule())
  {
    ReadTunnel(next, p.cloud);
    ReadOwn(s, job.start);
    hide AllDone, Tells, Find, SortIngress, DnsSteps, VerifySteps, WithHosts, Finished;
    var before, desired := TunnelSteps(s), Routes(s) + [route.Rule()];
    var after := DnsSteps(s, zone, route.hostname, route.id) + VerifySteps(route);
    NewRuleFound(s, route);
    ConfigAmong(s, before, desired, after);
    Assoc(before + ConfigSteps(s, desired), DnsSteps(s, zone, route.hostname, route.id), VerifySteps(route));
    assert AddSteps(s, route, zone) == before + ConfigSteps(s, desired) + after;
    ConfiguredNow(job, p, |before|, next.tunnel.value);
  }

  lemma ReadOwn(s: Snapshot, c: Cloud)
    requires Tells(s, c)
    ensures s.tunnel.Some? ==> s.tunnel.value.id in c.tunnels && c.tunnels[s.tunnel.value.id].ingress == s.tunnel.value.ingress
  {
  }

  lemma OldRuleSettled(s: Snapshot, route: Route, zone: string, job: Job, p: Progress, next: Snapshot)
    requires Tells(s, job.start) && job.plan == Finished(AddSteps(s, route, zone)) && AllDone(job, p) && TellsAfter(s, p, next)
    requires Find(Routes(s), route.hostname, route.path) == Some(route.Rule())
    ensures Find(Routes(next), route.hostname, route.path) == Some(route.Rule())
  {
    ReadTunnel(next, p.cloud);
    ReadOwn(s, job.start);
    hide AllDone, Tells, Find, WithHosts, AddSteps, Finished;
    NoConfig(s, route, zone);
    KeptNow(job, p, next.tunnel.value);
  }

  /** A route that is there already needs no configuration. */
  lemma NoConfig(s: Snapshot, route: Route, zone: string)
    requires Find(Routes(s), route.hostname, route.path).Some?
    ensures s.tunnel.Some?
    ensures forall i :: 0 <= i < |Finished(AddSteps(s, route, zone))| ==> !Finished(AddSteps(s, route, zone))[i].PutConfig?
  {
    var dns := DnsSteps(s, zone, route.hostname, route.id);
    assert forall i :: 0 <= i < |dns| ==> !dns[i].PutConfig?;
  }

  // ----- Planning again -----

  /** An execution that reports "applied" has done all of the plan. */
  lemma AppliedIsDone(job: Job, refuses: nat -> bool, first: nat, known: Option<nat>, outcome: Outcome, p: Progress, calls: nat)
    requires Completed(job, refuses, first, known, outcome, p, calls)
    ensures AllDone(job, p)
  {
    hide Sound;
  }

  /** Once a route was added, planning to add it again changes nothing. */
  lemma AddConverges(route: Route, s: Snapshot, job: Job, p: Progress, next: Snapshot)
    requires Reads(s, job.start, [route.hostname]) && PlanFor(AddRoute(route), s) == Plan(job.plan)
    requires AllDone(job, p) && TellsAfter(s, p, next) && Reads(next, p.cloud, [route.hostname])
    ensures PlanFor(AddRoute(route), next) == Plan([])
  {
    AddPlanned(route, s, job.plan);
    hide PlanFor, AllDone, Reads, Tells, AddSteps, Find, Routes, AlreadyOurs, Chosen;
    var zone := s.zone(route.hostname).value;
    RouteSettled(route, s, zone, job, p, next);
    NothingToAdd(next, route, zone);
    AddPlannedAgain(route, next, zone);
  }

  lemma AddPlanned(route: Route, s: Snapshot, plan: seq<Step>)
    requires PlanFor(AddRoute(route), s) == Plan(plan)
    ensures s.zone(route.hostname).Some? && Elsewhere(route.hostname, route.path) !in s.elsewhere
    ensures Find(Routes(s), route.hostname, route.path) in {None, Some(route.Rule())}
    ensures plan == Finished(AddSteps(s, route, s.zone(route.hostname).value))
  {
    hide AddSteps, Find, Routes, Finished;
  }

  lemma AddPlannedAgain(route: Route, s: Snapshot, zone: string)
    requires s.zone(route.hostname) == Some(zone) && Elsewhere(route.hostname, route.path) !in s.elsewhere
    requires Find(Routes(s), route.hostname, route.path) == Some(route.Rule())
    requires AddSteps(s, route, zone) == VerifySteps(route)
    ensures PlanFor(AddRoute(route), s) == Plan([])
  {
    hide AddSteps, Find, Routes;
  }

  lemma RouteSettled(route: Route, s: Snapshot, zone: string, job: Job, p: Progress, next: Snapshot)
    requires Reads(s, job.start, [route.hostname]) && s.zone(route.hostname) == Some(zone)
    requires job.plan == Finished(AddSteps(s, route, zone)) && AllDone(job, p)
    requires TellsAfter(s, p, next) && Reads(next, p.cloud, [route.hostname])
    requires Find(Routes(s), route.hostname, route.path) in {None, Some(route.Rule())}
    ensures Find(Routes(next), route.hostname, route.path) == Some(route.Rule())
    ensures AlreadyOurs(next, Chosen(next.records, Resolving(route.hostname)))
  {
    assert Tells(s, job.start);
    hide AllDone, Reads, Tells, AddSteps, Finished, Find, Routes, AlreadyOurs, Chosen;
    RecordsSettled(s, route, zone, job, p, next);
    if Find(Routes(s), route.hostname, route.path).None? {
      NewRuleSettled(s, route, zone, job, p, next);
    } else {
      OldRuleSettled(s, route, zone, job, p, next);
    }
  }

  lemma NothingToAdd(s: Snapshot, route: Route, zone: string)
    requires s.tunnel.Some? && Find(Routes(s), route.hostname, route.path).Some?
    requires AlreadyOurs(s, Chosen(s.records, Resolving(route.hostname)))
    ensures AddSteps(s, route, zone) == VerifySteps(route)
  {
    hide Chosen, AlreadyOurs, Find, Routes;
  }

  lemma OldRuleGone(s: Snapshot, hostname: string, path: Option<string>)
    requires Find(Routes(s), hostname, path).Some?
    ensures var desired := Others(Routes(s), hostname, path);
            ConfigSteps(s, desired) != [] && Find(WithHosts(SortIngress(desired)), hostname, path).None?
  {
    var desired := Others(Routes(s), hostname, path);
    FindIs(Routes(s), hostname, path);
    OthersAre(Routes(s), hostname, path);
    SortedHas(desired, hostname, path);
    FindIs(WithHosts(SortIngress(desired)), hostname, path);
  }

  lemma RemoveStepsAre(s: Snapshot, hostname: string, path: Option<string>)
    requires s.tunnel.Some? && Find(Routes(s), hostname, path).Some?
    ensures var steps, desired := RemoveSteps(s, hostname, path), Others(Routes(s), hostname, path);
            && Finished(steps) == steps && steps != []
            && ConfigSteps(s, desired) != [] && steps[0] == ConfigSteps(s, desired)[0]
            && Find(WithHosts(SortIngress(desired)), hostname, path).None?
  {
    var desired := Others(Routes(s), hostname, path);
    OldRuleGone(s, hostname, path);
    hide Find, Routes, WithHosts, SortIngress, Others, ConfigSteps, ReleaseUnused, Finished;
    ConfigAmong(s, [], desired, ReleaseUnused(s, desired, hostname));
    assert [] + ConfigSteps(s, desired) == ConfigSteps(s, desired);
  }

  /** Once a route was removed, it is no longer there to remove. */
  lemma RemoveConverges(hostname: string, path: Option<string>, s: Snapshot, job: Job, p: Progress, next: Snapshot)
    requires Tells(s, job.start) && PlanFor(RemoveRoute(hostname, path), s) == Plan(job.plan)
    requires AllDone(job, p) && TellsAfter(s, p, next)
    ensures PlanFor(RemoveRoute(hostname, path), next) == Refusal(NoSuchRoute)
  {
    ReadTunnel(s, job.start);
    ReadTunnel(next, p.cloud);
    hide AllDone, Tells, RemoveSteps, Finished, Find, WithHosts, SortIngress, Others;
    RemoveStepsAre(s, hostname, path);
    ConfiguredNow(job, p, 0, next.tunnel.value);
  }

  /** Once the tunnel was removed, no reading of the account has it. */
  lemma TakeDownConverges(s: Snapshot, job: Job, p: Progress, next: Snapshot)
    requires Tells(s, job.start) && PlanFor(RemoveTunnel, s) == Plan(job.plan)
    requires AllDone(job, p) && Tells(next, p.cloud)
    ensures next.tunnel.Some? ==> next.tunnel.value.id != s.tunnel.value.id
  {
    var id, n := s.tunnel.value.id, |RemoveTunnelSteps(s)| - 1;
    assert RemoveTunnelSteps(s)[n] == DeleteTunnel(id);
    assert job.plan == RemoveTunnelSteps(s);
    hide RemoveTunnelSteps, Sound;
    assert n in p.Steps();
    TunnelsOf(job, p);
    assert Deletes(job.plan, p.Steps(), id);
    assert id in job.start.tunnels;
  }

  // ----- What is released -----

  /** Another rule uses the hostname. */
  ghost predicate StillUsed(s: Snapshot, hostname: string, path: Option<string>) {
    var desired := Others(Routes(s), hostname, path);
    exists i :: 0 <= i < |desired| && desired[i].hostname == Some(hostname)
  }

  lemma {:induction false} ReleaseChange(s: Snapshot, names: seq<string>, id: nat, created: Option<nat>, comments: Comments)
    ensures RemovedBy(ReleaseAll(s, names, id)) == OwnedBy(s, names, id)
    ensures AddedBy(ReleaseAll(s, names, id), created, comments) == multiset{}
  {
    if names != [] {
      var found := Chosen(s.records, OwnPointing(Last(names), id));
      hide RemovedBy, AddedBy, Values, Chosen, Deletions;
      ReleaseChange(s, Init(names), id, created, comments);
      ChangesConcat(ReleaseAll(s, Init(names), id), Deletions(found), created, comments);
      DeletionsChange(found, created, comments);
    }
  }

  lemma OneNameReleased(s: Snapshot, hostname: string, id: nat)
    ensures ReleaseAll(s, [hostname], id) == ReleaseSteps(s, hostname, id)
  {
    assert Init([hostname]) == [];
    assert ReleaseAll(s, [], id) == [];
    assert [] + ReleaseSteps(s, hostname, id) == ReleaseSteps(s, hostname, id);
  }

  lemma RemoveChange(s: Snapshot, hostname: string, path: Option<string>, created: Option<nat>, comments: Comments)
    requires s.tunnel.Some?
    ensures var steps := RemoveSteps(s, hostname, path);
            && RemovedBy(steps) == (if StillUsed(s, hostname, path) then multiset{} else OwnedBy(s, [hostname], s.tunnel.value.id))
            && AddedBy(steps, created, comments) == multiset{}
  {
    var desired, id := Others(Routes(s), hostname, path), s.tunnel.value.id;
    var config, release := ConfigSteps(s, desired), ReleaseUnused(s, desired, hostname);
    assert forall i :: 0 <= i < |config| ==> OffRecords(config[i]);
    assert release == if StillUsed(s, hostname, path) then [] else ReleaseSteps(s, hostname, id);
    assert RemoveSteps(s, hostname, path) == config + release;
    NoChanges([], created, comments);
    hide RemovedBy, AddedBy, ConfigSteps, ReleaseUnused, ReleaseSteps, ReleaseAll, OwnedBy, StillUsed, OffRecords, RemoveSteps;
    ChangesConcat(config, release, created, comments);
    NoChanges(config, created, comments);
    OneNameReleased(s, hostname, id);
    ReleaseChange(s, [hostname], id, created, comments);
  }

  lemma NothingAdded(after: multiset<Record>, removed: multiset<Record>, before: multiset<Record>)
    requires after + removed == before + multiset{}
    ensures after + removed == before
  {
    assert before + multiset{} == before;
  }

  lemma NeverShared(s: Snapshot, hostname: string, id: nat)
    ensures !SharedRecord(s, [hostname], id)
  {
  }

  lemma RecordsRemoved(hostname: string, path: Option<string>, s: Snapshot, job: Job, p: Progress)
    requires PlanFor(RemoveRoute(hostname, path), s) == Plan(job.plan) && AllDone(job, p)
    ensures Data(p.cloud) + (if StillUsed(s, hostname, path) then multiset{} else OwnedBy(s, [hostname], s.tunnel.value.id))
            == Data(job.start)
  {
    hide AllDone, RemoveSteps, Finished, StillUsed, RemovedBy, AddedBy, Data, OwnedBy;
    ChangesDone(job, p);
    FinishedChange(RemoveSteps(s, hostname, path), p.created, job.comments);
    RemoveChange(s, hostname, path, p.created, job.comments);
    NothingAdded(Data(p.cloud), RemovedBy(job.plan), Data(job.start));
  }

  /** Removing the last route of a hostname takes the hostname's own records at the tunnel out of the
      account, and nothing else; a later reading finds there what was not Teitunnel's. Removing
      another route takes no record. */
  lemma RemoveReleases(hostname: string, path: Option<string>, s: Snapshot, job: Job, p: Progress)
    requires Reads(s, job.start, [hostname]) && PlanFor(RemoveRoute(hostname, path), s) == Plan(job.plan) && AllDone(job, p)
    ensures StillUsed(s, hostname, path) ==> Data(p.cloud) == Data(job.start)
    ensures !StillUsed(s, hostname, path) ==>
              var id := s.tunnel.value.id;
              && Data(p.cloud) + Values(Chosen(s.records, OwnPointing(hostname, id))) == Data(job.start)
              && forall next: Snapshot :: Reads(next, p.cloud, [hostname]) && next.zone == s.zone ==>
                   Values(Chosen(next.records, AtTunnel(hostname, id))) == Values(Chosen(s.records, Foreign(hostname, id)))
  {
    var id := s.tunnel.value.id;
    RecordsRemoved(hostname, path, s, job, p);
    OwnedByOne(s, hostname, id);
    hide *;
    if StillUsed(s, hostname, path) {
      assert Data(p.cloud) + multiset{} == Data(p.cloud);
    } else {
      forall next: Snapshot | Reads(next, p.cloud, [hostname]) && next.zone == s.zone
        ensures Values(Chosen(next.records, AtTunnel(hostname, id))) == Values(Chosen(s.records, Foreign(hostname, id)))
      {
        NeverShared(s, hostname, id);
        OthersLeft(s, job.start, next, p.cloud, [hostname], id, 0);
      }
    }
  }

  lemma OwnedByOne(s: Snapshot, hostname: string, id: nat)
    ensures OwnedBy(s, [hostname], id) == Values(Chosen(s.records, OwnPointing(hostname, id)))
  {
    hide Values, Chosen;
    assert Init([hostname]) == [] && OwnedBy(s, [], id) == multiset{};
  }

  /** The step that empties the rules, if there is one. */
  function Emptying(s: Snapshot): seq<Step> {
    if Routes(s) != [] then ConfigSteps(s, []) else []
  }

  lemma EmptyingOff(s: Snapshot)
    requires s.tunnel.Some?
    ensures forall i :: 0 <= i < |Emptying(s)| ==> OffRecords(Emptying(s)[i]) || Emptying(s)[i].Verify?
    ensures RemoveTunnelSteps(s)
            == Emptying(s) + ReleaseAll(s, Hostnames(Routes(s)), s.tunnel.value.id) + [DeleteTunnel(s.tunnel.value.id)]
  {
    hide ReleaseAll, Routes, Hostnames, SortIngress;
  }

  lemma DeletionChange(id: nat, created: Option<nat>, comments: Comments)
    ensures RemovedBy([DeleteTunnel(id)]) == multiset{} && AddedBy([DeleteTunnel(id)], created, comments) == multiset{}
  {
    OneChange([DeleteTunnel(id)], created, comments);
    hide RemovedBy, AddedBy;
  }

  lemma TakeDownChange(s: Snapshot, created: Option<nat>, comments: Comments)
    requires s.tunnel.Some?
    ensures RemovedBy(RemoveTunnelSteps(s)) == OwnedBy(s, Hostnames(Routes(s)), s.tunnel.value.id)
    ensures AddedBy(RemoveTunnelSteps(s), created, comments) == multiset{}
  {
    hide *;
    var id, names := s.tunnel.value.id, Hostnames(Routes(s));
    var config := Emptying(s);
    var release := ReleaseAll(s, names, id);
    EmptyingOff(s);
    DeletionChange(id, created, comments);
    ChangesConcat(config, release, created, comments);
    ChangesConcat(config + release, [DeleteTunnel(id)], created, comments);
    NoChanges(config, created, comments);
    ReleaseChange(s, names, id, created, comments);
  }

  lemma RecordsTakenDown(s: Snapshot, job: Job, p: Progress)
    requires s.tunnel.Some? && PlanFor(RemoveTunnel, s) == Plan(job.plan) && AllDone(job, p)
    ensures Data(p.cloud) + OwnedBy(s, Hostnames(Routes(s)), s.tunnel.value.id) == Data(job.start)
  {
    hide AllDone, RemoveTunnelSteps, Finished, RemovedBy, AddedBy, Data, Routes, Hostnames, OwnedBy;
    ChangesDone(job, p);
    FinishedChange(RemoveTunnelSteps(s), p.created, job.comments);
    TakeDownChange(s, p.created, job.comments);
    NothingAdded(Data(p.cloud), RemovedBy(job.plan), Data(job.start));
  }

  /** Removing the tunnel takes the own records of all its hostnames out of the account, and nothing
      else; unless two hostnames that differ only in case share one, a later reading finds what was
      not Teitunnel's. */
  lemma TakeDownReleases(s: Snapshot, job: Job, p: Progress)
    requires s.tunnel.Some? && Reads(s, job.start, Hostnames(Routes(s)))
    requires PlanFor(RemoveTunnel, s) == Plan(job.plan) && AllDone(job, p)
    ensures var id, names := s.tunnel.value.id, Hostnames(Routes(s));
            && Data(p.cloud) + OwnedBy(s, names, id) == Data(job.start)
            && forall next: Snapshot, i ::
                 Reads(next, p.cloud, names) && next.zone == s.zone && 0 <= i < |names| && !SharedRecord(s, names, id) ==>
                   Values(Chosen(next.records, AtTunnel(names[i], id))) == Values(Chosen(s.records, Foreign(names[i], id)))
  {
    var id, names := s.tunnel.value.id, Hostnames(Routes(s));
    RecordsTakenDown(s, job, p);
    hide *;
    forall next: Snapshot, i | Reads(next, p.cloud, names) && next.zone == s.zone && 0 <= i < |names| && !SharedRecord(s, names, id)
      ensures Values(Chosen(next.records, AtTunnel(names[i], id))) == Values(Chosen(s.records, Foreign(names[i], id)))
    {
      OthersLeft(s, job.start, next, p.cloud, names, id, i);
    }
  }

  // ----- From the request to the settled account -----

  lemma DnsKinds(s: Snapshot, zone: string, hostname: string, route: string)
    ensures var dns := DnsSteps(s, zone, hostname, route);
            forall i :: 0 <= i < |dns| ==> !dns[i].CreateTunnel? && !dns[i].DeleteTunnel?
  {
    hide Chosen, AlreadyOurs;
  }

  lemma AddKinds(s: Snapshot, route: Route, zone: string)
    ensures var steps := AddSteps(s, route, zone);
            && (forall i :: 0 <= i < |steps| ==> !steps[i].DeleteTunnel? && (steps[i].CreateTunnel? ==> s.tunnel.None?))
            && (s.tunnel.None? ==> steps != [] && steps[0].CreateTunnel?)
  {
    hide TunnelPartOf, DnsSteps, AddSteps;
    AddStepsAre(s, route, zone);
    TunnelPartIs(s, route);
    DnsKinds(s, zone, route.hostname, route.id);
  }

  lemma AddTunnelKnown(s: Snapshot, route: Route, zone: string)
    ensures var plan := Finished(AddSteps(s, route, zone));
            && !DeletesTunnel(plan, |plan|)
            && (MakesTunnel(plan) <==> s.tunnel.None?)
  {
    hide AddSteps;
    AddKinds(s, route, zone);
    if s.tunnel.None? {
      assert !AddSteps(s, route, zone)[0].Verify?;
    }
  }

  /** What an execution that applied the plan leaves to plan: nothing. */
  lemma AddSettles(route: Route, s: Snapshot, job: Job, refuses: nat -> bool, first: nat, known: Option<nat>, outcome: Outcome,
                   p: Progress, calls: nat, next: Snapshot)
    requires Reads(s, job.start, [route.hostname]) && PlanFor(AddRoute(route), s) == Plan(job.plan)
    requires known == (if s.tunnel.Some? then Some(s.tunnel.value.id) else None)
    requires Completed(job, refuses, first, known, outcome, p, calls)
    requires Reads(next, p.cloud, [route.hostname]) && next.zone == s.zone && next.elsewhere == s.elsewhere
    requires next.tunnel.Some? && Some(next.tunnel.value.id) == outcome.tunnel
    ensures PlanFor(AddRoute(route), next) == Plan([])
  {
    assert Tells(next, p.cloud);
    hide Reads, Tells, Sound, AddSteps, Finished, Performed, VerifyHosts, DeletesTunnel, MakesTunnel;
    AddTunnelKnown(s, route, s.zone(route.hostname).value);
    AppliedIsDone(job, refuses, first, known, outcome, p, calls);
    AddConverges(route, s, job, p, next);
  }

  /** A later reading for the route's hostname, in which the tunnel is the one the plan used. */
  ghost predicate ReadAgain(s: Snapshot, c: Cloud, hostname: string, tunnel: Option<nat>, next: Snapshot) {
    && Reads(next, c, [hostname]) && next.zone == s.zone && next.elsewhere == s.elsewhere
    && next.tunnel.Some? && Some(next.tunnel.value.id) == tunnel
  }

  /** Adding a route, from a reading of the account to the execution of the plan: it is applied if and
      only if no call is refused, and then there is nothing left to plan; otherwise the run gave up at
      a step and undid the ones before it, as far as that is possible. */
  method PublishRoute(api: Api, s: Snapshot, route: Route, comments: Comments)
    returns (planned: Planned, outcome: Outcome, ghost stop: Option<Stop>)
    requires Reads(s, api.cloud, [route.hostname])
    modifies api
    ensures planned == PlanFor(AddRoute(route), s)
    ensures planned.Refusal? ==> api.cloud == old(api.cloud) && api.calls == old(api.calls)
    ensures planned.Plan? ==> (outcome.Applied? <==> Clear(api.refuses, old(api.calls), api.calls))
    ensures planned.Plan? && outcome.Applied? ==>
              forall next: Snapshot :: ReadAgain(s, api.cloud, route.hostname, outcome.tunnel, next) ==>
                PlanFor(AddRoute(route), next) == Plan([])
    ensures planned.Plan? && !outcome.Applied? ==>
              && stop.Some?
              && GaveUp(Job(old(api.cloud), planned.steps, comments), api.refuses, old(api.calls), outcome, stop.value, api.cloud,
                        api.calls)
  {
    hide Reads, Accurate, Resolvable, Completed, GaveUp, PlanAdd, Clear;
    planned := MakePlan(AddRoute(route), s);
    outcome, stop := Applied(None, []), None;
    if planned.Plan? {
      ghost var job := Job(api.cloud, planned.steps, comments);
      PlansAreAccurate(AddRoute(route), s, api.cloud, comments);
      var known := if s.tunnel.Some? then Some(s.tunnel.value.id) else None;
      var run := new Run(api, comments);
      ghost var ended;
      ghost var first := api.calls;
      outcome, ended := run.Execute(planned.steps, known);
      stop := Some(ended);
      forall next: Snapshot | outcome.Applied? && ReadAgain(s, api.cloud, route.hostname, outcome.tunnel, next)
        ensures PlanFor(AddRoute(route), next) == Plan([])
      {
        AddSettles(route, s, job, api.refuses, first, known, outcome, run.Now(), api.calls, next);
      }
    }
  }
}
