/** What a refused call leads to, and two plans whose rollback leaves something behind. */
module RollbackLimits {
  import opened CloudAccount
  import opened Effects
  import opened Executor
  import opened Ingress
  import opened Ledger
  import opened Planner
  import opened Plans
  import opened Readings
  import opened Wrappers

  /** How an execution that starts with call `first` can end. */
  ghost predicate Ends(job: Job, refuses: nat -> bool, first: nat, known: Option<nat>, outcome: Outcome, stop: Stop, p: Progress,
                       calls: nat)
  {
    if outcome.Applied? then Completed(job, refuses, first, known, outcome, p, calls)
    else GaveUp(job, refuses, first, outcome, stop, p.cloud, calls)
  }

  /** Deleting the tunnel comes last, as that step can't be undone. */
  ghost predicate DeletesLast(plan: seq<Step>) {
    forall i :: 0 <= i < |plan| && plan[i].DeleteTunnel? ==> i == |plan| - 1
  }

  lemma NothingGone(job: Job, failed: nat, e: Entry)
    requires failed < |job.plan| && DeletesLast(job.plan)
    ensures !Gone(job, BareBelow(job.plan, failed), e)
  {
    BareAre(job.plan, failed);
  }

  lemma NotTwice(refuses: nat -> bool, from: nat, mid: nat, to: nat)
    requires forall i, j :: from <= i < j && refuses(i) ==> !refuses(j)
    ensures Clear(refuses, from, mid) || Clear(refuses, mid, to)
  {
  }

  /** If at most one call is refused, nothing is left over: the plan is applied or rolled back. */
  lemma OneRefusal(job: Job, refuses: nat -> bool, first: nat, known: Option<nat>, outcome: Outcome, stop: Stop, p: Progress, calls: nat)
    requires Ends(job, refuses, first, known, outcome, stop, p, calls)
    requires Resolvable(job) && DeletesLast(job.plan)
    requires forall i, j :: first <= i < j && refuses(i) ==> !refuses(j)
    ensures outcome.Applied? || outcome.RolledBack?
  {
    hide Running, Sound, Restored, Behind, Resolvable, Chain, Accounted, Completed;
    if outcome.PartiallyApplied? {
      NothingGone(job, outcome.failed, outcome.leftovers[0]);
      NotTwice(refuses, stop.from, stop.to, calls);
    }
  }

  lemma NotApplied(job: Job, refuses: nat -> bool, k: nat, known: Option<nat>, outcome: Outcome, p: Progress, calls: nat)
    requires k < |Schedule(job.plan, 0)| && refuses(k)
    ensures !Completed(job, refuses, 0, known, outcome, p, calls)
  {
    hide Sound, Schedule;
  }

  /** The failed step is the one whose call was refused. */
  lemma StoppedThere(job: Job, refuses: nat -> bool, k: nat, failed: nat, stop: Stop)
    requires StoppedAt(job, refuses, 0, failed, stop) && Resolvable(job)
    requires k < |Schedule(job.plan, 0)| && forall i: nat :: refuses(i) ==> i == k
    ensures failed == Schedule(job.plan, 0)[k]
  {
    hide Running, Behind, Resolvable, Schedule;
    assert stop.from <= k < stop.to;
  }

  /** If exactly one call is refused, the rollback names the step whose call it was; for records
      created together, the first of them. */
  lemma RefusedAt(job: Job, refuses: nat -> bool, k: nat, known: Option<nat>, outcome: Outcome, stop: Stop, p: Progress, calls: nat)
    requires Ends(job, refuses, 0, known, outcome, stop, p, calls)
    requires Resolvable(job) && DeletesLast(job.plan)
    requires k < |Schedule(job.plan, 0)| && forall i: nat :: refuses(i) <==> i == k
    ensures outcome == RolledBack(Schedule(job.plan, 0)[k])
  {
    hide StoppedAt, RolledFrom, Resolvable, Completed, DeletesLast, Schedule, Restored;
    NotApplied(job, refuses, k, known, outcome, p, calls);
    OneRefusal(job, refuses, 0, known, outcome, stop, p, calls);
    StoppedThere(job, refuses, k, outcome.failed, stop);
  }

  /** The calls for records of one zone that follow each other: each takes as many as fit, and its
      first step is named. */
  lemma {:induction false} FirstsAre(steps: seq<nat>, k: nat)
    ensures |Firsts(steps)| == (|steps| + MAX_DNS_BATCH - 1) / MAX_DNS_BATCH
    ensures k < |Firsts(steps)| ==> k * MAX_DNS_BATCH < |steps| && Firsts(steps)[k] == steps[k * MAX_DNS_BATCH]
    decreases |steps|
  {
    if |steps| >= MAX_DNS_BATCH {
      FirstsAre(steps[MAX_DNS_BATCH..], if k > 0 then k - 1 else 0);
    } else if steps != [] {
      assert Firsts([]) == [] && steps[|steps|..] == [];
    }
  }

  // ----- A first configuration -----

  /** An existing tunnel gets its first rules, then a hostname. */
  function FirstConfiguration(rules: seq<Rule>, comments: Comments): Job {
    Job(Cloud(map[], map[0 := TunnelState("laptop", [], 0)], 1),
        [PutConfig(Existing(0), rules, Some(0), []), CreateRecord("zone", "app.example.com", Existing(0), "route")],
        comments)
  }

  /** When the record is refused, the run reports a rollback, and the rules stay. */
  lemma FirstConfigurationStays(rules: seq<Rule>, comments: Comments, refuses: nat -> bool, known: Option<nat>, outcome: Outcome,
                                stop: Stop, p: Progress, calls: nat)
    requires rules != [] && forall i: nat :: refuses(i) <==> i == 2
    requires Ends(FirstConfiguration(rules, comments), refuses, 0, known, outcome, stop, p, calls)
    ensures Accurate(FirstConfiguration(rules, comments))
    ensures outcome == RolledBack(1) && !Restored(FirstConfiguration(rules, comments).start, p.cloud)
  {
    hide Sound, Restored, Running, StoppedAt, RolledFrom, Completed;
    var job := FirstConfiguration(rules, comments);
    FirstConfigurationPlan(rules, comments);
    RefusedAt(job, refuses, 2, known, outcome, stop, p, calls);
    assert !Undoable(job.plan[0]);
  }

  lemma FirstConfigurationPlan(rules: seq<Rule>, comments: Comments)
    ensures var job := FirstConfiguration(rules, comments);
            Accurate(job) && Resolvable(job) && DeletesLast(job.plan) && Schedule(job.plan, 0) == [0, 0, 1]
  {
    var plan := FirstConfiguration(rules, comments).plan;
    TwoSteps(plan);
  }

  /** Two steps that are not both new records take their calls one after the other. */
  lemma TwoSteps(plan: seq<Step>)
    requires |plan| == 2 && !plan[0].CreateRecord?
    ensures Schedule(plan, 0) == seq(CallsFor(plan[0]), _ => 0) + seq(CallsFor(plan[1]), _ => 1)
  {
    assert RecordRun(plan, 0) == 0 && RecordRun(plan, 2) == 0 && RecordRun(plan, 1) <= 1;
    OneStepOn(plan, 0);
    OneStepOn(plan, 1);
    assert Schedule(plan, 2) == [];
  }

  method ConfigureFirst(rules: seq<Rule>, comments: Comments) returns (outcome: Outcome, cloud: Cloud)
    requires rules != []
    ensures outcome == RolledBack(1) && !Restored(FirstConfiguration(rules, comments).start, cloud)
  {
    hide Sound, Restored, Running, GaveUp, Completed, Accurate, Resolvable;
    var job := FirstConfiguration(rules, comments);
    FirstConfigurationPlan(rules, comments);
    var api := new Api(job.start, n => n == 2);
    var run := new Run(api, comments);
    ghost var stop;
    outcome, stop := run.Execute(job.plan, None);
    FirstConfigurationStays(rules, comments, api.refuses, None, outcome, stop, run.Now(), api.calls);
    cloud := api.cloud;
  }

  /** A reading of that account: a tunnel without rules, and no records. */
  function Unconfigured(): Snapshot {
    Snapshot(Some(OwnTunnel(0, "laptop", 0, [])), [], _ => Some("zone"), [], "laptop")
  }

  /** The planner makes that plan for the tunnel's first route, with a check of the hostname at the end
      if it serves web pages. */
  lemma FirstRoutePlan(service: string, options: string, web: bool, comments: Comments)
    ensures var route := Route("app.example.com", None, service, options, "route", web);
            var rules := SortIngress([route.Rule()]);
            && rules != []
            && Reads(Unconfigured(), FirstConfiguration(rules, comments).start, ["app.example.com"])
            && PlanFor(AddRoute(route), Unconfigured())
               == Plan(FirstConfiguration(rules, comments).plan + if web then [Verify("app.example.com")] else [])
  {
    var s, route := Unconfigured(), Route("app.example.com", None, service, options, "route", web);
    var rule := route.Rule();
    assert Routes(s) == [] && [] + [rule] == [rule];
    SortIngressIs([rule]);
    assert SortIngress([rule]) != [];
    hide SortIngress;
    var steps := AddSteps(s, route, "zone");
    assert !steps[0].Verify?;
  }

  // ----- A record without a comment -----

  const OLD_RECORD := Record("zone", "app.example.com", CNAME, Other("old.example.com"), true, 1, None)

  /** A record that points elsewhere and has no comment is taken over, then another is created. */
  function TakeOver(comments: Comments): Job {
    Job(Cloud(map[0 := OLD_RECORD], map[1 := TunnelState("laptop", [CATCH_ALL], 1)], 2),
        [UpdateRecord("zone", 0, "app.example.com", Existing(1), "route", OLD_RECORD),
         CreateRecord("zone", "api.example.com", Existing(1), "route")],
        comments)
  }

  lemma TakeOverPlan(comments: Comments)
    ensures var job := TakeOver(comments);
            Accurate(job) && Resolvable(job) && DeletesLast(job.plan) && Schedule(job.plan, 0) == [0, 1]
  {
    TwoSteps(TakeOver(comments).plan);
  }

  /** When the second record is refused, the run reports a rollback, and the first record keeps
      the comment it was given: the record data is not as it was. */
  lemma CommentStays(comments: Comments, refuses: nat -> bool, known: Option<nat>, outcome: Outcome, stop: Stop, p: Progress, calls: nat)
    requires forall i: nat :: refuses(i) <==> i == 1
    requires Ends(TakeOver(comments), refuses, 0, known, outcome, stop, p, calls)
    ensures Accurate(TakeOver(comments))
    ensures outcome == RolledBack(1) && Data(p.cloud) != Data(TakeOver(comments).start)
  {
    hide Sound, Restored, Running, StoppedAt, RolledFrom, Completed;
    var job := TakeOver(comments);
    TakeOverPlan(comments);
    RefusedAt(job, refuses, 1, known, outcome, stop, p, calls);
    assert LeavesComment(job.plan[0]);
  }

  method TakeOverRecord(comments: Comments) returns (outcome: Outcome, cloud: Cloud)
    ensures outcome == RolledBack(1) && Data(cloud) != Data(TakeOver(comments).start)
  {
    hide Sound, Restored, Running, GaveUp, Completed, Accurate, Resolvable;
    var job := TakeOver(comments);
    TakeOverPlan(comments);
    var api := new Api(job.start, n => n == 1);
    var run := new Run(api, comments);
    ghost var stop;
    outcome, stop := run.Execute(job.plan, None);
    CommentStays(comments, api.refuses, None, outcome, stop, run.Now(), api.calls);
    cloud := api.cloud;
  }
}
