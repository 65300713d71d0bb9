/** Plans, and what a set of completed steps amounts to in an account. */
module Plans {
  import opened CloudAccount
  import opened Histories
  import opened Ingress
  import opened Ledger
  import opened Sequences
  import opened Wrappers

  datatype TunnelRef = Existing(id: nat) | NewTunnel

  datatype Step =
    | CreateTunnel(name: string)
    | PutConfig(tunnel: TunnelRef, ingress: seq<Rule>, expected: Option<nat>, previousRules: seq<Rule>)
    | CreateRecord(zone: string, hostname: string, tunnel: TunnelRef, route: string)
    | UpdateRecord(zone: string, record: nat, hostname: string, tunnel: TunnelRef, route: string, previous: Record)
    | DeleteRecord(record: nat, previous: Record)
    | DeleteTunnel(id: nat)
    | Verify(hostname: string)

  /** How the comment of a route's record is written, keeping what the old one reserved. */
  type Comments = (string, Option<string>) -> string

  const CNAME := "CNAME"

  function Cname(comments: Comments, zone: string, hostname: string, tunnel: nat, route: string, was: Option<string>): Record {
    Record(zone, hostname, CNAME, Tunnel(tunnel), true, 1, Some(comments(route, was)))
  }

  function Resolve(created: Option<nat>, tunnel: TunnelRef): Option<nat> {
    if tunnel.Existing? then Some(tunnel.id) else created
  }

  /** The record of the account a step changes or deletes. */
  function Touched(step: Step): Option<nat> {
    if step.UpdateRecord? || step.DeleteRecord? then Some(step.record) else None
  }

  predicate Configures(step: Step, tunnel: TunnelRef) {
    step.PutConfig? && step.tunnel == tunnel
  }

  /** Completed without an undo of its own. */
  predicate Bare(step: Step) {
    step.DeleteTunnel? || (step.PutConfig? && step.previousRules == [])
  }

  /** Changes a record in place that had no comment: no undo takes the new comment off again. */
  predicate LeavesComment(step: Step) {
    step.UpdateRecord? && step.previous.kind == CNAME && step.previous.comment.None?
  }

  /** A plan, the account it is applied to, and how comments are written. */
  datatype Job = Job(start: Cloud, plan: seq<Step>, comments: Comments)

  /** What a plan made from a reading of the account says about it is so: every record and
      tunnel it names is there as described, and none is named by two steps. */
  ghost predicate Accurate(job: Job) {
    var start, plan := job.start, job.plan;
    && Valid(start)
    && (forall i :: 0 <= i < |plan| && Touched(plan[i]).Some? ==>
          plan[i].record in start.records && start.records[plan[i].record] == plan[i].previous)
    && (forall i :: 0 <= i < |plan| && plan[i].PutConfig? ==>
          if plan[i].tunnel.Existing? then
            plan[i].tunnel.id in start.tunnels && start.tunnels[plan[i].tunnel.id].ingress == plan[i].previousRules
          else plan[i].previousRules == [])
    && (forall i :: 0 <= i < |plan| && plan[i].DeleteTunnel? ==> plan[i].id in start.tunnels)
    && (forall i, j :: 0 <= i < j < |plan| ==> Independent(plan[i], plan[j]))
  }

  predicate Independent(a: Step, b: Step) {
    && (Touched(a).Some? ==> Touched(a) != Touched(b))
    && (a.PutConfig? && b.PutConfig? ==> a.tunnel != b.tunnel)
    && !(a.CreateTunnel? && b.CreateTunnel?)
  }

  // ----- Completed steps -----

  /** How far a run has come: the tunnel it created, its completed steps, those with an undo and
      those another undo covers, the account now, and the undone steps that left a comment. */
  datatype Progress = Progress(created: Option<nat>, entries: seq<Entry>, covered: seq<nat>, cloud: Cloud, traces: seq<Entry>) {
    /** The steps whose effects are in the account. */
    ghost function Steps(): set<nat> {
      Live(entries, covered)
    }

    /** The steps that show in the records. */
    function Shown(): (all: seq<Entry>)
      ensures all == entries + traces
    {
      if traces == [] then entries else entries + traces
    }
  }

  ghost function Live(es: seq<Entry>, covered: seq<nat>): set<nat> {
    (set i | 0 <= i < |es| :: es[i].step) + (set i | 0 <= i < |covered| :: covered[i])
  }

  /** The entry reverses its step, and what the step put in place is as planned. */
  predicate Matches(step: Step, created: Option<nat>, comments: Comments, undo: Undo, c: Cloud) {
    match step
    case CreateTunnel(_) => created.Some? && undo == DropTunnel(created.value)
    case PutConfig(t, _, _, previous) => t.Existing? && previous != [] && undo == RestoreConfig(t.id, previous)
    case CreateRecord(zone, hostname, tunnel, route) =>
      && undo.DropRecord? && undo.record in c.records && Resolve(created, tunnel).Some?
      && c.records[undo.record] == Cname(comments, zone, hostname, Resolve(created, tunnel).value, route, None)
    case UpdateRecord(zone, id, hostname, tunnel, route, previous) =>
      && undo.RestoreRecord? && undo.was == id && undo.previous == previous && (undo.current == id <==> previous.kind == CNAME)
      && undo.current in c.records && Resolve(created, tunnel).Some?
      && c.records[undo.current] == Cname(comments, zone, hostname, Resolve(created, tunnel).value, route, previous.comment)
    case DeleteRecord(id, previous) => undo == RecreateRecord(id, previous)
    case DeleteTunnel(_) => false
    case Verify(_) => false
  }

  ghost predicate AllMatch(job: Job, created: Option<nat>, es: seq<Entry>, c: Cloud) {
    forall i :: 0 <= i < |es| ==>
      es[i].step < |job.plan| && Matches(job.plan[es[i].step], created, job.comments, es[i].undo, c)
  }

  /** The record as an undo leaves it that could not take the comment off. */
  function Commented(job: Job, step: Step): Record
    requires step.UpdateRecord?
  {
    step.previous.(comment := Some(job.comments(step.route, None)))
  }

  predicate Traced(job: Job, e: Entry, c: Cloud) {
    && e.step < |job.plan| && LeavesComment(job.plan[e.step])
    && var step := job.plan[e.step];
       && e.undo == RestoreRecord(step.record, step.previous, step.record)
       && step.record in c.records && c.records[step.record] == Commented(job, step)
  }

  ghost predicate AllTraced(job: Job, traces: seq<Entry>, c: Cloud) {
    forall i :: 0 <= i < |traces| ==> Traced(job, traces[i], c)
  }

  ghost predicate StepsApart(es: seq<Entry>, covered: seq<nat>) {
    && (forall i, j :: 0 <= i < j < |es| ==> es[i].step != es[j].step)
    && (forall i :: 0 <= i < |es| ==> es[i].step !in covered)
  }

  ghost predicate Deletes(plan: seq<Step>, live: set<nat>, t: nat) {
    exists i :: i in live && i < |plan| && plan[i] == DeleteTunnel(t)
  }

  ghost predicate Creates(plan: seq<Step>, live: set<nat>) {
    exists i :: i in live && i < |plan| && plan[i].CreateTunnel?
  }

  ghost predicate ConfiguredAs(plan: seq<Step>, live: set<nat>, tunnel: TunnelRef, was: TunnelState, now: TunnelState) {
    && now.name == was.name
    && (forall i :: i in live && i < |plan| && Configures(plan[i], tunnel) ==> now.ingress == plan[i].ingress)
    && ((forall i :: i in live && i < |plan| ==> !Configures(plan[i], tunnel)) ==> now.ingress == was.ingress)
  }

  /** The created tunnel is as its step created it, and as a later step configured it. */
  ghost predicate CreatedAs(plan: seq<Step>, live: set<nat>, now: TunnelState) {
    forall i :: i in live && i < |plan| && plan[i].CreateTunnel? ==>
      ConfiguredAs(plan, live, NewTunnel, TunnelState(plan[i].name, [], 0), now)
  }

  /** The account's tunnels are the initial ones with exactly the live steps' effects. */
  ghost predicate Tunnels(job: Job, created: Option<nat>, live: set<nat>, c: Cloud) {
    && (forall t :: t in job.start.tunnels ==> (t in c.tunnels <==> !Deletes(job.plan, live, t)))
    && (forall t :: t in c.tunnels && t !in job.start.tunnels ==> created == Some(t))
    && (created.Some? ==> created.value !in job.start.tunnels && (created.value in c.tunnels <==> Creates(job.plan, live)))
    && (created.None? ==> !Creates(job.plan, live)
                          && forall i :: i in live && i < |job.plan| ==> !Configures(job.plan[i], NewTunnel))
    && (forall t :: t in job.start.tunnels && t in c.tunnels ==>
          ConfiguredAs(job.plan, live, Existing(t), job.start.tunnels[t], c.tunnels[t]))
    && (created.Some? && created.value in c.tunnels ==> CreatedAs(job.plan, live, c.tunnels[created.value]))
  }

  /** The account is the initial one with the effects of the entered and covered steps and the
      traces of undone ones, no more and no less, and every entry can still be undone. */
  ghost predicate Sound(job: Job, p: Progress) {
    match p
    case Progress(created, es, covered, c, traces) =>
      && Books(job.start, p.Shown(), c)
      && AllMatch(job, created, es, c)
      && AllTraced(job, traces, c)
      && StepsApart(p.Shown(), covered)
      && (forall i :: 0 <= i < |covered| ==> covered[i] < |job.plan| && Bare(job.plan[covered[i]]))
      && Tunnels(job, created, Live(es, covered), c)
      && job.start.next <= c.next
      && (created.Some? ==> job.start.next <= created.value < c.next)
  }

  /** The records the remaining steps touch are still as the plan found them. */
  ghost predicate Ready(job: Job, es: seq<Entry>, live: set<nat>, c: Cloud) {
    forall i :: 0 <= i < |job.plan| && i !in live && Touched(job.plan[i]).Some? ==>
      && job.plan[i].record in c.records && c.records[job.plan[i].record] == job.plan[i].previous
      && job.plan[i].record < job.start.next
      && forall k :: 0 <= k < |es| ==> Held(es[k]) != Some(job.plan[i].record)
  }

  /** A tunnel that was not configured yet is in the version the plan was made against. */
  ghost predicate Versions(job: Job, live: set<nat>, c: Cloud) {
    forall t :: t in job.start.tunnels && t in c.tunnels
                && (forall i :: i in live && i < |job.plan| ==> !Configures(job.plan[i], Existing(t)))
      ==> c.tunnels[t].version == job.start.tunnels[t].version
  }

  /** A run that can go on, or be undone: nothing was undone yet. */
  ghost predicate Running(job: Job, p: Progress) {
    match p
    case Progress(created, es, covered, c, traces) =>
      && traces == []
      && Sound(job, p)
      && Ready(job, es, Live(es, covered), c)
      && Versions(job, Live(es, covered), c)
      && (created.Some? ==> Creates(job.plan, Live(es, covered)))
  }

  lemma NoStepsTunnels(job: Job)
    ensures Tunnels(job, None, {}, job.start)
  {
  }

  lemma Started(job: Job)
    requires Accurate(job)
    ensures Running(job, Progress(None, [], [], job.start, []))
    ensures Progress(None, [], [], job.start, []).Steps() == {}
  {
    hide Tunnels;
    NoStepsTunnels(job);
    assert Live([], []) == {};
    assert Progress(None, [], [], job.start, []).Shown() == [];
  }

  lemma CanBeUndone(job: Job, p: Progress)
    requires Running(job, p)
    ensures Sound(job, p)
  {
  }

  // ----- Taking a step -----

  lemma LiveEnter(es: seq<Entry>, covered: seq<nat>, e: Entry)
    ensures Live(es + [e], covered) == Live(es, covered) + {e.step}
  {
    var more := es + [e];
    assert more[|es|] == e;
    assert forall i :: 0 <= i < |es| ==> more[i] == es[i];
    forall s | s in Live(es, covered)
      ensures s in Live(more, covered)
    {
      if i :| 0 <= i < |es| && es[i].step == s {
        assert more[i].step == s;
      }
    }
  }

  lemma LiveCover(es: seq<Entry>, covered: seq<nat>, n: nat)
    ensures Live(es, covered + [n]) == Live(es, covered) + {n}
  {
    var more := covered + [n];
    assert more[|covered|] == n;
    forall s | s in Live(es, covered)
      ensures s in Live(es, more)
    {
      if i :| 0 <= i < |covered| && covered[i] == s {
        assert more[i] == s;
      }
    }
  }

  lemma NotLive(es: seq<Entry>, covered: seq<nat>, n: nat)
    requires n !in Live(es, covered)
    ensures n !in covered && forall i :: 0 <= i < |es| ==> es[i].step != n
  {
    assert forall i :: 0 <= i < |covered| ==> covered[i] in Live(es, covered);
    assert forall i :: 0 <= i < |es| ==> es[i].step in Live(es, covered);
  }

  lemma EffectsWith(plan: seq<Step>, live: set<nat>, n: nat)
    requires n < |plan|
    ensures forall t :: Deletes(plan, live + {n}, t) <==> Deletes(plan, live, t) || plan[n] == DeleteTunnel(t)
    ensures Creates(plan, live + {n}) <==> Creates(plan, live) || plan[n].CreateTunnel?
  {
    forall t
      ensures Deletes(plan, live + {n}, t) <==> Deletes(plan, live, t) || plan[n] == DeleteTunnel(t)
    {
      if i :| i in live && i < |plan| && plan[i] == DeleteTunnel(t) {
        assert i in live + {n};
      }
      assert n in live + {n};
    }
    if i :| i in live && i < |plan| && plan[i].CreateTunnel? {
      assert i in live + {n};
    }
    assert n in live + {n};
  }

  lemma ConfiguredWith(plan: seq<Step>, live: set<nat>, n: nat, tunnel: TunnelRef, was: TunnelState, now: TunnelState)
    requires n < |plan| && !Configures(plan[n], tunnel)
    ensures ConfiguredAs(plan, live + {n}, tunnel, was, now) <==> ConfiguredAs(plan, live, tunnel, was, now)
  {
    assert forall i :: i in live ==> i in live + {n};
  }

  lemma CreatedWith(plan: seq<Step>, live: set<nat>, n: nat, now: TunnelState)
    requires n < |plan| && !plan[n].CreateTunnel? && !Configures(plan[n], NewTunnel)
    ensures CreatedAs(plan, live + {n}, now) <==> CreatedAs(plan, live, now)
  {
    forall i | i in live && i < |plan| && plan[i].CreateTunnel?
      ensures ConfiguredAs(plan, live + {n}, NewTunnel, TunnelState(plan[i].name, [], 0), now)
              <==> ConfiguredAs(plan, live, NewTunnel, TunnelState(plan[i].name, [], 0), now)
    {
      ConfiguredWith(plan, live, n, NewTunnel, TunnelState(plan[i].name, [], 0), now);
    }
    assert forall i :: i in live ==> i in live + {n};
  }

  /** A step that neither deletes, creates nor configures leaves the tunnels alone. */
  lemma SameTunnels(job: Job, created: Option<nat>, live: set<nat>, n: nat, c: Cloud, after: Cloud)
    requires n < |job.plan| && (Touched(job.plan[n]).Some? || job.plan[n].CreateRecord?)
    requires after.tunnels == c.tunnels
    ensures Tunnels(job, created, live + {n}, after) <==> Tunnels(job, created, live, c)
  {
    hide ConfiguredAs, CreatedAs;
    EffectsWith(job.plan, live, n);
    forall t | t in job.start.tunnels && t in c.tunnels
      ensures ConfiguredAs(job.plan, live + {n}, Existing(t), job.start.tunnels[t], c.tunnels[t])
              <==> ConfiguredAs(job.plan, live, Existing(t), job.start.tunnels[t], c.tunnels[t])
    {
      ConfiguredWith(job.plan, live, n, Existing(t), job.start.tunnels[t], c.tunnels[t]);
    }
    if created.Some? && created.value in c.tunnels {
      CreatedWith(job.plan, live, n, c.tunnels[created.value]);
    }
    assert forall i :: i in live ==> i in live + {n};
  }

  /** A step on a record changes that record only, and what it holds is that record or a new one. */
  ghost predicate OnlyTouches(step: Step, c: Cloud, e: Entry, after: Cloud) {
    && Valid(after) && after.tunnels == c.tunnels && c.next <= after.next
    && (forall id :: id in c.records && Some(id) != Touched(step) ==> id in after.records && after.records[id] == c.records[id])
    && (Held(e).Some? ==> Held(e).value in after.records && (Held(e) == Touched(step) || Held(e).value >= c.next))
  }

  lemma EnterStep(job: Job, created: Option<nat>, es: seq<Entry>, covered: seq<nat>, e: Entry, c: Cloud)
    requires AllMatch(job, created, es, c) && StepsApart(es, covered)
    requires e.step < |job.plan| && Matches(job.plan[e.step], created, job.comments, e.undo, c)
    requires e.step !in covered && forall i :: 0 <= i < |es| ==> es[i].step != e.step
    ensures AllMatch(job, created, es + [e], c) && StepsApart(es + [e], covered)
  {
  }

  lemma MatchesStay(job: Job, created: Option<nat>, es: seq<Entry>, c: Cloud, after: Cloud)
    requires AllMatch(job, created, es, c) && KeepsHeld(es, c.records, after.records)
    ensures AllMatch(job, created, es, after)
  {
    forall i | 0 <= i < |es|
      ensures Matches(job.plan[es[i].step], created, job.comments, es[i].undo, after)
    {
      assert Matches(job.plan[es[i].step], created, job.comments, es[i].undo, c);
    }
  }

  lemma HeldElsewhere(job: Job, p: Progress, n: nat)
    requires Ready(job, p.entries, p.Steps(), p.cloud) && Valid(p.cloud) && InPlace(p.entries, p.cloud.records)
    requires n < |job.plan| && n !in p.Steps()
    ensures forall k :: 0 <= k < |p.entries| && Held(p.entries[k]).Some? ==>
              Held(p.entries[k]).value < p.cloud.next && Held(p.entries[k]) != Touched(job.plan[n])
  {
  }

  lemma StillReady(job: Job, p: Progress, e: Entry, after: Cloud)
    requires Accurate(job) && job.start.next <= p.cloud.next
    requires Ready(job, p.entries, p.Steps(), p.cloud)
    requires e.step < |job.plan| && e.step !in p.Steps() && OnlyTouches(job.plan[e.step], p.cloud, e, after)
    ensures Ready(job, p.entries + [e], p.Steps() + {e.step}, after)
  {
    var plan, es := job.plan, p.entries + [e];
    forall i | 0 <= i < |plan| && i !in p.Steps() + {e.step} && Touched(plan[i]).Some?
      ensures plan[i].record in after.records && after.records[plan[i].record] == plan[i].previous
      ensures plan[i].record < job.start.next
      ensures forall k :: 0 <= k < |es| ==> Held(es[k]) != Some(plan[i].record)
    {
      if i < e.step {
        assert Independent(plan[i], plan[e.step]);
      } else {
        assert Independent(plan[e.step], plan[i]);
      }
      assert Touched(plan[i]) != Touched(plan[e.step]);
    }
  }

  /** What entering a completed step takes. */
  lemma EnteredSound(job: Job, p: Progress, e: Entry, created: Option<nat>, after: Cloud)
    requires Sound(job, p) && p.traces == [] && e.step < |job.plan| && e.step !in p.Steps()
    requires Books(job.start, p.entries + [e], after)
    requires AllMatch(job, created, p.entries, after)
    requires Matches(job.plan[e.step], created, job.comments, e.undo, after)
    requires Tunnels(job, created, p.Steps() + {e.step}, after)
    requires p.cloud.next <= after.next
    requires created.Some? ==> job.start.next <= created.value < after.next
    ensures Sound(job, Progress(created, p.entries + [e], p.covered, after, []))
  {
    NotLive(p.entries, p.covered, e.step);
    LiveEnter(p.entries, p.covered, e);
    assert p.Shown() == p.entries;
    EnterStep(job, created, p.entries, p.covered, e, after);
  }

  /** A step on a record disturbs nothing that is held. */
  lemma RecordKeepsHeld(job: Job, p: Progress, e: Entry, after: Cloud)
    requires Ready(job, p.entries, p.Steps(), p.cloud) && Valid(p.cloud) && InPlace(p.entries, p.cloud.records)
    requires e.step < |job.plan| && e.step !in p.Steps() && OnlyTouches(job.plan[e.step], p.cloud, e, after)
    ensures KeepsHeld(p.entries, p.cloud.records, after.records)
    ensures Held(e).Some? ==> forall i :: 0 <= i < |p.entries| ==> Held(p.entries[i]) != Held(e)
  {
    HeldElsewhere(job, p, e.step);
  }

  /** A step on a record is done and entered. */
  lemma RecordStep(job: Job, p: Progress, e: Entry, after: Cloud)
    requires Sound(job, p) && p.traces == [] && Ready(job, p.entries, p.Steps(), p.cloud)
    requires e.step < |job.plan| && e.step !in p.Steps()
    requires Touched(job.plan[e.step]).Some? || job.plan[e.step].CreateRecord?
    requires OnlyTouches(job.plan[e.step], p.cloud, e, after)
    requires Matches(job.plan[e.step], p.created, job.comments, e.undo, after)
    requires Data(after) + TakenData(e) == Data(p.cloud) + HeldData(e, after.records)
    ensures Sound(job, Progress(p.created, p.entries + [e], p.covered, after, []))
  {
    RecordKeepsHeld(job, p, e, after);
    Enter(job.start, p.entries, p.cloud, e, after);
    MatchesStay(job, p.created, p.entries, p.cloud, after);
    SameTunnels(job, p.created, p.Steps(), e.step, p.cloud, after);
    EnteredSound(job, p, e, p.created, after);
  }

  // ----- Steps on tunnels -----

  lemma {:induction false} DataFurther(records: map<nat, Record>, n: nat, m: nat)
    requires n <= m && forall id :: id in records ==> id < n
    ensures DataBelow(records, m) == DataBelow(records, n)
    decreases m
  {
    if n < m {
      DataFurther(records, n, m - 1);
    }
  }

  lemma CreatedTunnels(job: Job, live: set<nat>, c: Cloud, n: nat, after: Cloud)
    requires Valid(job.start) && job.start.next <= c.next
    requires Tunnels(job, None, live, c) && n < |job.plan| && job.plan[n].CreateTunnel?
    requires after.tunnels == c.tunnels[c.next := TunnelState(job.plan[n].name, [], 0)]
    ensures Tunnels(job, Some(c.next), live + {n}, after)
  {
    EffectsWith(job.plan, live, n);
    forall t | t in job.start.tunnels && t in c.tunnels
      ensures ConfiguredAs(job.plan, live + {n}, Existing(t), job.start.tunnels[t], c.tunnels[t])
    {
      ConfiguredWith(job.plan, live, n, Existing(t), job.start.tunnels[t], c.tunnels[t]);
    }
    assert CreatedAs(job.plan, live + {n}, after.tunnels[c.next]);
  }

  lemma MatchesLater(job: Job, es: seq<Entry>, c: Cloud, id: nat)
    requires AllMatch(job, None, es, c)
    ensures AllMatch(job, Some(id), es, c)
  {
    forall i | 0 <= i < |es|
      ensures Matches(job.plan[es[i].step], Some(id), job.comments, es[i].undo, c)
    {
      assert Matches(job.plan[es[i].step], None, job.comments, es[i].undo, c);
    }
  }

  /** A step that leaves the records alone is entered. */
  lemma EnterBeside(job: Job, p: Progress, e: Entry, created: Option<nat>, after: Cloud)
    requires Sound(job, p) && p.traces == [] && e.step < |job.plan| && e.step !in p.Steps()
    requires Valid(after) && after.records == p.cloud.records && p.cloud.next <= after.next
    requires e.undo.DropTunnel? || e.undo.RestoreConfig?
    requires AllMatch(job, created, p.entries, p.cloud)
    requires Matches(job.plan[e.step], created, job.comments, e.undo, after)
    requires Tunnels(job, created, p.Steps() + {e.step}, after)
    requires created.Some? ==> job.start.next <= created.value < after.next
    ensures Sound(job, Progress(created, p.entries + [e], p.covered, after, []))
  {
    DataFurther(p.cloud.records, p.cloud.next, after.next);
    Enter(job.start, p.entries, p.cloud, e, after);
    MatchesStay(job, created, p.entries, p.cloud, after);
    EnteredSound(job, p, e, created, after);
  }

  lemma CreateTunnelStep(job: Job, p: Progress, n: nat, after: Cloud)
    requires Accurate(job) && Sound(job, p) && p.traces == [] && p.created.None?
    requires n < |job.plan| && job.plan[n].CreateTunnel? && n !in p.Steps()
    requires after == p.cloud.(tunnels := p.cloud.tunnels[p.cloud.next := TunnelState(job.plan[n].name, [], 0)],
                               next := p.cloud.next + 1)
    ensures Sound(job, Progress(Some(p.cloud.next), p.entries + [Entry(n, DropTunnel(p.cloud.next))], p.covered, after, []))
  {
    CreatedTunnels(job, p.Steps(), p.cloud, n, after);
    MatchesLater(job, p.entries, p.cloud, p.cloud.next);
    EnterBeside(job, p, Entry(n, DropTunnel(p.cloud.next)), Some(p.cloud.next), after);
  }

  lemma ConfigOnce(job: Job, live: set<nat>, n: nat, tunnel: TunnelRef)
    requires Accurate(job) && n < |job.plan| && n !in live && Configures(job.plan[n], tunnel)
    ensures forall i :: i in live && i < |job.plan| ==> !Configures(job.plan[i], tunnel)
  {
    forall i | i in live && i < |job.plan|
      ensures !Configures(job.plan[i], tunnel)
    {
      if i < n {
        assert Independent(job.plan[i], job.plan[n]);
      } else {
        assert Independent(job.plan[n], job.plan[i]);
      }
    }
  }

  lemma OneCreation(job: Job, live: set<nat>, n: nat)
    requires Accurate(job) && n < |job.plan| && job.plan[n].CreateTunnel? && n !in live
    ensures !Creates(job.plan, live)
  {
    forall i | i in live && i < |job.plan|
      ensures !job.plan[i].CreateTunnel?
    {
      if i < n {
        assert Independent(job.plan[i], job.plan[n]);
      } else {
        assert Independent(job.plan[n], job.plan[i]);
      }
    }
  }

  /** A first configuration in this run, whatever the tunnel was before. */
  lemma NewlyConfigured(job: Job, live: set<nat>, n: nat, tunnel: TunnelRef, was: TunnelState, mid: TunnelState, now: TunnelState)
    requires Accurate(job) && n < |job.plan| && n !in live && Configures(job.plan[n], tunnel)
    requires ConfiguredAs(job.plan, live, tunnel, was, mid)
    requires now.name == mid.name && now.ingress == job.plan[n].ingress
    ensures ConfiguredAs(job.plan, live + {n}, tunnel, was, now)
  {
    ConfigOnce(job, live, n, tunnel);
    assert n in live + {n};
  }

  lemma CreatedConfigured(job: Job, live: set<nat>, n: nat, mid: TunnelState, now: TunnelState)
    requires Accurate(job) && n < |job.plan| && n !in live && Configures(job.plan[n], NewTunnel)
    requires CreatedAs(job.plan, live, mid)
    requires now.name == mid.name && now.ingress == job.plan[n].ingress
    ensures CreatedAs(job.plan, live + {n}, now)
  {
    forall i | i in live + {n} && i < |job.plan| && job.plan[i].CreateTunnel?
      ensures ConfiguredAs(job.plan, live + {n}, NewTunnel, TunnelState(job.plan[i].name, [], 0), now)
    {
      NewlyConfigured(job, live, n, NewTunnel, TunnelState(job.plan[i].name, [], 0), mid, now);
    }
  }

  /** Deleting a tunnel touches only that tunnel. */
  lemma DeletedTunnels(job: Job, created: Option<nat>, live: set<nat>, c: Cloud, n: nat, after: Cloud)
    requires Accurate(job) && Tunnels(job, created, live, c)
    requires n < |job.plan| && n !in live && job.plan[n].DeleteTunnel?
    requires after == c.(tunnels := c.tunnels - {job.plan[n].id})
    ensures Tunnels(job, created, live + {n}, after)
  {
    hide ConfiguredAs, CreatedAs;
    EffectsWith(job.plan, live, n);
    forall t | t in job.start.tunnels && t in after.tunnels
      ensures ConfiguredAs(job.plan, live + {n}, Existing(t), job.start.tunnels[t], after.tunnels[t])
    {
      ConfiguredWith(job.plan, live, n, Existing(t), job.start.tunnels[t], after.tunnels[t]);
    }
    if created.Some? && created.value in after.tunnels {
      CreatedWith(job.plan, live, n, after.tunnels[created.value]);
    }
  }

  /** Writing a configuration touches only that tunnel. */
  lemma WrittenTunnels(job: Job, created: Option<nat>, live: set<nat>, c: Cloud, n: nat, after: Cloud)
    requires Accurate(job) && Tunnels(job, created, live, c)
    requires n < |job.plan| && n !in live && job.plan[n].PutConfig?
    requires Resolve(created, job.plan[n].tunnel).Some? && Resolve(created, job.plan[n].tunnel).value in c.tunnels
    requires after == Configured(c, Resolve(created, job.plan[n].tunnel).value, job.plan[n].ingress)
    ensures Tunnels(job, created, live + {n}, after)
  {
    hide ConfiguredAs, CreatedAs;
    EffectsWith(job.plan, live, n);
    var tunnel := job.plan[n].tunnel;
    forall t | t in job.start.tunnels && t in after.tunnels
      ensures ConfiguredAs(job.plan, live + {n}, Existing(t), job.start.tunnels[t], after.tunnels[t])
    {
      if tunnel == Existing(t) {
        NewlyConfigured(job, live, n, tunnel, job.start.tunnels[t], c.tunnels[t], after.tunnels[t]);
      } else {
        ConfiguredWith(job.plan, live, n, Existing(t), job.start.tunnels[t], after.tunnels[t]);
      }
    }
    if created.Some? && created.value in after.tunnels {
      if tunnel == NewTunnel {
        CreatedConfigured(job, live, n, c.tunnels[created.value], after.tunnels[created.value]);
      } else {
        CreatedWith(job.plan, live, n, after.tunnels[created.value]);
      }
    }
  }

  lemma CoverApart(es: seq<Entry>, covered: seq<nat>, n: nat)
    requires StepsApart(es, covered) && forall i :: 0 <= i < |es| ==> es[i].step != n
    ensures StepsApart(es, covered + [n])
  {
  }

  /** A step on tunnels that has no undo of its own is covered. */
  lemma CoveredStep(job: Job, p: Progress, n: nat, after: Cloud)
    requires Sound(job, p) && p.traces == [] && n < |job.plan| && Bare(job.plan[n]) && n !in p.Steps()
    requires Valid(after) && after.records == p.cloud.records && after.next == p.cloud.next
    requires Tunnels(job, p.created, p.Steps() + {n}, after)
    ensures Sound(job, Progress(p.created, p.entries, p.covered + [n], after, []))
  {
    NotLive(p.entries, p.covered, n);
    LiveCover(p.entries, p.covered, n);
    CoverApart(p.entries, p.covered, n);
    MatchesStay(job, p.created, p.entries, p.cloud, after);
  }

  lemma ConfigStep(job: Job, p: Progress, n: nat, after: Cloud)
    requires Accurate(job) && Sound(job, p) && p.traces == []
    requires n < |job.plan| && job.plan[n].PutConfig? && job.plan[n].previousRules != [] && n !in p.Steps()
    requires job.plan[n].tunnel.Existing? && job.plan[n].tunnel.id in p.cloud.tunnels
    requires after == Configured(p.cloud, job.plan[n].tunnel.id, job.plan[n].ingress)
    ensures Sound(job, Progress(p.created, p.entries + [ConfigEntry(job, n)], p.covered, after, []))
  {
    WrittenTunnels(job, p.created, p.Steps(), p.cloud, n, after);
    ConfigMatches(job, p, n, after);
    EnterBeside(job, p, ConfigEntry(job, n), p.created, after);
  }

  function ConfigEntry(job: Job, n: nat): Entry
    requires n < |job.plan| && job.plan[n].PutConfig? && job.plan[n].tunnel.Existing?
  {
    Entry(n, RestoreConfig(job.plan[n].tunnel.id, job.plan[n].previousRules))
  }

  lemma ConfigMatches(job: Job, p: Progress, n: nat, after: Cloud)
    requires Sound(job, p)
    requires n < |job.plan| && job.plan[n].PutConfig? && job.plan[n].tunnel.Existing? && job.plan[n].previousRules != []
    requires job.plan[n].tunnel.id in p.cloud.tunnels
    requires after == Configured(p.cloud, job.plan[n].tunnel.id, job.plan[n].ingress)
    ensures Valid(after) && after.records == p.cloud.records && after.next == p.cloud.next
    ensures Matches(job.plan[n], p.created, job.comments, ConfigEntry(job, n).undo, after)
  {
  }

  // ----- Undoing a step -----

  /** The progress without one of its entries. */
  function Without(p: Progress, k: nat, after: Cloud): Progress
    requires k < |p.entries|
  {
    p.(entries := p.entries[..k] + p.entries[k + 1..], cloud := after)
  }

  /** The same when undoing it left a comment. */
  function WithTrace(p: Progress, k: nat, after: Cloud): Progress
    requires k < |p.entries|
  {
    Without(p, k, after).(traces := p.traces + [p.entries[k]])
  }

  lemma EntriesWithout(es: seq<Entry>, k: nat)
    requires k < |es|
    ensures es == es[..k] + [es[k]] + es[k + 1..]
    ensures var rest := es[..k] + es[k + 1..];
            && (forall i :: 0 <= i < k ==> rest[i] == es[i])
            && (forall i :: k <= i < |rest| ==> rest[i] == es[i + 1])
  {
  }

  /** Where the entry stands among all that shows in the records. */
  lemma ShownWithout(p: Progress, k: nat, after: Cloud)
    requires k < |p.entries|
    ensures var b := p.entries[k + 1..] + p.traces;
            && p.Shown() == p.entries[..k] + [p.entries[k]] + b
            && Without(p, k, after).Shown() == p.entries[..k] + b
            && WithTrace(p, k, after).Shown() == p.entries[..k] + b + [p.entries[k]]
  {
    EntriesWithout(p.entries, k);
    Assoc(p.entries[..k] + [p.entries[k]], p.entries[k + 1..], p.traces);
    Assoc(p.entries[..k], p.entries[k + 1..], p.traces);
    Assoc(p.entries[..k] + p.entries[k + 1..], p.traces, [p.entries[k]]);
  }

  lemma LiveWithout(p: Progress, k: nat, after: Cloud)
    requires k < |p.entries| && StepsApart(p.entries, p.covered)
    ensures var q := Without(p, k, after);
            && p.entries[k].step !in q.Steps()
            && q.Steps() + {p.entries[k].step} == p.Steps()
  {
    var q, n := Without(p, k, after), p.entries[k].step;
    EntriesWithout(p.entries, k);
    forall s | s in p.Steps() && s != n
      ensures s in q.Steps()
    {
      if i :| 0 <= i < |p.entries| && p.entries[i].step == s {
        assert q.entries[if i < k then i else i - 1].step == s;
      }
    }
    forall s | s in q.Steps()
      ensures s in p.Steps() && s != n
    {
      if i :| 0 <= i < |q.entries| && q.entries[i].step == s {
        assert p.entries[if i < k then i else i + 1].step == s;
      } else {
        assert s in p.covered;
      }
    }
  }

  lemma ApartWithout(a: seq<Entry>, e: Entry, b: seq<Entry>, covered: seq<nat>)
    requires StepsApart(a + [e] + b, covered)
    ensures StepsApart(a + b, covered) && StepsApart(a + b + [e], covered)
  {
    var all, rest := a + [e] + b, a + b;
    assert all[|a|] == e;
    assert forall i :: 0 <= i < |a| ==> all[i] == rest[i];
    assert forall i :: |a| <= i < |rest| ==> all[i + 1] == rest[i];
  }

  lemma ApartEntries(es: seq<Entry>, more: seq<Entry>, covered: seq<nat>)
    requires StepsApart(es + more, covered)
    ensures StepsApart(es, covered)
  {
    assert forall i :: 0 <= i < |es| ==> (es + more)[i] == es[i];
  }

  lemma TracesStay(job: Job, traces: seq<Entry>, c: Cloud, after: Cloud)
    requires AllTraced(job, traces, c) && KeepsHeld(traces, c.records, after.records)
    ensures AllTraced(job, traces, after)
  {
    forall i | 0 <= i < |traces|
      ensures Traced(job, traces[i], after)
    {
      assert Traced(job, traces[i], c);
    }
  }

  lemma KeepsParts(a: seq<Entry>, b: seq<Entry>, c: map<nat, Record>, after: map<nat, Record>)
    requires KeepsHeld(a + b, c, after)
    ensures KeepsHeld(a, c, after) && KeepsHeld(b, c, after)
  {
    assert forall i :: 0 <= i < |a| ==> (a + b)[i] == a[i];
    assert forall i :: 0 <= i < |b| ==> (a + b)[|a| + i] == b[i];
  }

  lemma MatchWithout(job: Job, p: Progress, k: nat, after: Cloud)
    requires k < |p.entries| && AllMatch(job, p.created, p.entries, p.cloud) && AllTraced(job, p.traces, p.cloud)
    requires KeepsHeld(Without(p, k, after).Shown(), p.cloud.records, after.records)
    ensures AllMatch(job, p.created, Without(p, k, after).entries, after) && AllTraced(job, p.traces, after)
  {
    EntriesWithout(p.entries, k);
    KeepsParts(Without(p, k, after).entries, p.traces, p.cloud.records, after.records);
    MatchesStay(job, p.created, Without(p, k, after).entries, p.cloud, after);
    TracesStay(job, p.traces, p.cloud, after);
  }

  /** The undo of a step takes exactly that step back. */
  lemma UndoneStep(job: Job, p: Progress, k: nat, after: Cloud)
    requires Sound(job, p) && k < |p.entries| && Valid(after) && p.cloud.next <= after.next
    requires KeepsHeld(Without(p, k, after).Shown(), p.cloud.records, after.records)
    requires Data(after) + HeldData(p.entries[k], p.cloud.records) == Data(p.cloud) + TakenData(p.entries[k])
    requires Tunnels(job, p.created, Without(p, k, after).Steps(), after)
    ensures Sound(job, Without(p, k, after))
  {
    hide Tunnels;
    var b := p.entries[k + 1..] + p.traces;
    ShownWithout(p, k, after);
    MatchWithout(job, p, k, after);
    ApartWithout(p.entries[..k], p.entries[k], b, p.covered);
    Strike(job.start, p.entries[..k], p.entries[k], b, p.cloud, after);
  }

  lemma DroppedTunnels(job: Job, id: nat, live: set<nat>, c: Cloud, n: nat, after: Cloud)
    requires Accurate(job) && Tunnels(job, Some(id), live + {n}, c)
    requires n < |job.plan| && job.plan[n].CreateTunnel? && n !in live
    requires after.tunnels == c.tunnels - {id}
    ensures Tunnels(job, Some(id), live, after)
  {
    EffectsWith(job.plan, live, n);
    OneCreation(job, live, n);
    forall t | t in job.start.tunnels && t in after.tunnels
      ensures ConfiguredAs(job.plan, live, Existing(t), job.start.tunnels[t], after.tunnels[t])
    {
      ConfiguredWith(job.plan, live, n, Existing(t), job.start.tunnels[t], c.tunnels[t]);
    }
  }

  /** A configuration that is undone is the previous one again. */
  lemma ConfiguredBack(job: Job, live: set<nat>, n: nat, t: nat, now: TunnelState, after: TunnelState)
    requires Accurate(job) && n < |job.plan| && n !in live && Configures(job.plan[n], Existing(t))
    requires ConfiguredAs(job.plan, live + {n}, Existing(t), job.start.tunnels[t], now)
    requires after.name == now.name && after.ingress == job.plan[n].previousRules
    ensures ConfiguredAs(job.plan, live, Existing(t), job.start.tunnels[t], after)
  {
    ConfigOnce(job, live, n, Existing(t));
  }

  lemma RestoredTunnels(job: Job, created: Option<nat>, live: set<nat>, c: Cloud, n: nat, t0: nat, after: Cloud)
    requires Accurate(job) && Tunnels(job, created, live + {n}, c)
    requires n < |job.plan| && n !in live && Configures(job.plan[n], Existing(t0)) && t0 in c.tunnels
    requires after == Configured(c, t0, job.plan[n].previousRules)
    ensures Tunnels(job, created, live, after)
  {
    hide ConfiguredAs, CreatedAs;
    EffectsWith(job.plan, live, n);
    forall t | t in job.start.tunnels && t in after.tunnels
      ensures ConfiguredAs(job.plan, live, Existing(t), job.start.tunnels[t], after.tunnels[t])
    {
      assert ConfiguredAs(job.plan, live + {n}, Existing(t), job.start.tunnels[t], c.tunnels[t]);
      if t == t0 {
        ConfiguredBack(job, live, n, t, c.tunnels[t], after.tunnels[t]);
      } else {
        ConfiguredWith(job.plan, live, n, Existing(t), job.start.tunnels[t], c.tunnels[t]);
      }
    }
    if created.Some? && created.value in after.tunnels {
      CreatedWith(job.plan, live, n, c.tunnels[created.value]);
    }
    assert forall i :: i in live ==> i in live + {n};
  }

  // ----- Restored or not -----

  /** Records, tunnels and configurations are what they were; ids and versions may differ. */
  ghost predicate Restored(start: Cloud, c: Cloud) {
    && Data(c) == Data(start)
    && c.tunnels.Keys == start.tunnels.Keys
    && forall t :: t in start.tunnels ==> c.tunnels[t].name == start.tunnels[t].name && c.tunnels[t].ingress == start.tunnels[t].ingress
  }

  /** A step of which nothing outlasts a clean rollback: not a deleted tunnel, not a first
      configuration of a tunnel that was there before, and not a comment on a record without one. */
  predicate Undoable(step: Step) {
    && !step.DeleteTunnel?
    && (step.PutConfig? && step.tunnel.Existing? && step.previousRules == [] ==> step.ingress == [])
    && !LeavesComment(step)
  }

  lemma AllUndoable(job: Job, p: Progress)
    requires Accurate(job) && Sound(job, p) && p.entries == [] && p.traces == []
    requires forall i :: 0 <= i < |p.covered| ==> Undoable(job.plan[p.covered[i]])
    ensures Restored(job.start, p.cloud)
  {
    var c := p.cloud;
    assert Data(c) + multiset{} == Data(c) && Data(job.start) + multiset{} == Data(job.start);
    assert forall s :: s in p.Steps() ==> s in p.covered;
    assert !Creates(job.plan, p.Steps());
    assert forall t :: !Deletes(job.plan, p.Steps(), t);
    assert c.tunnels.Keys == job.start.tunnels.Keys;
    forall t | t in job.start.tunnels
      ensures c.tunnels[t].name == job.start.tunnels[t].name && c.tunnels[t].ingress == job.start.tunnels[t].ingress
    {
      assert ConfiguredAs(job.plan, p.Steps(), Existing(t), job.start.tunnels[t], c.tunnels[t]);
    }
  }

  lemma OneNotUndoable(job: Job, p: Progress, i: nat)
    requires Accurate(job) && Sound(job, p)
    requires i < |p.covered| && !Undoable(job.plan[p.covered[i]])
    ensures !Restored(job.start, p.cloud)
  {
    var n, c := p.covered[i], p.cloud;
    var step := job.plan[n];
    assert n in p.Steps();
    if step.DeleteTunnel? {
      assert Deletes(job.plan, p.Steps(), step.id);
      assert step.id in job.start.tunnels;
    } else if step.tunnel.id in c.tunnels {
      assert Configures(step, step.tunnel);
      assert ConfiguredAs(job.plan, p.Steps(), step.tunnel, job.start.tunnels[step.tunnel.id], c.tunnels[step.tunnel.id]);
    }
  }

  lemma TraceTook(job: Job, e: Entry, c: Cloud)
    requires Traced(job, e, c)
    ensures TakenData(e) != multiset{} && forall r :: r in TakenData(e) ==> r.comment.None?
    ensures forall r :: r in HeldData(e, c.records) ==> r.comment.Some?
  {
    assert e.undo.previous in TakenData(e);
  }

  lemma {:induction false} TracesTook(job: Job, traces: seq<Entry>, c: Cloud)
    requires AllTraced(job, traces, c)
    ensures forall r :: r in AllTaken(traces) ==> r.comment.None?
    ensures forall r :: r in AllHeld(traces, c.records) ==> r.comment.Some?
    ensures traces != [] ==> AllTaken(traces) != multiset{}
  {
    if traces != [] {
      hide Traced, TakenData, HeldData;
      assert Traced(job, Last(traces), c);
      assert forall i :: 0 <= i < |Init(traces)| ==> Init(traces)[i] == traces[i];
      TracesTook(job, Init(traces), c);
      TraceTook(job, Last(traces), c);
      var r :| r in TakenData(Last(traces));
      assert r in AllTaken(traces);
    }
  }

  lemma Unbalanced(a: multiset<Record>, taken: multiset<Record>, b: multiset<Record>, held: multiset<Record>)
    requires a + taken == b + held && taken != multiset{}
    requires (forall r :: r in taken ==> r.comment.None?) && (forall r :: r in held ==> r.comment.Some?)
    ensures a != b
  {
    var r :| r in taken;
    assert r !in held;
    assert (a + taken)[r] == (b + held)[r];
  }

  /** With every undo done the record data is as it was exactly when no comment was left. */
  lemma DataRestored(job: Job, p: Progress)
    requires Sound(job, p) && p.entries == []
    ensures Data(p.cloud) == Data(job.start) <==> p.traces == []
  {
    hide Tunnels;
    var taken, held := AllTaken(p.traces), AllHeld(p.traces, p.cloud.records);
    assert p.Shown() == p.traces;
    assert Data(p.cloud) + taken == Data(job.start) + held;
    TracesTook(job, p.traces, p.cloud);
    if p.traces == [] {
      assert Data(p.cloud) + multiset{} == Data(p.cloud) && Data(job.start) + multiset{} == Data(job.start);
    } else {
      Unbalanced(Data(p.cloud), taken, Data(job.start), held);
    }
  }

  /** With every undo done the account is restored exactly when no comment was left and each
      covered step was undoable. */
  lemma CleanRollback(job: Job, p: Progress)
    requires Accurate(job) && Sound(job, p) && p.entries == []
    ensures Data(p.cloud) == Data(job.start) <==> p.traces == []
    ensures Restored(job.start, p.cloud)
            <==> p.traces == [] && forall i :: 0 <= i < |p.covered| ==> Undoable(job.plan[p.covered[i]])
  {
    DataRestored(job, p);
    if i :| 0 <= i < |p.covered| && !Undoable(job.plan[p.covered[i]]) {
      OneNotUndoable(job, p, i);
    } else if p.traces == [] {
      AllUndoable(job, p);
    }
  }
}
