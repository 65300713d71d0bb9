/** What a plan's completed steps mean for the account, in the plan's own terms. */
module Meaning {
  import opened CloudAccount
  import opened Histories
  import opened Ledger
  import opened Plans
  import opened Wrappers

  /** The record data a step takes away, and what it puts in place. */
  function Removes(step: Step): multiset<Record> {
    if step.UpdateRecord? || step.DeleteRecord? then multiset{step.previous} else multiset{}
  }

  function Adds(step: Step, created: Option<nat>, comments: Comments): multiset<Record> {
    if (step.CreateRecord? || step.UpdateRecord?) && Resolve(created, step.tunnel).Some? then
      multiset{Cname(comments, step.zone, step.hostname, Resolve(created, step.tunnel).value, step.route,
                     if step.UpdateRecord? then step.previous.comment else None)}
    else multiset{}
  }

  function Removals(plan: seq<Step>): seq<multiset<Record>> {
    seq(|plan|, i requires 0 <= i < |plan| => Removes(plan[i]))
  }

  function Additions(plan: seq<Step>, created: Option<nat>, comments: Comments): seq<multiset<Record>> {
    seq(|plan|, i requires 0 <= i < |plan| => Adds(plan[i], created, comments))
  }

  /** What an undone step leaves that cannot take its comment off again. */
  function Mark(job: Job, step: Step): multiset<Record> {
    if LeavesComment(step) then multiset{Commented(job, step)} else multiset{}
  }

  function Marks(job: Job): seq<multiset<Record>> {
    seq(|job.plan|, i requires 0 <= i < |job.plan| => Mark(job, job.plan[i]))
  }

  /** The undone steps that left a comment. */
  ghost function TraceSteps(p: Progress): set<nat> {
    Live(p.traces, [])
  }

  /** The parts of the chosen ones below `n`, together. */
  function Sum(parts: seq<multiset<Record>>, chosen: set<nat>, n: nat): multiset<Record>
    requires n <= |parts|
  {
    if n == 0 then multiset{} else Sum(parts, chosen, n - 1) + if n - 1 in chosen then parts[n - 1] else multiset{}
  }

  lemma {:induction false} SumWith(parts: seq<multiset<Record>>, chosen: set<nat>, s: nat, n: nat)
    requires n <= |parts| && s < |parts| && s !in chosen
    ensures Sum(parts, chosen + {s}, n) == Sum(parts, chosen, n) + if s < n then parts[s] else multiset{}
  {
    if n > 0 {
      SumWith(parts, chosen, s, n - 1);
    }
  }

  lemma {:induction false} SumSame(parts: seq<multiset<Record>>, a: set<nat>, b: set<nat>, n: nat)
    requires n <= |parts| && forall i :: 0 <= i < n ==> (i in a <==> i in b) || parts[i] == multiset{}
    ensures Sum(parts, a, n) == Sum(parts, b, n)
  {
    if n > 0 {
      SumSame(parts, a, b, n - 1);
    }
  }

  lemma {:induction false} SumNone(parts: seq<multiset<Record>>, n: nat)
    requires n <= |parts|
    ensures Sum(parts, {}, n) == multiset{}
  {
    if n > 0 {
      SumNone(parts, n - 1);
    }
  }

  ghost predicate DifferentSteps(es: seq<Entry>) {
    forall i, j :: 0 <= i < j < |es| ==> es[i].step != es[j].step
  }

  lemma LastStep(es: seq<Entry>)
    requires es != [] && DifferentSteps(es)
    ensures Live(es, []) == Live(Init(es), []) + {Last(es).step} && Last(es).step !in Live(Init(es), [])
  {
    assert es == Init(es) + [Last(es)];
    LiveEnter(Init(es), [], Last(es));
  }

  lemma {:induction false} TakenSum(es: seq<Entry>, parts: seq<multiset<Record>>)
    requires DifferentSteps(es)
    requires forall i :: 0 <= i < |es| ==> es[i].step < |parts| && TakenData(es[i]) == parts[es[i].step]
    ensures AllTaken(es) == Sum(parts, Live(es, []), |parts|)
  {
    if es == [] {
      assert Live(es, []) == {};
      SumNone(parts, |parts|);
    } else {
      assert forall i :: 0 <= i < |Init(es)| ==> Init(es)[i] == es[i];
      TakenSum(Init(es), parts);
      LastStep(es);
      SumWith(parts, Live(Init(es), []), Last(es).step, |parts|);
    }
  }

  lemma {:induction false} HeldSum(es: seq<Entry>, records: map<nat, Record>, parts: seq<multiset<Record>>)
    requires DifferentSteps(es)
    requires forall i :: 0 <= i < |es| ==> es[i].step < |parts| && HeldData(es[i], records) == parts[es[i].step]
    ensures AllHeld(es, records) == Sum(parts, Live(es, []), |parts|)
  {
    if es == [] {
      assert Live(es, []) == {};
      SumNone(parts, |parts|);
    } else {
      assert forall i :: 0 <= i < |Init(es)| ==> Init(es)[i] == es[i];
      HeldSum(Init(es), records, parts);
      LastStep(es);
      SumWith(parts, Live(Init(es), []), Last(es).step, |parts|);
    }
  }

  lemma RemovedData(step: Step, created: Option<nat>, comments: Comments, e: Entry, c: Cloud)
    requires Matches(step, created, comments, e.undo, c)
    ensures TakenData(e) == Removes(step)
  {
  }

  lemma AddedData(step: Step, created: Option<nat>, comments: Comments, e: Entry, c: Cloud)
    requires Matches(step, created, comments, e.undo, c)
    ensures HeldData(e, c.records) == Adds(step, created, comments)
  {
    hide Cname;
  }

  lemma CoveredSums(job: Job, p: Progress, parts: seq<multiset<Record>>)
    requires |parts| == |job.plan|
    requires forall i :: 0 <= i < |p.covered| ==> p.covered[i] < |job.plan| && parts[p.covered[i]] == multiset{}
    ensures Sum(parts, Live(p.entries, []), |parts|) == Sum(parts, p.Steps(), |parts|)
  {
    forall i | 0 <= i < |parts|
      ensures (i in Live(p.entries, []) <==> i in p.Steps()) || parts[i] == multiset{}
    {
      if i in p.Steps() && i !in Live(p.entries, []) {
        var k :| 0 <= k < |p.covered| && p.covered[k] == i;
      }
    }
    SumSame(parts, Live(p.entries, []), p.Steps(), |parts|);
  }

  lemma EntryData(job: Job, p: Progress, i: nat)
    requires Sound(job, p) && i < |p.entries|
    ensures p.entries[i].step < |job.plan|
    ensures TakenData(p.entries[i]) == Removes(job.plan[p.entries[i].step])
    ensures HeldData(p.entries[i], p.cloud.records) == Adds(job.plan[p.entries[i].step], p.created, job.comments)
  {
    hide Books, Tunnels;
    assert AllMatch(job, p.created, p.entries, p.cloud);
    RemovedData(job.plan[p.entries[i].step], p.created, job.comments, p.entries[i], p.cloud);
    AddedData(job.plan[p.entries[i].step], p.created, job.comments, p.entries[i], p.cloud);
  }

  lemma TraceData(job: Job, p: Progress, i: nat)
    requires Sound(job, p) && i < |p.traces|
    ensures p.traces[i].step < |job.plan|
    ensures TakenData(p.traces[i]) == Removes(job.plan[p.traces[i].step])
    ensures HeldData(p.traces[i], p.cloud.records) == Mark(job, job.plan[p.traces[i].step])
  {
    hide Books, Tunnels;
    assert Traced(job, p.traces[i], p.cloud);
  }

  lemma SoundBooks(job: Job, p: Progress)
    requires Sound(job, p)
    ensures Data(p.cloud) + AllTaken(p.Shown()) == Data(job.start) + AllHeld(p.Shown(), p.cloud.records)
    ensures DifferentSteps(p.Shown())
    ensures forall i :: 0 <= i < |p.covered| ==> p.covered[i] < |job.plan| && Bare(job.plan[p.covered[i]])
  {
    hide Tunnels, AllMatch, AllTraced;
  }

  lemma DifferentParts(es: seq<Entry>, traces: seq<Entry>)
    requires DifferentSteps(es + traces)
    ensures DifferentSteps(es) && DifferentSteps(traces)
  {
    assert forall i :: 0 <= i < |es| ==> (es + traces)[i] == es[i];
    assert forall i :: 0 <= i < |traces| ==> (es + traces)[|es| + i] == traces[i];
  }

  /** The books, part by part. */
  lemma SoundParts(job: Job, p: Progress)
    requires Sound(job, p)
    ensures DifferentSteps(p.entries) && DifferentSteps(p.traces)
    ensures Data(p.cloud) + (AllTaken(p.entries) + AllTaken(p.traces))
            == Data(job.start) + (AllHeld(p.entries, p.cloud.records) + AllHeld(p.traces, p.cloud.records))
  {
    hide Sound;
    SoundBooks(job, p);
    DifferentParts(p.entries, p.traces);
    AllConcat(p.entries, p.traces, p.cloud.records);
  }

  lemma EntrySums(job: Job, p: Progress)
    requires Sound(job, p)
    ensures AllTaken(p.entries) == Sum(Removals(job.plan), p.Steps(), |job.plan|)
    ensures AllHeld(p.entries, p.cloud.records) == Sum(Additions(job.plan, p.created, job.comments), p.Steps(), |job.plan|)
  {
    hide Sound, Removes, Adds, TakenData, HeldData;
    var removals, additions := Removals(job.plan), Additions(job.plan, p.created, job.comments);
    SoundBooks(job, p);
    SoundParts(job, p);
    forall i | 0 <= i < |p.entries|
      ensures p.entries[i].step < |job.plan|
      ensures TakenData(p.entries[i]) == removals[p.entries[i].step]
      ensures HeldData(p.entries[i], p.cloud.records) == additions[p.entries[i].step]
    {
      EntryData(job, p, i);
    }
    forall i | 0 <= i < |p.covered|
      ensures p.covered[i] < |job.plan| && removals[p.covered[i]] == multiset{} && additions[p.covered[i]] == multiset{}
    {
      BareData(job.plan[p.covered[i]], p.created, job.comments);
    }
    TakenSum(p.entries, removals);
    HeldSum(p.entries, p.cloud.records, additions);
    CoveredSums(job, p, removals);
    CoveredSums(job, p, additions);
  }

  lemma TraceSums(job: Job, p: Progress)
    requires Sound(job, p)
    ensures AllTaken(p.traces) == Sum(Removals(job.plan), TraceSteps(p), |job.plan|)
    ensures AllHeld(p.traces, p.cloud.records) == Sum(Marks(job), TraceSteps(p), |job.plan|)
  {
    hide Sound, Removes, Mark, TakenData, HeldData;
    SoundParts(job, p);
    forall i | 0 <= i < |p.traces|
      ensures p.traces[i].step < |job.plan|
      ensures TakenData(p.traces[i]) == Removals(job.plan)[p.traces[i].step]
      ensures HeldData(p.traces[i], p.cloud.records) == Marks(job)[p.traces[i].step]
    {
      TraceData(job, p, i);
    }
    TakenSum(p.traces, Removals(job.plan));
    HeldSum(p.traces, p.cloud.records, Marks(job));
  }

  /** The account's records are those it had, less what the steps in effect and those that left a
      comment were to remove, plus what the steps in effect were to add and what the others left:
      whatever was refused or undone, in whatever order. */
  lemma RecordsByPlan(job: Job, p: Progress)
    requires Sound(job, p)
    ensures var n := |job.plan|;
            Data(p.cloud) + (Sum(Removals(job.plan), p.Steps(), n) + Sum(Removals(job.plan), TraceSteps(p), n))
            == Data(job.start)
               + (Sum(Additions(job.plan, p.created, job.comments), p.Steps(), n) + Sum(Marks(job), TraceSteps(p), n))
  {
    hide Sound;
    SoundParts(job, p);
    EntrySums(job, p);
    TraceSums(job, p);
  }

  lemma BareData(step: Step, created: Option<nat>, comments: Comments)
    requires Bare(step)
    ensures Removes(step) == multiset{} && Adds(step, created, comments) == multiset{}
  {
  }

  /** A step in effect that was to put a record in place has it in the account. */
  lemma RecordInPlace(job: Job, p: Progress, n: nat)
    requires Sound(job, p) && n in p.Steps() && n < |job.plan|
    requires job.plan[n].CreateRecord? || job.plan[n].UpdateRecord?
    ensures exists id :: id in p.cloud.records && Adds(job.plan[n], p.created, job.comments) == multiset{p.cloud.records[id]}
  {
    hide Tunnels, Books;
    assert forall k :: 0 <= k < |p.covered| ==> p.covered[k] != n;
    var i :| 0 <= i < |p.entries| && p.entries[i].step == n;
    assert Matches(job.plan[n], p.created, job.comments, p.entries[i].undo, p.cloud);
    assert Held(p.entries[i]).value in p.cloud.records;
  }

  /** The tunnel a step's record is to lead to. */
  ghost predicate LeadsTo(tunnel: TunnelRef, created: Option<nat>, id: nat) {
    match tunnel
    case Existing(known) => id == known
    case NewTunnel => created == Some(id)
  }

  lemma EntryOf(job: Job, p: Progress, n: nat) returns (e: Entry)
    requires Sound(job, p) && n in p.Steps() && n < |job.plan| && !Bare(job.plan[n])
    ensures Matches(job.plan[n], p.created, job.comments, e.undo, p.cloud)
  {
    hide Tunnels, Books, Matches;
    assert forall k :: 0 <= k < |p.covered| ==> p.covered[k] != n;
    var i :| 0 <= i < |p.entries| && p.entries[i].step == n;
    e := p.entries[i];
  }

  /** A new record in effect, field by field: a proxied CNAME for the hostname that leads to the
      tunnel, with the comment of its route. */
  lemma CreatedRecordIs(job: Job, p: Progress, n: nat) returns (id: nat, tunnel: nat)
    requires Sound(job, p) && n in p.Steps() && n < |job.plan| && job.plan[n].CreateRecord?
    ensures LeadsTo(job.plan[n].tunnel, p.created, tunnel)
    ensures id in p.cloud.records
    ensures var r, step := p.cloud.records[id], job.plan[n];
            && r.zone == step.zone && r.name == step.hostname && r.kind == "CNAME" && r.content == Content.Tunnel(tunnel)
            && r.proxied && r.ttl == 1 && r.comment == Some(job.comments(step.route, None))
  {
    var e := EntryOf(job, p, n);
    hide Sound;
    id, tunnel := e.undo.record, Resolve(p.created, job.plan[n].tunnel).value;
  }

  /** A changed record in effect, field by field: the same, but its comment keeps what the old one
      reserved. A CNAME was changed in place. */
  lemma ChangedRecordIs(job: Job, p: Progress, n: nat) returns (id: nat, tunnel: nat)
    requires Sound(job, p) && n in p.Steps() && n < |job.plan| && job.plan[n].UpdateRecord?
    ensures LeadsTo(job.plan[n].tunnel, p.created, tunnel)
    ensures id in p.cloud.records && (id == job.plan[n].record <==> job.plan[n].previous.kind == "CNAME")
    ensures var r, step := p.cloud.records[id], job.plan[n];
            && r.zone == step.zone && r.name == step.hostname && r.kind == "CNAME" && r.content == Content.Tunnel(tunnel)
            && r.proxied && r.ttl == 1 && r.comment == Some(job.comments(step.route, step.previous.comment))
  {
    var e := EntryOf(job, p, n);
    hide Sound;
    id, tunnel := e.undo.current, Resolve(p.created, job.plan[n].tunnel).value;
  }

  // ----- The account is determined by the steps in effect -----

  /** Two accounts that differ at most in record ids and configuration versions. */
  ghost predicate Alike(a: Cloud, b: Cloud) {
    && Data(a) == Data(b)
    && a.tunnels.Keys == b.tunnels.Keys
    && forall t :: t in a.tunnels ==> a.tunnels[t].name == b.tunnels[t].name && a.tunnels[t].ingress == b.tunnels[t].ingress
  }

  lemma Cancel(a: multiset<Record>, b: multiset<Record>, x: multiset<Record>, y: multiset<Record>)
    requires a + x == y && b + x == y
    ensures a == b
  {
    forall r
      ensures a[r] == b[r]
    {
      assert (a + x)[r] == (b + x)[r];
    }
  }

  lemma ConfiguredAlike(plan: seq<Step>, live: set<nat>, tunnel: TunnelRef, was: TunnelState, a: TunnelState, b: TunnelState)
    requires ConfiguredAs(plan, live, tunnel, was, a) && ConfiguredAs(plan, live, tunnel, was, b)
    ensures a.name == b.name && a.ingress == b.ingress
  {
    if i :| i in live && i < |plan| && Configures(plan[i], tunnel) {
      assert a.ingress == plan[i].ingress == b.ingress;
    }
  }

  lemma TunnelsAlike(job: Job, created: Option<nat>, live: set<nat>, a: Cloud, b: Cloud)
    requires Tunnels(job, created, live, a) && Tunnels(job, created, live, b)
    ensures a.tunnels.Keys == b.tunnels.Keys
    ensures forall t :: t in a.tunnels ==> a.tunnels[t].name == b.tunnels[t].name && a.tunnels[t].ingress == b.tunnels[t].ingress
  {
    hide ConfiguredAs;
    forall t | t in a.tunnels || t in b.tunnels
      ensures t in a.tunnels && t in b.tunnels
      ensures a.tunnels[t].name == b.tunnels[t].name && a.tunnels[t].ingress == b.tunnels[t].ingress
    {
      if t in job.start.tunnels {
        ConfiguredAlike(job.plan, live, Existing(t), job.start.tunnels[t], a.tunnels[t], b.tunnels[t]);
      } else {
        var i :| i in live && i < |job.plan| && job.plan[i].CreateTunnel?;
        ConfiguredAlike(job.plan, live, NewTunnel, TunnelState(job.plan[i].name, [], 0), a.tunnels[t], b.tunnels[t]);
      }
    }
  }

  lemma TunnelsOf(job: Job, p: Progress)
    requires Sound(job, p)
    ensures Tunnels(job, p.created, p.Steps(), p.cloud)
  {
  }

  /** Two runs of a plan that end with the same steps in effect and the same comments left end
      with the same account, up to record ids and configuration versions: it does not matter which
      calls were refused, what was undone, or in what order. */
  lemma SameStepsSameAccount(job: Job, p: Progress, q: Progress)
    requires Sound(job, p) && Sound(job, q) && p.created == q.created
    requires p.Steps() == q.Steps() && TraceSteps(p) == TraceSteps(q)
    ensures Alike(p.cloud, q.cloud)
  {
    hide Sound;
    RecordsByPlan(job, p);
    RecordsByPlan(job, q);
    var n := |job.plan|;
    Cancel(Data(p.cloud), Data(q.cloud),
           Sum(Removals(job.plan), p.Steps(), n) + Sum(Removals(job.plan), TraceSteps(p), n),
           Data(job.start) + (Sum(Additions(job.plan, p.created, job.comments), p.Steps(), n) + Sum(Marks(job), TraceSteps(p), n)));
    TunnelsOf(job, p);
    TunnelsOf(job, q);
    TunnelsAlike(job, p.created, p.Steps(), p.cloud, q.cloud);
  }
}
