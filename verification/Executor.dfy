/** The executor: applies a reviewed plan step by step and, when a step fails, undoes the
    completed ones in reverse order. Any call may be refused, also while undoing. */
module Executor {
  import opened CloudAccount
  import opened Effects
  import opened Histories
  import opened Ledger
  import opened Plans
  import opened Sequences
  import opened Wrappers

  datatype Outcome =
    | Applied(tunnel: Option<nat>, verify: seq<string>)
    | RolledBack(failed: nat)
    | PartiallyApplied(failed: nat, leftovers: seq<Entry>)

  function Leftovers(outcome: Outcome): seq<Entry> {
    if outcome.PartiallyApplied? then outcome.leftovers else []
  }

  /** `some` is `all` with entries left out. */
  predicate Among(some: seq<Entry>, all: seq<Entry>) {
    some == [] || (all != [] && (Among(some, all[1..]) || (some[0] == all[0] && Among(some[1..], all[1..]))))
  }

  // ----- What a rollback tries -----

  /** One undo as it was tried: the account and the number of calls made, before and after. */
  datatype Try = Try(entry: Entry, before: Cloud, from: nat, ok: bool, after: Cloud, to: nat)

  /** It worked exactly if it was possible and none of its calls was refused, and had its effect
      on the account or none. */
  ghost predicate Tried(refuses: nat -> bool, t: Try) {
    && t.from < t.to
    && (t.ok <==> UndoPossible(t.before, t.entry.undo) && Clear(refuses, t.from, t.to))
    && if t.ok then Undoes(t.before, t.entry.undo, t.after) else t.after == t.before
  }

  /** The undos of all steps were tried, the latest first, one after the other. */
  ghost predicate Chain(refuses: nat -> bool, tries: seq<Try>, es: seq<Entry>, c: Cloud, from: nat, end: Cloud, to: nat) {
    if tries == [] then es == [] && end == c && to == from
    else
      var t := Last(tries);
      && es != [] && t.entry == es[0] && t.after == end && t.to == to
      && Tried(refuses, t)
      && Chain(refuses, Init(tries), es[1..], c, from, t.before, t.from)
  }

  /** The steps whose own undo failed, in the order they were done. */
  function FailedOf(tries: seq<Try>): seq<Entry> {
    if tries == [] then [] else (if Last(tries).ok then [] else [Last(tries).entry]) + FailedOf(Init(tries))
  }

  ghost predicate Leaves(job: Job, e: Entry) {
    e.step < |job.plan| && LeavesComment(job.plan[e.step])
  }

  /** Of the steps that leave a comment, each is still in effect or left its trace. */
  ghost predicate Accounted(job: Job, es: seq<Entry>, left: seq<Entry>, traces: seq<Entry>) {
    && (forall i :: 0 <= i < |traces| ==> traces[i] in es)
    && (forall i :: 0 <= i < |es| && Leaves(job, es[i]) ==> es[i] in left || es[i] in traces)
  }

  lemma AccountedFor(job: Job, e: Entry, es: seq<Entry>, left: seq<Entry>, traces: seq<Entry>, ok: bool)
    requires Accounted(job, es, left, traces)
    ensures Accounted(job, [e] + es, if ok then left else [e] + left, if ok && Leaves(job, e) then traces + [e] else traces)
  {
    var all, more := [e] + es, traces + [e];
    assert forall i :: 0 < i < |all| ==> all[i] == es[i - 1];
    assert all[0] == e && more[|traces|] == e;
    forall x | x in es
      ensures x in all
    {
      var i :| 0 <= i < |es| && es[i] == x;
      assert all[i + 1] == x;
    }
    forall x | x in traces
      ensures x in more
    {
      var i :| 0 <= i < |traces| && traces[i] == x;
      assert more[i] == x;
    }
    forall x | x in left
      ensures x in [e] + left
    {
      var i :| 0 <= i < |left| && left[i] == x;
      assert ([e] + left)[i + 1] == x;
    }
  }

  /** What a failed undo shows: its step's tunnel is gone, or a call was refused. */
  ghost predicate Excused(job: Job, covered: seq<nat>, left: seq<Entry>, refuses: nat -> bool, from: nat, to: nat) {
    forall i :: 0 <= i < |left| ==> Gone(job, covered, left[i]) || !Clear(refuses, from, to)
  }

  lemma ExcusedLater(job: Job, covered: seq<nat>, left: seq<Entry>, refuses: nat -> bool, from: nat, mid: nat, to: nat, e: Entry)
    requires from <= mid <= to && Excused(job, covered, left, refuses, from, mid)
    ensures Excused(job, covered, left, refuses, from, to)
    ensures Gone(job, covered, e) || !Clear(refuses, mid, to) ==> Excused(job, covered, [e] + left, refuses, from, to)
  {
  }

  // ----- What a plan asks for -----

  /** The steps from `first` on that create records, without a gap. */
  function RecordRun(plan: seq<Step>, first: nat): (count: nat)
    requires first <= |plan|
    ensures first + count <= |plan|
    ensures forall i :: first <= i < first + count ==> plan[i].CreateRecord?
    ensures first + count < |plan| ==> !plan[first + count].CreateRecord?
    decreases |plan| - first
  {
    if first < |plan| && plan[first].CreateRecord? then 1 + RecordRun(plan, first + 1) else 0
  }

  function VerifyHosts(plan: seq<Step>): seq<string> {
    if plan == [] then []
    else VerifyHosts(plan[..|plan| - 1]) + if plan[|plan| - 1].Verify? then [plan[|plan| - 1].hostname] else []
  }

  /** The steps that verify, in order. */
  ghost predicate Verifying(plan: seq<Step>, at: seq<nat>) {
    && (forall k :: 0 <= k < |at| ==> at[k] < |plan| && plan[at[k]].Verify?)
    && (forall k, l :: 0 <= k < l < |at| ==> at[k] < at[l])
    && (forall i :: 0 <= i < |plan| && plan[i].Verify? ==> i in at)
  }

  /** The hosts to verify are those of the steps that verify, in order. */
  lemma {:induction false} VerifyHostsAre(plan: seq<Step>) returns (at: seq<nat>)
    ensures Verifying(plan, at) && |at| == |VerifyHosts(plan)|
    ensures forall k :: 0 <= k < |at| ==> VerifyHosts(plan)[k] == plan[at[k]].hostname
  {
    if plan == [] {
      at := [];
    } else {
      var n := |plan| - 1;
      var before := VerifyHostsAre(plan[..n]);
      assert forall k :: 0 <= k < |before| ==> before[k] < n;
      at := before + if plan[n].Verify? then [n] else [];
      assert VerifyHosts(plan) == VerifyHosts(plan[..n]) + if plan[n].Verify? then [plan[n].hostname] else [];
      hide VerifyHosts;
      VerifyingOneMore(plan, before);
      hide Verifying;
      forall k | 0 <= k < |at|
        ensures VerifyHosts(plan)[k] == plan[at[k]].hostname
      {
        assert k < |before| ==> at[k] == before[k] < n && plan[..n][at[k]] == plan[at[k]];
      }
    }
  }

  lemma VerifyingOneMore(plan: seq<Step>, before: seq<nat>)
    requires plan != [] && Verifying(plan[..|plan| - 1], before)
    ensures Verifying(plan, before + if plan[|plan| - 1].Verify? then [|plan| - 1] else [])
  {
    var n := |plan| - 1;
    var at := before + if plan[n].Verify? then [n] else [];
    assert forall k :: 0 <= k < |before| ==> at[k] == before[k];
    forall i | 0 <= i < |plan| && plan[i].Verify?
      ensures i in at
    {
      if i < n {
        assert plan[..n][i] == plan[i];
      } else {
        assert at[|before|] == n;
      }
    }
  }

  lemma NoHosts(plan: seq<Step>)
    ensures VerifyHosts(plan[..0]) == []
  {
  }

  /** The steps below `n` that do something. */
  ghost function Performed(plan: seq<Step>, n: nat): set<nat>
    requires n <= |plan|
  {
    set i | 0 <= i < n && !plan[i].Verify?
  }

  /** The steps below `n` that another undo covers. */
  ghost function BareBelow(plan: seq<Step>, n: nat): seq<nat>
    requires n <= |plan|
  {
    if n == 0 then [] else BareBelow(plan, n - 1) + if Bare(plan[n - 1]) then [n - 1] else []
  }

  lemma {:induction false} BareAre(plan: seq<Step>, n: nat)
    requires n <= |plan|
    ensures forall k :: 0 <= k < |BareBelow(plan, n)| ==> BareBelow(plan, n)[k] < n
    ensures forall i :: 0 <= i < n && Bare(plan[i]) ==> i in BareBelow(plan, n)
  {
    if n > 0 {
      BareAre(plan, n - 1);
    }
  }

  lemma {:induction false} NoneBare(plan: seq<Step>, first: nat, count: nat)
    requires first + count <= |plan| && forall i :: first <= i < first + count ==> !Bare(plan[i])
    ensures BareBelow(plan, first + count) == BareBelow(plan, first)
  {
    if count > 0 {
      NoneBare(plan, first, count - 1);
    }
  }

  lemma {:induction false} NoneVerified(plan: seq<Step>, first: nat, count: nat)
    requires first + count <= |plan| && forall i :: first <= i < first + count ==> !plan[i].Verify?
    ensures VerifyHosts(plan[..first + count]) == VerifyHosts(plan[..first])
  {
    if count > 0 {
      NoneVerified(plan, first, count - 1);
      assert plan[..first + count][..first + count - 1] == plan[..first + count - 1];
    }
  }

  /** After some steps that create records. */
  lemma RunPerformed(plan: seq<Step>, first: nat, count: nat)
    requires first + count <= |plan| && forall i :: first <= i < first + count ==> plan[i].CreateRecord?
    ensures Performed(plan, first + count) == Performed(plan, first) + Creating(plan, first, first + count)
    ensures BareBelow(plan, first + count) == BareBelow(plan, first)
    ensures VerifyHosts(plan[..first + count]) == VerifyHosts(plan[..first])
  {
    NoneBare(plan, first, count);
    NoneVerified(plan, first, count);
  }

  // ----- Which call is for which step -----

  /** The zones of some steps, in the order they first appear. */
  function ZonesIn(plan: seq<Step>, first: nat, end: nat): seq<string>
    requires first <= end <= |plan|
  {
    if first == end then []
    else
      var before := ZonesIn(plan, first, end - 1);
      if ZoneOf(plan[end - 1]) in before then before else before + [ZoneOf(plan[end - 1])]
  }

  /** The first step of each call that the steps of a zone take: it is the one named if the call is
      refused. */
  function Firsts(steps: seq<nat>): seq<nat> {
    if steps == [] then []
    else [steps[0]] + Firsts(steps[if |steps| < MAX_DNS_BATCH then |steps| else MAX_DNS_BATCH..])
  }

  /** Those of consecutive new records, zone by zone. */
  function RunCalls(plan: seq<Step>, first: nat, end: nat, zones: seq<string>): seq<nat>
    requires first <= end <= |plan|
  {
    if zones == [] then []
    else RunCalls(plan, first, end, Init(zones)) + Firsts(InZone(plan, first, end, Last(zones)))
  }

  /** Which step each call of the plan from step `n` on is for. */
  function Schedule(plan: seq<Step>, n: nat): seq<nat>
    requires n <= |plan|
    decreases |plan| - n
  {
    if n == |plan| then []
    else
      var count := RecordRun(plan, n);
      if count > 1 then RunCalls(plan, n, n + count, ZonesIn(plan, n, n + count)) + Schedule(plan, n + count)
      else seq(CallsFor(plan[n]), _ => n) + Schedule(plan, n + 1)
  }

  lemma ScheduledLater(a: seq<nat>, b: seq<nat>, c: seq<nat>, first: nat, from: nat, to: nat, n: nat)
    requires Scheduled(b, first + |a|, from, to, n)
    ensures Scheduled(a + (b + c), first, from, to, n)
  {
    var all := a + (b + c);
    forall i | from - first <= i < to - first
      ensures all[i] == n
    {
      assert all[i] == b[i - |a|];
    }
  }

  ghost predicate MakesTunnel(plan: seq<Step>) {
    exists i :: 0 <= i < |plan| && plan[i].CreateTunnel?
  }

  ghost predicate DeletesTunnel(plan: seq<Step>, n: nat)
    requires n <= |plan|
  {
    exists i :: 0 <= i < n && plan[i].DeleteTunnel?
  }

  lemma MadeTunnel(job: Job, p: Progress)
    requires Running(job, p) && p.Steps() == Performed(job.plan, |job.plan|)
    ensures p.created.Some? <==> MakesTunnel(job.plan)
    ensures p.created.Some? ==> p.created.value in p.cloud.tunnels && p.created.value !in job.start.tunnels
  {
    assert Tunnels(job, p.created, p.Steps(), p.cloud);
    assert Creates(job.plan, p.Steps()) <==> MakesTunnel(job.plan) by {
      if i :| 0 <= i < |job.plan| && job.plan[i].CreateTunnel? {
        assert i in p.Steps();
      }
    }
  }

  /** The steps in effect when step `failed` failed: all before it, and of the new records that go
      out together with it any number. */
  ghost predicate Behind(plan: seq<Step>, steps: set<nat>, failed: nat)
    requires failed <= |plan|
  {
    && (forall i :: 0 <= i < failed ==> i in steps || plan[i].Verify? || plan[i].CreateRecord?)
    && (forall i :: i in steps && failed <= i < |plan| ==> plan[i].CreateRecord?)
  }

  /** After a rollback without leftovers the steps that left their trace are those before the
      failed one that leave a comment. */
  lemma TracesAre(job: Job, at: Progress, left: Progress, failed: nat)
    requires Running(job, at) && failed <= |job.plan| && Behind(job.plan, at.Steps(), failed)
    requires Sound(job, left) && left.entries == [] && Accounted(job, at.entries, [], left.traces)
    ensures left.traces == [] <==> forall i :: 0 <= i < failed ==> !LeavesComment(job.plan[i])
  {
    hide Tunnels, Books, Ready, Versions, AllMatch, StepsApart;
    forall i | 0 <= i < failed && LeavesComment(job.plan[i])
      ensures left.traces != []
    {
      assert i in at.Steps();
      assert forall k :: 0 <= k < |at.covered| ==> at.covered[k] != i;
      var k :| 0 <= k < |at.entries| && at.entries[k].step == i;
      assert Leaves(job, at.entries[k]);
    }
    if left.traces != [] {
      var e := left.traces[0];
      assert Traced(job, e, left.cloud) && e in at.entries;
      assert e.step in at.Steps();
      assert e.step < failed;
    }
  }

  /** With every undo done, the record data is as it was exactly when no step before the failed
      one changed a record without a comment in place, and the account exactly when no such step
      was of the three kinds that stay. */
  lemma RolledBackTo(job: Job, at: Progress, left: Progress, failed: nat)
    requires Accurate(job) && Running(job, at) && failed <= |job.plan| && Behind(job.plan, at.Steps(), failed)
    requires Sound(job, left) && left.entries == [] && Accounted(job, at.entries, [], left.traces)
    requires left.covered == BareBelow(job.plan, failed)
    ensures Data(left.cloud) == Data(job.start) <==> forall i :: 0 <= i < failed ==> !LeavesComment(job.plan[i])
    ensures Restored(job.start, left.cloud) <==> forall i :: 0 <= i < failed ==> Undoable(job.plan[i])
  {
    hide Running, Sound, Accurate, Restored, Accounted;
    TracesAre(job, at, left, failed);
    CleanRollback(job, left);
    BareAre(job.plan, failed);
    forall i | 0 <= i < failed && !Undoable(job.plan[i]) && !LeavesComment(job.plan[i])
      ensures exists k :: 0 <= k < |left.covered| && !Undoable(job.plan[left.covered[k]])
    {
      assert Bare(job.plan[i]) && i in left.covered;
      var k :| 0 <= k < |left.covered| && left.covered[k] == i;
    }
  }

  // ----- Which calls were refused -----

  /** Step `n` fails here: it is not possible, or one of its calls is refused. */
  ghost predicate Fails(job: Job, refuses: nat -> bool, p: Progress, n: nat, from: nat, to: nat) {
    && n < |job.plan| && n !in p.Steps()
    && from <= to <= from + CallsFor(job.plan[n])
    && (Possible(job.plan[n], p.created, p.cloud) ==> !Clear(refuses, from, to))
  }

  /** The calls from `from` on, counted from `first`, are scheduled for step `n`. */
  ghost predicate Scheduled(schedule: seq<nat>, first: nat, from: nat, to: nat, n: nat) {
    && first <= from <= to <= first + |schedule|
    && forall i :: from - first <= i < to - first ==> schedule[i] == n
  }

  /** Where and how a run gave up: the progress, the calls of the failed step, the undos tried,
      and what is left. */
  datatype Stop = Stop(at: Progress, from: nat, to: nat, tries: seq<Try>, left: Progress)

  /** No call was refused before those of the failed step, which was not possible or had a call
      refused; in a plan that resolves it was possible. The calls made for it are the plan's. */
  ghost predicate StoppedAt(job: Job, refuses: nat -> bool, first: nat, failed: nat, stop: Stop) {
    && failed < |job.plan|
    && Running(job, stop.at) && Behind(job.plan, stop.at.Steps(), failed)
    && first <= stop.from && Clear(refuses, first, stop.from)
    && Fails(job, refuses, stop.at, failed, stop.from, stop.to)
    && (Resolvable(job) ==> !Clear(refuses, stop.from, stop.to))
    && Scheduled(Schedule(job.plan, 0), first, stop.from, stop.to, failed)
  }

  /** The leftovers are the steps whose own undo failed; without a refused call that is only the
      configuration of a tunnel deleted before. They stay in effect, and so do the steps that no
      undo covers and the comments that stay; nothing else does. */
  ghost predicate RolledFrom(job: Job, refuses: nat -> bool, failed: nat, leftovers: seq<Entry>, stop: Stop, c: Cloud, calls: nat)
    requires failed < |job.plan|
  {
    && Chain(refuses, stop.tries, stop.at.entries, stop.at.cloud, stop.to, c, calls)
    && leftovers == FailedOf(stop.tries) == stop.left.entries
    && Excused(job, BareBelow(job.plan, failed), leftovers, refuses, stop.to, calls)
    && Sound(job, stop.left) && stop.left.cloud == c && stop.left.covered == BareBelow(job.plan, failed)
    && Accounted(job, stop.at.entries, leftovers, stop.left.traces)
  }

  ghost predicate GaveUp(job: Job, refuses: nat -> bool, first: nat, outcome: Outcome, stop: Stop, c: Cloud, calls: nat) {
    !outcome.Applied?
    && StoppedAt(job, refuses, first, outcome.failed, stop)
    && RolledFrom(job, refuses, outcome.failed, Leftovers(outcome), stop, c, calls)
    && (outcome.PartiallyApplied? <==> Leftovers(outcome) != [])
    && (outcome.RolledBack? ==>
          && (Data(c) == Data(job.start) <==> forall i :: 0 <= i < outcome.failed ==> !LeavesComment(job.plan[i]))
          && (Restored(job.start, c) <==> forall i :: 0 <= i < outcome.failed ==> Undoable(job.plan[i])))
  }

  /** Exactly the plan's steps are in effect, and no call was refused. */
  ghost predicate Completed(job: Job, refuses: nat -> bool, first: nat, known: Option<nat>, outcome: Outcome, p: Progress, calls: nat) {
    var plan := job.plan;
    && outcome.Applied?
    && Sound(job, p) && p.traces == [] && p.Steps() == Performed(plan, |plan|)
    && outcome.verify == VerifyHosts(plan)
    && outcome.tunnel == (if DeletesTunnel(plan, |plan|) then None else if MakesTunnel(plan) then p.created else known)
    && (MakesTunnel(plan) ==> p.created.Some? && p.created.value in p.cloud.tunnels)
    && Clear(refuses, first, calls)
    && calls == first + |Schedule(plan, 0)|
  }

  /** Where a run stands that has come to step `n` without a failure. */
  ghost predicate Reached(job: Job, p: Progress, n: nat, verify: seq<string>, deleted: bool) {
    && n <= |job.plan|
    && Running(job, p)
    && p.Steps() == Performed(job.plan, n)
    && p.covered == BareBelow(job.plan, n)
    && verify == VerifyHosts(job.plan[..n])
    && (deleted <==> DeletesTunnel(job.plan, n))
  }

  lemma ReachedStep(job: Job, p: Progress, q: Progress, n: nat, verify: seq<string>, deleted: bool)
    requires Reached(job, p, n, verify, deleted) && n < |job.plan| && !job.plan[n].Verify? && Running(job, q)
    requires q.Steps() == p.Steps() + {n} && q.covered == p.covered + if Bare(job.plan[n]) then [n] else []
    ensures Reached(job, q, n + 1, verify, deleted || job.plan[n].DeleteTunnel?)
  {
    hide Running;
    NoneVerified(job.plan, n, 1);
  }

  lemma ReachedVerify(job: Job, p: Progress, n: nat, verify: seq<string>, deleted: bool)
    requires Reached(job, p, n, verify, deleted) && n < |job.plan| && job.plan[n].Verify?
    ensures Reached(job, p, n + 1, verify + [job.plan[n].hostname], deleted)
  {
    hide Running;
    assert job.plan[..n + 1][..n] == job.plan[..n];
  }

  lemma ReachedRun(job: Job, p: Progress, q: Progress, n: nat, count: nat, verify: seq<string>, deleted: bool)
    requires Reached(job, p, n, verify, deleted) && Running(job, q)
    requires n + count <= |job.plan| && forall i :: n <= i < n + count ==> job.plan[i].CreateRecord?
    requires q.Steps() == p.Steps() + Creating(job.plan, n, n + count) && q.covered == p.covered
    ensures Reached(job, q, n + count, verify, deleted)
  {
    hide Running;
    RunPerformed(job.plan, n, count);
  }

  // ----- Batches of new records -----

  predicate PlannedRecord(step: Step, created: Option<nat>, comments: Comments, r: Record) {
    && step.CreateRecord? && Resolve(created, step.tunnel).Some?
    && r == Cname(comments, step.zone, step.hostname, Resolve(created, step.tunnel).value, step.route, None)
  }

  /** The first step of a chunk whose tunnel is not there. */
  ghost predicate FirstMissing(plan: seq<Step>, created: Option<nat>, chunk: seq<nat>, j: int)
    requires forall i :: 0 <= i < |chunk| ==> chunk[i] < |plan| && plan[chunk[i]].CreateRecord?
  {
    && 0 <= j < |chunk| && Resolve(created, plan[chunk[j]].tunnel).None?
    && forall i :: 0 <= i < j ==> Resolve(created, plan[chunk[i]].tunnel).Some?
  }

  ghost function Members(chunk: seq<nat>): set<nat> {
    set i | 0 <= i < |chunk| :: chunk[i]
  }

  /** Different steps that create records and were not taken yet. */
  ghost predicate Pending(plan: seq<Step>, taken: set<nat>, chunk: seq<nat>) {
    && (forall i :: 0 <= i < |chunk| ==> chunk[i] < |plan| && plan[chunk[i]].CreateRecord? && chunk[i] !in taken)
    && (forall i, j :: 0 <= i < j < |chunk| ==> chunk[i] != chunk[j])
  }

  /** The entries for a chunk whose first record got the id `first`. */
  function Drops(chunk: seq<nat>, first: nat): seq<Entry> {
    if chunk == [] then []
    else Drops(chunk[..|chunk| - 1], first) + [Entry(chunk[|chunk| - 1], DropRecord(first + |chunk| - 1))]
  }

  function WithChunk(p: Progress, chunk: seq<nat>, records: seq<Record>): Progress {
    Progress(p.created, p.entries + Drops(chunk, p.cloud.next), p.covered, CreatedAll(p.cloud, records), p.traces)
  }

  lemma {:induction false} CreatedNext(c: Cloud, records: seq<Record>)
    ensures CreatedAll(c, records).next == c.next + |records|
  {
    if records != [] {
      CreatedNext(c, records[..|records| - 1]);
    }
  }

  lemma MembersPush(chunk: seq<nat>, n: nat)
    ensures Members(chunk + [n]) == Members(chunk) + {n}
  {
    var more := chunk + [n];
    assert more[|chunk|] == n;
    assert forall i :: 0 <= i < |chunk| ==> more[i] == chunk[i];
    forall s | s in Members(chunk)
      ensures s in Members(more)
    {
      var i :| 0 <= i < |chunk| && chunk[i] == s;
      assert more[i] == s;
    }
  }

  lemma ChunkStep(job: Job, p: Progress, chunk: seq<nat>, records: seq<Record>, n: nat, r: Record)
    requires Accurate(job) && |records| == |chunk| && Running(job, WithChunk(p, chunk, records))
    requires n < |job.plan| && n !in WithChunk(p, chunk, records).Steps()
    requires PlannedRecord(job.plan[n], p.created, job.comments, r)
    ensures Running(job, WithChunk(p, chunk + [n], records + [r]))
    ensures WithChunk(p, chunk + [n], records + [r]).Steps() == WithChunk(p, chunk, records).Steps() + {n}
  {
    hide Running;
    var q, e := WithChunk(p, chunk, records), Entry(n, DropRecord(p.cloud.next + |chunk|));
    CreatedNext(p.cloud, records);
    assert (chunk + [n])[..|chunk|] == chunk && (records + [r])[..|chunk|] == records;
    Assoc(p.entries, Drops(chunk, p.cloud.next), [e]);
    Taken(job, q, n, Reversible(e.undo), p.created, Created(q.cloud, r));
  }

  /** A batch is its steps taken one by one. */
  lemma {:induction false} ChunkTaken(job: Job, p: Progress, chunk: seq<nat>, records: seq<Record>)
    requires Accurate(job) && Running(job, p) && Pending(job.plan, p.Steps(), chunk) && |records| == |chunk|
    requires forall i :: 0 <= i < |chunk| ==> PlannedRecord(job.plan[chunk[i]], p.created, job.comments, records[i])
    ensures Running(job, WithChunk(p, chunk, records))
    ensures WithChunk(p, chunk, records).Steps() == p.Steps() + Members(chunk)
  {
    hide Running, Accurate;
    if chunk == [] {
      assert p.entries + [] == p.entries;
    } else {
      var k := |chunk| - 1;
      LastPending(job.plan, p.Steps(), chunk);
      hide Pending, Drops, CreatedAll, Live, Members;
      ChunkTaken(job, p, chunk[..k], records[..k]);
      MembersPush(chunk[..k], chunk[k]);
      assert chunk == chunk[..k] + [chunk[k]] && records == records[..k] + [records[k]];
      ChunkStep(job, p, chunk[..k], records[..k], chunk[k], records[k]);
    }
  }

  lemma LastPending(plan: seq<Step>, taken: set<nat>, chunk: seq<nat>)
    requires Pending(plan, taken, chunk) && chunk != []
    ensures var k := |chunk| - 1; Pending(plan, taken, chunk[..k]) && chunk[k] < |plan| && chunk[k] !in taken + Members(chunk[..k])
  {
  }

  function ZoneOf(step: Step): string {
    if step.CreateRecord? then step.zone else ""
  }

  /** The steps of a zone among some consecutive ones. */
  function InZone(plan: seq<Step>, first: nat, end: nat, zone: string): (found: seq<nat>)
    requires first <= end <= |plan|
    ensures forall i :: i in found <==> first <= i < end && ZoneOf(plan[i]) == zone
    ensures forall i, j :: 0 <= i < j < |found| ==> found[i] < found[j]
  {
    if first == end then []
    else
      var before := InZone(plan, first, end - 1, zone);
      assert forall i :: 0 <= i < |before| ==> before[i] in before;
      before + if ZoneOf(plan[end - 1]) == zone then [end - 1] else []
  }

  ghost function InZones(plan: seq<Step>, first: nat, end: nat, zones: seq<string>): set<nat>
    requires first <= end <= |plan|
  {
    set i | first <= i < end && ZoneOf(plan[i]) in zones
  }

  /** Steps that create records. */
  ghost function Creating(plan: seq<Step>, first: nat, end: nat): set<nat>
    requires first <= end <= |plan|
  {
    set i | first <= i < end && plan[i].CreateRecord?
  }

  /** The steps of the next zone are still to be taken, and are all that joins. */
  lemma OneMoreZone(plan: seq<Step>, before: set<nat>, first: nat, end: nat, zones: seq<string>, z: nat)
    requires first <= end <= |plan| && z < |zones|
    requires forall i, j :: 0 <= i < j < |zones| ==> zones[i] != zones[j]
    requires forall i :: first <= i < end ==> plan[i].CreateRecord? && i !in before
    ensures var here := InZone(plan, first, end, zones[z]);
            && Pending(plan, before + InZones(plan, first, end, zones[..z]), here)
            && (forall i :: 0 <= i < |here| ==> ZoneOf(plan[here[i]]) == zones[z])
            && before + InZones(plan, first, end, zones[..z + 1]) == before + InZones(plan, first, end, zones[..z]) + Members(here)
  {
    var here := InZone(plan, first, end, zones[z]);
    assert zones[..z + 1] == zones[..z] + [zones[z]];
    assert forall i :: i in Members(here) <==> i in here;
    assert InZones(plan, first, end, zones[..z + 1]) == InZones(plan, first, end, zones[..z]) + Members(here);
    assert forall i :: 0 <= i < |here| ==> here[i] in here;
  }

  lemma OneCall(refuses: nat -> bool, from: nat)
    ensures Clear(refuses, from, from) && (Clear(refuses, from, from + 1) <==> !refuses(from))
  {
  }

  lemma ClearOn(refuses: nat -> bool, from: nat, mid: nat, to: nat)
    requires Clear(refuses, from, mid) && Clear(refuses, mid, to)
    ensures Clear(refuses, from, to)
  {
  }

  lemma MissingFails(job: Job, refuses: nat -> bool, p: Progress, chunk: seq<nat>, missing: nat, calls: nat)
    requires Pending(job.plan, p.Steps(), chunk)
    requires exists j :: FirstMissing(job.plan, p.created, chunk, j) && missing == chunk[j]
    ensures Fails(job, refuses, p, missing, calls, calls)
  {
  }

  lemma RefusedFails(job: Job, refuses: nat -> bool, p: Progress, chunk: seq<nat>, to: nat)
    requires chunk != [] && Pending(job.plan, p.Steps(), chunk) && to > 0 && refuses(to - 1)
    ensures Fails(job, refuses, p, chunk[0], to - 1, to)
  {
  }

  /** The zones of some steps hold all of them. */
  lemma AllZones(plan: seq<Step>, before: set<nat>, first: nat, end: nat, zones: seq<string>)
    requires first <= end <= |plan| && forall i :: first <= i < end ==> plan[i].CreateRecord? && ZoneOf(plan[i]) in zones
    ensures before + InZones(plan, first, end, zones) == before + Creating(plan, first, end)
    ensures before <= before + Creating(plan, first, end)
  {
    assert InZones(plan, first, end, zones) == Creating(plan, first, end);
  }

  lemma ZonesWithin(plan: seq<Step>, before: set<nat>, first: nat, end: nat, zones: seq<string>, z: nat, now: set<nat>, next: set<nat>)
    requires first <= end <= |plan| && z < |zones| && forall i :: first <= i < end ==> plan[i].CreateRecord?
    requires now == before + InZones(plan, first, end, zones[..z])
    requires now <= next <= now + Members(InZone(plan, first, end, zones[z]))
    ensures before <= next <= before + Creating(plan, first, end)
  {
    var here := InZone(plan, first, end, zones[z]);
    assert forall i :: 0 <= i < |here| ==> here[i] in here;
    assert Members(here) <= Creating(plan, first, end);
    assert InZones(plan, first, end, zones[..z]) <= Creating(plan, first, end);
  }

  lemma NoZones(plan: seq<Step>, first: nat, end: nat, zones: seq<string>, before: set<nat>)
    requires first <= end <= |plan|
    ensures before + InZones(plan, first, end, zones[..0]) == before <= before + Creating(plan, first, end)
  {
  }

  /** One more undo tried. */
  lemma ChainMore(refuses: nat -> bool, tries: seq<Try>, t: Try, es: seq<Entry>, c: Cloud, from: nat)
    requires es != [] && t.entry == es[0] && Tried(refuses, t)
    requires Chain(refuses, tries, es[1..], c, from, t.before, t.from)
    ensures Chain(refuses, tries + [t], es, c, from, t.after, t.to)
    ensures FailedOf(tries + [t]) == (if t.ok then [] else [t.entry]) + FailedOf(tries)
  {
    hide Tried;
    Push(tries, t);
  }

  lemma AfterUndoIs(job: Job, p: Progress, k: nat, after: Cloud)
    requires k < |p.entries|
    ensures var q := AfterUndo(job, p, k, after);
            && q.created == p.created && q.covered == p.covered && q.cloud == after
            && q.entries == p.entries[..k] + p.entries[k + 1..]
            && q.traces == if Leaves(job, p.entries[k]) then p.traces + [p.entries[k]] else p.traces
  {
  }

  lemma AmongMore(some: seq<Entry>, e: Entry, es: seq<Entry>)
    requires Among(some, es)
    ensures Among(some, [e] + es) && Among([e] + some, [e] + es)
  {
    assert ([e] + es)[1..] == es && ([e] + some)[1..] == some;
  }

  /** The zones of some steps, as they first appear. */
  method ZonesOf(plan: seq<Step>, first: nat, end: nat) returns (zones: seq<string>)
    requires first <= end <= |plan|
    ensures zones == ZonesIn(plan, first, end)
    ensures forall i :: first <= i < end ==> ZoneOf(plan[i]) in zones
    ensures forall k, l :: 0 <= k < l < |zones| ==> zones[k] != zones[l]
  {
    zones := [];
    for i := first to end
      invariant zones == ZonesIn(plan, first, i)
      invariant forall k :: first <= k < i ==> ZoneOf(plan[k]) in zones
      invariant forall k, l :: 0 <= k < l < |zones| ==> zones[k] != zones[l]
    {
      if ZoneOf(plan[i]) !in zones {
        zones := zones + [ZoneOf(plan[i])];
      }
    }
  }

  // ----- The run -----

  class Run {
    const api: Api
    const comments: Comments
    var created: Option<nat>
    var done: seq<Entry>
    var covered: seq<nat>

    constructor (api: Api, comments: Comments)
      ensures this.api == api && this.comments == comments
      ensures created == None && done == [] && covered == []
    {
      this.api, this.comments := api, comments;
      created, done, covered := None, [], [];
    }

    ghost function Now(): Progress
      reads this, api
    {
      Progress(created, done, covered, api.cloud, [])
    }

    method Do(step: Step) returns (result: StepResult)
      requires !step.Verify?
      modifies this`created, api
      ensures old(api.calls) <= api.calls <= old(api.calls) + CallsFor(step)
      ensures !result.Failed? <==> Possible(step, old(created), old(api.cloud)) && Clear(api.refuses, old(api.calls), api.calls)
      ensures !result.Failed? ==> api.calls == old(api.calls) + CallsFor(step)
      ensures result.Failed? ==> api.cloud == old(api.cloud) && created == old(created)
      ensures !result.Failed? ==> Does(step, old(created), comments, old(api.cloud), result, created, api.cloud)
    {
      match step {
        case CreateTunnel(name) =>
          var id := api.CreateTunnel(name);
          if id.None? {
            return Failed;
          }
          created := id;
          return Reversible(DropTunnel(id.value));
        case PutConfig(tunnel, ingress, expected, previous) =>
          var target := Resolve(created, tunnel);
          if target.None? {
            return Failed;
          }
          var ok := api.PutIngress(target.value, ingress, expected);
          if !ok {
            return Failed;
          }
          return if previous == [] then Covered else Reversible(RestoreConfig(target.value, previous));
        case CreateRecord(zone, hostname, tunnel, route) =>
          var target := Resolve(created, tunnel);
          if target.None? {
            return Failed;
          }
          var id := api.CreateRecord(Cname(comments, zone, hostname, target.value, route, None));
          return if id.None? then Failed else Reversible(DropRecord(id.value));
        case UpdateRecord(zone, id, hostname, tunnel, route, previous) =>
          var target := Resolve(created, tunnel);
          if target.None? {
            return Failed;
          }
          var r := Cname(comments, zone, hostname, target.value, route, previous.comment);
          if previous.kind == r.kind {
            var ok := api.UpdateRecord(id, r);
            return if ok then Reversible(RestoreRecord(id, previous, id)) else Failed;
          }
          var current := api.ReplaceRecord(id, r);
          return if current.None? then Failed else Reversible(RestoreRecord(id, previous, current.value));
        case DeleteRecord(id, previous) =>
          var ok := api.DeleteRecord(id);
          return if ok then Reversible(RecreateRecord(id, previous)) else Failed;
        case DeleteTunnel(id) =>
          var ok := api.DeleteTunnel(id);
          return if ok then Covered else Failed;
      }
    }

    method UndoOne(undo: Undo) returns (ok: bool)
      modifies api
      ensures old(api.calls) < api.calls
      ensures ok <==> UndoPossible(old(api.cloud), undo) && Clear(api.refuses, old(api.calls), api.calls)
      ensures if ok then Undoes(old(api.cloud), undo, api.cloud) else api.cloud == old(api.cloud)
    {
      match undo {
        case DropTunnel(id) =>
          ok := api.DeleteTunnel(id);
        case RestoreConfig(tunnel, previous) =>
          ok := api.PutIngress(tunnel, previous, None);
        case DropRecord(id) =>
          ok := api.DeleteRecord(id);
        case RestoreRecord(was, previous, current) =>
          if current == was {
            ok := api.UpdateRecord(was, previous);
          } else {
            var id := api.ReplaceRecord(current, previous);
            ok := id.Some?;
          }
        case RecreateRecord(_, previous) =>
          var id := api.CreateRecord(previous);
          ok := id.Some?;
      }
    }

    /** Tries to undo every completed step, the latest first; those whose own undo failed stay in
        effect and are reported, and nothing else does but the comments no undo takes off. */
    method RollBack(ghost job: Job, failed: nat)
      returns (outcome: Outcome, undoing: seq<nat>, ghost tries: seq<Try>, ghost left: Progress)
      requires Accurate(job) && Sound(job, Now())
      modifies this`done, this`covered, api
      ensures outcome == RolledBack(failed) || (outcome.PartiallyApplied? && outcome.failed == failed && outcome.leftovers != [])
      ensures Chain(api.refuses, tries, old(done), old(api.cloud), old(api.calls), api.cloud, api.calls)
      ensures Leftovers(outcome) == FailedOf(tries) == left.entries
      ensures Excused(job, old(covered), Leftovers(outcome), api.refuses, old(api.calls), api.calls)
      ensures Sound(job, left) && left.created == created && left.covered == old(covered) && left.cloud == api.cloud
      ensures Accounted(job, old(done), Leftovers(outcome), left.traces)
      ensures Among(Leftovers(outcome), old(done))
      ensures done == [] && covered == if outcome.RolledBack? then [] else old(covered)
      ensures |undoing| == |old(done)|
      ensures forall i :: 0 <= i < |undoing| ==> undoing[i] == old(done)[|undoing| - 1 - i].step
    {
      hide Sound, Accurate, Tried, Undoes, UndoPossible, Clear, Gone, Accounted, Excused, Chain, FailedOf, Leaves, AfterUndo, Among;
      var rest: seq<Entry> := [];
      var taken := done;
      done, undoing, tries := [], [], [];
      var k := |taken|;
      left := Progress(created, taken, covered, api.cloud, []);
      ghost var first := api.calls;
      NothingUndone(job, covered, api.refuses, api.cloud, first);
      while k > 0
        invariant 0 <= k <= |taken| && done == [] && created == old(created) && covered == old(covered)
        invariant left.created == created && left.covered == covered && left.cloud == api.cloud
        invariant left.entries == taken[..k] + rest && Sound(job, left)
        invariant first <= api.calls && Chain(api.refuses, tries, taken[k..], old(api.cloud), first, api.cloud, api.calls)
        invariant rest == FailedOf(tries) && Among(rest, taken[k..])
        invariant Accounted(job, taken[k..], rest, left.traces)
        invariant Excused(job, covered, rest, api.refuses, first, api.calls)
        invariant |undoing| == |taken| - k
        invariant forall i :: 0 <= i < |undoing| ==> undoing[i] == taken[|taken| - 1 - i].step
      {
        k := k - 1;
        undoing := undoing + [taken[k].step];
        TakenParts(taken, k, rest);
        ghost var c, calls := api.cloud, api.calls;
        var ok := UndoOne(taken[k].undo);
        ghost var t := Try(taken[k], c, calls, ok, api.cloud, api.calls);
        ItWas(api.refuses, t);
        ChainMore(api.refuses, tries, t, taken[k..], old(api.cloud), first);
        tries := tries + [t];
        UndoIsPossible(job, left, k);
        AmongMore(rest, taken[k], taken[k + 1..]);
        AccountedFor(job, taken[k], taken[k + 1..], rest, left.traces, ok);
        ExcusedLater(job, covered, rest, api.refuses, first, calls, api.calls, taken[k]);
        if ok {
          Undone(job, left, k, api.cloud);
          AfterUndoIs(job, left, k, api.cloud);
          left := AfterUndo(job, left, k, api.cloud);
        } else {
          rest := [taken[k]] + rest;
        }
      }
      assert taken[..0] + rest == rest && taken[0..] == taken;
      if rest == [] {
        covered := [];
        outcome := RolledBack(failed);
      } else {
        outcome := PartiallyApplied(failed, rest);
      }
    }

    /** The records of some steps, or the first step whose tunnel is not there. */
    method Planned(plan: seq<Step>, chunk: seq<nat>) returns (missing: Option<nat>, records: seq<Record>)
      requires Pending(plan, {}, chunk)
      ensures missing.Some? ==> exists j :: FirstMissing(plan, created, chunk, j) && missing.value == chunk[j]
      ensures missing.None? ==>
                && |records| == |chunk|
                && forall i :: 0 <= i < |chunk| ==> PlannedRecord(plan[chunk[i]], created, comments, records[i])
    {
      records := [];
      for j := 0 to |chunk|
        invariant |records| == j
        invariant forall i :: 0 <= i < j ==> PlannedRecord(plan[chunk[i]], created, comments, records[i])
      {
        var step := plan[chunk[j]];
        var target := Resolve(created, step.tunnel);
        if target.None? {
          assert FirstMissing(plan, created, chunk, j);
          return Some(chunk[j]), records;
        }
        records := records + [Cname(comments, step.zone, step.hostname, target.value, step.route, None)];
      }
      return None, records;
    }

    method Enter(chunk: seq<nat>, first: nat)
      modifies this`done
      ensures done == old(done) + Drops(chunk, first)
    {
      ghost var before := done;
      for j := 0 to |chunk|
        invariant done == before + Drops(chunk[..j], first)
      {
        assert chunk[..j + 1][..j] == chunk[..j] && chunk[..j + 1][j] == chunk[j];
        Assoc(before, Drops(chunk[..j], first), [Entry(chunk[j], DropRecord(first + j))]);
        done := done + [Entry(chunk[j], DropRecord(first + j))];
      }
      assert chunk[..|chunk|] == chunk;
    }

    /** Creates the records of some steps in a zone in one call: all of them, or none. */
    method CreateChunk(ghost job: Job, plan: seq<Step>, zone: string, chunk: seq<nat>) returns (failed: Option<nat>)
      requires Accurate(job) && Running(job, Now()) && job.plan == plan && job.comments == comments
      requires 0 < |chunk| <= MAX_DNS_BATCH && Pending(plan, Now().Steps(), chunk)
      requires forall i :: 0 <= i < |chunk| ==> ZoneOf(plan[chunk[i]]) == zone
      modifies this`done, api
      ensures Running(job, Now()) && covered == old(covered) && created == old(created) && old(done) <= done
      ensures old(api.calls) <= api.calls
      ensures failed.None? ==>
                && Now().Steps() == old(Now().Steps()) + Members(chunk)
                && api.calls == old(api.calls) + 1 && Clear(api.refuses, old(api.calls), api.calls)
      ensures failed.Some? ==>
                && Now() == old(Now()) && Fails(job, api.refuses, Now(), failed.value, old(api.calls), api.calls)
                && Scheduled([chunk[0]], old(api.calls), old(api.calls), api.calls, failed.value)
                && (failed.value == chunk[0] || exists j :: FirstMissing(plan, created, chunk, j) && failed.value == chunk[j])
    {
      hide Running, Accurate, Fails, Clear, Live;
      var missing, records := Planned(plan, chunk);
      if missing.Some? {
        MissingFails(job, api.refuses, Now(), chunk, missing.value, api.calls);
        return missing;
      }
      ghost var p := Now();
      OneCall(api.refuses, api.calls);
      var first := api.CreateRecords(zone, records);
      if first.None? {
        RefusedFails(job, api.refuses, p, chunk, api.calls);
        return Some(chunk[0]);
      }
      Enter(chunk, first.value);
      ChunkTaken(job, p, chunk, records);
      return None;
    }

    /** Creates the records of some steps in a zone, with as few calls as hold them. */
    method CreateInZone(ghost job: Job, plan: seq<Step>, zone: string, steps: seq<nat>)
      returns (failed: Option<nat>, ghost from: nat)
      requires Accurate(job) && Running(job, Now()) && job.plan == plan && job.comments == comments
      requires Pending(plan, Now().Steps(), steps)
      requires forall i :: 0 <= i < |steps| ==> ZoneOf(plan[steps[i]]) == zone
      modifies this`done, api
      ensures Running(job, Now()) && covered == old(covered) && created == old(created) && old(done) <= done
      ensures old(Now().Steps()) <= Now().Steps() <= old(Now().Steps()) + Members(steps)
      ensures failed.None? ==>
                Now().Steps() == old(Now().Steps()) + Members(steps) && from == api.calls == old(api.calls) + |Firsts(steps)|
      ensures failed.Some? ==>
                && failed.value in steps && Fails(job, api.refuses, Now(), failed.value, from, api.calls)
                && Scheduled(Firsts(steps), old(api.calls), from, api.calls, failed.value)
      ensures old(api.calls) <= from <= api.calls && Clear(api.refuses, old(api.calls), from)
    {
      hide Running, Accurate, Fails, Clear, Pending, Scheduled, Firsts;
      OneCall(api.refuses, api.calls);
      var at := 0;
      from := api.calls;
      assert steps[..0] == [] && steps[0..] == steps;
      ghost var past: seq<nat> := [];
      assert [] + Firsts(steps) == Firsts(steps);
      while at < |steps|
        invariant 0 <= at <= |steps| && Running(job, Now()) && covered == old(covered) && created == old(created) && old(done) <= done
        invariant Now().Steps() == old(Now().Steps()) + Members(steps[..at])
        invariant old(api.calls) <= from == api.calls && Clear(api.refuses, old(api.calls), from)
        invariant from == old(api.calls) + |past| && past + Firsts(steps[at..]) == Firsts(steps)
      {
        var end := if |steps| - at < MAX_DNS_BATCH then |steps| else at + MAX_DNS_BATCH;
        PendingPart(plan, old(Now().Steps()), steps, at, end);
        MembersPart(steps, at);
        NextFirst(steps, at, end, past);
        failed := CreateChunk(job, plan, zone, steps[at..end]);
        if failed.Some? {
          ScheduledLater(past, [steps[at]], Firsts(steps[end..]), old(api.calls), from, api.calls, failed.value);
          return;
        }
        past := past + [steps[at]];
        ClearOn(api.refuses, old(api.calls), from, api.calls);
        from := api.calls;
        at := end;
      }
      assert steps[..at] == steps && steps[at..] == [];
      NoFirsts(past);
      return None, from;
    }

    /** Creates the records of consecutive steps: zone by zone, as the zones first appear. */
    method CreateRecords(ghost job: Job, plan: seq<Step>, first: nat, count: nat) returns (failed: Option<nat>, ghost from: nat)
      requires Accurate(job) && Running(job, Now()) && job.plan == plan && job.comments == comments
      requires first + count <= |plan|
      requires forall i :: first <= i < first + count ==> plan[i].CreateRecord? && i !in Now().Steps()
      modifies this`done, api
      ensures Running(job, Now()) && covered == old(covered) && created == old(created) && old(done) <= done
      ensures old(Now().Steps()) <= Now().Steps() <= old(Now().Steps()) + Creating(plan, first, first + count)
      ensures failed.None? ==> Now().Steps() == old(Now().Steps()) + Creating(plan, first, first + count) && from == api.calls
      ensures var schedule := RunCalls(plan, first, first + count, ZonesIn(plan, first, first + count));
              if failed.None? then api.calls == old(api.calls) + |schedule|
              else Scheduled(schedule, old(api.calls), from, api.calls, failed.value)
      ensures failed.Some? ==>
                first <= failed.value < first + count && Fails(job, api.refuses, Now(), failed.value, from, api.calls)
      ensures old(api.calls) <= from <= api.calls && Clear(api.refuses, old(api.calls), from)
    {
      hide Running, Accurate, Fails, Clear, Pending, Members, InZones, Creating, ZoneOf, Live, Scheduled, Firsts, RunCalls, ZonesIn,
        InZone;
      OneCall(api.refuses, api.calls);
      from := api.calls;
      var zones := ZonesOf(plan, first, first + count);
      ghost var before := Now().Steps();
      NoZones(plan, first, first + count, zones, before);
      assert zones[..0] == [];
      NoCalls(plan, first, first + count);
      for z := 0 to |zones|
        invariant Running(job, Now()) && covered == old(covered) && created == old(created) && old(done) <= done
        invariant Now().Steps() == before + InZones(plan, first, first + count, zones[..z])
        invariant old(api.calls) <= from == api.calls && Clear(api.refuses, old(api.calls), from)
        invariant api.calls == old(api.calls) + |RunCalls(plan, first, first + count, zones[..z])|
      {
        var here := InZone(plan, first, first + count, zones[z]);
        OneMoreZone(plan, before, first, first + count, zones, z);
        ZoneCalls(plan, first, first + count, zones, z);
        ghost var calls, now := api.calls, Now().Steps();
        failed, from := CreateInZone(job, plan, zones[z], here);
        ZonesWithin(plan, before, first, first + count, zones, z, now, Now().Steps());
        ClearOn(api.refuses, old(api.calls), calls, from);
        if failed.Some? {
          assert failed.value in here;
          ghost var later := LaterCalls(plan, first, first + count, zones, z + 1);
          ScheduledLater(RunCalls(plan, first, first + count, zones[..z]), Firsts(here), later, old(api.calls), from, api.calls,
                         failed.value);
          return;
        }
      }
      assert zones[..|zones|] == zones;
      AllZones(plan, before, first, first + count, zones);
      return None, from;
    }

    /** One step on its own. */
    method Perform(ghost job: Job, plan: seq<Step>, n: nat) returns (ok: bool)
      requires Accurate(job) && Running(job, Now()) && job.plan == plan && job.comments == comments
      requires n < |plan| && !plan[n].Verify? && n !in Now().Steps()
      modifies this, api
      ensures Running(job, Now()) && old(done) <= done
      ensures ok ==>
                && Now().Steps() == old(Now().Steps()) + {n} && covered == old(covered) + (if Bare(plan[n]) then [n] else [])
                && api.calls == old(api.calls) + CallsFor(plan[n]) && Clear(api.refuses, old(api.calls), api.calls)
      ensures !ok ==> Now() == old(Now()) && Fails(job, api.refuses, Now(), n, old(api.calls), api.calls)
    {
      hide Running, Accurate;
      ghost var p := Now();
      var result := Do(plan[n]);
      match result {
        case Failed => return false;
        case Covered => covered := covered + [n];
        case Reversible(undo) => done := done + [Entry(n, undo)];
      }
      Taken(job, p, n, result, created, api.cloud);
      return true;
    }

    /** Applies the plan, or takes back what it did of it. */
    method Execute(plan: seq<Step>, known: Option<nat>) returns (outcome: Outcome, ghost stop: Stop)
      requires Accurate(Job(api.cloud, plan, comments))
      requires created == None && done == [] && covered == []
      modifies this, api
      ensures var job := Job(old(api.cloud), plan, comments);
              if outcome.Applied? then Completed(job, api.refuses, old(api.calls), known, outcome, Now(), api.calls)
              else GaveUp(job, api.refuses, old(api.calls), outcome, stop, api.cloud, api.calls)
      ensures Resolvable(Job(old(api.cloud), plan, comments)) ==>
                (outcome.Applied? <==> Clear(api.refuses, old(api.calls), api.calls))
    {
      hide Running, Accurate, Sound, Restored, Undoable, VerifyHosts, Resolvable, Behind, Fails, Clear, Schedule, Scheduled, RunCalls, RecordRun,
        Reached, On, StoppedAt, RolledFrom, GaveUp, Completed, Performed, BareBelow, Creating;
      ghost var job, first := Job(api.cloud, plan, comments), api.calls;
      Started(job);
      var verify: seq<string> := [];
      var index, deleted := 0, false;
      StartReached(job, api.refuses, first, Now());
      while index < |plan|
        invariant 0 <= index <= |plan|
        invariant Reached(job, Now(), index, verify, deleted)
        invariant On(job, api.refuses, first, index, api.calls)
      {
        ghost var p, calls := Now(), api.calls;
        ReachedIs(job, p, index, verify, deleted);
        var count := RecordRun(plan, index);
        if count > 1 {
          ghost var from;
          var failed;
          failed, from := CreateRecords(job, plan, index, count);
          if failed.Some? {
            BehindInRun(job, p, Now(), index, count, failed.value, verify, deleted);
            FailedInRun(job, api.refuses, first, index, count, calls, from, api.calls, failed.value);
            Stopping(job, api.refuses, first, Now(), index, failed.value, calls, from, api.calls);
            NoneBare(plan, index, failed.value - index);
            outcome, stop := GiveUp(job, first, failed.value, from);
            GaveUpRefused(job, api.refuses, first, outcome, stop, api.cloud, api.calls);
            return;
          }
          OnAfterRun(job, api.refuses, first, index, count, calls, api.calls);
          ReachedRun(job, p, Now(), index, count, verify, deleted);
          index := index + count;
        } else if plan[index].Verify? {
          OneCall(api.refuses, calls);
          OnAfter(job, api.refuses, first, index, calls, calls);
          ReachedVerify(job, p, index, verify, deleted);
          verify := verify + [plan[index].hostname];
          index := index + 1;
        } else {
          var ok := Perform(job, plan, index);
          if !ok {
            OneCall(api.refuses, calls);
            BehindHere(job, p, Now(), index, verify, deleted);
            FailedHere(job, api.refuses, first, Now(), index, calls, api.calls);
            Stopping(job, api.refuses, first, Now(), index, index, calls, calls, api.calls);
            outcome, stop := GiveUp(job, first, index, calls);
            GaveUpRefused(job, api.refuses, first, outcome, stop, api.cloud, api.calls);
            return;
          }
          OnAfter(job, api.refuses, first, index, calls, api.calls);
          ReachedStep(job, p, Now(), index, verify, deleted);
          deleted := deleted || plan[index].DeleteTunnel?;
          index := index + 1;
        }
      }
      AllPerformed(job, api.refuses, first, known, Now(), verify, deleted, api.calls);
      outcome := Applied(if deleted then None else if created.Some? then created else known, verify);
      stop := Stop(Now(), api.calls, api.calls, [], Now());
    }

    /** After a failed step. */
    method GiveUp(ghost job: Job, ghost first: nat, failed: nat, ghost from: nat) returns (outcome: Outcome, ghost stop: Stop)
      requires Accurate(job)
      requires StoppedAt(job, api.refuses, first, failed, Stop(Now(), from, api.calls, [], Now()))
      requires covered == BareBelow(job.plan, failed)
      modifies this`done, this`covered, api
      ensures GaveUp(job, api.refuses, first, outcome, stop, api.cloud, api.calls)
      ensures outcome.failed == failed && old(api.calls) <= api.calls && stop.from == from && stop.to == old(api.calls)
    {
      hide Running, Accurate, Sound, Restored, Undoable, Chain, Excused, Accounted, Behind, Fails;
      ghost var at, to := Now(), api.calls;
      CanBeUndone(job, at);
      var undoing;
      ghost var tries, left;
      outcome, undoing, tries, left := RollBack(job, failed);
      stop := Stop(at, from, to, tries, left);
      ChainGoesOn(api.refuses, tries, at.entries, at.cloud, to, api.cloud, api.calls);
      if outcome.RolledBack? {
        RolledBackTo(job, at, left, failed);
      }
    }
  }

  lemma NothingUndone(job: Job, covered: seq<nat>, refuses: nat -> bool, c: Cloud, first: nat)
    ensures Accounted(job, [], [], []) && Excused(job, covered, [], refuses, first, first)
    ensures Chain(refuses, [], [], c, first, c, first) && FailedOf([]) == [] && Among([], [])
  {
  }

  lemma TakenParts(taken: seq<Entry>, k: nat, rest: seq<Entry>)
    requires k < |taken|
    ensures taken[k..] == [taken[k]] + taken[k + 1..] && taken[k..][1..] == taken[k + 1..] && taken[k..][0] == taken[k]
    ensures var es := taken[..k + 1] + rest;
            es[k] == taken[k] && es[..k] + es[k + 1..] == taken[..k] + rest && es == taken[..k] + ([taken[k]] + rest)
    ensures ([taken[k]] + rest)[1..] == rest && [] + rest == rest
  {
  }

  lemma ItWas(refuses: nat -> bool, t: Try)
    requires t.from < t.to && (t.ok <==> UndoPossible(t.before, t.entry.undo) && Clear(refuses, t.from, t.to))
    requires if t.ok then Undoes(t.before, t.entry.undo, t.after) else t.after == t.before
    ensures Tried(refuses, t)
  {
  }

  lemma {:induction false} ChainGoesOn(refuses: nat -> bool, tries: seq<Try>, es: seq<Entry>, c: Cloud, from: nat, end: Cloud, to: nat)
    requires Chain(refuses, tries, es, c, from, end, to)
    ensures from <= to && |tries| == |es|
  {
    if tries != [] {
      ChainGoesOn(refuses, Init(tries), es[1..], c, from, Last(tries).before, Last(tries).from);
    }
  }

  lemma NextFirst(steps: seq<nat>, at: nat, end: nat, past: seq<nat>)
    requires at < |steps| && end == if |steps| - at < MAX_DNS_BATCH then |steps| else at + MAX_DNS_BATCH
    requires past + Firsts(steps[at..]) == Firsts(steps)
    ensures past + ([steps[at]] + Firsts(steps[end..])) == Firsts(steps)
    ensures (past + [steps[at]]) + Firsts(steps[end..]) == Firsts(steps)
    ensures steps[at..end][0] == steps[at]
  {
    var rest := steps[at..];
    assert rest[end - at..] == steps[end..];
    assert Firsts(rest) == [rest[0]] + Firsts(rest[end - at..]);
    Assoc(past, [steps[at]], Firsts(steps[end..]));
  }

  lemma NoFirsts(past: seq<nat>)
    ensures Firsts([]) == [] && past + Firsts([]) == past
  {
  }

  lemma NoCalls(plan: seq<Step>, first: nat, end: nat)
    requires first <= end <= |plan|
    ensures RunCalls(plan, first, end, []) == []
  {
  }

  lemma ZoneCalls(plan: seq<Step>, first: nat, end: nat, zones: seq<string>, z: nat)
    requires first <= end <= |plan| && z < |zones|
    ensures RunCalls(plan, first, end, zones[..z + 1])
            == RunCalls(plan, first, end, zones[..z]) + Firsts(InZone(plan, first, end, zones[z]))
  {
    assert Init(zones[..z + 1]) == zones[..z] && Last(zones[..z + 1]) == zones[z];
  }

  /** The calls of the zones from the `z`th on. */
  lemma {:induction false} LaterCalls(plan: seq<Step>, first: nat, end: nat, zones: seq<string>, z: nat) returns (later: seq<nat>)
    requires first <= end <= |plan| && 0 < z <= |zones|
    ensures RunCalls(plan, first, end, zones)
            == RunCalls(plan, first, end, zones[..z - 1]) + (Firsts(InZone(plan, first, end, zones[z - 1])) + later)
    decreases |zones| - z
  {
    hide RunCalls, Firsts, InZone;
    var before, here := RunCalls(plan, first, end, zones[..z - 1]), Firsts(InZone(plan, first, end, zones[z - 1]));
    ZoneCalls(plan, first, end, zones, z - 1);
    if z == |zones| {
      assert zones[..z] == zones;
      later := [];
      assert before + (here + []) == before + here;
    } else {
      var next := LaterCalls(plan, first, end, zones, z + 1);
      later := Firsts(InZone(plan, first, end, zones[z])) + next;
      Assoc(before, here, later);
    }
  }

  /** Without a refused call so far, the calls made are those of the steps taken. */
  ghost predicate On(job: Job, refuses: nat -> bool, first: nat, n: nat, calls: nat) {
    && n <= |job.plan| && first <= calls && Clear(refuses, first, calls)
    && exists past :: Past(job.plan, n, past) && calls == first + |past|
  }

  /** What is scheduled before step `n`. */
  ghost predicate Past(plan: seq<Step>, n: nat, past: seq<nat>)
    requires n <= |plan|
  {
    past + Schedule(plan, n) == Schedule(plan, 0)
  }

  lemma ReachedIs(job: Job, p: Progress, n: nat, verify: seq<string>, deleted: bool)
    requires Reached(job, p, n, verify, deleted)
    ensures n <= |job.plan| && Running(job, p) && p.Steps() == Performed(job.plan, n) && p.covered == BareBelow(job.plan, n)
    ensures forall i :: n <= i < |job.plan| ==> i !in p.Steps()
  {
    hide Running;
  }

  lemma AllPerformed(job: Job, refuses: nat -> bool, first: nat, known: Option<nat>, p: Progress, verify: seq<string>, deleted: bool,
                 calls: nat)
    requires Reached(job, p, |job.plan|, verify, deleted) && On(job, refuses, first, |job.plan|, calls)
    ensures Completed(job, refuses, first, known,
                      Applied(if deleted then None else if p.created.Some? then p.created else known, verify), p, calls)
    ensures Clear(refuses, first, calls)
  {
    hide Running, Sound;
    assert job.plan[..|job.plan|] == job.plan;
    var past :| Past(job.plan, |job.plan|, past) && calls == first + |past|;
    assert past + [] == past;
    NothingUndoneYet(job, p);
    MadeTunnel(job, p);
  }

  lemma NothingUndoneYet(job: Job, p: Progress)
    requires Running(job, p)
    ensures Sound(job, p) && p.traces == []
  {
  }

  lemma GaveUpRefused(job: Job, refuses: nat -> bool, first: nat, outcome: Outcome, stop: Stop, c: Cloud, calls: nat)
    requires GaveUp(job, refuses, first, outcome, stop, c, calls)
    ensures !outcome.Applied? && (Resolvable(job) ==> !Clear(refuses, first, calls))
  {
    hide Running, Sound, Restored, Behind, Resolvable, Chain, Excused, Accounted;
    ChainGoesOn(refuses, stop.tries, stop.at.entries, stop.at.cloud, stop.to, c, calls);
  }

  lemma StartReached(job: Job, refuses: nat -> bool, first: nat, p: Progress)
    requires Running(job, p) && p.Steps() == {} && p.covered == []
    ensures Reached(job, p, 0, [], false) && On(job, refuses, first, 0, first)
  {
    hide Running;
    NoHosts(job.plan);
    assert [] + Schedule(job.plan, 0) == Schedule(job.plan, 0);
    assert Past(job.plan, 0, []);
  }

  lemma OnBy(job: Job, refuses: nat -> bool, first: nat, n: nat, m: nat, calls: nat, now: nat, here: seq<nat>)
    requires On(job, refuses, first, n, calls) && n <= m <= |job.plan|
    requires Schedule(job.plan, n) == here + Schedule(job.plan, m)
    requires now == calls + |here| && Clear(refuses, calls, now)
    ensures On(job, refuses, first, m, now)
  {
    hide Schedule, Clear, Past;
    var past :| Past(job.plan, n, past) && calls == first + |past|;
    PastOn(job.plan, n, m, past, here);
    ClearOn(refuses, first, calls, now);
    assert now == first + |past + here|;
  }

  lemma PastOn(plan: seq<Step>, n: nat, m: nat, past: seq<nat>, here: seq<nat>)
    requires n <= m <= |plan| && Past(plan, n, past) && Schedule(plan, n) == here + Schedule(plan, m)
    ensures Past(plan, m, past + here)
  {
    hide Schedule;
    Assoc(past, here, Schedule(plan, m));
  }

  lemma OnAfter(job: Job, refuses: nat -> bool, first: nat, n: nat, calls: nat, now: nat)
    requires On(job, refuses, first, n, calls) && n < |job.plan|
    requires now == calls + CallsFor(job.plan[n]) && Clear(refuses, calls, now) && RecordRun(job.plan, n) <= 1
    ensures On(job, refuses, first, n + 1, now)
  {
    hide *;
    OneStepOn(job.plan, n);
    OnBy(job, refuses, first, n, n + 1, calls, now, seq(CallsFor(job.plan[n]), _ => n));
  }

  lemma OneStepOn(plan: seq<Step>, n: nat)
    requires n < |plan| && RecordRun(plan, n) <= 1
    ensures Schedule(plan, n) == seq(CallsFor(plan[n]), _ => n) + Schedule(plan, n + 1)
  {
  }

  /** The calls of the step that failed are its own. */
  lemma FailedHere(job: Job, refuses: nat -> bool, first: nat, p: Progress, n: nat, calls: nat, now: nat)
    requires On(job, refuses, first, n, calls) && n < |job.plan| && RecordRun(job.plan, n) <= 1
    requires Fails(job, refuses, p, n, calls, now)
    ensures Scheduled(Schedule(job.plan, 0), first, calls, now, n)
  {
    var past :| Past(job.plan, n, past) && calls == first + |past|;
    OneStepOn(job.plan, n);
    ScheduledLater(past, seq(CallsFor(job.plan[n]), _ => n), Schedule(job.plan, n + 1), first, calls, now, n);
  }

  lemma FailedInRun(job: Job, refuses: nat -> bool, first: nat, n: nat, count: nat, calls: nat, from: nat, now: nat, failed: nat)
    requires On(job, refuses, first, n, calls) && n < |job.plan| && count == RecordRun(job.plan, n) > 1
    requires Scheduled(RunCalls(job.plan, n, n + count, ZonesIn(job.plan, n, n + count)), calls, from, now, failed)
    ensures Scheduled(Schedule(job.plan, 0), first, from, now, failed)
  {
    hide RunCalls;
    var past :| Past(job.plan, n, past) && calls == first + |past|;
    ScheduledLater(past, RunCalls(job.plan, n, n + count, ZonesIn(job.plan, n, n + count)), Schedule(job.plan, n + count), first,
                   from, now, failed);
  }

  lemma OnAfterRun(job: Job, refuses: nat -> bool, first: nat, n: nat, count: nat, calls: nat, now: nat)
    requires On(job, refuses, first, n, calls) && n < |job.plan| && count == RecordRun(job.plan, n) > 1
    requires now == calls + |RunCalls(job.plan, n, n + count, ZonesIn(job.plan, n, n + count))| && Clear(refuses, calls, now)
    ensures On(job, refuses, first, n + count, now)
  {
    hide RunCalls, On;
    OnBy(job, refuses, first, n, n + count, calls, now, RunCalls(job.plan, n, n + count, ZonesIn(job.plan, n, n + count)));
  }

  lemma BehindInRun(job: Job, p: Progress, q: Progress, n: nat, count: nat, failed: nat, verify: seq<string>, deleted: bool)
    requires Reached(job, p, n, verify, deleted) && n <= failed < n + count <= |job.plan|
    requires forall i :: n <= i < n + count ==> job.plan[i].CreateRecord?
    requires p.Steps() <= q.Steps() <= p.Steps() + Creating(job.plan, n, n + count)
    ensures Behind(job.plan, q.Steps(), failed)
  {
    hide Running;
  }

  lemma BehindHere(job: Job, p: Progress, q: Progress, n: nat, verify: seq<string>, deleted: bool)
    requires Reached(job, p, n, verify, deleted) && n < |job.plan| && q.Steps() == p.Steps()
    ensures Behind(job.plan, q.Steps(), n)
  {
    hide Running;
  }

  /** The step that failed is possible in a plan that resolves, so a call was refused. */
  lemma WhyStopped(job: Job, refuses: nat -> bool, p: Progress, failed: nat, from: nat, to: nat)
    requires Accurate(job) && Running(job, p) && Fails(job, refuses, p, failed, from, to)
    requires Behind(job.plan, p.Steps(), failed) && Resolvable(job)
    ensures !Clear(refuses, from, to)
  {
    hide Running, Accurate;
    assert ResolvesAt(job, failed);
    NextPossible(job, p, failed);
  }

  lemma Stopping(job: Job, refuses: nat -> bool, first: nat, p: Progress, n: nat, failed: nat, calls: nat, from: nat, to: nat)
    requires Accurate(job) && Running(job, p) && On(job, refuses, first, n, calls)
    requires calls <= from && Clear(refuses, calls, from) && Fails(job, refuses, p, failed, from, to)
    requires failed <= |job.plan| && Behind(job.plan, p.Steps(), failed)
    requires Scheduled(Schedule(job.plan, 0), first, from, to, failed)
    ensures StoppedAt(job, refuses, first, failed, Stop(p, from, to, [], p))
  {
    hide Running, Accurate, Behind;
    if Resolvable(job) {
      WhyStopped(job, refuses, p, failed, from, to);
    }
  }

  lemma MembersPart(steps: seq<nat>, at: nat)
    requires at <= |steps|
    ensures Members(steps[..at]) <= Members(steps)
  {
    assert forall i :: 0 <= i < at ==> steps[..at][i] == steps[i];
  }

  lemma PendingPart(plan: seq<Step>, before: set<nat>, steps: seq<nat>, at: nat, end: nat)
    requires at <= end <= |steps| && Pending(plan, before, steps)
    ensures Pending(plan, before + Members(steps[..at]), steps[at..end])
    ensures forall i :: 0 <= i < end - at ==> steps[at..end][i] == steps[at + i]
    ensures Members(steps[..end]) == Members(steps[..at]) + Members(steps[at..end])
  {
    forall s | s in Members(steps[..end])
      ensures s in Members(steps[..at]) + Members(steps[at..end])
    {
      var i :| 0 <= i < end && steps[i] == s;
      if i < at {
        assert steps[..at][i] == s;
      } else {
        assert steps[at..end][i - at] == s;
      }
    }
    forall s | s in Members(steps[..at]) + Members(steps[at..end])
      ensures s in Members(steps[..end])
    {
      if i :| 0 <= i < at && steps[..at][i] == s {
        assert steps[..end][i] == s;
      } else {
        var i :| 0 <= i < end - at && steps[at..end][i] == s;
        assert steps[..end][at + i] == s;
      }
    }
  }
}
