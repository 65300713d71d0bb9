/** What one step and one undo do to an account. */
module Effects {
  import opened CloudAccount
  import opened Ledger
  import opened Plans
  import opened Wrappers

  // ----- One undo -----

  /** What an undo needs of the account, besides not being refused. */
  predicate UndoPossible(c: Cloud, undo: Undo) {
    match undo
    case DropTunnel(_) => true
    case RestoreConfig(t, _) => t in c.tunnels
    case DropRecord(_) => true
    case RestoreRecord(was, previous, current) =>
      current in c.records && (current == was ==> c.records[current].kind == previous.kind)
    case RecreateRecord(_, _) => true
  }

  /** How the account looks after an undo that worked. */
  ghost predicate Undoes(c: Cloud, undo: Undo, after: Cloud) {
    match undo
    case DropTunnel(id) => after == c.(tunnels := c.tunnels - {id})
    case RestoreConfig(t, previous) => t in c.tunnels && after == Configured(c, t, previous)
    case DropRecord(id) => after == Deleted(c, id)
    case RestoreRecord(was, previous, current) =>
      current in c.records
      && after == if current == was then Updated(c, was, Patched(c.records[was], previous)) else Created(Deleted(c, current), previous)
    case RecreateRecord(_, previous) => after == Created(c, previous)
  }

  lemma ReplacedData(c: Cloud, id: nat, r: Record)
    requires Valid(c) && id in c.records
    ensures var after := Created(Deleted(c, id), r);
            Valid(after) && Data(after) + multiset{c.records[id]} == Data(c) + multiset{r}
  {
    DeletedData(c, id);
    CreatedData(Deleted(c, id), r);
    Swap(Data(Deleted(c, id)), c.records[id], r);
  }

  /** Nothing of the record's comment stays behind. */
  predicate Clean(undo: Undo) {
    undo.RestoreRecord? && undo.current == undo.was ==> undo.previous.comment.Some?
  }

  /** The books of an undo of a step on a record. */
  lemma UndoneData(e: Entry, c: Cloud, after: Cloud)
    requires Valid(c) && (Held(e).Some? ==> Held(e).value in c.records)
    requires !e.undo.DropTunnel? && !e.undo.RestoreConfig? && Clean(e.undo) && Undoes(c, e.undo, after)
    ensures Valid(after) && after.tunnels == c.tunnels && c.next <= after.next
    ensures Data(after) + HeldData(e, c.records) == Data(c) + TakenData(e)
  {
    match e.undo {
      case DropRecord(id) => DeletedData(c, id);
      case RestoreRecord(was, previous, current) =>
        if current == was {
          UpdatedData(c, was, previous);
        } else {
          ReplacedData(c, current, previous);
        }
      case RecreateRecord(_, previous) => CreatedData(c, previous);
    }
  }

  /** An undo disturbs nothing that the other steps show in the records. */
  lemma UndoKeepsHeld(p: Progress, k: nat, after: Cloud)
    requires k < |p.entries| && Valid(p.cloud) && InPlace(p.Shown(), p.cloud.records) && Apart(p.Shown())
    requires Undoes(p.cloud, p.entries[k].undo, after)
    ensures KeepsHeld(Without(p, k, after).Shown(), p.cloud.records, after.records)
  {
    var b := p.entries[k + 1..] + p.traces;
    ShownWithout(p, k, after);
    HeldInParts(p.entries[..k], p.entries[k], b, p.cloud.records);
  }

  lemma HeldInParts(a: seq<Entry>, e: Entry, b: seq<Entry>, records: map<nat, Record>)
    requires InPlace(a + [e] + b, records) && Apart(a + [e] + b)
    ensures InPlace(a + b, records)
    ensures Held(e).Some? ==>
              Held(e).value in records && forall i :: 0 <= i < |a + b| ==> Held((a + b)[i]) != Held(e)
  {
    var all, rest := a + [e] + b, a + b;
    assert all[|a|] == e;
    assert forall i :: 0 <= i < |a| ==> all[i] == rest[i];
    assert forall i :: |a| <= i < |rest| ==> all[i + 1] == rest[i];
    RestApart(a, e, b);
  }

  /** What an undo of one completed step leaves: the books less that step, and the tunnels of
      the other steps. */
  ghost predicate TakesBack(job: Job, created: Option<nat>, rest: set<nat>, e: Entry, c: Cloud, after: Cloud) {
    && Valid(after) && c.next <= after.next
    && Data(after) + HeldData(e, c.records) == Data(c) + TakenData(e)
    && Tunnels(job, created, rest, after)
  }

  /** A completed step whose undo has not been tried, beside the others. */
  ghost predicate Standing(job: Job, created: Option<nat>, rest: set<nat>, e: Entry, c: Cloud) {
    && Valid(c) && (Held(e).Some? ==> Held(e).value in c.records)
    && e.step < |job.plan| && e.step !in rest
    && Matches(job.plan[e.step], created, job.comments, e.undo, c)
    && Tunnels(job, created, rest + {e.step}, c)
  }

  lemma UndoneRecord(job: Job, created: Option<nat>, rest: set<nat>, e: Entry, c: Cloud, after: Cloud)
    requires Standing(job, created, rest, e, c) && Undoes(c, e.undo, after)
    requires !e.undo.DropTunnel? && !e.undo.RestoreConfig? && !LeavesComment(job.plan[e.step])
    ensures TakesBack(job, created, rest, e, c, after)
  {
    UndoneData(e, c, after);
    SameTunnels(job, created, rest, e.step, c, after);
  }

  lemma UndoneTunnel(job: Job, created: Option<nat>, rest: set<nat>, e: Entry, c: Cloud, after: Cloud)
    requires Accurate(job) && Standing(job, created, rest, e, c) && Undoes(c, e.undo, after)
    requires e.undo.DropTunnel?
    ensures TakesBack(job, created, rest, e, c, after)
  {
    DroppedTunnels(job, e.undo.id, rest, c, e.step, after);
  }

  lemma UndoneConfig(job: Job, created: Option<nat>, rest: set<nat>, e: Entry, c: Cloud, after: Cloud)
    requires Accurate(job) && Standing(job, created, rest, e, c) && Undoes(c, e.undo, after)
    requires e.undo.RestoreConfig?
    ensures TakesBack(job, created, rest, e, c, after)
  {
    RestoredTunnels(job, created, rest, c, e.step, e.undo.tunnel, after);
  }

  lemma EntryStands(job: Job, p: Progress, k: nat, after: Cloud)
    requires Sound(job, p) && k < |p.entries|
    ensures Standing(job, p.created, Without(p, k, after).Steps(), p.entries[k], p.cloud)
    ensures InPlace(p.Shown(), p.cloud.records) && Apart(p.Shown()) && StepsApart(p.Shown(), p.covered)
  {
    hide Tunnels;
    ApartEntries(p.entries, p.traces, p.covered);
    LiveWithout(p, k, after);
    assert AllMatch(job, p.created, p.entries, p.cloud);
    assert p.Shown()[k] == p.entries[k];
  }

  lemma UndoneExactly(job: Job, p: Progress, k: nat, after: Cloud)
    requires Accurate(job) && Sound(job, p) && k < |p.entries| && Undoes(p.cloud, p.entries[k].undo, after)
    requires p.entries[k].step < |job.plan| ==> !LeavesComment(job.plan[p.entries[k].step])
    ensures Sound(job, Without(p, k, after))
  {
    hide Sound;
    var e, rest := p.entries[k], Without(p, k, after).Steps();
    EntryStands(job, p, k, after);
    UndoKeepsHeld(p, k, after);
    match e.undo {
      case DropTunnel(_) => UndoneTunnel(job, p.created, rest, e, p.cloud, after);
      case RestoreConfig(_, _) => UndoneConfig(job, p.created, rest, e, p.cloud, after);
      case _ => UndoneRecord(job, p.created, rest, e, p.cloud, after);
    }
    UndoneStep(job, p, k, after);
  }

  // ----- An undo that leaves a comment -----

  /** The record put back in place, once as it was and once with the comment that stays. */
  lemma CommentStays(job: Job, created: Option<nat>, e: Entry, c: Cloud, after: Cloud)
    requires Valid(c) && e.step < |job.plan| && LeavesComment(job.plan[e.step])
    requires Matches(job.plan[e.step], created, job.comments, e.undo, c) && Undoes(c, e.undo, after)
    ensures Traced(job, e, after) && e.undo.was in c.records
    ensures var mid := Updated(c, e.undo.was, e.undo.previous);
            && Valid(mid) && Valid(after) && after == Updated(mid, e.undo.was, Commented(job, job.plan[e.step]))
            && Data(mid) + HeldData(e, c.records) == Data(c) + TakenData(e)
            && Data(after) + TakenData(e) == Data(mid) + HeldData(e, after.records)
  {
    var id, previous := e.undo.was, e.undo.previous;
    var mid := Updated(c, id, previous);
    UpdatedData(c, id, previous);
    UpdatedData(mid, id, Commented(job, job.plan[e.step]));
    assert c.records[id := previous][id := Commented(job, job.plan[e.step])] == c.records[id := Commented(job, job.plan[e.step])];
  }

  lemma PutBackKeepsHeld(p: Progress, k: nat, r: Record, after: Cloud)
    requires k < |p.entries| && InPlace(p.Shown(), p.cloud.records) && Apart(p.Shown())
    requires Held(p.entries[k]).Some? && after.records == p.cloud.records[Held(p.entries[k]).value := r]
    ensures KeepsHeld(Without(p, k, after).Shown(), p.cloud.records, after.records)
    ensures forall i :: 0 <= i < |Without(p, k, after).Shown()| ==> Held(Without(p, k, after).Shown()[i]) != Held(p.entries[k])
  {
    var b := p.entries[k + 1..] + p.traces;
    ShownWithout(p, k, after);
    HeldInParts(p.entries[..k], p.entries[k], b, p.cloud.records);
  }

  /** The trace is entered where the step was struck out. */
  lemma TraceEntered(job: Job, p: Progress, k: nat, mid: Cloud, after: Cloud)
    requires k < |p.entries| && Sound(job, Without(p, k, mid)) && StepsApart(p.Shown(), p.covered)
    requires Valid(after) && after.tunnels == mid.tunnels && mid.next == after.next && Traced(job, p.entries[k], after)
    requires KeepsHeld(Without(p, k, mid).Shown(), mid.records, after.records)
    requires forall i :: 0 <= i < |Without(p, k, mid).Shown()| ==> Held(Without(p, k, mid).Shown()[i]) != Held(p.entries[k])
    requires Data(after) + TakenData(p.entries[k]) == Data(mid) + HeldData(p.entries[k], after.records)
    ensures Sound(job, WithTrace(p, k, after))
  {
    hide Tunnels, Traced;
    var e, q, b := p.entries[k], Without(p, k, mid), p.entries[k + 1..] + p.traces;
    HeldByTrace(job, e, after);
    Enter(job.start, q.Shown(), mid, e, after);
    ShownWithout(p, k, mid);
    ShownWithout(p, k, after);
    ApartWithout(p.entries[..k], e, b, p.covered);
    KeepsParts(q.entries, q.traces, mid.records, after.records);
    MatchesStay(job, p.created, q.entries, mid, after);
    TracesStay(job, p.traces, mid, after);
    SameTunnelsNow(job, p.created, q.Steps(), mid, after);
  }

  lemma HeldByTrace(job: Job, e: Entry, c: Cloud)
    requires Traced(job, e, c)
    ensures Held(e).Some? && Held(e).value in c.records
  {
  }

  lemma SameTunnelsNow(job: Job, created: Option<nat>, live: set<nat>, c: Cloud, after: Cloud)
    requires Tunnels(job, created, live, c) && after.tunnels == c.tunnels
    ensures Tunnels(job, created, live, after)
  {
  }

  lemma UndoneWithTrace(job: Job, p: Progress, k: nat, after: Cloud)
    requires Sound(job, p) && k < |p.entries| && Undoes(p.cloud, p.entries[k].undo, after)
    requires p.entries[k].step < |job.plan| && LeavesComment(job.plan[p.entries[k].step])
    ensures Sound(job, WithTrace(p, k, after))
  {
    hide Sound, Tunnels, Traced, StepsApart, Undoes, Matches;
    var e := p.entries[k];
    EntryStands(job, p, k, after);
    CommentStays(job, p.created, e, p.cloud, after);
    var mid := Updated(p.cloud, e.undo.was, e.undo.previous);
    PutBackKeepsHeld(p, k, e.undo.previous, mid);
    SameTunnels(job, p.created, Without(p, k, after).Steps(), e.step, mid, p.cloud);
    UndoneStep(job, p, k, mid);
    TraceEntered(job, p, k, mid, after);
  }

  /** Where the run stands after undoing a step. */
  function AfterUndo(job: Job, p: Progress, k: nat, after: Cloud): Progress
    requires k < |p.entries|
  {
    if p.entries[k].step < |job.plan| && LeavesComment(job.plan[p.entries[k].step]) then WithTrace(p, k, after)
    else Without(p, k, after)
  }

  /** An undo that worked takes exactly its step back, up to the comment it may leave, whatever
      else was or was not undone. */
  lemma Undone(job: Job, p: Progress, k: nat, after: Cloud)
    requires Accurate(job) && Sound(job, p) && k < |p.entries| && Undoes(p.cloud, p.entries[k].undo, after)
    ensures Sound(job, AfterUndo(job, p, k, after))
  {
    hide Sound, Accurate, Undoes;
    if p.entries[k].step < |job.plan| && LeavesComment(job.plan[p.entries[k].step]) {
      UndoneWithTrace(job, p, k, after);
    } else {
      UndoneExactly(job, p, k, after);
    }
  }

  /** A step that deletes a tunnel was done. */
  ghost predicate Gone(job: Job, covered: seq<nat>, e: Entry) {
    e.undo.RestoreConfig? && exists i :: 0 <= i < |covered| && covered[i] < |job.plan| && job.plan[covered[i]] == DeleteTunnel(e.undo.tunnel)
  }

  /** Every undo is possible, but that of the configuration of a tunnel deleted since. */
  lemma UndoIsPossible(job: Job, p: Progress, k: nat)
    requires Accurate(job) && Sound(job, p) && k < |p.entries|
    ensures UndoPossible(p.cloud, p.entries[k].undo) || Gone(job, p.covered, p.entries[k])
  {
    var e := p.entries[k];
    assert AllMatch(job, p.created, p.entries, p.cloud);
    assert Matches(job.plan[e.step], p.created, job.comments, e.undo, p.cloud);
    if e.undo.RestoreConfig? && e.undo.tunnel !in p.cloud.tunnels {
      assert e.undo.tunnel in job.start.tunnels;
      assert Deletes(job.plan, p.Steps(), e.undo.tunnel);
      var i :| i in p.Steps() && i < |job.plan| && job.plan[i] == DeleteTunnel(e.undo.tunnel);
      DeletionCovered(job, p, i);
    }
  }

  lemma DeletionCovered(job: Job, p: Progress, n: nat)
    requires AllMatch(job, p.created, p.entries, p.cloud)
    requires n in p.Steps() && n < |job.plan| && job.plan[n].DeleteTunnel?
    ensures exists i :: 0 <= i < |p.covered| && p.covered[i] == n
  {
    forall i | 0 <= i < |p.entries|
      ensures p.entries[i].step != n
    {
      assert Matches(job.plan[p.entries[i].step], p.created, job.comments, p.entries[i].undo, p.cloud);
    }
  }

  // ----- One step -----

  /** How a step ends: it failed, it is done and another step's undo would reverse it, or it is
      done and can be undone. */
  datatype StepResult = Failed | Covered | Reversible(undo: Undo)

  /** What a step needs of the account, besides not being refused. */
  predicate Possible(step: Step, created: Option<nat>, c: Cloud) {
    match step
    case PutConfig(tunnel, _, expected, _) =>
      Resolve(created, tunnel).Some? && Unchanged(c, Resolve(created, tunnel).value, expected)
    case CreateRecord(_, _, tunnel, _) => Resolve(created, tunnel).Some?
    case UpdateRecord(_, id, _, tunnel, _, previous) =>
      Resolve(created, tunnel).Some? && id in c.records && (previous.kind == CNAME ==> c.records[id].kind == CNAME)
    case _ => true
  }

  /** How many calls a step takes on its own. */
  function CallsFor(step: Step): nat {
    if step.Verify? then 0 else if step.PutConfig? then 2 else 1
  }

  /** How the account looks after a step that was done, and how it can be undone. */
  ghost predicate Does(step: Step, created: Option<nat>, comments: Comments, c: Cloud, result: StepResult,
                       createdAfter: Option<nat>, after: Cloud)
  {
    match step
    case CreateTunnel(name) =>
      && result == Reversible(DropTunnel(c.next)) && createdAfter == Some(c.next)
      && after == c.(tunnels := c.tunnels[c.next := TunnelState(name, [], 0)], next := c.next + 1)
    case PutConfig(tunnel, ingress, _, previous) =>
      && createdAfter == created
      && Resolve(created, tunnel).Some? && Resolve(created, tunnel).value in c.tunnels
      && result == (if previous == [] then Covered else Reversible(RestoreConfig(Resolve(created, tunnel).value, previous)))
      && after == Configured(c, Resolve(created, tunnel).value, ingress)
    case CreateRecord(zone, hostname, tunnel, route) =>
      && createdAfter == created && Resolve(created, tunnel).Some?
      && result == Reversible(DropRecord(c.next))
      && after == Created(c, Cname(comments, zone, hostname, Resolve(created, tunnel).value, route, None))
    case UpdateRecord(zone, id, hostname, tunnel, route, previous) =>
      && createdAfter == created && Resolve(created, tunnel).Some? && id in c.records
      && var r := Cname(comments, zone, hostname, Resolve(created, tunnel).value, route, previous.comment);
         if previous.kind == r.kind then result == Reversible(RestoreRecord(id, previous, id)) && after == Updated(c, id, r)
         else result == Reversible(RestoreRecord(id, previous, c.next)) && after == Created(Deleted(c, id), r)
    case DeleteRecord(id, previous) =>
      createdAfter == created && result == Reversible(RecreateRecord(id, previous)) && after == Deleted(c, id)
    case DeleteTunnel(id) => createdAfter == created && result == Covered && after == c.(tunnels := c.tunnels - {id})
    case Verify(_) => false
  }

  /** The books of a step on a record. */
  ghost predicate Booked(step: Step, created: Option<nat>, comments: Comments, c: Cloud, e: Entry, after: Cloud) {
    && OnlyTouches(step, c, e, after)
    && Matches(step, created, comments, e.undo, after)
    && Data(after) + TakenData(e) == Data(c) + HeldData(e, after.records)
  }

  lemma CreateBooked(step: Step, created: Option<nat>, comments: Comments, c: Cloud, n: nat, undo: Undo, after: Cloud)
    requires Valid(c) && step.CreateRecord? && Does(step, created, comments, c, Reversible(undo), created, after)
    ensures Booked(step, created, comments, c, Entry(n, undo), after)
  {
    CreatedData(c, Cname(comments, step.zone, step.hostname, Resolve(created, step.tunnel).value, step.route, None));
  }

  lemma UpdateBooked(step: Step, created: Option<nat>, comments: Comments, c: Cloud, n: nat, undo: Undo, after: Cloud)
    requires Valid(c) && step.UpdateRecord? && Does(step, created, comments, c, Reversible(undo), created, after)
    requires step.record in c.records && c.records[step.record] == step.previous
    ensures Booked(step, created, comments, c, Entry(n, undo), after)
  {
    var r := Cname(comments, step.zone, step.hostname, Resolve(created, step.tunnel).value, step.route, step.previous.comment);
    if step.previous.kind == r.kind {
      ChangedBooked(step, created, comments, c, n, r, after);
    } else {
      ReplacedBooked(step, created, comments, c, n, r, after);
    }
  }

  lemma ChangedBooked(step: Step, created: Option<nat>, comments: Comments, c: Cloud, n: nat, r: Record, after: Cloud)
    requires Valid(c) && step.UpdateRecord? && Resolve(created, step.tunnel).Some?
    requires step.record in c.records && c.records[step.record] == step.previous && step.previous.kind == CNAME
    requires r == Cname(comments, step.zone, step.hostname, Resolve(created, step.tunnel).value, step.route, step.previous.comment)
    requires after == Updated(c, step.record, r)
    ensures Booked(step, created, comments, c, Entry(n, RestoreRecord(step.record, step.previous, step.record)), after)
  {
    UpdatedData(c, step.record, r);
    hide Data;
  }

  lemma ReplacedBooked(step: Step, created: Option<nat>, comments: Comments, c: Cloud, n: nat, r: Record, after: Cloud)
    requires Valid(c) && step.UpdateRecord? && Resolve(created, step.tunnel).Some?
    requires step.record in c.records && c.records[step.record] == step.previous && step.previous.kind != CNAME
    requires r == Cname(comments, step.zone, step.hostname, Resolve(created, step.tunnel).value, step.route, step.previous.comment)
    requires after == Created(Deleted(c, step.record), r)
    ensures Booked(step, created, comments, c, Entry(n, RestoreRecord(step.record, step.previous, c.next)), after)
  {
    ReplacedData(c, step.record, r);
    hide Data;
  }

  lemma DeleteBooked(step: Step, created: Option<nat>, comments: Comments, c: Cloud, n: nat, undo: Undo, after: Cloud)
    requires Valid(c) && step.DeleteRecord? && Does(step, created, comments, c, Reversible(undo), created, after)
    requires step.record in c.records && c.records[step.record] == step.previous
    ensures Booked(step, created, comments, c, Entry(n, undo), after)
  {
    DeletedData(c, step.record);
  }

  function Entered(es: seq<Entry>, n: nat, result: StepResult): seq<Entry> {
    if result.Reversible? then es + [Entry(n, result.undo)] else es
  }

  function CoveredBy(covered: seq<nat>, n: nat, result: StepResult): seq<nat> {
    if result.Covered? then covered + [n] else covered
  }

  /** The progress after one more step. */
  function Further(p: Progress, n: nat, result: StepResult, created: Option<nat>, after: Cloud): Progress {
    Progress(created, Entered(p.entries, n, result), CoveredBy(p.covered, n, result), after, p.traces)
  }

  lemma StepsFurther(p: Progress, n: nat, result: StepResult, created: Option<nat>, after: Cloud)
    requires !result.Failed?
    ensures Further(p, n, result, created, after).Steps() == p.Steps() + {n}
  {
    if result.Reversible? {
      LiveEnter(p.entries, p.covered, Entry(n, result.undo));
    } else {
      LiveCover(p.entries, p.covered, n);
    }
  }

  lemma ReadyBeside(job: Job, p: Progress, n: nat, result: StepResult, after: Cloud)
    requires Ready(job, p.entries, p.Steps(), p.cloud) && after.records == p.cloud.records
    requires result.Reversible? ==> Held(Entry(n, result.undo)).None?
    ensures Ready(job, Entered(p.entries, n, result), p.Steps() + {n}, after)
  {
  }

  /** A step leaves the tunnels it does not configure as they are. */
  lemma OthersBeside(step: Step, created: Option<nat>, comments: Comments, c: Cloud, result: StepResult, now: Option<nat>,
                     after: Cloud, t: nat)
    requires Does(step, created, comments, c, result, now, after)
    requires t in after.tunnels && t < c.next && created != Some(t) && !Configures(step, Existing(t))
    ensures t in c.tunnels && after.tunnels[t] == c.tunnels[t]
  {
  }

  lemma RunningVersions(job: Job, p: Progress)
    requires Accurate(job) && Running(job, p)
    ensures Versions(job, p.Steps(), p.cloud)
    ensures forall t :: t in job.start.tunnels ==> t < p.cloud.next && p.created != Some(t)
  {
    hide Books, AllMatch, ConfiguredAs, CreatedAs, Ready, StepsApart;
    assert Tunnels(job, p.created, p.Steps(), p.cloud);
  }

  lemma VersionsBeside(job: Job, p: Progress, n: nat, result: StepResult, created: Option<nat>, after: Cloud)
    requires Accurate(job) && Running(job, p)
    requires n < |job.plan| && n !in p.Steps()
    requires Does(job.plan[n], p.created, job.comments, p.cloud, result, created, after)
    ensures Versions(job, p.Steps() + {n}, after)
  {
    hide Running, Accurate, Does;
    var live := p.Steps();
    RunningVersions(job, p);
    forall t | t in job.start.tunnels && t in after.tunnels
               && forall i :: i in live + {n} && i < |job.plan| ==> !Configures(job.plan[i], Existing(t))
      ensures after.tunnels[t].version == job.start.tunnels[t].version
    {
      assert n in live + {n} && !Configures(job.plan[n], Existing(t));
      OthersBeside(job.plan[n], p.created, job.comments, p.cloud, result, created, after, t);
      assert forall i :: i in live ==> i in live + {n};
    }
  }

  lemma BareTaken(job: Job, p: Progress, n: nat, after: Cloud)
    requires Accurate(job) && Sound(job, p) && p.traces == []
    requires n < |job.plan| && n !in p.Steps() && (job.plan[n].PutConfig? || job.plan[n].DeleteTunnel?)
    requires Does(job.plan[n], p.created, job.comments, p.cloud, Covered, p.created, after)
    ensures Sound(job, Progress(p.created, p.entries, p.covered + [n], after, []))
  {
    if job.plan[n].PutConfig? {
      WrittenTunnels(job, p.created, p.Steps(), p.cloud, n, after);
    } else {
      DeletedTunnels(job, p.created, p.Steps(), p.cloud, n, after);
    }
    hide Tunnels;
    CoveredStep(job, p, n, after);
  }

  lemma TunnelTaken(job: Job, p: Progress, n: nat, result: StepResult, created: Option<nat>, after: Cloud)
    requires Accurate(job) && Running(job, p)
    requires n < |job.plan| && n !in p.Steps() && !result.Failed?
    requires job.plan[n].CreateTunnel? || job.plan[n].PutConfig? || job.plan[n].DeleteTunnel?
    requires Does(job.plan[n], p.created, job.comments, p.cloud, result, created, after)
    ensures Sound(job, Further(p, n, result, created, after))
  {
    if job.plan[n].CreateTunnel? {
      OneCreation(job, p.Steps(), n);
      CreateTunnelStep(job, p, n, after);
    } else if result.Covered? {
      BareTaken(job, p, n, after);
    } else {
      ConfigStep(job, p, n, after);
    }
  }

  lemma RecordTaken(job: Job, p: Progress, n: nat, undo: Undo, after: Cloud)
    requires Accurate(job) && Running(job, p)
    requires n < |job.plan| && n !in p.Steps()
    requires job.plan[n].CreateRecord? || job.plan[n].UpdateRecord? || job.plan[n].DeleteRecord?
    requires Does(job.plan[n], p.created, job.comments, p.cloud, Reversible(undo), p.created, after)
    ensures Sound(job, Progress(p.created, p.entries + [Entry(n, undo)], p.covered, after, []))
    ensures Ready(job, p.entries + [Entry(n, undo)], p.Steps() + {n}, after)
  {
    var step := job.plan[n];
    assert Booked(step, p.created, job.comments, p.cloud, Entry(n, undo), after) by {
      if step.CreateRecord? {
        CreateBooked(step, p.created, job.comments, p.cloud, n, undo, after);
      } else if step.UpdateRecord? {
        UpdateBooked(step, p.created, job.comments, p.cloud, n, undo, after);
      } else {
        DeleteBooked(step, p.created, job.comments, p.cloud, n, undo, after);
      }
    }
    RecordStep(job, p, Entry(n, undo), after);
    StillReady(job, p, Entry(n, undo), after);
  }

  /** A step that was done leaves a run that can go on, or be undone. */
  lemma Taken(job: Job, p: Progress, n: nat, result: StepResult, created: Option<nat>, after: Cloud)
    requires Accurate(job) && Running(job, p)
    requires n < |job.plan| && n !in p.Steps() && !result.Failed?
    requires Does(job.plan[n], p.created, job.comments, p.cloud, result, created, after)
    ensures Running(job, Further(p, n, result, created, after))
    ensures Further(p, n, result, created, after).Steps() == p.Steps() + {n}
  {
    StepsFurther(p, n, result, created, after);
    EffectsWith(job.plan, p.Steps(), n);
    VersionsBeside(job, p, n, result, created, after);
    hide Tunnels, Versions;
    if job.plan[n].CreateTunnel? || job.plan[n].PutConfig? || job.plan[n].DeleteTunnel? {
      ReadyBeside(job, p, n, result, after);
      TunnelTaken(job, p, n, result, created, after);
    } else {
      RecordTaken(job, p, n, result.undo, after);
    }
  }

  // ----- Plans that can be carried out -----

  function UsedTunnel(step: Step): Option<TunnelRef> {
    if step.PutConfig? || step.CreateRecord? || step.UpdateRecord? then Some(step.tunnel) else None
  }

  /** A plan whose references and versions resolve: it uses a new tunnel only after creating it,
      no tunnel after deleting it, and expects the versions it was made against. */
  ghost predicate Resolvable(job: Job) {
    forall i :: 0 <= i < |job.plan| ==> ResolvesAt(job, i)
  }

  ghost predicate ResolvesAt(job: Job, i: nat)
    requires i < |job.plan|
  {
    var plan := job.plan;
    && (UsedTunnel(plan[i]) == Some(NewTunnel) ==> exists j :: 0 <= j < i && plan[j].CreateTunnel?)
    && (plan[i].PutConfig? && plan[i].tunnel == NewTunnel ==> plan[i].expected.None?)
    && (plan[i].PutConfig? && plan[i].tunnel.Existing? ==>
          && (plan[i].tunnel.id in job.start.tunnels && plan[i].expected.Some? ==>
                job.start.tunnels[plan[i].tunnel.id].version == plan[i].expected.value)
          && forall j :: 0 <= j < i ==> plan[j] != DeleteTunnel(plan[i].tunnel.id))
  }

  lemma NewTunnelThere(job: Job, p: Progress, n: nat)
    requires Running(job, p) && n < |job.plan|
    requires exists j :: 0 <= j < n && job.plan[j].CreateTunnel?
    requires forall j :: 0 <= j < n && job.plan[j].CreateTunnel? ==> j in p.Steps()
    ensures p.created.Some? && p.created.value in p.cloud.tunnels
  {
    hide Books, AllMatch, ConfiguredAs, CreatedAs, Ready, Versions;
    var j :| 0 <= j < n && job.plan[j].CreateTunnel?;
    assert Creates(job.plan, p.Steps());
    assert Tunnels(job, p.created, p.Steps(), p.cloud);
  }

  lemma OldTunnelUnchanged(job: Job, p: Progress, n: nat, t: nat)
    requires Accurate(job) && Running(job, p) && n < |job.plan| && n !in p.Steps() && Configures(job.plan[n], Existing(t))
    requires forall j :: j in p.Steps() && j < |job.plan| ==> job.plan[j] != DeleteTunnel(t)
    ensures t in p.cloud.tunnels && t in job.start.tunnels && p.cloud.tunnels[t].version == job.start.tunnels[t].version
  {
    hide Books, AllMatch, ConfiguredAs, CreatedAs, Ready;
    ConfigOnce(job, p.Steps(), n, Existing(t));
    assert Tunnels(job, p.created, p.Steps(), p.cloud);
    assert !Deletes(job.plan, p.Steps(), t);
    assert Versions(job, p.Steps(), p.cloud);
  }

  lemma RecordThere(job: Job, p: Progress, n: nat)
    requires Running(job, p) && n < |job.plan| && n !in p.Steps() && job.plan[n].UpdateRecord?
    ensures job.plan[n].record in p.cloud.records && p.cloud.records[job.plan[n].record] == job.plan[n].previous
  {
    hide Sound, Versions;
    assert Ready(job, p.entries, p.Steps(), p.cloud);
  }

  /** The next step of a resolvable plan fails only if a call is refused. */
  lemma NextPossible(job: Job, p: Progress, n: nat)
    requires Accurate(job) && Running(job, p) && n < |job.plan| && n !in p.Steps() && ResolvesAt(job, n)
    requires forall j :: 0 <= j < n && job.plan[j].CreateTunnel? ==> j in p.Steps()
    requires forall s :: s in p.Steps() && s >= n && s < |job.plan| ==> !job.plan[s].DeleteTunnel?
    ensures Possible(job.plan[n], p.created, p.cloud)
  {
    hide Accurate, Running;
    if UsedTunnel(job.plan[n]) == Some(NewTunnel) {
      NewTunnelThere(job, p, n);
    }
    if job.plan[n].PutConfig? && job.plan[n].tunnel.Existing? {
      OldTunnelUnchanged(job, p, n, job.plan[n].tunnel.id);
    } else if job.plan[n].UpdateRecord? {
      RecordThere(job, p, n);
    }
  }
}
