/** Plans made from a true reading of the account are accurate and resolve, so that the executor's
    theorems apply to them. */
module Accuracy {
  import opened Characters
  import opened CloudAccount
  import opened Effects
  import opened Histories
  import opened Ingress
  import opened Planner
  import opened Plans
  import opened Readings
  import opened RollbackLimits
  import opened Wrappers

  lemma {:induction false} ChosenAre(records: seq<Observed>, want: Observed -> bool)
    ensures forall o :: o in Chosen(records, want) <==> o in records && want(o)
    ensures DifferentIds(records) ==> DifferentIds(Chosen(records, want))
  {
    if records != [] {
      ChosenAre(Init(records), want);
      assert records == Init(records) + [Last(records)];
      var before := Chosen(Init(records), want);
      assert forall i :: 0 <= i < |before| ==> before[i] in Init(records);
    }
  }

  // ----- Step by step -----

  /** What a step says about the account is so. */
  ghost predicate Told(c: Cloud, step: Step) {
    && (Touched(step).Some? ==> step.record in c.records && c.records[step.record] == step.previous)
    && (step.PutConfig? ==>
          if step.tunnel.Existing? then step.tunnel.id in c.tunnels && c.tunnels[step.tunnel.id].ingress == step.previousRules
          else step.previousRules == [])
    && (step.DeleteTunnel? ==> step.id in c.tunnels)
  }

  ghost predicate AllTold(c: Cloud, steps: seq<Step>) {
    forall i :: 0 <= i < |steps| ==> Told(c, steps[i])
  }

  ghost predicate Separate(steps: seq<Step>) {
    forall i, j :: 0 <= i < j < |steps| ==> Independent(steps[i], steps[j])
  }

  lemma ToldIsAccurate(c: Cloud, steps: seq<Step>, comments: Comments)
    requires Valid(c) && AllTold(c, steps)
    ensures Accurate(Job(c, steps, comments)) <==> Separate(steps)
  {
    forall i | 0 <= i < |steps|
      ensures Told(c, steps[i])
    {
    }
  }

  /** A step on the tunnel comes before, one on records after: they never meet. */
  predicate OffRecords(step: Step) {
    step.CreateTunnel? || step.PutConfig?
  }

  lemma Joined(c: Cloud, a: seq<Step>, b: seq<Step>)
    requires AllTold(c, a) && AllTold(c, b) && Separate(a)
    requires forall i :: 0 <= i < |a| ==> OffRecords(a[i])
    requires forall i :: 0 <= i < |b| ==> !OffRecords(b[i])
    ensures AllTold(c, a + b) && (Separate(a + b) <==> Separate(b))
  {
    var all := a + b;
    assert forall i :: 0 <= i < |a| ==> all[i] == a[i];
    assert forall i :: 0 <= i < |b| ==> all[|a| + i] == b[i];
  }

  /** The plan uses the tunnel the snapshot has, or else creates one, and in the version read. */
  predicate Follows(s: Snapshot, step: Step) {
    && (UsedTunnel(step).Some? ==> UsedTunnel(step) == Some(TunnelFor(s)))
    && (step.PutConfig? ==> step.expected == if s.tunnel.Some? then Some(s.tunnel.value.version) else None)
    && (step.CreateTunnel? ==> s.tunnel.None?)
  }

  ghost predicate AllFollow(s: Snapshot, steps: seq<Step>) {
    forall i :: 0 <= i < |steps| ==> Follows(s, steps[i])
  }

  lemma FollowingResolves(s: Snapshot, c: Cloud, steps: seq<Step>, comments: Comments)
    requires Tells(s, c) && AllFollow(s, steps) && DeletesLast(steps)
    requires s.tunnel.None? && steps != [] ==> steps[0].CreateTunnel?
    ensures Resolvable(Job(c, steps, comments))
  {
    var job := Job(c, steps, comments);
    forall i | 0 <= i < |steps|
      ensures ResolvesAt(job, i)
    {
      assert Follows(s, steps[i]);
      if UsedTunnel(steps[i]) == Some(NewTunnel) {
        assert 0 <= 0 < i && steps[0].CreateTunnel?;
      }
    }
  }

  // ----- The parts of a plan -----

  /** Steps on the tunnel, each saying what is so. */
  lemma TunnelPart(s: Snapshot, c: Cloud, desired: seq<Rule>)
    requires Tells(s, c)
    ensures var a := TunnelSteps(s) + ConfigSteps(s, desired);
            AllTold(c, a) && Separate(a) && AllFollow(s, a) && forall i :: 0 <= i < |a| ==> OffRecords(a[i])
    ensures var a := ConfigSteps(s, desired);
            AllTold(c, a) && Separate(a) && AllFollow(s, a) && forall i :: 0 <= i < |a| ==> OffRecords(a[i])
    ensures var a := TunnelSteps(s);
            AllTold(c, a) && Separate(a) && AllFollow(s, a) && forall i :: 0 <= i < |a| ==> OffRecords(a[i])
  {
  }

  lemma DeletionsPart(s: Snapshot, c: Cloud, found: seq<Observed>)
    requires Tells(s, c) && forall o :: o in found ==> o in s.records
    ensures var b := Deletions(found);
            AllTold(c, b) && AllFollow(s, b) && forall i :: 0 <= i < |b| ==> b[i].DeleteRecord?
    ensures Separate(Deletions(found)) <==> DifferentIds(found)
  {
    var b := Deletions(found);
    if Separate(b) {
      forall i, j | 0 <= i < j < |found|
        ensures found[i].id != found[j].id
      {
        assert Independent(b[i], b[j]);
      }
    }
    forall i | 0 <= i < |found|
      ensures Told(c, Deletions(found)[i])
    {
      assert found[i] in s.records;
    }
  }

  /** The first record is changed and the others are deleted. */
  lemma TakeOverPart(s: Snapshot, c: Cloud, found: seq<Observed>, first: Step)
    requires Tells(s, c) && DifferentIds(found) && found != [] && forall o :: o in found ==> o in s.records
    requires first.UpdateRecord? && first.record == found[0].id && first.previous == found[0].record && first.tunnel == TunnelFor(s)
    ensures var b := [first] + Deletions(found[1..]);
            AllTold(c, b) && Separate(b) && AllFollow(s, b)
            && forall i :: 0 <= i < |b| ==> b[i].CreateRecord? || b[i].UpdateRecord? || b[i].DeleteRecord?
  {
    var rest := found[1..];
    assert forall i :: 0 <= i < |rest| ==> rest[i] == found[i + 1] && rest[i] in found;
    ReadOne(s, c, found[0]);
    hide Tells;
    DeletionsPart(s, c, rest);
    Prepended(s, c, first, Deletions(rest));
  }

  lemma ReadOne(s: Snapshot, c: Cloud, o: Observed)
    requires Tells(s, c) && o in s.records
    ensures o.id in c.records && c.records[o.id] == o.record
  {
  }

  lemma Prepended(s: Snapshot, c: Cloud, first: Step, d: seq<Step>)
    requires Told(c, first) && Follows(s, first) && AllTold(c, d) && Separate(d) && AllFollow(s, d)
    requires forall i :: 0 <= i < |d| ==> Independent(first, d[i])
    ensures var b := [first] + d; AllTold(c, b) && Separate(b) && AllFollow(s, b)
  {
    hide Told, Follows, Independent;
    var b := [first] + d;
    assert b[0] == first && forall i :: 0 < i < |b| ==> b[i] == d[i - 1];
    forall i, j | 0 <= i < j < |b|
      ensures Independent(b[i], b[j])
    {
      assert i > 0 ==> Independent(d[i - 1], d[j - 1]);
    }
  }

  lemma DnsPart(s: Snapshot, c: Cloud, zone: string, hostname: string, route: string)
    requires Reads(s, c, [hostname])
    ensures var b := DnsSteps(s, zone, hostname, route);
            AllTold(c, b) && Separate(b) && AllFollow(s, b)
            && forall i :: 0 <= i < |b| ==> !OffRecords(b[i]) && !b[i].DeleteTunnel?
  {
    var found := Chosen(s.records, Resolving(hostname));
    OneName(s, c, hostname);
    CreatePart(s, c, zone, hostname, route);
    ChosenAre(s.records, Resolving(hostname));
    assert Tells(s, c);
    hide Reads, Tells, AllTold, Separate, AllFollow;
    if !AlreadyOurs(s, found) && found != [] {
      TakeOverPart(s, c, found, UpdateRecord(zone, found[0].id, hostname, TunnelFor(s), route, found[0].record));
    }
  }

  lemma CreatePart(s: Snapshot, c: Cloud, zone: string, hostname: string, route: string)
    ensures var b := [CreateRecord(zone, hostname, TunnelFor(s), route)]; AllTold(c, b) && Separate(b) && AllFollow(s, b)
    ensures AllTold(c, []) && Separate([]) && AllFollow(s, [])
  {
  }

  lemma VerifyPart(s: Snapshot, c: Cloud, b: seq<Step>, route: Route)
    requires AllTold(c, b) && Separate(b) && AllFollow(s, b)
    ensures var all := b + VerifySteps(route); AllTold(c, all) && Separate(all) && AllFollow(s, all)
  {
    var all, v := b + VerifySteps(route), VerifySteps(route);
    assert forall i :: 0 <= i < |b| ==> all[i] == b[i];
    assert forall i :: 0 <= i < |v| ==> all[|b| + i] == v[i];
  }

  lemma FollowJoined(s: Snapshot, a: seq<Step>, b: seq<Step>)
    requires AllFollow(s, a) && AllFollow(s, b)
    ensures AllFollow(s, a + b)
  {
    assert forall i :: 0 <= i < |a| ==> (a + b)[i] == a[i];
    assert forall i :: 0 <= i < |b| ==> (a + b)[|a| + i] == b[i];
  }

  /** What holds of a plan's steps: true to the reading, apart, and using the right tunnel. */
  ghost predicate Good(s: Snapshot, c: Cloud, steps: seq<Step>) {
    AllTold(c, steps) && Separate(steps) && AllFollow(s, steps)
  }

  /** The part of the plan that comes before the records. */
  function TunnelPartOf(s: Snapshot, route: Route): seq<Step> {
    TunnelSteps(s) + if Find(Routes(s), route.hostname, route.path).Some? then [] else ConfigSteps(s, Routes(s) + [route.Rule()])
  }

  lemma AddStepsAre(s: Snapshot, route: Route, zone: string)
    ensures AddSteps(s, route, zone) == TunnelPartOf(s, route) + DnsSteps(s, zone, route.hostname, route.id) + VerifySteps(route)
  {
    hide TunnelSteps, ConfigSteps, DnsSteps, VerifySteps, Find, Routes;
  }

  lemma TunnelPartIs(s: Snapshot, route: Route)
    ensures var a := TunnelPartOf(s, route);
            && (forall i :: 0 <= i < |a| ==> !a[i].DeleteTunnel? && (a[i].CreateTunnel? ==> s.tunnel.None?))
            && (s.tunnel.None? ==> a != [] && a[0].CreateTunnel?)
  {
    hide SortIngress, Routes, Find;
  }

  lemma TunnelPartGood(s: Snapshot, c: Cloud, route: Route)
    requires Tells(s, c)
    ensures Good(s, c, TunnelPartOf(s, route))
    ensures forall i :: 0 <= i < |TunnelPartOf(s, route)| ==> OffRecords(TunnelPartOf(s, route)[i])
  {
    TunnelPart(s, c, Routes(s) + [route.Rule()]);
    hide Told, Follows, Tells, TunnelSteps, ConfigSteps, Find, Routes, AllTold, Separate, AllFollow;
    assert TunnelSteps(s) + [] == TunnelSteps(s);
  }

  lemma AddIsGood(s: Snapshot, c: Cloud, route: Route, zone: string)
    requires Reads(s, c, [route.hostname])
    ensures Good(s, c, AddSteps(s, route, zone))
    ensures forall i :: 0 <= i < |AddSteps(s, route, zone)| ==> !AddSteps(s, route, zone)[i].DeleteTunnel?
    ensures s.tunnel.None? ==> AddSteps(s, route, zone) != [] && AddSteps(s, route, zone)[0].CreateTunnel?
  {
    assert Tells(s, c);
    hide Reads, Tells, AllTold, Separate, AllFollow, TunnelPartOf, DnsSteps, AddSteps, OffRecords;
    var a, dns := TunnelPartOf(s, route), DnsSteps(s, zone, route.hostname, route.id);
    TunnelPartIs(s, route);
    TunnelPartGood(s, c, route);
    DnsPart(s, c, zone, route.hostname, route.id);
    AddStepsAre(s, route, zone);
    Joined(c, a, dns);
    FollowJoined(s, a, dns);
    VerifyPart(s, c, a + dns, route);
    NoDeletions(a, dns, VerifySteps(route));
  }

  lemma NoDeletions(a: seq<Step>, b: seq<Step>, d: seq<Step>)
    requires forall i :: 0 <= i < |a| ==> !a[i].DeleteTunnel?
    requires forall i :: 0 <= i < |b| ==> !b[i].DeleteTunnel?
    requires forall i :: 0 <= i < |d| ==> !d[i].DeleteTunnel?
    ensures forall i :: 0 <= i < |a + b + d| ==> !(a + b + d)[i].DeleteTunnel?
  {
  }

  lemma RemoveIsGood(s: Snapshot, c: Cloud, hostname: string, path: Option<string>)
    requires Reads(s, c, [hostname]) && s.tunnel.Some?
    ensures Good(s, c, RemoveSteps(s, hostname, path))
    ensures forall i :: 0 <= i < |RemoveSteps(s, hostname, path)| ==> !RemoveSteps(s, hostname, path)[i].DeleteTunnel?
  {
    OneName(s, c, hostname);
    assert Tells(s, c);
    hide Told, Follows, Reads, Tells;
    var desired, id := Others(Routes(s), hostname, path), s.tunnel.value.id;
    var config, release := ConfigSteps(s, desired), ReleaseUnused(s, desired, hostname);
    TunnelPart(s, c, desired);
    ReleaseStepsPart(s, c, hostname, id);
    ChosenAre(s.records, OwnPointing(hostname, id));
    Joined(c, config, release);
    FollowJoined(s, config, release);
    NoDeletions(config, release, []);
    assert config + release + [] == config + release && config + [] == config;
  }

  // ----- Removing the tunnel -----

  /** A record that two hostnames of the rules, which then differ only in case, both own. */
  ghost predicate SharedRecord(s: Snapshot, hostnames: seq<string>, id: nat) {
    exists i, j, k :: Shares(s, hostnames, id, i, j, k)
  }

  ghost predicate Shares(s: Snapshot, hostnames: seq<string>, id: nat, i: int, j: int, k: int) {
    && 0 <= i < j < |hostnames| && 0 <= k < |s.records|
    && OwnPointing(hostnames[i], id)(s.records[k]) && OwnPointing(hostnames[j], id)(s.records[k])
  }

  lemma {:induction false} ReleasedAre(s: Snapshot, hostnames: seq<string>, id: nat)
    ensures forall x :: x in ReleaseAll(s, hostnames, id) ==>
              exists i, k :: Releases(s, hostnames, id, x, i, k)
    ensures forall i, k :: 0 <= i < |hostnames| && 0 <= k < |s.records| && OwnPointing(hostnames[i], id)(s.records[k]) ==>
              DeleteRecord(s.records[k].id, s.records[k].record) in ReleaseAll(s, hostnames, id)
  {
    if hostnames != [] {
      var before, last := Init(hostnames), Last(hostnames);
      var found := Chosen(s.records, OwnPointing(last, id));
      ReleasedAre(s, before, id);
      ChosenAre(s.records, OwnPointing(last, id));
      assert forall i :: 0 <= i < |before| ==> hostnames[i] == before[i];
      forall x | x in ReleaseAll(s, hostnames, id)
        ensures exists i, k :: Releases(s, hostnames, id, x, i, k)
      {
        if x in ReleaseAll(s, before, id) {
          var i, k :| Releases(s, before, id, x, i, k);
          assert Releases(s, hostnames, id, x, i, k);
        } else {
          var n :| 0 <= n < |found| && Deletions(found)[n] == x;
          assert found[n] in s.records;
          var k :| 0 <= k < |s.records| && s.records[k] == found[n];
          assert Releases(s, hostnames, id, x, |hostnames| - 1, k);
        }
      }
      forall i, k | 0 <= i < |hostnames| && 0 <= k < |s.records| && OwnPointing(hostnames[i], id)(s.records[k])
        ensures DeleteRecord(s.records[k].id, s.records[k].record) in ReleaseAll(s, hostnames, id)
      {
        if i == |before| {
          assert s.records[k] in found;
          var n :| 0 <= n < |found| && found[n] == s.records[k];
          assert Deletions(found)[n] == DeleteRecord(s.records[k].id, s.records[k].record);
        }
      }
    }
  }

  ghost predicate Releases(s: Snapshot, hostnames: seq<string>, id: nat, x: Step, i: int, k: int) {
    && 0 <= i < |hostnames| && 0 <= k < |s.records|
    && OwnPointing(hostnames[i], id)(s.records[k])
    && x == DeleteRecord(s.records[k].id, s.records[k].record)
  }

  lemma ReleaseStepsPart(s: Snapshot, c: Cloud, hostname: string, id: nat)
    requires Tells(s, c)
    ensures var d := ReleaseSteps(s, hostname, id);
            AllTold(c, d) && AllFollow(s, d) && forall i :: 0 <= i < |d| ==> d[i].DeleteRecord?
    ensures Separate(ReleaseSteps(s, hostname, id)) <==> DifferentIds(Chosen(s.records, OwnPointing(hostname, id)))
  {
    hide AllTold, AllFollow, Separate;
    ChosenAre(s.records, OwnPointing(hostname, id));
    DeletionsPart(s, c, Chosen(s.records, OwnPointing(hostname, id)));
  }

  /** A hostname's own record is listed twice. */
  ghost predicate Repeats(s: Snapshot, hostnames: seq<string>, id: nat) {
    exists i :: 0 <= i < |hostnames| && !DifferentIds(Chosen(s.records, OwnPointing(hostnames[i], id)))
  }

  lemma {:induction false} ReleasesAre(s: Snapshot, c: Cloud, hostnames: seq<string>, id: nat)
    requires Tells(s, c)
    ensures var b := ReleaseAll(s, hostnames, id);
            && AllTold(c, b) && AllFollow(s, b) && (forall i :: 0 <= i < |b| ==> b[i].DeleteRecord?)
            && (Separate(b) <==> !SharedRecord(s, hostnames, id) && !Repeats(s, hostnames, id))
  {
    if hostnames == [] {
    } else {
      var before, last := Init(hostnames), Last(hostnames);
      hide Tells, AllTold, AllFollow, Separate, SharedRecord, ReleaseSteps, Repeats;
      ReleasesAre(s, c, before, id);
      ReleaseStepsPart(s, c, last, id);
      ReleaseOneMore(s, c, before, last, id);
      assert hostnames == before + [last];
    }
  }

  /** When the records were read by looking up the hostnames, one that is listed twice is shared. */
  lemma RepeatedIsShared(s: Snapshot, c: Cloud, hostnames: seq<string>, id: nat)
    requires Reads(s, c, hostnames) && Repeats(s, hostnames, id)
    ensures SharedRecord(s, hostnames, id)
  {
    hide Reads, Listed, DifferentIds, Chosen;
    var i :| 0 <= i < |hostnames| && !DifferentIds(Chosen(s.records, OwnPointing(hostnames[i], id)));
    var k := ListedTwiceOf(s.records, OwnPointing(hostnames[i], id));
    ReadOften(s, c, hostnames, k);
    var p, q := FoundTwice(s.zone, hostnames, s.records[k].record);
    assert Shares(s, hostnames, id, p, q, k);
  }

  lemma ReadOften(s: Snapshot, c: Cloud, names: seq<string>, k: nat)
    requires Reads(s, c, names) && k < |s.records|
    ensures Listed(s.records, s.records[k].id) == Finding(s.zone, names, s.records[k].record)
  {
    hide Listed, Finding;
  }

  lemma ListedTwiceOf(records: seq<Observed>, want: Observed -> bool) returns (k: nat)
    requires !DifferentIds(Chosen(records, want))
    ensures k < |records| && want(records[k]) && Listed(records, records[k].id) >= 2
  {
    var found := Chosen(records, want);
    var m, n :| 0 <= m < n < |found| && found[m].id == found[n].id;
    ChosenAre(records, want);
    ListedTwice(found, m, n);
    ChosenListed(records, want, found[m].id);
    assert found[m] in records;
    k :| 0 <= k < |records| && records[k] == found[m];
  }

  lemma {:induction false} ChosenListed(records: seq<Observed>, want: Observed -> bool, id: nat)
    ensures Listed(Chosen(records, want), id) <= Listed(records, id)
  {
    if records != [] {
      ChosenListed(Init(records), want, id);
      var before := Chosen(Init(records), want);
      Push(before, Last(records));
      assert before + [] == before;
    }
  }

  /** The records of all hostnames are released once each exactly when no two share one. */
  lemma ReleasePart(s: Snapshot, c: Cloud, hostnames: seq<string>, id: nat)
    requires Reads(s, c, hostnames)
    ensures var b := ReleaseAll(s, hostnames, id);
            && AllTold(c, b) && AllFollow(s, b) && (forall i :: 0 <= i < |b| ==> b[i].DeleteRecord?)
            && (Separate(b) <==> !SharedRecord(s, hostnames, id))
  {
    ReleasesAre(s, c, hostnames, id);
    if Repeats(s, hostnames, id) {
      RepeatedIsShared(s, c, hostnames, id);
    }
  }

  lemma DeletionsJoined(s: Snapshot, c: Cloud, a: seq<Step>, d: seq<Step>)
    requires AllTold(c, a) && AllFollow(s, a) && AllTold(c, d) && AllFollow(s, d)
    requires (forall i :: 0 <= i < |a| ==> a[i].DeleteRecord?) && (forall i :: 0 <= i < |d| ==> d[i].DeleteRecord?)
    ensures var b := a + d; AllTold(c, b) && AllFollow(s, b) && forall i :: 0 <= i < |b| ==> b[i].DeleteRecord?
    ensures Separate(a + d) <==> Separate(a) && Separate(d) && forall m, n :: 0 <= m < |a| && 0 <= n < |d| ==> Independent(a[m], d[n])
  {
    hide Told, Follows;
    var all := a + d;
    assert forall i :: 0 <= i < |a| ==> all[i] == a[i];
    assert forall i :: 0 <= i < |d| ==> all[|a| + i] == d[i];
    if Separate(all) {
      forall i, j | 0 <= i < j < |a|
        ensures Independent(a[i], a[j])
      {
        assert Independent(all[i], all[j]);
      }
      forall i, j | 0 <= i < j < |d|
        ensures Independent(d[i], d[j])
      {
        assert Independent(all[|a| + i], all[|a| + j]);
      }
      forall m, n | 0 <= m < |a| && 0 <= n < |d|
        ensures Independent(a[m], d[n])
      {
        assert Independent(all[m], all[|a| + n]);
      }
    }
  }

  /** A hostname's records are apart from those of the ones before it unless one is shared. */
  lemma CrossApart(s: Snapshot, c: Cloud, before: seq<string>, last: string, id: nat)
    requires Tells(s, c)
    ensures var a, d := ReleaseAll(s, before, id), ReleaseSteps(s, last, id);
            (forall m, n :: 0 <= m < |a| && 0 <= n < |d| ==> Independent(a[m], d[n]))
            <==> forall i, k :: !Shares(s, before + [last], id, i, |before|, k)
  {
    var a, d, hostnames := ReleaseAll(s, before, id), ReleaseSteps(s, last, id), before + [last];
    var found := Chosen(s.records, OwnPointing(last, id));
    ReleasedAre(s, before, id);
    ChosenAre(s.records, OwnPointing(last, id));
    if i, k :| Shares(s, hostnames, id, i, |before|, k) {
      assert hostnames[i] == before[i];
      var x := DeleteRecord(s.records[k].id, s.records[k].record);
      assert x in a && s.records[k] in found;
      var m :| 0 <= m < |a| && a[m] == x;
      var n :| 0 <= n < |found| && found[n] == s.records[k];
      assert !Independent(a[m], d[n]);
    } else {
      forall m, n | 0 <= m < |a| && 0 <= n < |d|
        ensures Independent(a[m], d[n])
      {
        ApartHere(s, c, before, last, id, m, n);
      }
    }
  }

  lemma ApartHere(s: Snapshot, c: Cloud, before: seq<string>, last: string, id: nat, m: nat, n: nat)
    requires Tells(s, c)
    requires m < |ReleaseAll(s, before, id)| && n < |ReleaseSteps(s, last, id)|
    requires forall i, k :: !Shares(s, before + [last], id, i, |before|, k)
    ensures Independent(ReleaseAll(s, before, id)[m], ReleaseSteps(s, last, id)[n])
  {
    var a, found := ReleaseAll(s, before, id), Chosen(s.records, OwnPointing(last, id));
    ReleasedAre(s, before, id);
    ChosenAre(s.records, OwnPointing(last, id));
    assert a[m] in a && found[n] in found;
    var i, k :| Releases(s, before, id, a[m], i, k);
    var l :| 0 <= l < |s.records| && s.records[l] == found[n];
    assert !Shares(s, before + [last], id, i, |before|, k);
    assert s.records[k].id != s.records[l].id;
  }

  lemma SharedOneMore(s: Snapshot, before: seq<string>, last: string, id: nat)
    ensures SharedRecord(s, before + [last], id)
            <==> SharedRecord(s, before, id) || exists i, k :: Shares(s, before + [last], id, i, |before|, k)
  {
    var hostnames := before + [last];
    if i, j, k :| Shares(s, hostnames, id, i, j, k) {
      assert j < |before| ==> Shares(s, before, id, i, j, k);
    }
    if i, j, k :| Shares(s, before, id, i, j, k) {
      assert Shares(s, hostnames, id, i, j, k);
    }
  }

  lemma ReleaseOneMore(s: Snapshot, c: Cloud, before: seq<string>, last: string, id: nat)
    requires Tells(s, c)
    requires var b := ReleaseAll(s, before, id);
             && AllTold(c, b) && AllFollow(s, b) && (forall i :: 0 <= i < |b| ==> b[i].DeleteRecord?)
             && (Separate(b) <==> !SharedRecord(s, before, id) && !Repeats(s, before, id))
    requires var d := ReleaseSteps(s, last, id);
             && AllTold(c, d) && AllFollow(s, d) && (forall i :: 0 <= i < |d| ==> d[i].DeleteRecord?)
             && (Separate(d) <==> DifferentIds(Chosen(s.records, OwnPointing(last, id))))
    ensures var b := ReleaseAll(s, before, id) + ReleaseSteps(s, last, id);
            && AllTold(c, b) && AllFollow(s, b) && (forall i :: 0 <= i < |b| ==> b[i].DeleteRecord?)
            && (Separate(b) <==> !SharedRecord(s, before + [last], id) && !Repeats(s, before + [last], id))
  {
    hide Tells, AllTold, AllFollow, Separate, SharedRecord, Shares, ReleaseSteps, Repeats, DifferentIds;
    DeletionsJoined(s, c, ReleaseAll(s, before, id), ReleaseSteps(s, last, id));
    CrossApart(s, c, before, last, id);
    SharedOneMore(s, before, last, id);
    RepeatsOneMore(s, before, last, id);
  }

  lemma RepeatsOneMore(s: Snapshot, before: seq<string>, last: string, id: nat)
    ensures Repeats(s, before + [last], id)
            <==> Repeats(s, before, id) || !DifferentIds(Chosen(s.records, OwnPointing(last, id)))
  {
    hide DifferentIds;
    var hostnames := before + [last];
    assert hostnames[|before|] == last;
    if i :| 0 <= i < |before| && !DifferentIds(Chosen(s.records, OwnPointing(before[i], id))) {
      assert hostnames[i] == before[i];
    }
  }

  lemma TakeDownIsGood(s: Snapshot, c: Cloud)
    requires s.tunnel.Some? && Reads(s, c, Hostnames(Routes(s)))
    ensures var steps := RemoveTunnelSteps(s);
            && AllTold(c, steps) && AllFollow(s, steps) && DeletesLast(steps)
            && (Separate(steps) <==> !SharedRecord(s, Hostnames(Routes(s)), s.tunnel.value.id))
  {
    var id, hostnames := s.tunnel.value.id, Hostnames(Routes(s));
    var config := if Routes(s) != [] then ConfigSteps(s, []) else [];
    var release := ReleaseAll(s, hostnames, id);
    assert Told(c, DeleteTunnel(id));
    hide Told, Follows, Tells, Reads, SharedRecord, AllTold, AllFollow, Separate;
    TunnelPart(s, c, []);
    ReleasePart(s, c, hostnames, id);
    Ending(s, c, release, id);
    Joined(c, config, release + [DeleteTunnel(id)]);
    FollowJoined(s, config, release + [DeleteTunnel(id)]);
    assert RemoveTunnelSteps(s) == config + (release + [DeleteTunnel(id)]);
  }

  lemma Ending(s: Snapshot, c: Cloud, release: seq<Step>, id: nat)
    requires AllTold(c, release) && AllFollow(s, release) && Told(c, DeleteTunnel(id))
    requires forall i :: 0 <= i < |release| ==> release[i].DeleteRecord?
    ensures var b := release + [DeleteTunnel(id)];
            && AllTold(c, b) && AllFollow(s, b) && (Separate(b) <==> Separate(release))
            && (forall i :: 0 <= i < |b| ==> !OffRecords(b[i]))
            && forall i :: 0 <= i < |b| && b[i].DeleteTunnel? ==> i == |release|
  {
    var b := release + [DeleteTunnel(id)];
    assert forall i :: 0 <= i < |release| ==> b[i] == release[i];
    assert Follows(s, DeleteTunnel(id));
  }

  // ----- Hostnames that differ only in case -----

  lemma {:induction false} LessIsOrder(a: string, b: string, c: string)
    ensures !Less(a, a) && (Less(a, b) || a == b || Less(b, a))
    ensures Less(a, b) && Less(b, c) ==> Less(a, c)
  {
    if a != "" {
      LessIsOrder(a[1..], if b == "" then "" else b[1..], if c == "" then "" else c[1..]);
    }
    if a != "" && b != "" && a[0] == b[0] && a[1..] == b[1..] {
      assert a == [a[0]] + a[1..] && b == [b[0]] + b[1..];
    }
  }

  ghost predicate Ascending(names: seq<string>) {
    forall i, j :: 0 <= i < j < |names| ==> Less(names[i], names[j])
  }

  lemma {:induction false} InsertedAscends(names: seq<string>, name: string)
    requires Ascending(names)
    ensures Ascending(Planner.Inserted(names, name))
    ensures forall h :: h in Planner.Inserted(names, name) <==> h == name || h in names
  {
    hide Less;
    if names == [] {
    } else if Less(name, names[0]) {
      forall i | 0 <= i < |names|
        ensures Less(name, names[i])
      {
        LessIsOrder(name, names[0], names[i]);
      }
    } else if name != names[0] {
      LessIsOrder(name, names[0], "");
      var rest := Planner.Inserted(names[1..], name);
      InsertedAscends(names[1..], name);
      forall i | 0 <= i < |rest|
        ensures Less(names[0], rest[i])
      {
        assert rest[i] in rest;
      }
      assert names == [names[0]] + names[1..];
    }
  }

  /** The hostnames of the rules are those of the rules, each once. */
  lemma {:induction false} HostnamesAre(rules: seq<Rule>)
    ensures Ascending(Hostnames(rules))
    ensures forall h :: h in Hostnames(rules) <==> exists i :: 0 <= i < |rules| && rules[i].hostname == Some(h)
  {
    if rules != [] {
      HostnamesAre(Init(rules));
      assert rules == Init(rules) + [Last(rules)];
      if Last(rules).hostname.Some? {
        InsertedAscends(Hostnames(Init(rules)), Last(rules).hostname.value);
      }
    }
  }

  ghost predicate Routed(s: Snapshot, hostname: string) {
    exists i :: 0 <= i < |Routes(s)| && Routes(s)[i].hostname == Some(hostname)
  }

  /** Two routed hostnames, which then differ only in case, both own a record at the tunnel. */
  ghost predicate Collide(s: Snapshot, id: nat, g: string, h: string, k: nat) {
    && g != h && Routed(s, g) && Routed(s, h)
    && k < |s.records| && OwnPointing(g, id)(s.records[k]) && OwnPointing(h, id)(s.records[k])
  }

  lemma SharedIsCollision(s: Snapshot, id: nat)
    ensures SharedRecord(s, Hostnames(Routes(s)), id) <==> exists g, h, k: nat :: Collide(s, id, g, h, k)
    ensures forall g, h, k: nat :: Collide(s, id, g, h, k) ==> Same(g, h)
  {
    var names := Hostnames(Routes(s));
    HostnamesAre(Routes(s));
    if i, j, k :| Shares(s, names, id, i, j, k) {
      LessIsOrder(names[i], names[j], "");
      assert names[i] in names && names[j] in names;
      assert Collide(s, id, names[i], names[j], k);
    }
    if g, h, k: nat :| Collide(s, id, g, h, k) {
      assert g in names && h in names;
      var i :| 0 <= i < |names| && names[i] == g;
      var j :| 0 <= j < |names| && names[j] == h;
      assert if i < j then Shares(s, names, id, i, j, k) else Shares(s, names, id, j, i, k);
    }
  }

  // ----- Every plan -----

  lemma NoSteps(s: Snapshot, c: Cloud, comments: Comments)
    requires Tells(s, c)
    ensures Accurate(Job(c, [], comments)) && Resolvable(Job(c, [], comments)) && DeletesLast([])
  {
  }

  lemma AddIsAccurate(route: Route, s: Snapshot, c: Cloud, comments: Comments)
    requires Reads(s, c, [route.hostname]) && PlanFor(AddRoute(route), s).Plan?
    ensures var job := Job(c, PlanFor(AddRoute(route), s).steps, comments);
            Resolvable(job) && DeletesLast(job.plan) && Accurate(job)
  {
    assert Tells(s, c);
    hide Accurate, Resolvable, Told, Follows, Tells, Reads;
    NoSteps(s, c, comments);
    ReadValid(s, c);
    var steps := AddSteps(s, route, s.zone(route.hostname).value);
    AddIsGood(s, c, route, s.zone(route.hostname).value);
    ToldIsAccurate(c, steps, comments);
    FollowingResolves(s, c, steps, comments);
  }

  lemma RemoveIsAccurate(hostname: string, path: Option<string>, s: Snapshot, c: Cloud, comments: Comments)
    requires Reads(s, c, [hostname]) && PlanFor(RemoveRoute(hostname, path), s).Plan?
    ensures var job := Job(c, PlanFor(RemoveRoute(hostname, path), s).steps, comments);
            Resolvable(job) && DeletesLast(job.plan) && Accurate(job)
  {
    assert Tells(s, c);
    hide Accurate, Resolvable, Told, Follows, Tells, Reads;
    NoSteps(s, c, comments);
    ReadValid(s, c);
    var steps := RemoveSteps(s, hostname, path);
    RemoveIsGood(s, c, hostname, path);
    ToldIsAccurate(c, steps, comments);
    FollowingResolves(s, c, steps, comments);
  }

  lemma TakeDownIsAccurate(s: Snapshot, c: Cloud, comments: Comments)
    requires s.tunnel.Some? && Reads(s, c, Hostnames(Routes(s)))
    ensures var job := Job(c, RemoveTunnelSteps(s), comments);
            && Resolvable(job) && DeletesLast(job.plan)
            && (Accurate(job) <==> !exists g, h, k: nat :: Collide(s, s.tunnel.value.id, g, h, k))
  {
    assert Tells(s, c);
    hide Accurate, Resolvable, SharedRecord, Collide, Told, Follows, Tells, Reads, RemoveTunnelSteps;
    ReadValid(s, c);
    TakeDownIsGood(s, c);
    SharedIsCollision(s, s.tunnel.value.id);
    ToldIsAccurate(c, RemoveTunnelSteps(s), comments);
    FollowingResolves(s, c, RemoveTunnelSteps(s), comments);
  }

  /** A plan made from a reading of what its request looks up resolves, deletes a tunnel last if at
      all, and is accurate unless it takes down a tunnel with a record that two of its hostnames,
      which differ only in case, both own. */
  lemma PlansAreAccurate(intent: Intent, s: Snapshot, c: Cloud, comments: Comments)
    requires Reads(s, c, NamesRead(intent, s)) && PlanFor(intent, s).Plan?
    ensures var job := Job(c, PlanFor(intent, s).steps, comments);
            && Resolvable(job) && DeletesLast(job.plan)
            && (Accurate(job) <==> intent.RemoveTunnel? ==>
                  !exists g, h, k: nat :: Collide(s, s.tunnel.value.id, g, h, k))
  {
    hide Accurate, Resolvable, Collide, Reads, DeletesLast, PlanAdd, PlanRemove;
    match intent {
      case AddRoute(route) => AddIsAccurate(route, s, c, comments);
      case RemoveRoute(hostname, path) => RemoveIsAccurate(hostname, path, s, c, comments);
      case RemoveTunnel =>
        var steps := RemoveTunnelSteps(s);
        assert steps[|steps| - 1].DeleteTunnel?;
        TakeDownIsAccurate(s, c, comments);
    }
  }

  lemma ReadValid(s: Snapshot, c: Cloud)
    requires Tells(s, c)
    ensures Valid(c)
  {
  }
}
