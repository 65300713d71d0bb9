/** A reading's records, counted against those of the account. */
module RecordCounts {
  import opened Accuracy
  import opened Characters
  import opened CloudAccount
  import opened Histories
  import opened Ingress
  import opened Planner
  import opened Plans
  import opened Readings
  import opened Wrappers

  function Values(found: seq<Observed>): multiset<Record> {
    if found == [] then multiset{} else Values(Init(found)) + multiset{Last(found).record}
  }

  /** How often records that look like `r` are listed whose ids are below `n`. */
  function ListedBelow(found: seq<Observed>, r: Record, n: nat): nat {
    if found == [] then 0
    else ListedBelow(Init(found), r, n) + if Last(found).record == r && Last(found).id < n then 1 else 0
  }

  lemma {:induction false} ListedAll(found: seq<Observed>, r: Record, n: nat)
    requires forall i :: 0 <= i < |found| ==> found[i].id < n
    ensures ListedBelow(found, r, n) == Values(found)[r]
  {
    if found != [] {
      ListedAll(Init(found), r, n);
    }
  }

  lemma {:induction false} ListedNone(found: seq<Observed>, r: Record)
    ensures ListedBelow(found, r, 0) == 0
  {
    if found != [] {
      ListedNone(Init(found), r);
    }
  }

  lemma {:induction false} ListedUpTo(found: seq<Observed>, records: map<nat, Record>, r: Record, n: nat)
    requires forall i :: 0 <= i < |found| ==> found[i].id in records && records[found[i].id] == found[i].record
    ensures ListedBelow(found, r, n + 1)
            == ListedBelow(found, r, n) + if n in records && records[n] == r then Listed(found, n) else 0
  {
    if found != [] {
      assert forall i :: 0 <= i < |Init(found)| ==> Init(found)[i] == found[i];
      ListedUpTo(Init(found), records, r, n);
    }
  }

  lemma OneMore(m: nat, n: nat)
    ensures m * (n + 1) == m * n + m
  {
  }

  lemma ReadNext(s: Snapshot, c: Cloud, names: seq<string>, r: Record, n: nat)
    requires Reads(s, c, names)
    ensures ListedBelow(s.records, r, n + 1)
            == ListedBelow(s.records, r, n) + if n in c.records && c.records[n] == r then Finding(s.zone, names, r) else 0
  {
    hide Finding, Listed, ListedBelow;
    ListedUpTo(s.records, c.records, r, n);
  }

  lemma {:induction false} CountsBelow(s: Snapshot, c: Cloud, names: seq<string>, r: Record, n: nat)
    requires Reads(s, c, names)
    ensures ListedBelow(s.records, r, n) == Finding(s.zone, names, r) * DataBelow(c.records, n)[r]
  {
    hide Reads, Finding, ListedBelow;
    if n == 0 {
      ListedNone(s.records, r);
    } else {
      CountsBelow(s, c, names, r, n - 1);
      ReadNext(s, c, names, r, n - 1);
      OneMore(Finding(s.zone, names, r), DataBelow(c.records, n - 1)[r]);
    }
  }

  /** A reading lists what looks like `r` once for each name that finds it. */
  lemma ReadingCounts(s: Snapshot, c: Cloud, names: seq<string>, r: Record)
    requires Reads(s, c, names)
    ensures Values(s.records)[r] == Finding(s.zone, names, r) * Data(c)[r]
  {
    CountsBelow(s, c, names, r, c.next);
    assert forall i :: 0 <= i < |s.records| ==> s.records[i].id < c.next;
    hide Listed, Finding;
    ListedAll(s.records, r, c.next);
  }

  /** Choosing by what a record is like chooses all that are like it. */
  lemma {:induction false} ChosenCount(records: seq<Observed>, want: Observed -> bool, r: Record, wanted: bool)
    requires forall o: Observed :: o.record == r ==> want(o) == wanted
    ensures Values(Chosen(records, want))[r] == if wanted then Values(records)[r] else 0
  {
    if records != [] {
      ChosenCount(Init(records), want, r, wanted);
      var before := Chosen(Init(records), want);
      Push(before, Last(records));
      assert before + [] == before;
    }
  }

  predicate ResolvesBy(r: Record, hostname: string) {
    Same(r.name, hostname) && r.kind in {"A", "AAAA", CNAME}
  }

  /** What resolves the hostname, in the zone where it is looked up. */
  predicate Answers(zone: string -> Option<string>, hostname: string, r: Record) {
    ResolvesBy(r, hostname) && zone(hostname) == Some(r.zone)
  }

  lemma FoundCounts(s: Snapshot, c: Cloud, hostname: string)
    requires Reads(s, c, [hostname])
    ensures forall r :: Values(Chosen(s.records, Resolving(hostname)))[r] == if Answers(s.zone, hostname, r) then Data(c)[r] else 0
  {
    hide Reads, Values, Chosen, Finding;
    forall r
      ensures Values(Chosen(s.records, Resolving(hostname)))[r] == if Answers(s.zone, hostname, r) then Data(c)[r] else 0
    {
      ChosenCount(s.records, Resolving(hostname), r, ResolvesBy(r, hostname));
      ReadingCounts(s, c, [hostname], r);
      OneNameOnce(s.zone, hostname, r);
    }
  }

  lemma {:induction false} ValuesSize(found: seq<Observed>)
    ensures |Values(found)| == |found|
    ensures forall o :: o in found ==> o.record in Values(found)
  {
    if found != [] {
      ValuesSize(Init(found));
      assert found == Init(found) + [Last(found)];
    }
  }

  lemma {:induction false} ValuesCons(found: seq<Observed>)
    requires found != []
    ensures Values(found) == multiset{found[0].record} + Values(found[1..])
  {
    if |found| > 1 {
      ValuesCons(Init(found));
      assert Init(found)[1..] == Init(found[1..]);
    } else {
      assert Init(found) == [] && found[1..] == [];
    }
  }

  lemma SingleIs(found: seq<Observed>, r: Record)
    requires Values(found) == multiset{r}
    ensures |found| == 1 && found[0].record == r
  {
    ValuesSize(found);
    assert found[0] in found;
  }

  lemma OneValue(found: seq<Observed>)
    requires |found| == 1
    ensures Values(found) == multiset{found[0].record}
  {
    assert Init(found) == [];
  }

  lemma SameCounts(a: multiset<Record>, b: multiset<Record>)
    requires forall r :: a[r] == b[r]
    ensures a == b
  {
  }

  /** Counting only what answers for the hostname: nothing is left but the new record. */
  lemma OneLeft(before: multiset<Record>, after: multiset<Record>, found: multiset<Record>, now: multiset<Record>,
                r: Record, zone: string -> Option<string>, hostname: string)
    requires after + found == before + multiset{r} && Answers(zone, hostname, r)
    requires forall x :: found[x] == if Answers(zone, hostname, x) then before[x] else 0
    requires forall x :: now[x] == if Answers(zone, hostname, x) then after[x] else 0
    ensures now == multiset{r}
  {
    forall x
      ensures now[x] == multiset{r}[x]
    {
      assert (after + found)[x] == (before + multiset{r})[x];
    }
  }

  // ----- The records at the tunnel, Teitunnel's and others -----

  /** The records of a hostname at the tunnel, whoever made them. */
  function AtTunnel(hostname: string, id: nat): Observed -> bool {
    (o: Observed) => Same(o.record.name, hostname) && o.record.content == Tunnel(id)
  }

  /** Those that Teitunnel did not make. */
  function Foreign(hostname: string, id: nat): Observed -> bool {
    (o: Observed) => AtTunnel(hostname, id)(o) && !o.owned
  }

  lemma {:induction false} OwnAndForeign(records: seq<Observed>, hostname: string, id: nat)
    ensures Values(Chosen(records, AtTunnel(hostname, id)))
            == Values(Chosen(records, OwnPointing(hostname, id))) + Values(Chosen(records, Foreign(hostname, id)))
  {
    if records != [] {
      var before, last := Init(records), Last(records);
      OwnAndForeign(before, hostname, id);
      ChosenValues(records, AtTunnel(hostname, id));
      ChosenValues(records, OwnPointing(hostname, id));
      ChosenValues(records, Foreign(hostname, id));
      var own, other := OwnPointing(hostname, id)(last), Foreign(hostname, id)(last);
      assert AtTunnel(hostname, id)(last) <==> own || other;
      assert !(own && other);
      hide *;
      SplitOne(Values(Chosen(before, OwnPointing(hostname, id))), Values(Chosen(before, Foreign(hostname, id))), last.record, own, other);
    } else {
      assert Values([]) == multiset{};
    }
  }

  lemma SplitOne(a: multiset<Record>, b: multiset<Record>, r: Record, inA: bool, inB: bool)
    requires !(inA && inB)
    ensures (a + b) + (if inA || inB then multiset{r} else multiset{})
            == (a + if inA then multiset{r} else multiset{}) + (b + if inB then multiset{r} else multiset{})
  {
  }

  lemma ChosenValues(records: seq<Observed>, want: Observed -> bool)
    requires records != []
    ensures Values(Chosen(records, want))
            == Values(Chosen(Init(records), want)) + if want(Last(records)) then multiset{Last(records).record} else multiset{}
  {
    var before := Chosen(Init(records), want);
    Push(before, Last(records));
    assert before + [] == before;
  }

  /** What the hostnames' own records at the tunnel come to, hostname by hostname. */
  function OwnedBy(s: Snapshot, names: seq<string>, id: nat): multiset<Record> {
    if names == [] then multiset{}
    else OwnedBy(s, Init(names), id) + Values(Chosen(s.records, OwnPointing(Last(names), id)))
  }

  lemma {:induction false} NoOwned(s: Snapshot, names: seq<string>, id: nat, r: Record)
    requires forall i :: 0 <= i < |names| ==> Values(Chosen(s.records, OwnPointing(names[i], id)))[r] == 0
    ensures OwnedBy(s, names, id)[r] == 0
  {
    if names != [] {
      hide Values, Chosen;
      assert forall i :: 0 <= i < |Init(names)| ==> Init(names)[i] == names[i];
      NoOwned(s, Init(names), id, r);
    }
  }

  lemma {:induction false} OneOwner(s: Snapshot, names: seq<string>, id: nat, r: Record, i: nat)
    requires i < |names|
    requires forall j :: 0 <= j < |names| && j != i ==> Values(Chosen(s.records, OwnPointing(names[j], id)))[r] == 0
    ensures OwnedBy(s, names, id)[r] == Values(Chosen(s.records, OwnPointing(names[i], id)))[r]
  {
    hide Values, Chosen;
    assert forall j :: 0 <= j < |Init(names)| ==> Init(names)[j] == names[j];
    if i < |names| - 1 {
      OneOwner(s, Init(names), id, r, i);
    } else {
      NoOwned(s, Init(names), id, r);
    }
  }

  /** A record counted among the owned ones is one of them. */
  lemma {:induction false} OwnedOne(records: seq<Observed>, want: Observed -> bool, r: Record) returns (k: nat)
    requires Values(Chosen(records, want))[r] > 0
    ensures k < |records| && want(records[k]) && records[k].record == r
  {
    ChosenValues(records, want);
    if want(Last(records)) && Last(records).record == r {
      k := |records| - 1;
    } else {
      k := OwnedOne(Init(records), want, r);
    }
  }

  lemma {:induction false} OwnedCounted(records: seq<Observed>, want: Observed -> bool, k: nat)
    requires k < |records| && want(records[k])
    ensures Values(Chosen(records, want))[records[k].record] > 0
  {
    ChosenValues(records, want);
    if k < |records| - 1 {
      OwnedCounted(Init(records), want, k);
    }
  }

  /** Unless a record is shared, at most one hostname owns what looks like it, and it is listed once. */
  lemma OwnedOnce(s: Snapshot, c: Cloud, names: seq<string>, id: nat, i: nat, r: Record)
    requires Reads(s, c, names) && !SharedRecord(s, names, id) && i < |names|
    requires Values(Chosen(s.records, OwnPointing(names[i], id)))[r] > 0
    ensures OwnedBy(s, names, id)[r] == Values(Chosen(s.records, OwnPointing(names[i], id)))[r]
    ensures Finding(s.zone, names, r) == 1
  {
    hide Reads, Values, Chosen, Finding, Listed, OwnedBy, SharedRecord, Shares;
    var k := OwnedOne(s.records, OwnPointing(names[i], id), r);
    forall j | 0 <= j < |names| && j != i
      ensures Values(Chosen(s.records, OwnPointing(names[j], id)))[r] == 0
    {
      if Values(Chosen(s.records, OwnPointing(names[j], id)))[r] > 0 {
        var l := OwnedOne(s.records, OwnPointing(names[j], id), r);
        SharedBy(s, names, id, i, j, k);
      }
    }
    OneOwner(s, names, id, r, i);
    ReadOften(s, c, names, k);
    ListedOnce(s.records, k);
    if Finding(s.zone, names, r) >= 2 {
      var p, q := FoundTwice(s.zone, names, r);
      SharedBy(s, names, id, p, q, k);
    }
  }

  lemma SharedBy(s: Snapshot, names: seq<string>, id: nat, i: nat, j: nat, k: nat)
    requires i < |names| && j < |names| && i != j && k < |s.records|
    requires s.records[k].owned && s.records[k].record.content == Tunnel(id)
    requires Same(s.records[k].record.name, names[i]) && Same(s.records[k].record.name, names[j])
    ensures SharedRecord(s, names, id)
  {
    assert if i < j then Shares(s, names, id, i, j, k) else Shares(s, names, id, j, i, k);
  }

  /** Once the owned records are gone from the account, what a reading finds at the tunnel is what was
      not Teitunnel's before. */
  lemma OthersLeft(s: Snapshot, c: Cloud, next: Snapshot, after: Cloud, names: seq<string>, id: nat, i: nat)
    requires Reads(s, c, names) && Reads(next, after, names) && next.zone == s.zone
    requires !SharedRecord(s, names, id) && i < |names|
    requires Data(after) + OwnedBy(s, names, id) == Data(c)
    ensures Values(Chosen(next.records, AtTunnel(names[i], id))) == Values(Chosen(s.records, Foreign(names[i], id)))
  {
    hide *;
    forall r
      ensures Values(Chosen(next.records, AtTunnel(names[i], id)))[r] == Values(Chosen(s.records, Foreign(names[i], id)))[r]
    {
      OtherLeft(s, c, next, after, names, id, i, r);
    }
    SameCounts(Values(Chosen(next.records, AtTunnel(names[i], id))), Values(Chosen(s.records, Foreign(names[i], id))));
  }

  lemma OtherLeft(s: Snapshot, c: Cloud, next: Snapshot, after: Cloud, names: seq<string>, id: nat, i: nat, r: Record)
    requires Reads(s, c, names) && Reads(next, after, names) && next.zone == s.zone
    requires !SharedRecord(s, names, id) && i < |names|
    requires Data(after) + OwnedBy(s, names, id) == Data(c)
    ensures Values(Chosen(next.records, AtTunnel(names[i], id)))[r] == Values(Chosen(s.records, Foreign(names[i], id)))[r]
  {
    hide Reads, Values, Chosen, Finding, OwnedBy, SharedRecord, Data;
    var h := names[i];
    var at := Same(r.name, h) && r.content == Tunnel(id);
    var own := Values(Chosen(s.records, OwnPointing(h, id)))[r];
    OwnAndForeign(s.records, h, id);
    ChosenCount(s.records, AtTunnel(h, id), r, at);
    ChosenCount(next.records, AtTunnel(h, id), r, at);
    assert (Data(after) + OwnedBy(s, names, id))[r] == Data(c)[r];
    if at {
      ReadingCounts(s, c, names, r);
      ReadingCounts(next, after, names, r);
      if own > 0 {
        OwnedOnce(s, c, names, id, i, r);
      } else {
        NoneOwns(s, names, id, i, r);
      }
    }
  }

  lemma NoneOwns(s: Snapshot, names: seq<string>, id: nat, i: nat, r: Record)
    requires i < |names| && Same(r.name, names[i])
    requires Values(Chosen(s.records, OwnPointing(names[i], id)))[r] == 0
    ensures OwnedBy(s, names, id)[r] == 0
  {
    hide Values, Chosen, OwnedBy;
    forall j | 0 <= j < |names|
      ensures Values(Chosen(s.records, OwnPointing(names[j], id)))[r] == 0
    {
      if Values(Chosen(s.records, OwnPointing(names[j], id)))[r] > 0 {
        var l := OwnedOne(s.records, OwnPointing(names[j], id), r);
        OwnedCounted(s.records, OwnPointing(names[i], id), l);
      }
    }
    NoOwned(s, names, id, r);
  }
}
