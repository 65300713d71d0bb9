/** The Cloudflare account a plan is applied to: DNS records and tunnels. Every call to it may be
    refused, and a refused call changes nothing. */
module CloudAccount {
  import opened Ingress
  import opened Wrappers

  datatype Content = Tunnel(id: nat) | Other(text: string)

  datatype Record = Record(zone: string, name: string, kind: string, content: Content, proxied: bool, ttl: nat,
                           comment: Option<string>)

  datatype TunnelState = TunnelState(name: string, ingress: seq<Rule>, version: nat)

  const MAX_DNS_BATCH: nat := 200

  /** Ids are given out in order and never again. */
  datatype Cloud = Cloud(records: map<nat, Record>, tunnels: map<nat, TunnelState>, next: nat)

  ghost predicate Valid(c: Cloud) {
    && (forall id :: id in c.records ==> id < c.next)
    && (forall id :: id in c.tunnels ==> id < c.next)
  }

  // ----- The data of all records, whatever their ids -----

  function DataBelow(records: map<nat, Record>, n: nat): multiset<Record> {
    if n == 0 then multiset{}
    else DataBelow(records, n - 1) + if n - 1 in records then multiset{records[n - 1]} else multiset{}
  }

  function Data(c: Cloud): multiset<Record> {
    DataBelow(c.records, c.next)
  }

  lemma {:induction false} DataPut(records: map<nat, Record>, id: nat, r: Record, n: nat)
    requires id !in records
    ensures DataBelow(records[id := r], n) == DataBelow(records, n) + if id < n then multiset{r} else multiset{}
  {
    if n > 0 {
      DataPut(records, id, r, n - 1);
    }
  }

  lemma DataTake(records: map<nat, Record>, id: nat, n: nat)
    requires id in records && id < n
    ensures DataBelow(records, n) == DataBelow(records - {id}, n) + multiset{records[id]}
  {
    DataPut(records - {id}, id, records[id], n);
    assert (records - {id})[id := records[id]] == records;
  }

  // ----- The calls -----

  function Created(c: Cloud, r: Record): Cloud {
    c.(records := c.records[c.next := r], next := c.next + 1)
  }

  /** All records of one batch, in order. */
  function CreatedAll(c: Cloud, rs: seq<Record>): Cloud {
    if rs == [] then c else Created(CreatedAll(c, rs[..|rs| - 1]), rs[|rs| - 1])
  }

  function Updated(c: Cloud, id: nat, r: Record): Cloud {
    c.(records := c.records[id := r])
  }

  /** A changed record, when the change leaves an absent comment out: the old one stays. */
  function Patched(was: Record, r: Record): Record {
    if r.comment.None? then r.(comment := was.comment) else r
  }

  function Deleted(c: Cloud, id: nat): Cloud {
    c.(records := c.records - {id})
  }

  lemma CreatedData(c: Cloud, r: Record)
    requires Valid(c)
    ensures Valid(Created(c, r)) && Data(Created(c, r)) == Data(c) + multiset{r}
  {
    DataPut(c.records, c.next, r, c.next);
  }

  lemma DeletedData(c: Cloud, id: nat)
    requires Valid(c) && id in c.records
    ensures Valid(Deleted(c, id)) && Data(c) == Data(Deleted(c, id)) + multiset{c.records[id]}
  {
    DataTake(c.records, id, c.next);
  }

  lemma Swap<T>(d: multiset<T>, a: T, b: T)
    ensures d + multiset{a} + multiset{b} == d + multiset{b} + multiset{a}
  {
  }

  lemma PutOver(records: map<nat, Record>, id: nat, r: Record)
    ensures records[id := r] == (records - {id})[id := r]
  {
  }

  lemma DataOver(records: map<nat, Record>, id: nat, r: Record, n: nat)
    requires id in records && id < n
    ensures DataBelow(records[id := r], n) == DataBelow(records - {id}, n) + multiset{r}
  {
    PutOver(records, id, r);
    DataPut(records - {id}, id, r, n);
  }

  lemma UpdatedData(c: Cloud, id: nat, r: Record)
    requires Valid(c) && id in c.records
    ensures Valid(Updated(c, id, r)) && Data(Updated(c, id, r)) + multiset{c.records[id]} == Data(c) + multiset{r}
  {
    DataTake(c.records, id, c.next);
    DataOver(c.records, id, r, c.next);
    Swap(DataBelow(c.records - {id}, c.next), c.records[id], r);
  }

  /** No call in [from, to) is refused. */
  ghost predicate Clear(refuses: nat -> bool, from: nat, to: nat) {
    forall i :: from <= i < to ==> !refuses(i)
  }

  class Api {
    /** Which calls are refused, by their number. */
    const refuses: nat -> bool
    var cloud: Cloud
    var calls: nat

    constructor (cloud: Cloud, refuses: nat -> bool)
      ensures this.cloud == cloud && this.refuses == refuses && calls == 0
    {
      this.cloud, this.refuses, calls := cloud, refuses, 0;
    }

    method Refused() returns (refused: bool)
      modifies this`calls
      ensures calls == old(calls) + 1 && refused == refuses(old(calls))
    {
      refused := refuses(calls);
      calls := calls + 1;
    }

    /** One call takes records of one zone, and not more than fit; it creates all of them or none. */
    method CreateRecords(zone: string, rs: seq<Record>) returns (first: Option<nat>)
      requires 0 < |rs| <= MAX_DNS_BATCH && forall i :: 0 <= i < |rs| ==> rs[i].zone == zone
      modifies this
      ensures calls == old(calls) + 1 && (first.Some? <==> !refuses(old(calls)))
      ensures first.None? ==> cloud == old(cloud)
      ensures first.Some? ==> first.value == old(cloud).next && cloud == CreatedAll(old(cloud), rs)
    {
      var refused := Refused();
      if refused {
        return None;
      }
      first := Some(cloud.next);
      cloud := CreatedAll(cloud, rs);
    }

    method CreateRecord(r: Record) returns (id: Option<nat>)
      modifies this
      ensures calls == old(calls) + 1 && (id.Some? <==> !refuses(old(calls)))
      ensures id.None? ==> cloud == old(cloud)
      ensures id.Some? ==> id.value == old(cloud).next && cloud == Created(old(cloud), r)
    {
      var refused := Refused();
      if refused {
        return None;
      }
      id := Some(cloud.next);
      cloud := Created(cloud, r);
    }

    /** In place, so the kind of record stays, and so does a comment that is not given. */
    method UpdateRecord(id: nat, r: Record) returns (ok: bool)
      modifies this
      ensures calls == old(calls) + 1
      ensures ok <==> !refuses(old(calls)) && id in old(cloud).records && old(cloud).records[id].kind == r.kind
      ensures cloud == if ok then Updated(old(cloud), id, Patched(old(cloud).records[id], r)) else old(cloud)
    {
      var refused := Refused();
      if refused || id !in cloud.records || cloud.records[id].kind != r.kind {
        return false;
      }
      var was := cloud.records[id];
      cloud := Updated(cloud, id, if r.comment.None? then r.(comment := was.comment) else r);
      return true;
    }

    /** A deletion and a creation in one call. */
    method ReplaceRecord(id: nat, r: Record) returns (now: Option<nat>)
      modifies this
      ensures calls == old(calls) + 1 && (now.Some? <==> !refuses(old(calls)) && id in old(cloud).records)
      ensures now.None? ==> cloud == old(cloud)
      ensures now.Some? ==> now.value == old(cloud).next && cloud == Created(Deleted(old(cloud), id), r)
    {
      var refused := Refused();
      if refused || id !in cloud.records {
        return None;
      }
      now := Some(cloud.next);
      cloud := Created(Deleted(cloud, id), r);
    }

    /** A record that is already gone counts as deleted. */
    method DeleteRecord(id: nat) returns (ok: bool)
      modifies this
      ensures calls == old(calls) + 1 && ok == !refuses(old(calls))
      ensures cloud == if ok then Deleted(old(cloud), id) else old(cloud)
    {
      var refused := Refused();
      if refused {
        return false;
      }
      cloud := Deleted(cloud, id);
      return true;
    }

    method CreateTunnel(name: string) returns (id: Option<nat>)
      modifies this
      ensures calls == old(calls) + 1 && (id.Some? <==> !refuses(old(calls)))
      ensures id.None? ==> cloud == old(cloud)
      ensures id.Some? ==>
                && id.value == old(cloud).next
                && cloud == old(cloud).(tunnels := old(cloud).tunnels[id.value := TunnelState(name, [], 0)], next := id.value + 1)
    {
      var refused := Refused();
      if refused {
        return None;
      }
      id := Some(cloud.next);
      cloud := cloud.(tunnels := cloud.tunnels[cloud.next := TunnelState(name, [], 0)], next := cloud.next + 1);
    }

    /** As for records: one that is already gone counts as deleted. */
    method DeleteTunnel(id: nat) returns (ok: bool)
      modifies this
      ensures calls == old(calls) + 1 && ok == !refuses(old(calls))
      ensures cloud == if ok then old(cloud).(tunnels := old(cloud).tunnels - {id}) else old(cloud)
    {
      var refused := Refused();
      if refused {
        return false;
      }
      cloud := cloud.(tunnels := cloud.tunnels - {id});
      return true;
    }

    /** Reads the configuration, checks that nobody changed it since, and writes it. */
    method PutIngress(id: nat, ingress: seq<Rule>, expected: Option<nat>) returns (ok: bool)
      modifies this
      ensures old(calls) < calls <= old(calls) + 2 && (ok ==> calls == old(calls) + 2)
      ensures ok <==> Unchanged(old(cloud), id, expected) && Clear(refuses, old(calls), calls)
      ensures if ok then cloud == Configured(old(cloud), id, ingress) else cloud == old(cloud)
    {
      var unread := Refused();
      if unread || id !in cloud.tunnels || (expected.Some? && cloud.tunnels[id].version != expected.value) {
        return false;
      }
      var refused := Refused();
      if refused {
        return false;
      }
      cloud := Configured(cloud, id, ingress);
      return true;
    }
  }

  /** The tunnel is there, in the expected version if one is given. */
  predicate Unchanged(c: Cloud, id: nat, expected: Option<nat>) {
    id in c.tunnels && (expected.Some? ==> c.tunnels[id].version == expected.value)
  }

  function Configured(c: Cloud, id: nat, ingress: seq<Rule>): Cloud
    requires id in c.tunnels
  {
    var t := c.tunnels[id];
    c.(tunnels := c.tunnels[id := t.(ingress := ingress, version := t.version + 1)])
  }
}
