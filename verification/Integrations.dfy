/** The delivery table of one tenant: queueing an event for its endpoints, delivering, and giving up. */
module Integrations {
  import opened Options

  datatype Endpoint = Endpoint(id: nat, enabled: bool, events: set<string>)

  datatype Status = Pending | Delivered | Failed | DeadLetter

  datatype Outcome = NotFound | Idempotent | NoEndpoint | Sent | Rejected

  datatype Delivery = Delivery(endpoint: nat, key: Option<string>, kind: string, status: Status, attempts: nat)

  /** The unique constraint on endpoint and idempotency key; rows without a key are free. */
  ghost predicate UniqueKeys(rows: seq<Delivery>) {
    forall i, j :: 0 <= i < j < |rows| && rows[i].key.Some? && rows[i].endpoint == rows[j].endpoint ==> rows[i].key != rows[j].key
  }

  /** The row of an endpoint for a key, if there is one; without a key there is none to find. */
  function Find(rows: seq<Delivery>, endpoint: nat, key: Option<string>): (k: Option<nat>)
    ensures k.Some? ==> k.value < |rows| && key.Some? && rows[k.value].endpoint == endpoint && rows[k.value].key == key
    ensures k.None? && key.Some? ==> forall i :: 0 <= i < |rows| ==> rows[i].endpoint != endpoint || rows[i].key != key
  {
    if key.None? || rows == [] then None
    else if rows[|rows| - 1].endpoint == endpoint && rows[|rows| - 1].key == key then Some(|rows| - 1)
    else Find(rows[..|rows| - 1], endpoint, key)
  }

  /** Chosen by hand when identifiers are given, by subscription otherwise; never while disabled. */
  predicate Targeted(e: Endpoint, kind: string, only: Option<set<nat>>) {
    e.enabled && (if only.Some? then e.id in only.value else "*" in e.events || kind in e.events)
  }

  /** A disabled endpoint is never chosen; an enabled one is when its id is given, or without ids when it takes all events or this kind. */
  lemma TargetedExactlyWhen(e: Endpoint, kind: string, only: Option<set<nat>>)
    ensures !e.enabled ==> !Targeted(e, kind, only)
    ensures e.enabled && only.Some? ==> (Targeted(e, kind, only) <==> e.id in only.value)
    ensures e.enabled && only.None? ==> (Targeted(e, kind, only) <==> e.events * {"*", kind} != {})
  {
    assert "*" in e.events * {"*", kind} <==> "*" in e.events;
    assert kind in e.events * {"*", kind} <==> kind in e.events;
  }

  /** The k-th delivery belongs to this endpoint and key, and it is delivered or has a job among `jobs`. */
  ghost predicate Covers(rows: seq<Delivery>, jobs: seq<nat>, k: nat, e: Endpoint, key: Option<string>) {
    && k < |rows| && rows[k].endpoint == e.id && rows[k].key == key
    && (rows[k].status.Delivered? || k in jobs)
  }

  ghost predicate Covered(rows: seq<Delivery>, jobs: seq<nat>, deliveries: seq<nat>, e: Endpoint, key: Option<string>) {
    exists k :: k in deliveries && Covers(rows, jobs, k, e, key)
  }

  /** A new row for one of the targeted endpoints. */
  ghost predicate Made(d: Delivery, endpoints: seq<Endpoint>, kind: string, key: Option<string>, only: Option<set<nat>>) {
    && d.key == key && d.kind == kind && d.status.Pending? && d.attempts == 0
    && exists i :: 0 <= i < |endpoints| && Targeted(endpoints[i], kind, only) && endpoints[i].id == d.endpoint
  }

  lemma CoveredStays(rows: seq<Delivery>, jobs: seq<nat>, deliveries: seq<nat>, e: Endpoint, key: Option<string>,
                     moreRows: seq<Delivery>, moreJobs: seq<nat>, moreDeliveries: seq<nat>)
    requires Covered(rows, jobs, deliveries, e, key)
    requires rows <= moreRows && jobs <= moreJobs && deliveries <= moreDeliveries
    ensures Covered(moreRows, moreJobs, moreDeliveries, e, key)
  {
    var k :| k in deliveries && Covers(rows, jobs, k, e, key);
    assert moreRows[k] == rows[k];
    assert k in moreDeliveries;
    assert Covers(moreRows, moreJobs, k, e, key);
  }

  class DeliveryTable {
    var rows: seq<Delivery>
    var jobs: seq<nat>

    ghost predicate Valid()
      reads this
    {
      UniqueKeys(rows) && forall i :: 0 <= i < |jobs| ==> jobs[i] < |rows|
    }

    constructor ()
      ensures Valid() && rows == [] && jobs == []
    {
      rows, jobs := [], [];
    }

    /** One endpoint's turn: its row is found or made, and gets a job unless it is delivered. */
    method QueueOne(e: Endpoint, kind: string, key: Option<string>) returns (k: nat)
      requires Valid()
      modifies this
      ensures Valid() && old(rows) <= rows && old(jobs) <= jobs && |rows| <= |old(rows)| + 1
      ensures Covers(rows, jobs[|old(jobs)|..], k, e, key)
      ensures key.Some? && Find(old(rows), e.id, key).Some? ==> rows == old(rows)
      ensures |rows| > |old(rows)| ==> rows[|old(rows)|] == Delivery(e.id, key, kind, Pending, 0)
    {
      var found := Find(rows, e.id, key);
      if found.Some? {
        k := found.value;
      } else {
        k := |rows|;
        rows := rows + [Delivery(e.id, key, kind, Pending, 0)];
      }
      if rows[k].status.Delivered? { return; }
      ghost var before := jobs;
      jobs := jobs + [k];
      assert jobs[|before|..] == [k];
    }

    /**
     queue_integration_event: afterwards every targeted endpoint is covered for the key, by a row that existed or by a
     new one, and every new row belongs to a targeted endpoint.
     */
    method QueueEvent(endpoints: seq<Endpoint>, kind: string, key: Option<string>, only: Option<set<nat>>) returns (deliveries: seq<nat>)
      requires Valid()
      modifies this
      ensures Valid() && old(rows) <= rows && old(jobs) <= jobs
      ensures forall i :: 0 <= i < |endpoints| && Targeted(endpoints[i], kind, only) ==>
                Covered(rows, jobs[|old(jobs)|..], deliveries, endpoints[i], key)
      ensures forall r :: |old(rows)| <= r < |rows| ==> Made(rows[r], endpoints, kind, key, only)
    {
      deliveries := [];
      for n := 0 to |endpoints|
        invariant Valid() && old(rows) <= rows && old(jobs) <= jobs
        invariant forall i :: 0 <= i < n && Targeted(endpoints[i], kind, only) ==>
                    Covered(rows, jobs[|old(jobs)|..], deliveries, endpoints[i], key)
        invariant forall r :: |old(rows)| <= r < |rows| ==> Made(rows[r], endpoints, kind, key, only)
      {
        var e := endpoints[n];
        if !Targeted(e, kind, only) { continue; }
        ghost var rows0, jobs0, deliveries0 := rows, jobs, deliveries;
        var k := QueueOne(e, kind, key);
        deliveries := deliveries + [k];
        assert jobs0[|old(jobs)|..] <= jobs[|old(jobs)|..];
        assert forall x :: x in jobs[|jobs0|..] ==> x in jobs[|old(jobs)|..];
        assert Covers(rows, jobs[|old(jobs)|..], k, e, key);
        assert k in deliveries;
        if |rows| > |rows0| {
          assert Targeted(endpoints[n], kind, only) && endpoints[n].id == rows[|rows0|].endpoint;
          assert Made(rows[|rows0|], endpoints, kind, key, only);
        }
        assert forall r :: 0 <= r < |rows0| ==> rows[r] == rows0[r];
        forall i | 0 <= i < n && Targeted(endpoints[i], kind, only) ensures Covered(rows, jobs[|old(jobs)|..], deliveries, endpoints[i], key) {
          CoveredStays(rows0, jobs0[|old(jobs)|..], deliveries0, endpoints[i], key, rows, jobs[|old(jobs)|..], deliveries);
        }
      }
    }

    /**
     deliver_integration: a delivered row is answered for without being sent again, a row that is not found or whose endpoint
     is missing or disabled is an error, and otherwise the attempt counts, whatever the answer.
     */
    method Deliver(k: nat, endpointEnabled: bool, accepted: bool) returns (outcome: Outcome)
      requires Valid()
      modifies this`rows
      ensures Valid() && |rows| == |old(rows)|
      ensures outcome.NotFound? <==> k >= |rows|
      ensures outcome.Idempotent? <==> k < |rows| && old(rows)[k].status.Delivered?
      ensures outcome.NoEndpoint? <==> k < |rows| && !old(rows)[k].status.Delivered? && !endpointEnabled
      ensures outcome.Sent? ==> accepted && rows == old(rows)[k := old(rows)[k].(attempts := old(rows)[k].attempts + 1, status := Delivered)]
      ensures outcome.Rejected? ==> !accepted && rows == old(rows)[k := old(rows)[k].(attempts := old(rows)[k].attempts + 1, status := Failed)]
      ensures !outcome.Sent? && !outcome.Rejected? ==> rows == old(rows)
    {
      if k >= |rows| { return NotFound; }
      if rows[k].status.Delivered? { return Idempotent; }
      if !endpointEnabled { return NoEndpoint; }
      rows := rows[k := rows[k].(attempts := rows[k].attempts + 1)];
      rows := rows[k := rows[k].(status := if accepted then Delivered else Failed)];
      outcome := if accepted then Sent else Rejected;
    }
  }
}
