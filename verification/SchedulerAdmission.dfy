/** Which request lists are admissible, independently of their order. */
module SchedulerAdmission {
  import opened NetTypes
  import opened SchedulerModel
  import opened SchedulerChoice
  import opened SchedulerTheorems

  predicate DistinctMembers(members: seq<EntityId>) {
    forall i, j :: 0 <= i < j < |members| ==> members[i] != members[j]
  }

  function MembersOf(r: Request): set<EntityId> {
    set i | 0 <= i < |r.members| :: r.members[i]
  }

  predicate RequestOk(r: Request, barrier: Barrier, limits: Limits) {
    && WellFormed(r, limits) && r.members != [] && GroupApproved(r, barrier)
    && DistinctMembers(r.members) && MembersOf(r) <= barrier.entities
  }

  predicate Compatible(a: Request, b: Request) {
    a.id != b.id && MembersOf(a) !! MembersOf(b)
  }

  /** Each request is authorized, and no two share an id or a member. */
  ghost predicate AllOk(requests: seq<Request>, barrier: Barrier, limits: Limits) {
    && (forall i :: 0 <= i < |requests| ==> RequestOk(requests[i], barrier, limits))
    && (forall i, j :: 0 <= i < j < |requests| ==> Compatible(requests[i], requests[j]))
  }

  lemma {:induction false} ClaimMembersExactly(members: seq<EntityId>, claimed: set<EntityId>, barrier: Barrier)
    ensures ClaimMembers(members, claimed, barrier).Ok? <==>
      DistinctMembers(members) && forall i :: 0 <= i < |members| ==>
        members[i] in barrier.entities && members[i] !in claimed
    ensures ClaimMembers(members, claimed, barrier).Ok? ==>
      ClaimMembers(members, claimed, barrier).value == claimed + set i | 0 <= i < |members| :: members[i]
  {
    if members != [] {
      var head, tail := members[0], members[1..];
      assert members == [head] + tail;
      ClaimMembersExactly(tail, claimed + {head}, barrier);
      assert (set i | 0 <= i < |members| :: members[i]) == {head} + set i | 0 <= i < |tail| :: tail[i];
      assert forall i :: 0 <= i < |tail| ==> tail[i] == members[i + 1];
    }
  }

  lemma ClaimRequestExactly(r: Request, ids: set<UnitId>, claimed: set<EntityId>, barrier: Barrier, limits: Limits)
    ensures ClaimRequest(r, ids, claimed, barrier, limits).Ok? <==>
      RequestOk(r, barrier, limits) && r.id !in ids && MembersOf(r) !! claimed
    ensures ClaimRequest(r, ids, claimed, barrier, limits).Ok? ==>
      ClaimRequest(r, ids, claimed, barrier, limits).value == claimed + MembersOf(r)
  {
    ClaimMembersExactly(r.members, claimed, barrier);
    assert forall i :: 0 <= i < |r.members| ==> r.members[i] in MembersOf(r);
  }

  /** Fresh with respect to what earlier requests took. */
  predicate Unclaimed(requests: seq<Request>, ids: set<UnitId>, claimed: set<EntityId>) {
    forall i :: 0 <= i < |requests| ==> requests[i].id !in ids && MembersOf(requests[i]) !! claimed
  }

  lemma ConsOk(
    head: Request, tail: seq<Request>, ids: set<UnitId>, claimed: set<EntityId>, barrier: Barrier, limits: Limits)
    ensures AllOk([head] + tail, barrier, limits) && Unclaimed([head] + tail, ids, claimed) <==>
      && RequestOk(head, barrier, limits) && head.id !in ids && MembersOf(head) !! claimed
      && AllOk(tail, barrier, limits) && Unclaimed(tail, ids + {head.id}, claimed + MembersOf(head))
  {
    var requests := [head] + tail;
    assert requests[0] == head && forall i :: 0 <= i < |tail| ==> tail[i] == requests[i + 1];
    if AllOk(requests, barrier, limits) && Unclaimed(requests, ids, claimed) {
      forall i | 0 <= i < |tail|
        ensures RequestOk(tail[i], barrier, limits)
        ensures tail[i].id !in ids + {head.id} && MembersOf(tail[i]) !! claimed + MembersOf(head)
      {
        assert Compatible(requests[0], requests[i + 1]);
      }
    }
  }

  /** Sequential validation accepts exactly the lists that are fine as a whole. */
  lemma {:induction false} CheckRequestsExactly(
    requests: seq<Request>, ids: set<UnitId>, claimed: set<EntityId>, barrier: Barrier, limits: Limits)
    ensures CheckRequests(requests, ids, claimed, barrier, limits).Done? <==>
      AllOk(requests, barrier, limits) && Unclaimed(requests, ids, claimed)
  {
    if requests != [] {
      var head, tail := requests[0], requests[1..];
      assert requests == [head] + tail;
      ConsOk(head, tail, ids, claimed, barrier, limits);
      ClaimRequestExactly(head, ids, claimed, barrier, limits);
      CheckRequestsExactly(tail, ids + {head.id}, claimed + MembersOf(head), barrier, limits);
    }
  }

  // ---- permutations --------------------------------------------------------------------------

  lemma CountTwice(b: seq<Request>, i: nat, j: nat)
    requires i < j < |b| && b[i] == b[j]
    ensures multiset(b)[b[i]] >= 2
  {
    assert b == b[..j] + b[j..];
    assert b[i] in multiset(b[..j]) by {
      assert b[..j][i] == b[i];
    }
    assert b[j] in multiset(b[j..]) by {
      assert b[j..][0] == b[j];
    }
  }

  lemma {:induction false} TwoPlaces(a: seq<Request>, x: Request) returns (p: nat, q: nat)
    requires multiset(a)[x] >= 2
    ensures p < q < |a| && a[p] == x && a[q] == x
  {
    var most, last := a[..|a| - 1], a[|a| - 1];
    assert a == most + [last];
    if last == x {
      assert x in multiset(most);
      p :| 0 <= p < |most| && most[p] == x;
      q := |a| - 1;
    } else {
      p, q := TwoPlaces(most, x);
    }
  }

  lemma PermutedPair(a: seq<Request>, b: seq<Request>, i: nat, j: nat) returns (p: nat, q: nat)
    requires multiset(a) == multiset(b) && i < j < |b|
    ensures p < |a| && q < |a| && p != q && a[p] == b[i] && a[q] == b[j]
  {
    if b[i] == b[j] {
      CountTwice(b, i, j);
      p, q := TwoPlaces(a, b[i]);
    } else {
      assert b[i] in multiset(b) && b[j] in multiset(b);
      assert b[i] in multiset(a) && b[j] in multiset(a);
      p :| 0 <= p < |a| && a[p] == b[i];
      q :| 0 <= q < |a| && a[q] == b[j];
    }
  }

  lemma PermutedElements(a: seq<Request>, b: seq<Request>)
    requires multiset(a) == multiset(b)
    ensures |a| == |b|
    ensures forall r :: r in a <==> r in b
  {
    assert |a| == |multiset(a)| && |b| == |multiset(b)|;
    forall r ensures r in a <==> r in b {
      assert r in a <==> r in multiset(a);
      assert r in b <==> r in multiset(b);
    }
  }

  lemma PermutedOk(a: seq<Request>, b: seq<Request>, barrier: Barrier, limits: Limits)
    requires multiset(a) == multiset(b) && AllOk(a, barrier, limits)
    ensures AllOk(b, barrier, limits)
  {
    PermutedElements(a, b);
    forall i | 0 <= i < |b| ensures RequestOk(b[i], barrier, limits) {
      assert b[i] in a;
    }
    forall i, j | 0 <= i < j < |b| ensures Compatible(b[i], b[j]) {
      var p, q := PermutedPair(a, b, i, j);
      assert Compatible(a[if p < q then p else q], a[if p < q then q else p]);
    }
  }

  lemma SameIds(a: seq<Request>, b: seq<Request>)
    requires forall r :: r in a ==> r in b
    ensures IdsOf(a) <= IdsOf(b)
  {
    forall id | id in IdsOf(a) ensures id in IdsOf(b) {
      var i :| 0 <= i < |a| && a[i].id == id;
      assert a[i] in b;
      var k :| 0 <= k < |b| && b[k] == a[i];
      assert b[k].id == id;
    }
  }

  /** Permuting the requests changes neither the plan, the metrics nor the scheduler's new state. */
  lemma ScheduleIgnoresOrder(
    s: Scheduler, barrier: Barrier, a: seq<Request>, b: seq<Request>, now: nat, transport: Transport)
    requires multiset(a) == multiset(b) && !Schedule(s, barrier, a, now, transport).1.Refused?
    ensures Schedule(s, barrier, b, now, transport) == Schedule(s, barrier, a, now, transport)
  {
    CheckRequestsExactly(a, {}, {}, barrier, s.limits);
    CheckRequestsExactly(b, {}, {}, barrier, s.limits);
    PermutedOk(a, b, barrier, s.limits);
    PermutedElements(a, b);
    SameIds(a, b);
    SameIds(b, a);
    assert IdsOf(a) == IdsOf(b);
    assert AtBarrier(s, barrier, a, now) == AtBarrier(s, barrier, b, now);
    var after := AtBarrier(s, barrier, a, now);
    var round := RoundOf(after, transport);
    KnownIgnoresOrder(round, a, b);
    if AllKnown(round, a) {
      DistinctWhenOk(a, barrier, s.limits);
      DistinctWhenOk(b, barrier, s.limits);
      ChoiceIgnoresOrder(round, a, b, BudgetOf(after, transport));
    }
  }

  lemma KnownIgnoresOrder(round: Round, a: seq<Request>, b: seq<Request>)
    requires forall r :: r in a <==> r in b
    ensures AllKnown(round, a) <==> AllKnown(round, b)
  {
    if AllKnown(round, a) {
      forall i | 0 <= i < |b| ensures Known(round, b[i]) {
        assert b[i] in a;
      }
    }
    if AllKnown(round, b) {
      forall i | 0 <= i < |a| ensures Known(round, a[i]) {
        assert a[i] in b;
      }
    }
  }

  lemma DistinctWhenOk(requests: seq<Request>, barrier: Barrier, limits: Limits)
    requires AllOk(requests, barrier, limits)
    ensures DistinctRequests(requests)
  {
    forall i, j | 0 <= i < j < |requests| ensures requests[i].id != requests[j].id {
      assert Compatible(requests[i], requests[j]);
    }
  }

  /** Whether a list is valid does not depend on its order. */
  lemma ValidityIgnoresOrder(a: seq<Request>, b: seq<Request>, barrier: Barrier, limits: Limits)
    requires multiset(a) == multiset(b)
    ensures CheckRequests(a, {}, {}, barrier, limits).Done? <==> CheckRequests(b, {}, {}, barrier, limits).Done?
  {
    CheckRequestsExactly(a, {}, {}, barrier, limits);
    CheckRequestsExactly(b, {}, {}, barrier, limits);
    if AllOk(a, barrier, limits) {
      PermutedOk(a, b, barrier, limits);
    }
    if AllOk(b, barrier, limits) {
      PermutedOk(b, a, barrier, limits);
    }
  }

  /** What an invalid list is blamed for does: the first offending request decides. */
  lemma ErrorDependsOnOrder(empty: Request, alien: Request, barrier: Barrier, limits: Limits)
    requires empty.wireBytes == 0 && empty.id != alien.id
    requires WellFormed(alien, limits) && alien.id.Entity? && alien.members != []
      && alien.members[0] !in barrier.entities
    ensures multiset([empty, alien]) == multiset([alien, empty])
    ensures CheckRequests([empty, alien], {}, {}, barrier, limits) == Failed(InvalidRequest)
    ensures CheckRequests([alien, empty], {}, {}, barrier, limits) == Failed(Unauthorized)
  {
    assert ClaimRequest(alien, {}, {}, barrier, limits) == Err(Unauthorized);
  }
}
