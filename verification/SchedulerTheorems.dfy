/** What a plan is worth, for all requests and in any order. */
module SchedulerTheorems {
  import opened SchedulerModel
  import opened SchedulerOrder
  import opened SchedulerChoice

  lemma RankedDistinct(ranked: seq<Due>, due: seq<Due>)
    requires InOrder(ranked) && DistinctUnits(due) && forall x :: x in ranked <==> x in due
    ensures DistinctUnits(ranked)
  {
    forall i, j | 0 <= i < j < |ranked| ensures ranked[i].request.id != ranked[j].request.id {
      assert ranked[i] in due && ranked[j] in due;
      assert Precedes(ranked[i], ranked[j]);
      var a :| 0 <= a < |due| && due[a] == ranked[i];
      var b :| 0 <= b < |due| && due[b] == ranked[j];
    }
  }

  /** The ranked list of a round: the due units, each once, in order. */
  lemma RankedRound(round: Round, requests: seq<Request>)
    requires AllKnown(round, requests) && DistinctRequests(requests)
    ensures var ranked := Ranked(DueUnits(round, requests));
      && InOrder(ranked) && DistinctUnits(ranked) && |ranked| == |DueUnits(round, requests)|
      && forall d :: d in ranked <==> ComesDue(round, requests, d)
  {
    var due := DueUnits(round, requests);
    DueUnitsDistinct(round, requests);
    RankedSpec(due);
    RankedDistinct(Ranked(due), due);
    forall d ensures d in Ranked(due) <==> ComesDue(round, requests, d) {
      DueUnitsExactly(round, requests, d);
    }
  }

  lemma SelectSpec(ranked: seq<Due>, budget: nat, limits: Limits)
    requires DistinctUnits(ranked)
    ensures var p := Select(ranked, budget, limits);
      && Backed(p, ranked) && p.used <= budget
      && (forall i :: 0 <= i < |ranked| ==> OpenServed(p, ranked[i], budget))
      && CountDeferred(ranked, p.chosen) + |p.selected| == |ranked|
  {
    var reserve := ReserveOf(budget, limits);
    CriticalPassSpec(ranked, budget, reserve);
    OpenPassSpec(CriticalPass(ranked, budget, reserve), ranked, budget, ranked);
    var p := Select(ranked, budget, limits);
    ChosenSize(p.selected, p.chosen);
    DeferredComplement(ranked, p.chosen);
    ChosenAreRanked(p, ranked);
  }

  lemma ChosenAreRanked(p: Selection, ranked: seq<Due>)
    requires Backed(p, ranked)
    ensures p.chosen * UnitsOf(ranked) == p.chosen
  {
    forall id | id in p.chosen ensures id in UnitsOf(ranked) {
      var i :| 0 <= i < |p.selected| && p.selected[i].id == id;
      assert Offers(ranked, p.selected[i]);
      var d :| d in ranked && d.request == p.selected[i] && !d.infeasible;
      var k :| 0 <= k < |ranked| && ranked[k] == d;
      assert ranked[k].request.id == id;
    }
  }

  /** A deferred feasible unit is larger than what the plan left of its budget. */
  ghost predicate NoRoomLeft(p: Selection, round: Round, requests: seq<Request>, budget: nat) {
    forall d :: ComesDue(round, requests, d) && !d.infeasible && d.request.id !in p.chosen ==>
      d.request.wireBytes > budget - p.used
  }

  /** The plan fits its budget, accounts for every due unit once, and defers nothing that would still fit. */
  lemma GreedyPlan(round: Round, requests: seq<Request>, budget: nat)
    requires AllKnown(round, requests) && DistinctRequests(requests)
    ensures var (p, m) := Choose(round, requests, budget);
      && m.selectedWireBytes == TotalBytes(p.selected) <= budget
      && m.dueUnits == m.selectedUnits + m.deferredUnits
      && NoRoomLeft(p, round, requests, budget)
      && (forall i :: 0 <= i < |p.selected| ==>
            exists d :: ComesDue(round, requests, d) && d.request == p.selected[i] && !d.infeasible)
      && (forall i, j :: 0 <= i < j < |p.selected| ==> p.selected[i].id != p.selected[j].id)
  {
    var ranked := Ranked(DueUnits(round, requests));
    RankedRound(round, requests);
    SelectSpec(ranked, budget, round.limits);
    var p := Select(ranked, budget, round.limits);
    forall d | ComesDue(round, requests, d) && !d.infeasible && d.request.id !in p.chosen
      ensures d.request.wireBytes > budget - p.used
    {
      assert d in ranked;
      var i :| 0 <= i < |ranked| && ranked[i] == d;
      assert OpenServed(p, ranked[i], budget);
    }
    forall i | 0 <= i < |p.selected|
      ensures exists d :: ComesDue(round, requests, d) && d.request == p.selected[i] && !d.infeasible
    {
      assert Offers(ranked, p.selected[i]);
    }
  }

  /** Critical units go first: each one taken in the first pass starts below the reserve. */
  lemma CriticalUnitsFirst(round: Round, requests: seq<Request>, budget: nat)
    requires AllKnown(round, requests) && DistinctRequests(requests)
    ensures var ranked := Ranked(DueUnits(round, requests));
      var reserve := ReserveOf(budget, round.limits);
      var first := CriticalPass(ranked, budget, reserve);
      && first.selected <= Choose(round, requests, budget).0.selected
      && (forall i :: 0 <= i < |first.selected| ==>
            first.selected[i].cadence.critical && TotalBytes(first.selected[..i]) < reserve)
      && (forall i :: 0 <= i < |ranked| ==> CriticalServed(first, ranked[i], budget, reserve))
  {
    var ranked := Ranked(DueUnits(round, requests));
    RankedRound(round, requests);
    CriticalPassSpec(ranked, budget, ReserveOf(budget, round.limits));
    OpenPassSpec(CriticalPass(ranked, budget, ReserveOf(budget, round.limits)), ranked, budget, ranked);
  }

  // ---- the order of the requests does not matter -------------------------------------------

  lemma SameRanking(round: Round, a: seq<Request>, b: seq<Request>)
    requires AllKnown(round, a) && AllKnown(round, b) && DistinctRequests(a) && DistinctRequests(b)
    requires forall r :: r in a <==> r in b
    ensures Ranked(DueUnits(round, a)) == Ranked(DueUnits(round, b))
  {
    RankedRound(round, a);
    RankedRound(round, b);
    forall d ensures ComesDue(round, a, d) <==> ComesDue(round, b, d) {
      SameDue(round, a, b, d);
      SameDue(round, b, a, d);
    }
    OrderIsUnique(Ranked(DueUnits(round, a)), Ranked(DueUnits(round, b)));
  }

  lemma SameDue(round: Round, a: seq<Request>, b: seq<Request>, d: Due)
    requires AllKnown(round, b) && forall r :: r in a ==> r in b
    ensures ComesDue(round, a, d) ==> ComesDue(round, b, d)
  {
    if ComesDue(round, a, d) {
      var i :| 0 <= i < |a| && Known(round, a[i]) && IsDue(round, a[i]) && d == DueOf(round, a[i]);
      assert a[i] in b;
      var k :| 0 <= k < |b| && b[k] == a[i];
      assert Known(round, b[k]) && IsDue(round, b[k]) && d == DueOf(round, b[k]);
    }
  }

  lemma OldestAtMost(round: Round, a: seq<Request>, b: seq<Request>)
    requires AllKnown(round, a) && AllKnown(round, b) && forall r :: r in a ==> r in b
    ensures OldestAge(round, a) <= OldestAge(round, b)
  {
    OldestAgeSpec(round, a);
    OldestAgeSpec(round, b);
    if a != [] {
      var i :| 0 <= i < |a| && AgeOf(round, a[i]) == OldestAge(round, a);
      assert a[i] in b;
      var k :| 0 <= k < |b| && b[k] == a[i];
      assert AgeOf(round, b[k]) <= OldestAge(round, b);
    }
  }

  /** The plan and every metric depend only on which units were requested. */
  lemma ChoiceIgnoresOrder(round: Round, a: seq<Request>, b: seq<Request>, budget: nat)
    requires AllKnown(round, a) && AllKnown(round, b) && DistinctRequests(a) && DistinctRequests(b)
    requires forall r :: r in a <==> r in b
    ensures Choose(round, a, budget) == Choose(round, b, budget)
  {
    SameRanking(round, a, b);
    RankedRound(round, a);
    RankedRound(round, b);
    RankedCounts(DueUnits(round, a));
    RankedCounts(DueUnits(round, b));
    OldestAtMost(round, a, b);
    OldestAtMost(round, b, a);
  }

  /**
   Age beats priority: in the ranked list no unit that still has time comes before an overdue one, and among
   overdue units the one further past its deadline comes first.
   */
  lemma OverdueFirst(round: Round, requests: seq<Request>, i: nat, j: nat)
    requires AllKnown(round, requests) && DistinctRequests(requests)
    requires i < j < |Ranked(DueUnits(round, requests))| && Overdue(Ranked(DueUnits(round, requests))[j])
    ensures var ranked := Ranked(DueUnits(round, requests));
      Overdue(ranked[i]) && Excess(ranked[j]) <= Excess(ranked[i])
  {
    RankedRound(round, requests);
    var ranked := Ranked(DueUnits(round, requests));
    assert Precedes(ranked[i], ranked[j]);
  }
}
