/**
 "Bounded age beats any fixed priority eventually": over rounds in which the leading unit fits, overdue units are sent
 in the order of their deadlines; a unit that does not fit may wait for ever.
 */
module SchedulerDeadlines {
  import opened SchedulerModel
  import opened SchedulerOrder
  import opened SchedulerChoice
  import opened SchedulerTheorems
  import opened SchedulerAdmission
  import opened SchedulerDelivery

  // ---- the leading unit of a round -------------------------------------------------------------------

  /** The place of the first feasible unit. */
  function Leading(ranked: seq<Due>): (k: nat)
    ensures k <= |ranked|
    ensures forall i :: 0 <= i < k ==> ranked[i].infeasible
    ensures k < |ranked| ==> !ranked[k].infeasible
  {
    if ranked == [] || !ranked[0].infeasible then 0 else 1 + Leading(ranked[1..])
  }

  lemma {:induction false} InfeasiblePassedOver(start: Selection, ranked: seq<Due>, budget: nat)
    requires forall i :: 0 <= i < |ranked| ==> ranked[i].infeasible
    ensures OpenPass(start, ranked, budget) == start
  {
    if ranked != [] {
      var most := ranked[..|ranked| - 1];
      assert forall i :: 0 <= i < |most| ==> most[i] == ranked[i];
      InfeasiblePassedOver(start, most, budget);
    }
  }

  /** A unit is settled once the pass has gone by it. */
  lemma {:induction false} SettledOnce(start: Selection, ranked: seq<Due>, budget: nat, k: nat, n: nat)
    requires DistinctUnits(ranked) && k < n <= |ranked|
    ensures var id := ranked[k].request.id;
      id in OpenPass(start, ranked[..n], budget).chosen <==> id in OpenPass(start, ranked[..k + 1], budget).chosen
  {
    if k + 1 < n {
      SettledOnce(start, ranked, budget, k, n - 1);
      assert ranked[..n][..n - 1] == ranked[..n - 1] && ranked[..n][n - 1] == ranked[n - 1];
      assert ranked[k].request.id != ranked[n - 1].request.id;
    }
  }

  /** The leading unit is sent exactly when the critical pass takes it or leaves room for it. */
  lemma LeaderSentExactly(ranked: seq<Due>, budget: nat, limits: Limits)
    requires DistinctUnits(ranked) && Leading(ranked) < |ranked|
    ensures var r := ranked[Leading(ranked)].request;
      var first := CriticalPass(ranked, budget, ReserveOf(budget, limits));
      r.id in Select(ranked, budget, limits).chosen <==> r.id in first.chosen || first.used + r.wireBytes <= budget
  {
    var k := Leading(ranked);
    var first := CriticalPass(ranked, budget, ReserveOf(budget, limits));
    InfeasiblePassedOver(first, ranked[..k], budget);
    assert ranked[..k + 1][..k] == ranked[..k] && ranked[..k + 1][k] == ranked[k];
    SettledOnce(first, ranked, budget, k, |ranked|);
    assert ranked[..|ranked|] == ranked;
  }

  /** What the critical pass leaves has room for the leading unit, or it takes that unit itself. */
  predicate LeaderFits(ranked: seq<Due>, budget: nat, limits: Limits) {
    var k := Leading(ranked);
    k < |ranked| ==>
      var first := CriticalPass(ranked, budget, ReserveOf(budget, limits));
      ranked[k].request.id in first.chosen || first.used + ranked[k].request.wireBytes <= budget
  }

  // ---- deadlines ------------------------------------------------------------------------------------------

  function DeadlineOf(history: map<UnitId, History>, r: Request): nat
    requires r.id in history
  {
    Reference(history[r.id]) + r.cadence.maximumAgeTicks
  }

  predicate AllListed(history: map<UnitId, History>, requests: seq<Request>) {
    forall i :: 0 <= i < |requests| ==> requests[i].id in history
  }

  /** The feasible units whose deadline is no later. */
  function Rivals(round: Round, requests: seq<Request>, u: nat): set<UnitId>
    requires u < |requests| && AllListed(round.history, requests)
  {
    set i | 0 <= i < |requests| && i != u && !Infeasible(round, requests[i])
            && DeadlineOf(round.history, requests[i]) <= DeadlineOf(round.history, requests[u]) :: requests[i].id
  }

  predicate OverdueUnit(round: Round, r: Request)
    requires r.id in round.history
  {
    DeadlineOf(round.history, r) <= round.tick
  }

  /** Among overdue units the order is that of the deadlines. */
  lemma EarlierDeadline(round: Round, a: Request, b: Request)
    requires Known(round, a) && Known(round, b) && OverdueUnit(round, b)
    requires Precedes(DueOf(round, a), DueOf(round, b))
    ensures DeadlineOf(round.history, a) <= DeadlineOf(round.history, b)
  {
  }

  lemma OverdueIsRanked(round: Round, requests: seq<Request>, u: nat) returns (j: nat)
    requires AllKnown(round, requests) && DistinctRequests(requests) && u < |requests|
    requires Known(round, requests[u]) && requests[u].cadence.periodTicks <= requests[u].cadence.maximumAgeTicks
    requires OverdueUnit(round, requests[u])
    ensures j < |Ranked(DueUnits(round, requests))| && Ranked(DueUnits(round, requests))[j] == DueOf(round, requests[u])
  {
    RankedRound(round, requests);
    var d := DueOf(round, requests[u]);
    assert ComesDue(round, requests, d);
    var ranked := Ranked(DueUnits(round, requests));
    assert d in ranked;
    j :| 0 <= j < |ranked| && ranked[j] == d;
  }

  lemma RankedIsRequested(round: Round, requests: seq<Request>, k: nat) returns (i: nat)
    requires AllKnown(round, requests) && DistinctRequests(requests) && k < |Ranked(DueUnits(round, requests))|
    ensures i < |requests| && Known(round, requests[i])
    ensures Ranked(DueUnits(round, requests))[k] == DueOf(round, requests[i])
  {
    RankedRound(round, requests);
    var d := Ranked(DueUnits(round, requests))[k];
    assert ComesDue(round, requests, d);
    i :| 0 <= i < |requests| && Known(round, requests[i]) && IsDue(round, requests[i])
      && d == DueOf(round, requests[i]);
  }

  /** While a feasible unit is overdue, the leading unit is that one or a rival. */
  lemma LeaderIsRival(round: Round, requests: seq<Request>, u: nat)
    requires AllKnown(round, requests) && DistinctRequests(requests) && u < |requests|
    requires AllListed(round.history, requests)
    requires requests[u].cadence.periodTicks <= requests[u].cadence.maximumAgeTicks
    requires !Infeasible(round, requests[u]) && OverdueUnit(round, requests[u])
    ensures var ranked := Ranked(DueUnits(round, requests));
      && DistinctUnits(ranked) && Leading(ranked) < |ranked|
      && var leader := ranked[Leading(ranked)].request;
      leader == requests[u] || leader.id in Rivals(round, requests, u)
  {
    var ranked := Ranked(DueUnits(round, requests));
    RankedRound(round, requests);
    assert Known(round, requests[u]);
    var j := OverdueIsRanked(round, requests, u);
    var k := Leading(ranked);
    assert k <= j;
    if k < j {
      var i := RankedIsRequested(round, requests, k);
      assert Precedes(ranked[k], ranked[j]);
      EarlierDeadline(round, requests[i], requests[u]);
      assert i != u;
    }
  }

  /** Stamping the units sent takes each of them out of the rivals for good, and lets none in. */
  lemma RivalsShrink(before: Round, after: Round, requests: seq<Request>, u: nat, sent: set<UnitId>)
    requires AllListed(before.history, requests) && AllListed(after.history, requests) && u < |requests|
    requires after.limits == before.limits && after.maximumAtomic == before.maximumAtomic
    requires OverdueUnit(before, requests[u]) && requests[u].id !in sent
    requires forall i :: 0 <= i < |requests| ==> requests[i].cadence.maximumAgeTicks > 0
    requires forall i :: 0 <= i < |requests| ==>
      Reference(after.history[requests[i].id]) ==
        if requests[i].id in sent then before.tick else Reference(before.history[requests[i].id])
    requires DistinctRequests(requests)
    requires AllKnown(before, requests)
    ensures Rivals(after, requests, u) <= Rivals(before, requests, u) - sent
  {
    forall id | id in Rivals(after, requests, u) ensures id in Rivals(before, requests, u) - sent {
      var i :| 0 <= i < |requests| && i != u && !Infeasible(after, requests[i]) && requests[i].id == id
        && DeadlineOf(after.history, requests[i]) <= DeadlineOf(after.history, requests[u]);
      assert Known(before, requests[i]);
      assert requests[i].id !in sent;
      assert DeadlineOf(before.history, requests[i]) <= DeadlineOf(before.history, requests[u]);
    }
  }

  // ---- turns: a plan is made and all of it is sent ---------------------------------------------------------

  datatype Turn = Turn(barrier: Barrier, now: nat, transport: Transport)

  function Everything(): nat -> bool {
    (i: nat) => true
  }

  function Planned(s: Scheduler, requests: seq<Request>, turn: Turn): (Scheduler, Answer<Plan>) {
    Schedule(s, turn.barrier, requests, turn.now, turn.transport)
  }

  /** The scheduler after planning and sending. */
  function Taken(s: Scheduler, requests: seq<Request>, turn: Turn): (Scheduler, Answer<Sent>) {
    var (planned, answer) := Planned(s, requests, turn);
    if !answer.Granted? then (planned, Refused(Stale))
    else Transmit(planned, answer.value, turn.barrier.worldRevision, turn.barrier.policyRevision, Everything())
  }

  function RoundAt(s: Scheduler, requests: seq<Request>, turn: Turn): Round {
    RoundOf(AtBarrier(s, turn.barrier, requests, turn.now), turn.transport)
  }

  /** The turn goes through, and what the critical pass leaves has room for the leading unit. */
  predicate Smooth(s: Scheduler, requests: seq<Request>, turn: Turn) {
    && Taken(s, requests, turn).1.Granted?
    && AllKnown(RoundAt(s, requests, turn), requests)
    && LeaderFits(
         Ranked(DueUnits(RoundAt(s, requests, turn), requests)),
         BudgetOf(AtBarrier(s, turn.barrier, requests, turn.now), turn.transport), s.limits)
  }

  /** Every turn of the run is smooth and feasibility does not change. */
  predicate SmoothRun(s: Scheduler, requests: seq<Request>, turns: seq<Turn>, atomic: nat)
    decreases |turns|
  {
    turns != [] ==>
      && Smooth(s, requests, turns[0]) && turns[0].transport.maximumAtomicWireBytes == atomic
      && SmoothRun(Taken(s, requests, turns[0]).0, requests, turns[1..], atomic)
  }

  /** The units a turn sends. */
  function SentIds(s: Scheduler, requests: seq<Request>, turn: Turn): set<UnitId> {
    var answer := Planned(s, requests, turn).1;
    if answer.Granted? then IdsOf(answer.value.selected) else {}
  }

  /** Some turn of the run sends the unit. */
  predicate EverSent(s: Scheduler, requests: seq<Request>, turns: seq<Turn>, id: UnitId)
    decreases |turns|
  {
    turns != [] && (id in SentIds(s, requests, turns[0])
      || EverSent(Taken(s, requests, turns[0]).0, requests, turns[1..], id))
  }

  lemma ListedAtBarrier(s: Scheduler, requests: seq<Request>, turn: Turn)
    ensures AllListed(RoundAt(s, requests, turn).history, requests)
  {
    forall i | 0 <= i < |requests| ensures requests[i].id in RoundAt(s, requests, turn).history {
      assert requests[i].id in IdsOf(requests);
    }
  }

  lemma GrantedIsValid(s: Scheduler, requests: seq<Request>, turn: Turn)
    requires Planned(s, requests, turn).1.Granted?
    ensures DistinctRequests(requests)
    ensures forall i :: 0 <= i < |requests| ==>
      0 < requests[i].cadence.periodTicks <= requests[i].cadence.maximumAgeTicks
  {
    CheckRequestsExactly(requests, {}, {}, turn.barrier, s.limits);
    DistinctWhenOk(requests, turn.barrier, s.limits);
    forall i | 0 <= i < |requests|
      ensures 0 < requests[i].cadence.periodTicks <= requests[i].cadence.maximumAgeTicks
    {
      assert RequestOk(requests[i], turn.barrier, s.limits);
    }
  }

  /** What is chosen is what is sent. */
  lemma ChosenIsSent(s: Scheduler, requests: seq<Request>, turn: Turn)
    requires Planned(s, requests, turn).1.Granted?
    ensures var round := RoundAt(s, requests, turn);
      && AllKnown(round, requests)
      && SentIds(s, requests, turn) ==
           Select(Ranked(DueUnits(round, requests)),
             BudgetOf(AtBarrier(s, turn.barrier, requests, turn.now), turn.transport), s.limits).chosen
  {
    GrantedIsValid(s, requests, turn);
    var round := RoundAt(s, requests, turn);
    var budget := BudgetOf(AtBarrier(s, turn.barrier, requests, turn.now), turn.transport);
    RankedRound(round, requests);
    SelectSpec(Ranked(DueUnits(round, requests)), budget, s.limits);
    var p := Select(Ranked(DueUnits(round, requests)), budget, s.limits);
    assert Planned(s, requests, turn).1.value.selected == p.selected;
    assert IdsOf(p.selected) == p.chosen;
  }

  /** A smooth turn sends its leading unit. */
  lemma SmoothSendsLeader(s: Scheduler, requests: seq<Request>, turn: Turn)
    requires Smooth(s, requests, turn)
    ensures var ranked := Ranked(DueUnits(RoundAt(s, requests, turn), requests));
      Leading(ranked) < |ranked| ==> ranked[Leading(ranked)].request.id in SentIds(s, requests, turn)
  {
    GrantedIsValid(s, requests, turn);
    ChosenIsSent(s, requests, turn);
    RankedRound(RoundAt(s, requests, turn), requests);
    var ranked := Ranked(DueUnits(RoundAt(s, requests, turn), requests));
    if Leading(ranked) < |ranked| {
      LeaderSentExactly(ranked, BudgetOf(AtBarrier(s, turn.barrier, requests, turn.now), turn.transport), s.limits);
    }
  }

  /** A unit sent counts its age from that turn, any other from where it did. */
  lemma TurnStamps(s: Scheduler, requests: seq<Request>, turn: Turn, next: Turn, i: nat)
    requires Taken(s, requests, turn).1.Granted? && i < |requests|
    ensures var round := RoundAt(s, requests, turn);
      var later := RoundAt(Taken(s, requests, turn).0, requests, next);
      && requests[i].id in round.history && requests[i].id in later.history
      && Reference(later.history[requests[i].id]) ==
           if requests[i].id in SentIds(s, requests, turn) then round.tick else Reference(round.history[requests[i].id])
  {
    var (planned, answer) := Planned(s, requests, turn);
    var plan, id := answer.value, requests[i].id;
    ListedAtBarrier(s, requests, turn);
    BreaksUnlessCovered(planned.tokens, planned.history, plan.selected, Everything(), plan.barrier.tick);
    StampedAt(planned.history, plan.selected, Everything(), plan.barrier.tick, id);
    ListedAtBarrier(Taken(s, requests, turn).0, requests, next);
    if id in SentIds(s, requests, turn) {
      var k :| 0 <= k < |plan.selected| && plan.selected[k].id == id;
      assert Everything()(k);
    }
  }

  /** The clock and the limits from one turn to the next. */
  lemma TurnFrame(s: Scheduler, requests: seq<Request>, turn: Turn, next: Turn)
    requires Taken(s, requests, turn).1.Granted? && Planned(Taken(s, requests, turn).0, requests, next).1.Granted?
    ensures var after := Taken(s, requests, turn).0;
      after.limits == s.limits && RoundAt(s, requests, turn).tick <= RoundAt(after, requests, next).tick
  {
  }

  /** After a smooth turn that does not send it, an overdue unit has fewer rivals and is still overdue. */
  lemma TurnProgress(s: Scheduler, requests: seq<Request>, turn: Turn, next: Turn, u: nat)
    requires Smooth(s, requests, turn) && u < |requests|
      && Planned(Taken(s, requests, turn).0, requests, next).1.Granted?
    requires turn.transport.maximumAtomicWireBytes == next.transport.maximumAtomicWireBytes
    requires AllListed(RoundAt(s, requests, turn).history, requests)
    requires AllListed(RoundAt(Taken(s, requests, turn).0, requests, next).history, requests)
    requires !Infeasible(RoundAt(s, requests, turn), requests[u])
      && OverdueUnit(RoundAt(s, requests, turn), requests[u])
    requires requests[u].id !in SentIds(s, requests, turn)
    ensures var later := RoundAt(Taken(s, requests, turn).0, requests, next);
      && !Infeasible(later, requests[u]) && OverdueUnit(later, requests[u])
      && |Rivals(later, requests, u)| < |Rivals(RoundAt(s, requests, turn), requests, u)|
  {
    var round := RoundAt(s, requests, turn);
    var later := RoundAt(Taken(s, requests, turn).0, requests, next);
    var sent := SentIds(s, requests, turn);
    GrantedIsValid(s, requests, turn);
    TurnFrame(s, requests, turn, next);
    forall i | 0 <= i < |requests|
      ensures Reference(later.history[requests[i].id]) ==
        if requests[i].id in sent then round.tick else Reference(round.history[requests[i].id])
    {
      TurnStamps(s, requests, turn, next, i);
    }
    RivalsShrink(round, later, requests, u, sent);
    LeaderIsRival(round, requests, u);
    SmoothSendsLeader(s, requests, turn);
    var ranked := Ranked(DueUnits(round, requests));
    var leader := ranked[Leading(ranked)].request.id;
    FewerRivals(Rivals(later, requests, u), Rivals(round, requests, u), leader);
  }

  lemma FewerRivals(fewer: set<UnitId>, all: set<UnitId>, gone: UnitId)
    requires fewer <= all && gone in all && gone !in fewer
    ensures |fewer| < |all|
  {
    assert fewer <= all - {gone};
    SubsetCount(fewer, all - {gone});
  }

  lemma SubsetCount(a: set<UnitId>, b: set<UnitId>)
    requires a <= b
    ensures |a| <= |b|
  {
    assert b == a + (b - a);
  }

  /** Without rivals an overdue unit leads, so a smooth turn sends it. */
  lemma LastTurnSends(s: Scheduler, requests: seq<Request>, turn: Turn, u: nat)
    requires Smooth(s, requests, turn) && u < |requests| && AllListed(RoundAt(s, requests, turn).history, requests)
    requires !Infeasible(RoundAt(s, requests, turn), requests[u])
      && OverdueUnit(RoundAt(s, requests, turn), requests[u])
    requires Rivals(RoundAt(s, requests, turn), requests, u) == {}
    ensures requests[u].id in SentIds(s, requests, turn)
  {
    GrantedIsValid(s, requests, turn);
    LeaderIsRival(RoundAt(s, requests, turn), requests, u);
    SmoothSendsLeader(s, requests, turn);
  }

  /**
   Age beats priority: an overdue feasible unit is sent after at most as many smooth turns as there are feasible units
   with no later deadline, whatever the priorities.
   */
  lemma {:induction false} OverdueIsSent(s: Scheduler, requests: seq<Request>, turns: seq<Turn>, atomic: nat, u: nat)
    requires turns != [] && SmoothRun(s, requests, turns, atomic) && u < |requests|
    requires AllListed(RoundAt(s, requests, turns[0]).history, requests)
    requires !Infeasible(RoundAt(s, requests, turns[0]), requests[u])
      && OverdueUnit(RoundAt(s, requests, turns[0]), requests[u])
    requires |turns| > |Rivals(RoundAt(s, requests, turns[0]), requests, u)|
    ensures EverSent(s, requests, turns, requests[u].id)
    decreases |turns|
  {
    if requests[u].id !in SentIds(s, requests, turns[0]) {
      if |turns| == 1 {
        LastTurnSends(s, requests, turns[0], u);
      } else {
        var after, rest := Taken(s, requests, turns[0]).0, turns[1..];
        ListedAtBarrier(after, requests, rest[0]);
        TurnProgress(s, requests, turns[0], rest[0], u);
        OverdueIsSent(after, requests, rest, atomic, u);
      }
    }
  }
}
