/**
 A feasible unit that never fits the credit of the moment is passed over for smaller ones, however overdue it gets.
 */
module SchedulerStarvation {
  import opened NetTypes
  import opened SchedulerModel
  import opened SchedulerChoice
  import opened SchedulerTheorems
  import opened SchedulerDelivery
  import opened SchedulerRuns
  import opened SchedulerDeadlines

  /** Two bytes of burst, one byte of credit a second, and a turn every half second. */
  const LIMITS := Limits(2, 1, 2, 0, 2)
  const HALF: nat := NANO / 2

  const BIG := Request(Entity(EntityId(1, 1)), [EntityId(1, 1)], 2, Cadence(1, 2, 0, false))
  const SMALL := Request(Entity(EntityId(2, 1)), [EntityId(2, 1)], 1, Cadence(1, 2, 0, false))

  function Both(): seq<Request> {
    [BIG, SMALL]
  }

  function TurnAt(k: nat): Turn {
    Turn(Barrier(1, k, 0, 0, {EntityId(1, 1), EntityId(2, 1)}, None), k * HALF, Transport(2, 2))
  }

  /** The turns from `k` on, `n` of them. */
  function Turns(k: nat, n: nat): seq<Turn>
    decreases n
  {
    if n == 0 then [] else [TurnAt(k)] + Turns(k + 1, n - 1)
  }

  /** Before turn `k`: no more than one byte of credit, and the big unit waiting since the start. */
  predicate Drained(s: Scheduler, k: nat) {
    && s.connection == 1 && s.limits == LIMITS && s.worldRevision == 0 && s.policyRevision == 0
    && k > 0 && s.tick == k - 1 && s.now == (k - 1) * HALF && s.serial == 2 * k && s.tokens <= NANO
    && Past(s.history, s.tick) && BIG.id in s.history && s.history[BIG.id] == History(0, None)
  }

  lemma ClaimsOwnMember(r: Request, claimed: set<EntityId>, barrier: Barrier)
    requires |r.members| == 1 && r.members[0] in barrier.entities && r.members[0] !in claimed
    ensures ClaimMembers(r.members, claimed, barrier) == Ok(claimed + {r.members[0]})
  {
    assert r.members[1..] == [];
  }

  lemma BothAdmissible(k: nat)
    ensures CheckRequests(Both(), {}, {}, TurnAt(k).barrier, LIMITS) == Done
  {
    var barrier := TurnAt(k).barrier;
    var one := {EntityId(1, 1)};
    ClaimsOwnMember(BIG, {}, barrier);
    assert {} + {BIG.members[0]} == one;
    assert ClaimRequest(BIG, {}, {}, barrier, LIMITS) == Ok(one);
    ClaimsOwnMember(SMALL, one, barrier);
    assert ClaimRequest(SMALL, {} + {BIG.id}, one, barrier, LIMITS).Ok?;
    assert Both()[0] == BIG && Both()[1..] == [SMALL] && [SMALL][1..] == [];
    assert CheckRequests([SMALL], {} + {BIG.id}, one, barrier, LIMITS) == Done;
  }

  /** The turn is planned, with at most one byte to give. */
  lemma DrainedPlans(s: Scheduler, k: nat)
    requires Drained(s, k) && 2 * k + 1 < U64_MAX
    ensures var turn := TurnAt(k);
      var after := AtBarrier(s, turn.barrier, Both(), turn.now);
      && Admissible(s, turn.barrier, Both(), turn.now) == Done
      && after.tokens <= NANO + HALF && after.serial == 2 * k + 1
      && AllKnown(RoundAt(s, Both(), turn), Both()) && Past(after.history, k)
  {
    BothAdmissible(k);
    var turn := TurnAt(k);
    RefillExact(s, turn.now);
    assert k * HALF - (k - 1) * HALF == HALF;
    RenewedKnown(s, turn.barrier, Both(), turn.now, 2);
  }

  lemma SmallIsDue(s: Scheduler, k: nat)
    requires Drained(s, k) && 2 * k + 1 < U64_MAX
    ensures var round := RoundAt(s, Both(), TurnAt(k));
      && Known(round, SMALL) && ComesDue(round, Both(), DueOf(round, SMALL)) && !Infeasible(round, SMALL)
  {
    DrainedPlans(s, k);
    var round := RoundAt(s, Both(), TurnAt(k));
    assert Both()[1] == SMALL && Known(round, Both()[1]);
    assert IsDue(round, SMALL) by {
      if SMALL.id in s.history {
        assert Reference(s.history[SMALL.id]) <= k - 1;
      }
    }
  }

  lemma {:induction false} PartOfTotal(requests: seq<Request>, i: nat)
    requires i < |requests|
    ensures requests[i].wireBytes <= TotalBytes(requests)
  {
    if i < |requests| - 1 {
      PartOfTotal(requests[..|requests| - 1], i);
    }
  }

  /** A choice within a budget of one never contains the big unit, and spends the byte if there is one. */
  lemma OneByteChoice(round: Round, budget: nat)
    requires AllKnown(round, Both()) && budget <= 1
    requires Known(round, SMALL) && ComesDue(round, Both(), DueOf(round, SMALL)) && !Infeasible(round, SMALL)
    ensures var p := Choose(round, Both(), budget).0;
      TotalBytes(p.selected) == budget && forall i :: 0 <= i < |p.selected| ==> p.selected[i].id != BIG.id
  {
    GreedyPlan(round, Both(), budget);
    var p := Choose(round, Both(), budget).0;
    forall i | 0 <= i < |p.selected| ensures p.selected[i].id != BIG.id {
      PartOfTotal(p.selected, i);
      var d :| ComesDue(round, Both(), d) && d.request == p.selected[i] && !d.infeasible;
      assert d.request in Both();
    }
    var d := DueOf(round, SMALL);
    if d.request.id !in p.chosen {
      assert d.request.wireBytes > budget - p.used;
    } else {
      ChosenHasBytes(round, budget);
    }
  }

  lemma ChosenHasBytes(round: Round, budget: nat)
    requires AllKnown(round, Both()) && SMALL.id in Choose(round, Both(), budget).0.chosen
    ensures TotalBytes(Choose(round, Both(), budget).0.selected) >= 1
  {
    RankedRound(round, Both());
    SelectSpec(Ranked(DueUnits(round, Both())), budget, round.limits);
    var p := Choose(round, Both(), budget).0;
    var i :| 0 <= i < |p.selected| && p.selected[i].id == SMALL.id;
    assert Offers(Ranked(DueUnits(round, Both())), p.selected[i]);
    GreedyPlan(round, Both(), budget);
    var d :| ComesDue(round, Both(), d) && d.request == p.selected[i] && !d.infeasible;
    assert d.request in Both();
    PartOfTotal(p.selected, i);
  }

  /** A turn with at most one byte to give spends it on the small unit, whatever the transport offers. */
  lemma OneByteTurn(s: Scheduler, turn: Turn)
    requires Admissible(s, turn.barrier, Both(), turn.now) == Done && s.serial + 1 < U64_MAX
    requires var after := AtBarrier(s, turn.barrier, Both(), turn.now);
      && AllKnown(RoundAt(s, Both(), turn), Both()) && Past(after.history, after.tick)
      && BudgetOf(after, turn.transport) <= 1
    requires var round := RoundAt(s, Both(), turn);
      && Known(round, SMALL) && ComesDue(round, Both(), DueOf(round, SMALL)) && !Infeasible(round, SMALL)
    ensures var planned := AtBarrier(s, turn.barrier, Both(), turn.now);
      var (after, sent) := Taken(s, Both(), turn);
      && sent.Granted? && BIG.id !in SentIds(s, Both(), turn)
      && BIG.id in planned.history && BIG.id in after.history && after.history[BIG.id] == planned.history[BIG.id]
      && after == planned.(serial := s.serial + 2, tokens := after.tokens, history := after.history)
      && after.tokens + BudgetOf(planned, turn.transport) * NANO == planned.tokens
      && Past(after.history, after.tick)
  {
    var (planned, answer) := Planned(s, Both(), turn);
    var plan := answer.value;
    BothAdmits(s, turn);
    OneByteChoice(RoundAt(s, Both(), turn), BudgetOf(planned, turn.transport));
    ChosenIsPaid(planned, turn.barrier, Both(), s.limits, turn.transport);
    OneByteSent(planned, plan, turn.barrier);
    ListedAtBarrier(s, Both(), turn);
    assert Both()[0] == BIG;
    StampedAt(planned.history, plan.selected, Everything(), plan.barrier.tick, BIG.id);
  }

  lemma BothAdmits(s: Scheduler, turn: Turn)
    requires Admissible(s, turn.barrier, Both(), turn.now) == Done
    ensures CheckRequests(Both(), {}, {}, turn.barrier, s.limits) == Done
  {
  }

  /** Sending a whole plan that is paid for and not ahead. */
  lemma OneByteSent(s: Scheduler, plan: Plan, barrier: Barrier)
    requires plan.serial == s.serial < U64_MAX && Payable(s, plan) && plan.barrier == barrier
    requires Past(s.history, s.tick) && barrier.tick == s.tick
    ensures var (after, sent) := Transmit(s, plan, barrier.worldRevision, barrier.policyRevision, Everything());
      && sent.Granted? && Covered(s.tokens, s.history, plan.selected, Everything())
      && after == s.(serial := s.serial + 1, tokens := after.tokens, history := after.history)
      && after.history == Stamped(s.history, plan.selected, Everything(), barrier.tick)
      && after.tokens == s.tokens - TotalBytes(plan.selected) * NANO && Past(after.history, after.tick)
  {
    AcceptingAll(plan.selected, Everything());
    BreaksUnlessCovered(s.tokens, s.history, plan.selected, Everything(), barrier.tick);
    StampedPastExactly(s.history, plan.selected, Everything(), barrier.tick, s.tick);
  }

  lemma DrainedTurn(s: Scheduler, k: nat)
    requires Drained(s, k) && 2 * k + 1 < U64_MAX
    ensures Taken(s, Both(), TurnAt(k)).1.Granted? && BIG.id !in SentIds(s, Both(), TurnAt(k))
    ensures Drained(Taken(s, Both(), TurnAt(k)).0, k + 1)
  {
    DrainedPlans(s, k);
    SmallIsDue(s, k);
    OneByteTurn(s, TurnAt(k));
    BigWaits(s, k);
  }

  /** The big unit keeps its history at the barrier. */
  lemma BigWaits(s: Scheduler, k: nat)
    requires Drained(s, k)
    ensures var history := AtBarrier(s, TurnAt(k).barrier, Both(), TurnAt(k).now).history;
      BIG.id in history && history[BIG.id] == History(0, None)
  {
    assert Both()[0] == BIG;
  }

  /** Every turn goes through, and none of them sends the big unit. */
  lemma {:induction false} DrainedStarves(s: Scheduler, k: nat, n: nat)
    requires Drained(s, k) && 2 * (k + n) < U64_MAX
    ensures !EverSent(s, Both(), Turns(k, n), BIG.id)
    decreases n
  {
    if n > 0 {
      DrainedTurn(s, k);
      assert Turns(k, n)[0] == TurnAt(k) && Turns(k, n)[1..] == Turns(k + 1, n - 1);
      DrainedStarves(Taken(s, Both(), TurnAt(k)).0, k + 1, n - 1);
    }
  }

  /** From its second turn on the big unit is feasible and overdue. */
  lemma BigIsOverdue(s: Scheduler, k: nat)
    requires Drained(s, k) && k >= 2
    ensures var round := RoundAt(s, Both(), TurnAt(k));
      BIG.id in round.history && !Infeasible(round, BIG) && OverdueUnit(round, BIG)
  {
    BigWaits(s, k);
    assert Both()[0] == BIG;
  }

  // ---- from a new scheduler ---------------------------------------------------------------------------

  /** At the start the transport takes a single byte. */
  function Narrow(): Turn {
    TurnAt(0).(transport := Transport(1, 2))
  }

  function Begun(): Scheduler {
    Taken(NewScheduler(1, LIMITS).value, Both(), Narrow()).0
  }

  lemma BeginsDrained()
    ensures Drained(Begun(), 1)
  {
    var s := NewScheduler(1, LIMITS).value;
    var turn := Narrow();
    BothAdmissible(0);
    RefillExact(s, 0);
    RenewedKnown(s, turn.barrier, Both(), 0, 2);
    var round := RoundAt(s, Both(), turn);
    assert Both()[1] == SMALL && Both()[0] == BIG && Known(round, Both()[1]);
    assert ComesDue(round, Both(), DueOf(round, SMALL));
    OneByteTurn(s, turn);
  }

  function After(s: Scheduler, turns: seq<Turn>): Scheduler
    decreases |turns|
  {
    if turns == [] then s else After(Taken(s, Both(), turns[0]).0, turns[1..])
  }

  lemma {:induction false} StaysDrained(s: Scheduler, k: nat, n: nat, turns: seq<Turn>)
    requires Drained(s, k) && 2 * (k + n) < U64_MAX && turns == Turns(k, n)
    ensures Drained(After(s, turns), k + n)
    decreases n
  {
    if n > 0 {
      assert turns[0] == TurnAt(k) && turns[1..] == Turns(k + 1, n - 1);
      DrainedTurn(s, k);
      var next := Taken(s, Both(), turns[0]).0;
      StaysDrained(next, k + 1, n - 1, turns[1..]);
    }
  }

  lemma StarvesFrom(s: Scheduler, n: nat)
    requires Drained(s, 1) && 1 <= n && 2 * (n + 1) < U64_MAX
    ensures !EverSent(s, Both(), Turns(1, n), BIG.id)
    ensures var round := RoundAt(After(s, Turns(1, n)), Both(), TurnAt(n + 1));
      BIG.id in round.history && !Infeasible(round, BIG) && OverdueUnit(round, BIG)
  {
    DrainedStarves(s, 1, n);
    StaysDrained(s, 1, n, Turns(1, n));
    BigIsOverdue(After(s, Turns(1, n)), n + 1);
  }

  /**
   Starvation: for as many turns as there are serials, a unit within the burst and the transport's limit is overdue
   and never sent, because each turn's spare byte goes to the smaller unit.
   */
  lemma OverdueIsStarved(n: nat)
    requires 1 <= n && 2 * (n + 1) < U64_MAX
    ensures !EverSent(Begun(), Both(), Turns(1, n), BIG.id)
    ensures var round := RoundAt(After(Begun(), Turns(1, n)), Both(), TurnAt(n + 1));
      BIG.id in round.history && !Infeasible(round, BIG) && OverdueUnit(round, BIG)
  {
    BeginsDrained();
    StarvesFrom(Begun(), n);
  }
}
