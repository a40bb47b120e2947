/** A plan does not say who issued it: three plans of another scheduler, each breaking a call. */
module SchedulerForeign {
  import opened NetTypes
  import opened SchedulerModel
  import opened SchedulerDelivery

  const TIGHT := Limits(1, 1, 1, 0, 1)
  const ROOMY := Limits(1, 1, 10, 0, 1)
  const UNIT := Request(Entity(EntityId(1, 1)), [EntityId(1, 1)], 10, Cadence(1, 1, 0, false))
  const WIRE := Transport(10, 10)

  function Open(tick: nat): Barrier {
    Barrier(1, tick, 0, 0, {EntityId(1, 1)}, None)
  }

  function Accept(): nat -> bool {
    (i: nat) => true
  }

  function Planning(limits: Limits, tick: nat, requests: seq<Request>): (Scheduler, Answer<Plan>)
    requires ValidLimits(limits)
  {
    Schedule(NewScheduler(1, limits).value, Open(tick), requests, 0, WIRE)
  }

  lemma UnitAdmissible(tick: nat)
    ensures CheckRequests([UNIT], {}, {}, Open(tick), ROOMY) == Done
  {
    assert [UNIT][1..] == [] && UNIT.members[1..] == [];
    assert ClaimMembers(UNIT.members, {}, Open(tick)) == Ok({} + {EntityId(1, 1)});
  }

  lemma UnitDue(round: Round)
    requires Known(round, UNIT) && IsDue(round, UNIT)
    ensures AllKnown(round, [UNIT]) && Ranked(DueUnits(round, [UNIT])) == [DueOf(round, UNIT)]
  {
    assert [UNIT][..0] == [] && DueUnits(round, []) == [];
    var d := DueOf(round, UNIT);
    assert [d][..0] == [];
  }

  lemma UnitChosen(d: Due)
    requires d.request == UNIT && !d.infeasible
    ensures CriticalPass([d], 10, 0) == Selection(0, {}, [])
    ensures OpenPass(Selection(0, {}, []), [d], 10) == Selection(10, {UNIT.id}, [UNIT])
  {
    assert [d][..0] == [];
  }

  /** A roomy scheduler plans the unit at any tick. */
  lemma RoomyPlan(tick: nat)
    ensures var (after, answer) := Planning(ROOMY, tick, [UNIT]);
      && answer.Granted? && answer.value.serial == 1 && answer.value.selected == [UNIT]
        && answer.value.barrier == Open(tick)
      && after.serial == 1 && after.tokens == 10 * NANO && after.history == map[UNIT.id := History(tick, None)]
      && after.tick == tick && after.now == 0 && after.worldRevision == 0 && after.policyRevision == 0
      && after.connection == 1 && after.limits == ROOMY
  {
    var s := NewScheduler(1, ROOMY).value;
    UnitAdmissible(tick);
    RenewedKnown(s, Open(tick), [UNIT], 0, 10);
    var after := AtBarrier(s, Open(tick), [UNIT], 0);
    assert IdsOf([UNIT]) == {UNIT.id} by {
      assert [UNIT][0] == UNIT;
    }
    var round := RoundOf(after, WIRE);
    assert [UNIT][0] == UNIT && Known(round, UNIT);
    UnitDue(round);
    UnitChosen(DueOf(round, UNIT));
  }

  lemma IdlePlan(limits: Limits)
    requires limits == TIGHT || limits == ROOMY
    ensures var (after, answer) := Planning(limits, 0, []);
      answer.Granted? && after.serial == 1 && after.tokens == limits.burstBytes * NANO && after.history == map[]
  {
    assert IdsOf([]) == {};
  }

  lemma SendUnit(tokens: nat, history: map<UnitId, History>, tick: nat)
    ensures SendEach(tokens, history, [UNIT], Accept(), tick)
      == SendOne(Progress(tokens, history, Sent(0, 0, 0), None), UNIT, true, tick)
  {
    assert [UNIT][..0] == [];
  }

  /** The loop charges more than the credit. */
  lemma ForeignPlanOverdraws()
    ensures var (mine, _) := Planning(TIGHT, 0, []);
      var theirs := Planning(ROOMY, 0, [UNIT]).1;
      theirs.Granted? && Transmit(mine, theirs.value, 0, 0, Accept()).1 == Broken(CreditUnderflow)
  {
    RoomyPlan(0);
    IdlePlan(TIGHT);
    SendUnit(NANO, map[], 0);
  }

  /** The loop stamps a unit that has no history, after charging it. */
  lemma ForeignPlanIsUnknown()
    ensures var (mine, _) := Planning(ROOMY, 0, []);
      var theirs := Planning(ROOMY, 0, [UNIT]).1;
      theirs.Granted? && Transmit(mine, theirs.value, 0, 0, Accept()).1 == Broken(UnknownUnit)
  {
    RoomyPlan(0);
    IdlePlan(ROOMY);
    SendUnit(10 * NANO, map[], 0);
  }

  /** A plan from a later tick is sent in full, and the next scheduling call then breaks on the unit's age. */
  lemma ForeignPlanIsAhead()
    ensures var (mine, _) := Planning(ROOMY, 0, [UNIT]);
      var theirs := Planning(ROOMY, 5, [UNIT]).1;
      && theirs.Granted?
      && var (after, sent) := Transmit(mine, theirs.value, 0, 0, Accept());
      && sent == Granted(Sent(1, 10, 0))
      && Schedule(after, Open(1), [UNIT], 0, WIRE).1 == Broken(AgeUnderflow)
  {
    RoomyPlan(0);
    RoomyPlan(5);
    var (mine, _) := Planning(ROOMY, 0, [UNIT]);
    var theirs := Planning(ROOMY, 5, [UNIT]).1.value;
    SendUnit(mine.tokens, mine.history, 5);
    var after := Transmit(mine, theirs, 0, 0, Accept()).0;
    UnitAdmissible(1);
    assert [UNIT][0] == UNIT && Ahead(after.history, UNIT.id, 1);
    ScheduleBreaksExactly(after, Open(1), [UNIT], 0, WIRE);
  }
}
