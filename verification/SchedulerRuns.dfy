/** The scheduler over whole runs: a rate envelope for any plans, and no broken call for a scheduler's own. */
module SchedulerRuns {
  import opened NetTypes
  import opened SchedulerModel
  import opened SchedulerChoice
  import opened SchedulerTheorems
  import opened SchedulerAdmission
  import opened SchedulerDelivery

  /** A plan that may still be transmitted is paid for, its units are known and it is not ahead of the clock. */
  predicate PlanOk(s: Scheduler, plan: Plan) {
    plan.serial <= s.serial && (plan.serial == s.serial ==> Payable(s, plan) && plan.barrier.tick == s.tick)
  }

  /** The bucket is within its burst. */
  predicate Bucket(s: Scheduler) {
    ValidLimits(s.limits) && s.tokens <= s.limits.burstBytes * NANO
  }

  ghost predicate Inv(s: Scheduler, plans: set<Plan>) {
    && Bucket(s)
    && Past(s.history, s.tick)
    && (forall plan :: plan in plans ==> PlanOk(s, plan))
  }

  // ---- refill -----------------------------------------------------------------------------

  /** The bucket is capped by its burst, so the wide arithmetic never saturates in effect. */
  lemma RefillExact(s: Scheduler, now: nat)
    requires ValidLimits(s.limits)
    ensures Refilled(s, now) ==
      Min(s.tokens + SaturatingSub(now, s.now) * s.limits.bytesPerSecond, s.limits.burstBytes * NANO)
  {
    assert s.limits.burstBytes * NANO <= U128_MAX;
  }

  // ---- scheduling -----------------------------------------------------------------------------

  lemma {:induction false} ScaledTotal(bytes: nat, budget: nat, tokens: nat)
    requires bytes <= budget <= tokens / NANO
    ensures bytes * NANO <= tokens
  {
  }

  lemma SelectedKnown(round: Round, requests: seq<Request>, budget: nat)
    requires AllKnown(round, requests) && DistinctRequests(requests)
    ensures forall i :: 0 <= i < |Choose(round, requests, budget).0.selected| ==>
      Choose(round, requests, budget).0.selected[i].id in round.history
  {
    GreedyPlan(round, requests, budget);
    var selected := Choose(round, requests, budget).0.selected;
    forall i | 0 <= i < |selected| ensures selected[i].id in round.history {
      var d :| ComesDue(round, requests, d) && d.request == selected[i] && !d.infeasible;
    }
  }

  lemma SchedulePays(s: Scheduler, barrier: Barrier, requests: seq<Request>, now: nat, transport: Transport)
    requires ValidLimits(s.limits) && Past(s.history, s.tick)
    ensures var (after, answer) := Schedule(s, barrier, requests, now, transport);
      && !answer.Broken? && Past(after.history, after.tick)
      && (answer.Granted? ==>
            var plan := answer.value;
            Payable(after, plan) && plan.serial == after.serial == s.serial + 1 && plan.barrier.tick == after.tick)
  {
    var (after, answer) := Schedule(s, barrier, requests, now, transport);
    if !answer.Refused? {
      RenewedKnown(s, barrier, requests, now, transport.maximumAtomicWireBytes);
      ChosenIsPaid(after, barrier, requests, s.limits, transport);
    }
  }

  lemma ChosenIsPaid(after: Scheduler, barrier: Barrier, requests: seq<Request>, limits: Limits, transport: Transport)
    requires CheckRequests(requests, {}, {}, barrier, limits).Done? && AllKnown(RoundOf(after, transport), requests)
    ensures var selected := Choose(RoundOf(after, transport), requests, BudgetOf(after, transport)).0.selected;
      && TotalBytes(selected) * NANO <= after.tokens
      && forall i :: 0 <= i < |selected| ==> selected[i].id in after.history
  {
    CheckRequestsExactly(requests, {}, {}, barrier, limits);
    DistinctWhenOk(requests, barrier, limits);
    var round, budget := RoundOf(after, transport), BudgetOf(after, transport);
    GreedyPlan(round, requests, budget);
    SelectedKnown(round, requests, budget);
    ScaledTotal(TotalBytes(Choose(round, requests, budget).0.selected), budget, after.tokens);
  }

  lemma ScheduleRefills(s: Scheduler, barrier: Barrier, requests: seq<Request>, now: nat)
    requires ValidLimits(s.limits) && s.now <= now
    ensures var after := AtBarrier(s, barrier, requests, now);
      && after.now == now && after.limits == s.limits
      && after.tokens <= s.limits.burstBytes * NANO
      && after.tokens <= s.tokens + s.limits.bytesPerSecond * (now - s.now)
  {
    RefillExact(s, now);
    Commutes(now - s.now, s.limits.bytesPerSecond);
  }

  lemma Commutes(a: int, b: int)
    ensures a * b == b * a
  {
  }

  /** A scheduling call, whatever it answers, adds no more credit than the time allows. */
  lemma ScheduleWithin(s: Scheduler, barrier: Barrier, requests: seq<Request>, now: nat, transport: Transport)
    requires Bucket(s)
    ensures var after := Schedule(s, barrier, requests, now, transport).0;
      && Bucket(after) && after.limits == s.limits
      && s.now <= after.now && after.tokens <= s.tokens + s.limits.bytesPerSecond * (after.now - s.now)
  {
    if Schedule(s, barrier, requests, now, transport).1.Refused? {
      assert s.limits.bytesPerSecond * (s.now - s.now) == 0;
    } else {
      ScheduleRefills(s, barrier, requests, now);
    }
  }

  lemma ScheduleKeeps(
    s: Scheduler, plans: set<Plan>, barrier: Barrier, requests: seq<Request>, now: nat, transport: Transport)
    requires Inv(s, plans)
    ensures var (after, answer) := Schedule(s, barrier, requests, now, transport);
      !answer.Broken? && Inv(after, if answer.Granted? then plans + {answer.value} else plans)
  {
    SchedulePays(s, barrier, requests, now, transport);
    ScheduleWithin(s, barrier, requests, now, transport);
  }

  // ---- transmitting ------------------------------------------------------------------------------

  /** For any plan: a completed call charges exactly what was accepted, and a broken one no more than there was. */
  lemma TransmitCharges(s: Scheduler, plan: Plan, world: nat, policy: nat, send: nat -> bool)
    ensures var (after, answer) := Transmit(s, plan, world, policy, send);
      && after.limits == s.limits && after.now == s.now && after.tick == s.tick && after.tokens <= s.tokens
      && (answer.Granted? ==> answer.value.bytes * NANO + after.tokens == s.tokens)
  {
    CreditFalls(s.tokens, s.history, plan.selected, send, plan.barrier.tick);
    BreaksUnlessCovered(s.tokens, s.history, plan.selected, send, plan.barrier.tick);
  }

  /** A plan this scheduler need not fear: it is refused, or paid for and not ahead of the clock. */
  predicate Harmless(s: Scheduler, plan: Plan, world: nat, policy: nat) {
    Tried(s, plan, world, policy) ==> Payable(s, plan) && (plan.selected == [] || plan.barrier.tick <= s.tick)
  }

  /**
   A harmless plan, wherever it came from, does not break the call and keeps the invariant; every older plan
   becomes stale.
   */
  lemma TransmitKeeps(s: Scheduler, plans: set<Plan>, plan: Plan, world: nat, policy: nat, send: nat -> bool)
    requires Inv(s, plans) && Harmless(s, plan, world, policy)
    ensures var (after, answer) := Transmit(s, plan, world, policy, send); !answer.Broken? && Inv(after, plans)
  {
    TransmitCharges(s, plan, world, policy, send);
    if Tried(s, plan, world, policy) {
      BreaksUnlessCovered(s.tokens, s.history, plan.selected, send, plan.barrier.tick);
      StampedPastExactly(s.history, plan.selected, send, plan.barrier.tick, s.tick);
      var after := Transmit(s, plan, world, policy, send).0;
      forall p | p in plans ensures PlanOk(after, p) {
        assert PlanOk(s, p);
      }
    }
  }

  /**
   Whatever the transport answers, the call completes and the histories stay behind the clock exactly for harmless
   plans.
   */
  lemma HarmlessExactly(s: Scheduler, plan: Plan, world: nat, policy: nat)
    requires Past(s.history, s.tick)
    ensures Harmless(s, plan, world, policy) <==>
      forall send: nat -> bool ::
        var (after, answer) := Transmit(s, plan, world, policy, send);
        !answer.Broken? && Past(after.history, after.tick)
  {
    NeverBreaksExactly(s, plan, world, policy);
    if Tried(s, plan, world, policy) && Payable(s, plan) {
      StaysPastExactly(s, plan, world, policy);
    }
  }

  /** The plans of a scheduler are harmless to it, newest or not. */
  lemma OwnPlansAreHarmless(s: Scheduler, plans: set<Plan>, plan: Plan, world: nat, policy: nat)
    requires Inv(s, plans) && plan in plans
    ensures Harmless(s, plan, world, policy)
  {
    assert PlanOk(s, plan);
  }

  // ---- runs --------------------------------------------------------------------------------------

  datatype Event =
    | Scheduling(barrier: Barrier, requests: seq<Request>, now: nat, transport: Transport)
    | Sending(plan: Plan, worldRevision: nat, policyRevision: nat, send: nat -> bool)

  /** A scheduler, the plans it has issued, the bytes of its completed calls and whether a call has broken. */
  datatype State = State(scheduler: Scheduler, plans: set<Plan>, accepted: nat, broken: bool)

  /** One call with any plan; after a broken one there are no more. */
  function Next(st: State, event: Event): State {
    if st.broken then st
    else
      match event
      case Scheduling(barrier, requests, now, transport) =>
        var (after, answer) := Schedule(st.scheduler, barrier, requests, now, transport);
        State(after, if answer.Granted? then st.plans + {answer.value} else st.plans, st.accepted, answer.Broken?)
      case Sending(plan, world, policy, send) =>
        var (after, answer) := Transmit(st.scheduler, plan, world, policy, send);
        var bytes := if answer.Granted? then answer.value.bytes else 0;
        State(after, st.plans, st.accepted + bytes, answer.Broken?)
  }

  function Run(st: State, events: seq<Event>): State {
    if events == [] then st else Next(Run(st, events[..|events| - 1]), events[|events| - 1])
  }

  /** Later on, with no more accepted than the credit spent and refilled in between. */
  ghost predicate Within(st: State, later: State) {
    && later.scheduler.limits == st.scheduler.limits
    && st.scheduler.now <= later.scheduler.now
    && st.accepted <= later.accepted
    && (later.accepted - st.accepted) * NANO + later.scheduler.tokens
         <= st.scheduler.tokens + st.scheduler.limits.bytesPerSecond * (later.scheduler.now - st.scheduler.now)
  }

  lemma NextWithin(st: State, event: Event)
    requires Bucket(st.scheduler)
    ensures Bucket(Next(st, event).scheduler) && Within(st, Next(st, event))
  {
    assert st.scheduler.limits.bytesPerSecond * (st.scheduler.now - st.scheduler.now) == 0;
    match event
    case Scheduling(barrier, requests, now, transport) =>
      ScheduleWithin(st.scheduler, barrier, requests, now, transport);
    case Sending(plan, world, policy, send) =>
      TransmitCharges(st.scheduler, plan, world, policy, send);
  }

  lemma WithinTrans(a: State, b: State, c: State)
    requires Within(a, b) && Within(b, c)
    ensures Within(a, c)
  {
    var rate := a.scheduler.limits.bytesPerSecond;
    assert rate * (c.scheduler.now - a.scheduler.now)
      == rate * (c.scheduler.now - b.scheduler.now) + rate * (b.scheduler.now - a.scheduler.now);
    assert (c.accepted - a.accepted) * NANO == (c.accepted - b.accepted) * NANO + (b.accepted - a.accepted) * NANO;
  }

  lemma {:induction false} RunWithin(st: State, events: seq<Event>)
    requires Bucket(st.scheduler)
    ensures Bucket(Run(st, events).scheduler) && Within(st, Run(st, events))
  {
    if events == [] {
      assert st.scheduler.limits.bytesPerSecond * (st.scheduler.now - st.scheduler.now) == 0;
    } else {
      var last := |events| - 1;
      var before := Run(st, events[..last]);
      RunWithin(st, events[..last]);
      NextWithin(before, events[last]);
      WithinTrans(st, before, Next(before, events[last]));
    }
  }

  function Start(connection: nat, limits: Limits): State
    requires ValidLimits(limits)
  {
    State(NewScheduler(connection, limits).value, {}, 0, false)
  }

  lemma WithinEnvelope(a: State, b: State)
    requires Bucket(a.scheduler) && Within(a, b)
    ensures var limits := a.scheduler.limits;
      (b.accepted - a.accepted) * NANO <= limits.burstBytes * NANO
        + limits.bytesPerSecond * (b.scheduler.now - a.scheduler.now)
  {
  }

  /**
   Between any two points of any run, whatever plans are sent, the bytes of the completed calls stay within the burst
   plus the rate times the elapsed time.
   */
  lemma TokenEnvelope(connection: nat, limits: Limits, earlier: seq<Event>, later: seq<Event>)
    requires ValidLimits(limits)
    ensures var a := Run(Start(connection, limits), earlier);
      var b := Run(a, later);
      && a.scheduler.now <= b.scheduler.now
      && (b.accepted - a.accepted) * NANO
           <= limits.burstBytes * NANO + limits.bytesPerSecond * (b.scheduler.now - a.scheduler.now)
  {
    var a := Run(Start(connection, limits), earlier);
    RunWithin(Start(connection, limits), earlier);
    RunWithin(a, later);
    WithinEnvelope(a, Run(a, later));
  }

  // ---- runs that do not break -----------------------------------------------------------------------

  /** The call sends nothing the scheduler need fear. */
  predicate Mild(st: State, event: Event) {
    event.Sending? ==> Harmless(st.scheduler, event.plan, event.worldRevision, event.policyRevision)
  }

  /** Every plan of the run is harmless when it is sent. */
  predicate MildRun(st: State, events: seq<Event>) {
    events == [] || (MildRun(st, events[..|events| - 1]) && Mild(Run(st, events[..|events| - 1]), events[|events| - 1]))
  }

  /** Every plan of the run was issued earlier by this scheduler. */
  predicate OwnRun(st: State, events: seq<Event>) {
    events == [] ||
    (&& OwnRun(st, events[..|events| - 1])
     && var last := events[|events| - 1];
        last.Sending? ==> last.plan in Run(st, events[..|events| - 1]).plans)
  }

  lemma NextKeeps(st: State, event: Event)
    requires Inv(st.scheduler, st.plans) && !st.broken && Mild(st, event)
    ensures var later := Next(st, event); Inv(later.scheduler, later.plans) && !later.broken
  {
    match event
    case Scheduling(barrier, requests, now, transport) =>
      ScheduleKeeps(st.scheduler, st.plans, barrier, requests, now, transport);
    case Sending(plan, world, policy, send) =>
      TransmitKeeps(st.scheduler, st.plans, plan, world, policy, send);
  }

  /** No call of such a run breaks: neither credit nor an age underflows and no unit is unknown. */
  lemma {:induction false} MildRunsHold(st: State, events: seq<Event>)
    requires Inv(st.scheduler, st.plans) && !st.broken && MildRun(st, events)
    ensures var later := Run(st, events); Inv(later.scheduler, later.plans) && !later.broken
  {
    if events != [] {
      MildRunsHold(st, events[..|events| - 1]);
      NextKeeps(Run(st, events[..|events| - 1]), events[|events| - 1]);
    }
  }

  lemma StartInv(connection: nat, limits: Limits)
    requires ValidLimits(limits)
    ensures Inv(Start(connection, limits).scheduler, Start(connection, limits).plans)
  {
  }

  /** A scheduler that sends only its own plans never breaks. */
  lemma {:induction false} OwnRunsHold(connection: nat, limits: Limits, events: seq<Event>)
    requires ValidLimits(limits) && OwnRun(Start(connection, limits), events)
    ensures MildRun(Start(connection, limits), events)
    ensures var later := Run(Start(connection, limits), events); Inv(later.scheduler, later.plans) && !later.broken
  {
    StartInv(connection, limits);
    if events != [] {
      var last := events[|events| - 1];
      var before := Run(Start(connection, limits), events[..|events| - 1]);
      OwnRunsHold(connection, limits, events[..|events| - 1]);
      if last.Sending? {
        OwnPlansAreHarmless(before.scheduler, before.plans, last.plan, last.worldRevision, last.policyRevision);
      }
      NextKeeps(before, last);
    }
  }
}
