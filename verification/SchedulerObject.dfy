/** The scheduler as the program runs it: loops over the requests and fields updated in place. */
module SchedulerObject {
  import opened NetTypes
  import opened SchedulerModel
  import opened SchedulerRuns

  // ---- validation ----------------------------------------------------------------------------

  method Claim(r: Request, ids: set<UnitId>, claimed: set<EntityId>, barrier: Barrier, limits: Limits)
    returns (result: Result<set<EntityId>, ScheduleError>)
    ensures result == ClaimRequest(r, ids, claimed, barrier, limits)
  {
    if !WellFormed(r, limits) || r.id in ids || r.members == [] {
      return Err(InvalidRequest);
    }
    if r.id.PredictionGroup? && barrier.predicted != Some(r.members) {
      return Err(Unauthorized);
    }
    var taken := claimed;
    for i := 0 to |r.members|
      invariant ClaimMembers(r.members, claimed, barrier) == ClaimMembers(r.members[i..], taken, barrier)
    {
      assert r.members[i..][0] == r.members[i] && r.members[i..][1..] == r.members[i + 1..];
      if r.members[i] !in barrier.entities {
        return Err(Unauthorized);
      }
      if r.members[i] in taken {
        return Err(InvalidRequest);
      }
      taken := taken + {r.members[i]};
    }
    assert r.members[|r.members|..] == [];
    result := Ok(taken);
  }

  method Validate(requests: seq<Request>, barrier: Barrier, limits: Limits)
    returns (result: Outcome<ScheduleError>, ids: set<UnitId>)
    ensures result == CheckRequests(requests, {}, {}, barrier, limits)
    ensures result.Done? ==> ids == IdsOf(requests)
  {
    ids := {};
    var claimed: set<EntityId> := {};
    for i := 0 to |requests|
      invariant CheckRequests(requests, {}, {}, barrier, limits)
        == CheckRequests(requests[i..], ids, claimed, barrier, limits)
      invariant ids == IdsOf(requests[..i])
    {
      assert requests[i..][0] == requests[i] && requests[i..][1..] == requests[i + 1..];
      var r := Claim(requests[i], ids, claimed, barrier, limits);
      if r.Err? {
        return Failed(r.error), ids;
      }
      IdsOfLonger(requests, i);
      ids := ids + {requests[i].id};
      claimed := r.value;
    }
    assert requests[|requests|..] == [] && requests[..|requests|] == requests;
    result := Done;
  }

  lemma IdsOfLonger(requests: seq<Request>, i: nat)
    requires i < |requests|
    ensures IdsOf(requests[..i + 1]) == IdsOf(requests[..i]) + {requests[i].id}
  {
    var longer, shorter := requests[..i + 1], requests[..i];
    forall id ensures id in IdsOf(longer) <==> id in IdsOf(shorter) + {requests[i].id} {
      if id in IdsOf(longer) {
        var k :| 0 <= k < |longer| && longer[k].id == id;
        assert k < i ==> shorter[k].id == id;
      }
      if id in IdsOf(shorter) {
        var k :| 0 <= k < |shorter| && shorter[k].id == id;
        assert longer[k].id == id;
      }
      assert longer[i].id == requests[i].id;
    }
  }

  // ---- the loops of a scheduling round ------------------------------------------------------------

  /** What one more request adds to the due units and to the oldest age. */
  lemma DueMore(round: Round, requests: seq<Request>, i: nat)
    requires i < |requests| && AllKnown(round, requests[..i]) && Known(round, requests[i])
    ensures AllKnown(round, requests[..i + 1])
    ensures DueUnits(round, requests[..i + 1]) ==
      DueUnits(round, requests[..i]) + if IsDue(round, requests[i]) then [DueOf(round, requests[i])] else []
    ensures OldestAge(round, requests[..i + 1]) == Max(OldestAge(round, requests[..i]), AgeOf(round, requests[i]))
  {
    var longer := requests[..i + 1];
    assert longer[..|longer| - 1] == requests[..i] && longer[|longer| - 1] == requests[i];
    forall k | 0 <= k < |longer| ensures Known(round, longer[k]) {
      assert k < i ==> longer[k] == requests[..i][k];
    }
  }

  lemma CountMore(due: seq<Due>, d: Due)
    ensures CountInfeasible(due + [d]) == CountInfeasible(due) + if d.infeasible then 1 else 0
  {
    assert (due + [d])[..|due|] == due;
  }

  /** What the due loop holds after the first requests. */
  ghost predicate Collected(round: Round, first: seq<Request>, due: seq<Due>, infeasible: nat, oldest: nat) {
    && AllKnown(round, first)
    && due == DueUnits(round, first) && infeasible == CountInfeasible(due) && oldest == OldestAge(round, first)
  }

  /** One turn of the due loop. */
  method CollectOne(
    round: Round, r: Request, due: seq<Due>, infeasible: nat, oldest: nat, ghost requests: seq<Request>, ghost i: nat)
    returns (due': seq<Due>, infeasible': nat, oldest': nat)
    requires i < |requests| && r == requests[i] && Known(round, r)
    requires Collected(round, requests[..i], due, infeasible, oldest)
    ensures Collected(round, requests[..i + 1], due', infeasible', oldest')
  {
    DueMore(round, requests, i);
    var age := round.tick - Reference(round.history[r.id]);
    due', infeasible', oldest' := due, infeasible, Max(oldest, age);
    if IsDue(round, r) {
      var score := Min(age, round.limits.maximumAccumulatedAgeTicks) + r.cadence.priority;
      var next := Due(r, age, score, Infeasible(round, r));
      CountMore(due, next);
      if next.infeasible {
        infeasible' := infeasible + 1;
      }
      due' := due + [next];
    }
  }

  /** What the due loop collects, or nothing when an age underflows. */
  method CollectDue(round: Round, requests: seq<Request>) returns (r: Option<(seq<Due>, nat, nat)>)
    requires forall i :: 0 <= i < |requests| ==> requests[i].id in round.history
    ensures r.Some? <==> AllKnown(round, requests)
    ensures r.Some? ==> Collected(round, requests, r.value.0, r.value.1, r.value.2)
  {
    var due, infeasible: nat, oldest: nat := [], 0, 0;
    for i := 0 to |requests|
      invariant Collected(round, requests[..i], due, infeasible, oldest)
    {
      if Reference(round.history[requests[i].id]) > round.tick {
        assert !Known(round, requests[i]);
        return None;
      }
      due, infeasible, oldest := CollectOne(round, requests[i], due, infeasible, oldest, requests, i);
    }
    assert requests[..|requests|] == requests;
    r := Some((due, infeasible, oldest));
  }

  method SelectUnits(ranked: seq<Due>, budget: nat, limits: Limits) returns (p: Selection)
    ensures p == Select(ranked, budget, limits)
  {
    var reserve := ReserveOf(budget, limits);
    p := Selection(0, {}, []);
    for i := 0 to |ranked|
      invariant p == CriticalPass(ranked[..i], budget, reserve)
    {
      assert ranked[..i + 1][..i] == ranked[..i];
      if TakesCritical(p, ranked[i], budget, reserve) {
        p := Take(p, ranked[i].request);
      }
    }
    assert ranked[..|ranked|] == ranked;
    ghost var first := p;
    for i := 0 to |ranked|
      invariant p == OpenPass(first, ranked[..i], budget)
    {
      assert ranked[..i + 1][..i] == ranked[..i];
      if TakesOpen(p, ranked[i], budget) {
        p := Take(p, ranked[i].request);
      }
    }
  }

  method CountOutcome(ranked: seq<Due>, chosen: set<UnitId>) returns (deferred: nat, misses: nat, critical: nat)
    ensures deferred == CountDeferred(ranked, chosen)
    ensures misses == CountMisses(ranked, chosen) && critical == CountCriticalMisses(ranked, chosen)
  {
    deferred, misses, critical := 0, 0, 0;
    for i := 0 to |ranked|
      invariant deferred == CountDeferred(ranked[..i], chosen)
      invariant misses == CountMisses(ranked[..i], chosen) && critical == CountCriticalMisses(ranked[..i], chosen)
    {
      assert ranked[..i + 1][..i] == ranked[..i];
      if ranked[i].request.id !in chosen {
        deferred := deferred + 1;
        if Overdue(ranked[i]) {
          misses := misses + 1;
          if ranked[i].request.cadence.critical {
            critical := critical + 1;
          }
        }
      }
    }
    assert ranked[..|ranked|] == ranked;
  }

  method ChooseUnits(round: Round, requests: seq<Request>, budget: nat) returns (r: Option<(Selection, Metrics)>)
    requires forall i :: 0 <= i < |requests| ==> requests[i].id in round.history
    ensures r.Some? <==> AllKnown(round, requests)
    ensures r.Some? ==> r.value == Choose(round, requests, budget)
  {
    var collected := CollectDue(round, requests);
    if collected.None? {
      return None;
    }
    var (due, infeasible, oldest) := collected.value;
    var ranked := Ranked(due);
    var p := SelectUnits(ranked, budget, round.limits);
    var deferred, misses, critical := CountOutcome(ranked, p.chosen);
    r := Some((p, Metrics(|due|, |p.selected|, p.used, deferred, infeasible, misses, critical, oldest)));
  }

  // ---- the object ----------------------------------------------------------------------------------

  class TokenScheduler {
    const connection: nat
    const limits: Limits
    var history: map<UnitId, History>
    var now: nat
    var tick: nat
    var worldRevision: nat
    var policyRevision: nat
    var serial: nat
    var tokens: nat

    /** The plans issued so far. */
    ghost var plans: set<Plan>

    function View(): Scheduler
      reads this
    {
      Scheduler(connection, limits, history, now, tick, worldRevision, policyRevision, serial, tokens)
    }

    ghost predicate Valid()
      reads this
    {
      Inv(View(), plans)
    }

    /** The bucket is within its burst, whatever was sent. */
    ghost predicate Sound()
      reads this
    {
      Bucket(View())
    }

    constructor (connection: nat, limits: Limits)
      requires ValidLimits(limits)
      ensures Valid() && Sound() && Ok(View()) == NewScheduler(connection, limits) && plans == {}
    {
      this.connection, this.limits := connection, limits;
      history, now, tick, worldRevision, policyRevision, serial := map[], 0, 0, 0, 0, 0;
      tokens, plans := limits.burstBytes * NANO, {};
    }

    /** The most whole bytes that neither the burst nor the credit earned by then excludes. */
    method Credit(at: nat) returns (bytes: nat)
      requires Sound()
      ensures bytes <= limits.burstBytes && bytes * NANO <= tokens + SaturatingSub(at, now) * limits.bytesPerSecond
      ensures forall n: nat ::
        n <= limits.burstBytes && n * NANO <= tokens + SaturatingSub(at, now) * limits.bytesPerSecond ==> n <= bytes
    {
      RefillExact(View(), at);
      var refill := Saturated128(SaturatingSub(at, now) * limits.bytesPerSecond);
      bytes := Min(Saturated128(tokens + refill), limits.burstBytes * NANO) / NANO;
    }

    /** Takes the barrier over: refill, clocks, serial and histories. */
    method Advance(barrier: Barrier, at: nat, ids: set<UnitId>, ghost requests: seq<Request>)
      requires ids == IdsOf(requests)
      modifies this`history, this`now, this`tick, this`worldRevision, this`policyRevision, this`serial, this`tokens
      ensures View() == AtBarrier(old(View()), barrier, requests, at)
    {
      var refill := Saturated128(SaturatingSub(at, now) * limits.bytesPerSecond);
      tokens := Min(Saturated128(tokens + refill), limits.burstBytes * NANO);
      now, tick := at, barrier.tick;
      worldRevision, policyRevision := barrier.worldRevision, barrier.policyRevision;
      serial := serial + 1;
      history := Renewed(history, ids, tick);
    }

    /** A scheduler that was sound with its plans stays so and does not break. */
    method Schedule(barrier: Barrier, requests: seq<Request>, at: nat, transport: Transport) returns (r: Answer<Plan>)
      modifies this
      ensures (View(), r) == SchedulerModel.Schedule(old(View()), barrier, requests, at, transport)
      ensures plans == if r.Granted? then old(plans) + {r.value} else old(plans)
      ensures old(Valid()) ==> Valid() && !r.Broken?
      ensures old(Sound()) ==> Sound()
    {
      ghost var before := View();
      if Valid() {
        ScheduleKeeps(View(), plans, barrier, requests, at, transport);
      }
      if Sound() {
        ScheduleWithin(View(), barrier, requests, at, transport);
      }
      if barrier.connection != connection {
        return Refused(Unauthorized);
      }
      if at < now || barrier.tick < tick || barrier.worldRevision < worldRevision
        || barrier.policyRevision < policyRevision
      {
        return Refused(Stale);
      }
      if |requests| > limits.units {
        return Refused(Capacity);
      }
      var check, ids := Validate(requests, barrier, limits);
      if check.Failed? {
        return Refused(check.error);
      }
      if serial >= U64_MAX {
        return Refused(Capacity);
      }
      Advance(barrier, at, ids, requests);
      IdsListed(before, barrier, requests, at);
      var budget := Min(transport.availableWireBytes, tokens / NANO);
      var choice := ChooseUnits(Round(history, tick, limits, transport.maximumAtomicWireBytes), requests, budget);
      if choice.None? {
        return Broken(AgeUnderflow);
      }
      var plan := Plan(barrier, serial, choice.value.0.selected, choice.value.1);
      plans := plans + {plan};
      r := Granted(plan);
    }

    /** Any plan may be sent; one that is harmless to a sound scheduler leaves it sound, and its own all are. */
    method Transmit(plan: Plan, world: nat, policy: nat, send: nat -> bool) returns (r: Answer<Sent>)
      modifies this`serial, this`tokens, this`history
      ensures (View(), r) == SchedulerModel.Transmit(old(View()), plan, world, policy, send)
      ensures old(Valid()) && Harmless(old(View()), plan, world, policy) ==> Valid() && !r.Broken?
      ensures old(Valid()) && plan in plans ==> Harmless(old(View()), plan, world, policy)
      ensures old(Sound()) ==> Sound()
    {
      Foretell(plan, world, policy, send);
      TransmitCharges(View(), plan, world, policy, send);
      if plan.serial != serial || !IsCurrent(plan, world, policy) {
        return Refused(Stale);
      }
      if serial >= U64_MAX {
        return Refused(Capacity);
      }
      serial := serial + 1;
      var p := SendAll(tokens, history, plan.selected, send, plan.barrier.tick);
      tokens, history := p.tokens, p.history;
      r := if p.fault.Some? then Broken(p.fault.value) else Granted(p.sent);
    }

    lemma Foretell(plan: Plan, world: nat, policy: nat, send: nat -> bool)
      ensures Valid() && Harmless(View(), plan, world, policy) ==>
        var (after, answer) := SchedulerModel.Transmit(View(), plan, world, policy, send);
        !answer.Broken? && Inv(after, plans)
      ensures Valid() && plan in plans ==> Harmless(View(), plan, world, policy)
    {
      if Valid() {
        if plan in plans {
          OwnPlansAreHarmless(View(), plans, plan, world, policy);
        }
        if Harmless(View(), plan, world, policy) {
          TransmitKeeps(View(), plans, plan, world, policy, send);
        }
      }
    }
  }

  lemma IdsListed(s: Scheduler, barrier: Barrier, requests: seq<Request>, now: nat)
    ensures forall i :: 0 <= i < |requests| ==> requests[i].id in AtBarrier(s, barrier, requests, now).history
  {
    forall i | 0 <= i < |requests| ensures requests[i].id in AtBarrier(s, barrier, requests, now).history {
      assert requests[i].id in IdsOf(requests);
    }
  }

  /** The transmission loop: each accepted unit is charged and stamped, until one cannot be. */
  method SendAll(tokens: nat, history: map<UnitId, History>, selected: seq<Request>, send: nat -> bool, tick: nat)
    returns (p: Progress)
    ensures p == SendEach(tokens, history, selected, send, tick)
  {
    var left: nat, stamped, sent := tokens, history, Sent(0, 0, 0);
    for i := 0 to |selected|
      invariant Progress(left, stamped, sent, None) == SendEach(tokens, history, selected[..i], send, tick)
    {
      var request := selected[i];
      assert selected[..i + 1][..i] == selected[..i];
      if send(i) {
        if request.wireBytes * NANO > left {
          StaysBroken(tokens, history, selected, send, tick, i + 1);
          return Progress(left, stamped, sent, Some(CreditUnderflow));
        }
        left := left - request.wireBytes * NANO;
        if request.id !in stamped {
          StaysBroken(tokens, history, selected, send, tick, i + 1);
          return Progress(left, stamped, sent, Some(UnknownUnit));
        }
        stamped := stamped[request.id := stamped[request.id].(lastTransmitted := Some(tick))];
        sent := sent.(units := sent.units + 1, bytes := sent.bytes + request.wireBytes);
      } else {
        sent := sent.(rejected := sent.rejected + 1);
      }
    }
    assert selected[..|selected|] == selected;
    p := Progress(left, stamped, sent, None);
  }

  /** Nothing happens after a fault. */
  lemma {:induction false} StaysBroken(
    tokens: nat, history: map<UnitId, History>, selected: seq<Request>, send: nat -> bool, tick: nat, n: nat)
    requires n <= |selected| && SendEach(tokens, history, selected[..n], send, tick).fault.Some?
    ensures SendEach(tokens, history, selected, send, tick) == SendEach(tokens, history, selected[..n], send, tick)
    decreases |selected|
  {
    if n == |selected| {
      assert selected[..n] == selected;
    } else {
      var most := selected[..|selected| - 1];
      assert most[..n] == selected[..n];
      StaysBroken(tokens, history, most, send, tick, n);
    }
  }

  /** A scheduler with a full bucket, or nothing for an invalid configuration. */
  method Create(connection: nat, limits: Limits) returns (r: Result<TokenScheduler, ScheduleError>)
    ensures match NewScheduler(connection, limits)
      case Ok(s) => r.Ok? && fresh(r.value) && r.value.Valid() && r.value.View() == s && r.value.plans == {}
      case Err(error) => r == Err(error)
  {
    if !ValidLimits(limits) {
      return Err(InvalidConfiguration);
    }
    var scheduler := new TokenScheduler(connection, limits);
    r := Ok(scheduler);
  }
}
