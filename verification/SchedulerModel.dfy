/**
 Bounded scheduling (engine/net/src/scheduling.rs): request validation, the token bucket in
 nanobytes, the deterministic order of due units and the two selection passes.
 */
module SchedulerModel {
  import opened NetTypes

  /** One byte of credit. */
  const NANO: nat := 1_000_000_000
  const U128_MAX: nat := 0xFFFF_FFFF_FFFF_FFFF_FFFF_FFFF_FFFF_FFFF

  datatype UnitId = Entity(entity: EntityId) | PredictionGroup(group: nat)

  datatype Cadence = Cadence(periodTicks: nat, maximumAgeTicks: nat, priority: nat, critical: bool)

  /** An atomic transmission; `members` is an ordered set, listed in ascending order. */
  datatype Request = Request(id: UnitId, members: seq<EntityId>, wireBytes: nat, cadence: Cadence)

  datatype Limits = Limits(
    units: nat, bytesPerSecond: nat, burstBytes: nat, criticalReserve: nat, maximumAccumulatedAgeTicks: nat)

  datatype Transport = Transport(availableWireBytes: nat, maximumAtomicWireBytes: nat)

  datatype ScheduleError = InvalidConfiguration | InvalidRequest | Unauthorized | Capacity | Stale

  /** Where a plain subtraction or an unwrapped lookup gives up. */
  datatype Fault = AgeUnderflow | CreditUnderflow | UnknownUnit

  datatype Answer<T> = Granted(value: T) | Refused(error: ScheduleError) | Broken(fault: Fault)

  /** What the scheduler reads of an authorization result. */
  datatype Barrier = Barrier(
    connection: nat, tick: nat, worldRevision: nat, policyRevision: nat,
    entities: set<EntityId>, predicted: Option<seq<EntityId>>)

  datatype History = History(firstDue: nat, lastTransmitted: Option<nat>)

  datatype Metrics = Metrics(
    dueUnits: nat, selectedUnits: nat, selectedWireBytes: nat, deferredUnits: nat, infeasibleUnits: nat,
    deadlineMisses: nat, criticalDeadlineMisses: nat, maximumUpdateAge: nat)

  datatype Plan = Plan(barrier: Barrier, serial: nat, selected: seq<Request>, metrics: Metrics)

  datatype Scheduler = Scheduler(
    connection: nat, limits: Limits, history: map<UnitId, History>, now: nat, tick: nat,
    worldRevision: nat, policyRevision: nat, serial: nat, tokens: nat)

  predicate ValidLimits(limits: Limits) {
    && limits.units > 0
    && limits.bytesPerSecond > 0
    && 0 < limits.burstBytes <= U64_MAX
    && limits.criticalReserve <= 10_000
    && limits.maximumAccumulatedAgeTicks > 0
  }

  function NewScheduler(connection: nat, limits: Limits): Result<Scheduler, ScheduleError> {
    if !ValidLimits(limits) then Err(InvalidConfiguration)
    else Ok(Scheduler(connection, limits, map[], 0, 0, 0, 0, 0, limits.burstBytes * NANO))
  }

  // ---- the token bucket ------------------------------------------------------------------

  function Saturated128(n: nat): nat {
    if n <= U128_MAX then n else U128_MAX
  }

  /** The credit after refilling for the time since the last schedule. */
  function Refilled(s: Scheduler, now: nat): nat {
    var refill := Saturated128(SaturatingSub(now, s.now) * s.limits.bytesPerSecond);
    Min(Saturated128(s.tokens + refill), s.limits.burstBytes * NANO)
  }

  // ---- validating the requests ---------------------------------------------------------------

  predicate WellFormed(r: Request, limits: Limits) {
    && r.wireBytes != 0
    && r.cadence.periodTicks != 0
    && r.cadence.periodTicks <= r.cadence.maximumAgeTicks <= limits.maximumAccumulatedAgeTicks
  }

  predicate GroupApproved(r: Request, barrier: Barrier) {
    r.id.PredictionGroup? ==> barrier.predicted == Some(r.members)
  }

  /** Adds the members to those already claimed; the first offending member decides the error. */
  function ClaimMembers(
    members: seq<EntityId>, claimed: set<EntityId>, barrier: Barrier): Result<set<EntityId>, ScheduleError>
  {
    if members == [] then Ok(claimed)
    else if members[0] !in barrier.entities then Err(Unauthorized)
    else if members[0] in claimed then Err(InvalidRequest)
    else ClaimMembers(members[1..], claimed + {members[0]}, barrier)
  }

  function ClaimRequest(r: Request, ids: set<UnitId>, claimed: set<EntityId>, barrier: Barrier, limits: Limits)
    : Result<set<EntityId>, ScheduleError>
  {
    if !WellFormed(r, limits) || r.id in ids || r.members == [] then Err(InvalidRequest)
    else if !GroupApproved(r, barrier) then Err(Unauthorized)
    else ClaimMembers(r.members, claimed, barrier)
  }

  function CheckRequests(
    requests: seq<Request>, ids: set<UnitId>, claimed: set<EntityId>, barrier: Barrier, limits: Limits)
    : Outcome<ScheduleError>
  {
    if requests == [] then Done
    else
      var r := ClaimRequest(requests[0], ids, claimed, barrier, limits);
      if r.Err? then Failed(r.error) else CheckRequests(requests[1..], ids + {requests[0].id}, r.value, barrier, limits)
  }

  // ---- due units and their order ------------------------------------------------------------------

  datatype Due = Due(request: Request, age: nat, score: nat, infeasible: bool)

  function IdsOf(requests: seq<Request>): set<UnitId> {
    set i | 0 <= i < |requests| :: requests[i].id
  }

  /** Omitted units lose their history; new ones start with none transmitted. */
  function Renewed(history: map<UnitId, History>, ids: set<UnitId>, tick: nat): map<UnitId, History> {
    map id | id in ids :: if id in history then history[id] else History(tick, None)
  }

  /** When the unit was last heard of. */
  function Reference(h: History): nat {
    if h.lastTransmitted.Some? then h.lastTransmitted.value else h.firstDue
  }

  /** No unit was first due or transmitted after the current tick. */
  predicate Past(history: map<UnitId, History>, tick: nat) {
    forall id :: id in history ==> Reference(history[id]) <= tick
  }

  /** What a scheduling round sees: the histories, the tick and the feasibility bounds. */
  datatype Round = Round(history: map<UnitId, History>, tick: nat, limits: Limits, maximumAtomic: nat)

  predicate Known(round: Round, r: Request) {
    r.id in round.history && Reference(round.history[r.id]) <= round.tick
  }

  predicate AllKnown(round: Round, requests: seq<Request>) {
    forall i :: 0 <= i < |requests| ==> Known(round, requests[i])
  }

  function AgeOf(round: Round, r: Request): nat
    requires Known(round, r)
  {
    round.tick - Reference(round.history[r.id])
  }

  predicate IsDue(round: Round, r: Request)
    requires Known(round, r)
  {
    round.history[r.id].lastTransmitted.None? || AgeOf(round, r) >= r.cadence.periodTicks
  }

  predicate Infeasible(round: Round, r: Request) {
    r.wireBytes > round.limits.burstBytes || r.wireBytes > round.maximumAtomic
  }

  function DueOf(round: Round, r: Request): Due
    requires Known(round, r)
  {
    var age := AgeOf(round, r);
    Due(r, age, Min(age, round.limits.maximumAccumulatedAgeTicks) + r.cadence.priority, Infeasible(round, r))
  }

  function DueUnits(round: Round, requests: seq<Request>): seq<Due>
    requires AllKnown(round, requests)
  {
    if requests == [] then []
    else
      var most := requests[..|requests| - 1];
      var last := requests[|requests| - 1];
      assert Known(round, last);
      assert forall i :: 0 <= i < |most| ==> most[i] == requests[i];
      DueUnits(round, most) + if IsDue(round, last) then [DueOf(round, last)] else []
  }

  function OldestAge(round: Round, requests: seq<Request>): nat
    requires AllKnown(round, requests)
  {
    if requests == [] then 0
    else
      var most := requests[..|requests| - 1];
      assert Known(round, requests[|requests| - 1]);
      assert forall i :: 0 <= i < |most| ==> most[i] == requests[i];
      Max(OldestAge(round, most), AgeOf(round, requests[|requests| - 1]))
  }

  predicate EntityLess(a: EntityId, b: EntityId) {
    a.index < b.index || (a.index == b.index && a.generation < b.generation)
  }

  predicate IdLess(a: UnitId, b: UnitId) {
    match (a, b)
    case (Entity(x), Entity(y)) => EntityLess(x, y)
    case (Entity(_), PredictionGroup(_)) => true
    case (PredictionGroup(_), Entity(_)) => false
    case (PredictionGroup(x), PredictionGroup(y)) => x < y
  }

  predicate Overdue(d: Due) {
    d.age >= d.request.cadence.maximumAgeTicks
  }

  function Excess(d: Due): nat {
    SaturatingSub(d.age, d.request.cadence.maximumAgeTicks)
  }

  /** Overdue units first and the most overdue among them, then the higher score, then the smaller id. */
  predicate Precedes(a: Due, b: Due) {
    if Overdue(a) != Overdue(b) then Overdue(a)
    else if Excess(a) != Excess(b) then Excess(a) > Excess(b)
    else if a.score != b.score then a.score > b.score
    else IdLess(a.request.id, b.request.id)
  }

  function Place(d: Due, ranked: seq<Due>): seq<Due> {
    if ranked == [] || Precedes(d, ranked[0]) then [d] + ranked else [ranked[0]] + Place(d, ranked[1..])
  }

  /** The due units in order. */
  function Ranked(due: seq<Due>): seq<Due> {
    if due == [] then [] else Place(due[|due| - 1], Ranked(due[..|due| - 1]))
  }

  // ---- the two selection passes -----------------------------------------------------------------------

  datatype Selection = Selection(used: nat, chosen: set<UnitId>, selected: seq<Request>)

  function Take(p: Selection, r: Request): Selection {
    Selection(p.used + r.wireBytes, p.chosen + {r.id}, p.selected + [r])
  }

  /** `wire <= budget - used`, with what is used never above the budget. */
  predicate Fits(p: Selection, r: Request, budget: nat) {
    p.used + r.wireBytes <= budget
  }

  predicate TakesCritical(p: Selection, d: Due, budget: nat, reserve: nat) {
    !d.infeasible && d.request.cadence.critical && p.used < reserve && Fits(p, d.request, budget)
  }

  predicate TakesOpen(p: Selection, d: Due, budget: nat) {
    !d.infeasible && d.request.id !in p.chosen && Fits(p, d.request, budget)
  }

  function CriticalPass(ranked: seq<Due>, budget: nat, reserve: nat): Selection {
    if ranked == [] then Selection(0, {}, [])
    else
      var p := CriticalPass(ranked[..|ranked| - 1], budget, reserve);
      var d := ranked[|ranked| - 1];
      if TakesCritical(p, d, budget, reserve) then Take(p, d.request) else p
  }

  function OpenPass(start: Selection, ranked: seq<Due>, budget: nat): Selection {
    if ranked == [] then start
    else
      var p := OpenPass(start, ranked[..|ranked| - 1], budget);
      var d := ranked[|ranked| - 1];
      if TakesOpen(p, d, budget) then Take(p, d.request) else p
  }

  function ReserveOf(budget: nat, limits: Limits): nat {
    budget * limits.criticalReserve / 10_000
  }

  function Select(ranked: seq<Due>, budget: nat, limits: Limits): Selection {
    OpenPass(CriticalPass(ranked, budget, ReserveOf(budget, limits)), ranked, budget)
  }

  function CountInfeasible(due: seq<Due>): nat {
    if due == [] then 0
    else CountInfeasible(due[..|due| - 1]) + if due[|due| - 1].infeasible then 1 else 0
  }

  function CountDeferred(ranked: seq<Due>, chosen: set<UnitId>): nat {
    if ranked == [] then 0
    else CountDeferred(ranked[..|ranked| - 1], chosen) + if ranked[|ranked| - 1].request.id !in chosen then 1 else 0
  }

  predicate Misses(d: Due, chosen: set<UnitId>) {
    d.request.id !in chosen && Overdue(d)
  }

  function CountMisses(ranked: seq<Due>, chosen: set<UnitId>): nat {
    if ranked == [] then 0
    else CountMisses(ranked[..|ranked| - 1], chosen) + if Misses(ranked[|ranked| - 1], chosen) then 1 else 0
  }

  function CountCriticalMisses(ranked: seq<Due>, chosen: set<UnitId>): nat {
    if ranked == [] then 0
    else
      var d := ranked[|ranked| - 1];
      CountCriticalMisses(ranked[..|ranked| - 1], chosen)
      + if Misses(d, chosen) && d.request.cadence.critical then 1 else 0
  }

  function Choose(round: Round, requests: seq<Request>, budget: nat): (Selection, Metrics)
    requires AllKnown(round, requests)
  {
    var due := DueUnits(round, requests);
    var ranked := Ranked(due);
    var p := Select(ranked, budget, round.limits);
    (p, Metrics(|due|, |p.selected|, p.used, CountDeferred(ranked, p.chosen), CountInfeasible(due),
       CountMisses(ranked, p.chosen), CountCriticalMisses(ranked, p.chosen), OldestAge(round, requests)))
  }

  // ---- scheduling ---------------------------------------------------------------------------------------

  function Admissible(s: Scheduler, barrier: Barrier, requests: seq<Request>, now: nat): Outcome<ScheduleError> {
    if barrier.connection != s.connection then Failed(Unauthorized)
    else if now < s.now || barrier.tick < s.tick || barrier.worldRevision < s.worldRevision
            || barrier.policyRevision < s.policyRevision then Failed(Stale)
    else if |requests| > s.limits.units then Failed(Capacity)
    else
      var check := CheckRequests(requests, {}, {}, barrier, s.limits);
      if check.Failed? then check
      else if s.serial >= U64_MAX then Failed(Capacity)
      else Done
  }

  /** The scheduler at the new barrier, refilled and with the histories of the requested units. */
  function AtBarrier(s: Scheduler, barrier: Barrier, requests: seq<Request>, now: nat): Scheduler {
    s.(tokens := Refilled(s, now), now := now, tick := barrier.tick, worldRevision := barrier.worldRevision,
       policyRevision := barrier.policyRevision, serial := s.serial + 1,
       history := Renewed(s.history, IdsOf(requests), barrier.tick))
  }

  function RoundOf(s: Scheduler, transport: Transport): Round {
    Round(s.history, s.tick, s.limits, transport.maximumAtomicWireBytes)
  }

  function BudgetOf(s: Scheduler, transport: Transport): nat {
    Min(transport.availableWireBytes, s.tokens / NANO)
  }

  lemma RenewedKnown(s: Scheduler, barrier: Barrier, requests: seq<Request>, now: nat, maximumAtomic: nat)
    requires Past(s.history, s.tick) && s.tick <= barrier.tick
    ensures var after := AtBarrier(s, barrier, requests, now);
      Past(after.history, after.tick)
        && AllKnown(Round(after.history, after.tick, after.limits, maximumAtomic), requests)
  {
    var after := AtBarrier(s, barrier, requests, now);
    var round := Round(after.history, after.tick, after.limits, maximumAtomic);
    forall i | 0 <= i < |requests| ensures Known(round, requests[i]) {
      assert requests[i].id in IdsOf(requests);
    }
  }

  /**
   `schedule`: ages are plain subtractions, so a history that lies ahead of the barrier breaks the call after the
   scheduler has moved.
   */
  function Schedule(s: Scheduler, barrier: Barrier, requests: seq<Request>, now: nat, transport: Transport)
    : (Scheduler, Answer<Plan>)
  {
    var admissible := Admissible(s, barrier, requests, now);
    if admissible.Failed? then (s, Refused(admissible.error))
    else
      var after := AtBarrier(s, barrier, requests, now);
      var round := RoundOf(after, transport);
      if !AllKnown(round, requests) then (after, Broken(AgeUnderflow))
      else
        var (p, metrics) := Choose(round, requests, BudgetOf(after, transport));
        (after, Granted(Plan(barrier, after.serial, p.selected, metrics)))
  }

  // ---- transmitting ----------------------------------------------------------------------------------------

  datatype Sent = Sent(units: nat, bytes: nat, rejected: nat)

  function TotalBytes(requests: seq<Request>): nat {
    if requests == [] then 0 else TotalBytes(requests[..|requests| - 1]) + requests[|requests| - 1].wireBytes
  }

  /** The bytes of those units the transport accepted. */
  function AcceptedBytes(requests: seq<Request>, send: nat -> bool): (bytes: nat)
    ensures bytes <= TotalBytes(requests)
  {
    if requests == [] then 0
    else
      AcceptedBytes(requests[..|requests| - 1], send)
      + if send(|requests| - 1) then requests[|requests| - 1].wireBytes else 0
  }

  function CountAccepted(count: nat, send: nat -> bool): (n: nat)
    ensures n <= count
  {
    if count == 0 then 0 else CountAccepted(count - 1, send) + if send(count - 1) then 1 else 0
  }

  /** The histories after the accepted units were stamped with the plan's tick. */
  function Stamped(history: map<UnitId, History>, requests: seq<Request>, send: nat -> bool, tick: nat)
    : (after: map<UnitId, History>)
    requires forall i :: 0 <= i < |requests| && send(i) ==> requests[i].id in history
    ensures after.Keys == history.Keys
  {
    if requests == [] then history
    else
      var most, last := requests[..|requests| - 1], requests[|requests| - 1];
      assert forall i :: 0 <= i < |most| ==> most[i] == requests[i];
      var before := Stamped(history, most, send, tick);
      if send(|most|) then before[last.id := before[last.id].(lastTransmitted := Some(tick))] else before
  }

  predicate IsCurrent(plan: Plan, worldRevision: nat, policyRevision: nat) {
    plan.barrier.worldRevision == worldRevision && plan.barrier.policyRevision == policyRevision
  }

  /** The plan's units are charged and known. */
  predicate Payable(s: Scheduler, plan: Plan) {
    && TotalBytes(plan.selected) * NANO <= s.tokens
    && (forall i :: 0 <= i < |plan.selected| ==> plan.selected[i].id in s.history)
  }

  /** The transmission loop between two units; after a fault nothing more happens. */
  datatype Progress = Progress(tokens: nat, history: map<UnitId, History>, sent: Sent, fault: Option<Fault>)

  /** One unit: an accepted one is charged first and then stamped. */
  function SendOne(p: Progress, r: Request, accepted: bool, tick: nat): Progress {
    var charge := r.wireBytes * NANO;
    if p.fault.Some? then p
    else if !accepted then p.(sent := p.sent.(rejected := p.sent.rejected + 1))
    else if charge > p.tokens then p.(fault := Some(CreditUnderflow))
    else if r.id !in p.history then p.(tokens := p.tokens - charge, fault := Some(UnknownUnit))
    else Progress(p.tokens - charge, p.history[r.id := p.history[r.id].(lastTransmitted := Some(tick))],
                  p.sent.(units := p.sent.units + 1, bytes := p.sent.bytes + r.wireBytes), None)
  }

  function SendEach(tokens: nat, history: map<UnitId, History>, requests: seq<Request>, send: nat -> bool, tick: nat)
    : Progress
  {
    if requests == [] then Progress(tokens, history, Sent(0, 0, 0), None)
    else
      var last := |requests| - 1;
      SendOne(SendEach(tokens, history, requests[..last], send, tick), requests[last], send(last), tick)
  }

  /** `transmit`, for any plan whatever. */
  function Transmit(s: Scheduler, plan: Plan, worldRevision: nat, policyRevision: nat, send: nat -> bool)
    : (Scheduler, Answer<Sent>)
  {
    if plan.serial != s.serial || !IsCurrent(plan, worldRevision, policyRevision) then (s, Refused(Stale))
    else if s.serial >= U64_MAX then (s, Refused(Capacity))
    else
      var p := SendEach(s.tokens, s.history, plan.selected, send, plan.barrier.tick);
      (s.(serial := s.serial + 1, tokens := p.tokens, history := p.history),
       if p.fault.Some? then Broken(p.fault.value) else Granted(p.sent))
  }
}
