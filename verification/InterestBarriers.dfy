/** What the graph's barriers promise over any sequence of changes and frames. */
module InterestBarriers {
  import opened NetTypes
  import opened InterestModel
  import opened InterestWorld
  import opened InterestGraph

  /** A change to the world or its views, which may still be refused for itself; or the opening of a frame. */
  datatype Event = Changing(tick: nat, acceptable: bool) | Preparing(frame: nat, tick: nat, policy: nat)

  /** The graph's counters, and every event that was let through. */
  datatype Barriers = Barriers(
    lastTick: Option<nat>, revision: nat, lastFrame: Option<nat>, lastPolicy: Option<nat>, calls: nat,
    passed: seq<Event>)

  const START := Barriers(None, 0, None, None, 0, [])

  ghost function Outcome(b: Barriers, event: Event): Outcome<GraphError> {
    match event
    case Changing(tick, _) => BarrierOutcome(b.lastTick, b.revision, tick)
    case Preparing(frame, tick, policy) =>
      PrepareOutcome(b.lastFrame, b.lastTick, b.lastPolicy, b.calls, frame, tick, policy)
  }

  predicate Acceptable(event: Event) {
    event.Changing? ==> event.acceptable
  }

  ghost function Next(b: Barriers, event: Event): Barriers {
    if Outcome(b, event).Failed? || !Acceptable(event) then b
    else
      match event
      case Changing(tick, _) => b.(lastTick := Some(tick), revision := b.revision + 1, passed := b.passed + [event])
      case Preparing(frame, tick, policy) =>
        b.(lastFrame := Some(frame), lastTick := Some(tick), lastPolicy := Some(policy), calls := b.calls + 1,
           passed := b.passed + [event])
  }

  ghost function Run(events: seq<Event>): Barriers {
    if events == [] then START else Next(Run(events[..|events| - 1]), events[|events| - 1])
  }

  function Changes(passed: seq<Event>): nat {
    if passed == [] then 0 else Changes(passed[..|passed| - 1]) + if passed[|passed| - 1].Changing? then 1 else 0
  }

  /** Ticks never go back, frames strictly advance and policies never go back. */
  ghost predicate InOrder(passed: seq<Event>) {
    forall i, j :: 0 <= i < j < |passed| ==> Before(passed[i], passed[j])
  }

  predicate Before(a: Event, b: Event) {
    a.tick <= b.tick && (a.Preparing? && b.Preparing? ==> a.frame < b.frame && a.policy <= b.policy)
  }

  /** The counters are those of what passed: the newest of each kind, and how many there were. */
  ghost predicate Inv(b: Barriers) {
    && InOrder(b.passed)
    && b.revision == Changes(b.passed) <= U64_MAX
    && |b.passed| == b.revision + b.calls && b.calls <= U64_MAX
    && (b.lastTick.None? <==> b.passed == [])
    && (b.passed != [] ==> b.lastTick == Some(b.passed[|b.passed| - 1].tick))
    && (b.lastFrame.Some? <==> b.lastPolicy.Some?)
    && (b.lastFrame.None? ==> forall i :: 0 <= i < |b.passed| ==> b.passed[i].Changing?)
    && (b.lastFrame.Some? ==> NewestFrame(b.passed, b.lastFrame.value, b.lastPolicy.value))
  }

  ghost predicate NewestFrame(passed: seq<Event>, frame: nat, policy: nat) {
    forall i :: 0 <= i < |passed| && passed[i].Preparing? ==> passed[i].frame <= frame && passed[i].policy <= policy
  }

  /** What follows the newest tick, frame and policy follows everything. */
  lemma FollowsAll(b: Barriers, event: Event)
    requires Inv(b) && Outcome(b, event).Done?
    ensures InOrder(b.passed + [event])
  {
    var longer := b.passed + [event];
    forall i, j | 0 <= i < j < |longer| ensures Before(longer[i], longer[j]) {
      if j == |b.passed| {
        if i < |b.passed| - 1 {
          assert Before(b.passed[i], b.passed[|b.passed| - 1]);
        }
      } else {
        assert Before(b.passed[i], b.passed[j]);
      }
    }
  }

  lemma OneMoreChange(passed: seq<Event>, event: Event)
    ensures Changes(passed + [event]) == Changes(passed) + if event.Changing? then 1 else 0
  {
    assert (passed + [event])[..|passed|] == passed;
  }

  lemma ChangingKeeps(b: Barriers, event: Event)
    requires Inv(b) && event.Changing? && Outcome(b, event).Done? && Acceptable(event)
    ensures Inv(Next(b, event))
  {
    FollowsAll(b, event);
    OneMoreChange(b.passed, event);
  }

  lemma PreparingKeeps(b: Barriers, event: Event)
    requires Inv(b) && event.Preparing? && Outcome(b, event).Done?
    ensures Inv(Next(b, event))
  {
    FollowsAll(b, event);
    OneMoreChange(b.passed, event);
  }

  lemma NextKeeps(b: Barriers, event: Event)
    requires Inv(b)
    ensures Inv(Next(b, event))
  {
    if Outcome(b, event).Done? && Acceptable(event) {
      if event.Changing? {
        ChangingKeeps(b, event);
      } else {
        PreparingKeeps(b, event);
      }
    }
  }

  /** Over any run what passes is in order, and the revision counts the changes exactly. */
  lemma {:induction false} BarriersNeverGoBack(events: seq<Event>)
    ensures Inv(Run(events))
  {
    if events != [] {
      BarriersNeverGoBack(events[..|events| - 1]);
      NextKeeps(Run(events[..|events| - 1]), events[|events| - 1]);
    }
  }

  /** A change is turned away at the barrier exactly when something later has passed, or no revision is left. */
  lemma {:induction false} TurnedAwayExactly(events: seq<Event>, tick: nat)
    ensures TurnsAway(Run(events), tick)
  {
    BarriersNeverGoBack(events);
    NewestTurnsAway(Run(events), tick);
  }

  ghost predicate TurnsAway(b: Barriers, tick: nat) {
    BarrierOutcome(b.lastTick, b.revision, tick).Failed? <==> Overtaken(b.passed, tick) || Changes(b.passed) == U64_MAX
  }

  lemma {:induction false} NewestTurnsAway(b: Barriers, tick: nat)
    requires Inv(b)
    ensures TurnsAway(b, tick)
  {
    NewestDecides(b, tick);
  }

  /** Something of a later tick has passed. */
  predicate Overtaken(passed: seq<Event>, tick: nat) {
    exists i :: 0 <= i < |passed| && passed[i].tick > tick
  }

  lemma {:induction false} NewestDecides(b: Barriers, tick: nat)
    requires Inv(b)
    ensures Overtaken(b.passed, tick) <==> b.lastTick.Some? && tick < b.lastTick.value
  {
    if i :| 0 <= i < |b.passed| && b.passed[i].tick > tick {
      assert i < |b.passed| - 1 ==> Before(b.passed[i], b.passed[|b.passed| - 1]);
    }
    if b.passed != [] {
      assert b.passed[|b.passed| - 1].tick == b.lastTick.value;
    }
  }
}
