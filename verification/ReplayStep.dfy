/** What the shared transition keeps over any run: speed, ammunition, cooldown and position. */
module ReplayStep {
  import opened ReplayModel

  /** Ranges every reachable state stays in. */
  predicate InRange(s: State) {
    && -8 <= s.velocity <= 8
    && 0 <= s.ammo <= 20
    && 0 <= s.cooldown <= 3
    && 0 <= s.rng < WORD
  }

  lemma StepKeepsRange(s: State, c: Command, dependency: Dependency)
    requires InRange(s)
    ensures InRange(Step(s, c, dependency))
    ensures Step(s, c, dependency).x == s.x + Step(s, c, dependency).velocity
  {
  }

  /** How many ticks up to `t` fired. */
  function Shots(states: seq<State>, commands: seq<Command>, t: nat): nat
    requires t <= |commands| && t < |states|
  {
    if t == 0 then 0 else Shots(states, commands, t - 1) + if Fires(states[t - 1], commands[t - 1]) then 1 else 0
  }

  /** Ammunition is conserved: what is left and what was fired add up to the initial stock. */
  lemma {:induction false} AmmoIsConserved(states: seq<State>, commands: seq<Command>, deps: Dependencies, t: nat)
    requires IsRun(states, commands, deps) && t < |states|
    ensures states[t].ammo + Shots(states, commands, t) == 20 && InRange(states[t])
  {
    if t > 0 {
      AmmoIsConserved(states, commands, deps, t - 1);
      assert StepsTo(states, commands, deps, t - 1);
      StepKeepsRange(states[t - 1], commands[t - 1], DependencyAt(deps, t));
    }
  }

  /** Right after a shot the cooldown counts down from three, one a tick, and nothing fires until it is over. */
  lemma {:induction false} CooldownAfterShot(
    states: seq<State>, commands: seq<Command>, deps: Dependencies, a: nat, t: nat)
    requires IsRun(states, commands, deps) && a < |commands| && Fires(states[a], commands[a])
    requires a < t <= a + 3 && t < |states|
    ensures states[t].cooldown == 4 - (t - a)
  {
    assert StepsTo(states, commands, deps, t - 1);
    if t > a + 1 {
      CooldownAfterShot(states, commands, deps, a, t - 1);
    }
  }

  /** Two shots are at least three ticks apart. */
  lemma ShotsAreSpaced(states: seq<State>, commands: seq<Command>, deps: Dependencies, a: nat, b: nat)
    requires IsRun(states, commands, deps) && a < b < |commands|
    requires Fires(states[a], commands[a]) && Fires(states[b], commands[b])
    ensures b - a >= 3
  {
    if b < a + 3 {
      CooldownAfterShot(states, commands, deps, a, b);
    }
  }

  // ---- motion -------------------------------------------------------------------------------------

  /** Nothing outruns the speed limit: the distance covered between two ticks is at most eight a tick. */
  lemma {:induction false} ReachIsBounded(
    states: seq<State>, commands: seq<Command>, deps: Dependencies, a: nat, b: nat)
    requires IsRun(states, commands, deps) && a <= b < |states|
    ensures -8 * (b - a) <= states[b].x - states[a].x <= 8 * (b - a)
  {
    if a < b {
      ReachIsBounded(states, commands, deps, a, b - 1);
      AmmoIsConserved(states, commands, deps, b - 1);
      assert StepsTo(states, commands, deps, b - 1);
      StepKeepsRange(states[b - 1], commands[b - 1], DependencyAt(deps, b));
    }
  }

  /** What is asked for and pushed at one tick. */
  function Push(commands: seq<Command>, deps: Dependencies, t: nat): int
    requires t < |commands|
  {
    commands[t].move + DependencyAt(deps, t + 1).impulse
  }

  function TotalPush(commands: seq<Command>, deps: Dependencies, t: nat): int
    requires t <= |commands|
  {
    if t == 0 then 0 else TotalPush(commands, deps, t - 1) + Push(commands, deps, t - 1)
  }

  /** While the pushes never add up past the limit, no push is lost: the velocity is their sum. */
  lemma {:induction false} PushesAddUp(states: seq<State>, commands: seq<Command>, deps: Dependencies, t: nat)
    requires IsRun(states, commands, deps) && t < |states|
    requires forall u :: 0 <= u <= t ==> -8 <= TotalPush(commands, deps, u) <= 8
    ensures states[t].velocity == TotalPush(commands, deps, t)
  {
    if t > 0 {
      PushesAddUp(states, commands, deps, t - 1);
      assert StepsTo(states, commands, deps, t - 1);
      assert -8 <= TotalPush(commands, deps, t) <= 8;
    }
  }

  /** Pushing no less at every tick never leaves one slower or behind, limit or not. */
  lemma {:induction false} PushingHarderNeverHurts(
    states: seq<State>, commands: seq<Command>, deps: Dependencies,
    states': seq<State>, commands': seq<Command>, deps': Dependencies, t: nat)
    requires IsRun(states, commands, deps) && IsRun(states', commands', deps') && t < |states| && t < |states'|
    requires forall u :: 0 <= u < t ==> Push(commands, deps, u) <= Push(commands', deps', u)
    ensures states[t].velocity <= states'[t].velocity && states[t].x <= states'[t].x
  {
    if t > 0 {
      PushingHarderNeverHurts(states, commands, deps, states', commands', deps', t - 1);
      assert StepsTo(states, commands, deps, t - 1) && StepsTo(states', commands', deps', t - 1);
      assert Push(commands, deps, t - 1) <= Push(commands', deps', t - 1);
    }
  }
}
