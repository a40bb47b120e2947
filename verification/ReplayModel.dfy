/**
 Prediction and reconciliation (todo/reference_model/model.py): one shared transition, an
 authoritative server and a client that restores a server state and replays its own commands.
 */
module ReplayModel {
  import opened NetTypes

  datatype ActionKey = ActionKey(epoch: int, stream: int, commandSeq: int, slot: int)

  datatype Command = Command(seqNo: int, target: int, move: int, fire: bool, epoch: int, stream: int)

  datatype State = State(tick: int, x: int, velocity: int, ammo: int, cooldown: int, rng: int)

  datatype Dependency = Dependency(revision: int, impulse: int)

  datatype ReplayError = ProtocolError | ResyncRequired | ExecutedTwice

  const START := State(0, 0, 0, 20, 0, 7)
  const NO_DEPENDENCY := Dependency(0, 0)
  const WORD: int := 0x1_0000_0000

  function KeyOf(c: Command): ActionKey {
    ActionKey(c.epoch, c.stream, c.seqNo, 0)
  }

  predicate ValidCommand(c: Command) {
    c.seqNo > 0 && c.target > 0 && c.epoch > 0 && c.stream > 0 && -1 <= c.move <= 1
  }

  predicate Fires(state: State, c: Command) {
    c.fire && state.ammo > 0 && Max(0, state.cooldown - 1) == 0
  }

  /** The state at the end of the command's tick. */
  function Step(state: State, c: Command, dependency: Dependency): State {
    var velocity := Max(-8, Min(8, state.velocity + c.move + dependency.impulse));
    var cooldown := Max(0, state.cooldown - 1);
    if Fires(state, c)
    then State(c.target, state.x + velocity, velocity, state.ammo - 1, 3, (1664525 * state.rng + 1013904223) % WORD)
    else State(c.target, state.x + velocity, velocity, state.ammo, cooldown, state.rng)
  }

  function EventsOf(state: State, c: Command): seq<ActionKey> {
    if Fires(state, c) then [KeyOf(c)] else []
  }

  type Dependencies = map<int, Dependency>

  function DependencyAt(deps: Dependencies, tick: int): Dependency {
    if tick in deps then deps[tick] else NO_DEPENDENCY
  }

  // ---- replay ------------------------------------------------------------------------------

  /** Commands are stored under their own target, for every tick after `from` up to `end`. */
  predicate Covers(commands: map<int, Command>, from: int, end: int) {
    forall tick :: from < tick <= end ==> tick in commands && commands[tick].target == tick
  }

  /** The state at the end of tick `end`, replayed from `start`. */
  function Replayed(start: State, commands: map<int, Command>, deps: Dependencies, end: int): State
    requires start.tick <= end && Covers(commands, start.tick, end)
    decreases end - start.tick
  {
    if end == start.tick then start
    else Step(Replayed(start, commands, deps, end - 1), commands[end], DependencyAt(deps, end))
  }

  /** The events of tick `end`, replayed from `start`. */
  function ReplayedEvents(start: State, commands: map<int, Command>, deps: Dependencies, end: int): seq<ActionKey>
    requires start.tick < end && Covers(commands, start.tick, end)
  {
    EventsOf(Replayed(start, commands, deps, end - 1), commands[end])
  }

  // ---- the server's run -------------------------------------------------------------------------

  /** States S[0..n] of a run: each tick's command and dependency applied to the state before it. */
  ghost predicate IsRun(states: seq<State>, commands: seq<Command>, deps: Dependencies) {
    && |states| == |commands| + 1
    && states[0] == START
    && forall t :: 0 <= t < |commands| ==> StepsTo(states, commands, deps, t)
  }

  predicate StepsTo(states: seq<State>, commands: seq<Command>, deps: Dependencies, t: nat)
    requires t < |commands| && t + 1 < |states|
  {
    commands[t].target == t + 1 && states[t + 1] == Step(states[t], commands[t], DependencyAt(deps, t + 1))
  }

  lemma {:induction false} RunTick(states: seq<State>, commands: seq<Command>, deps: Dependencies, t: nat)
    requires IsRun(states, commands, deps) && t < |states|
    ensures states[t].tick == t
  {
    if t > 0 {
      assert StepsTo(states, commands, deps, t - 1);
    }
  }

  /** The same effect on the state, whoever numbered the command. */
  predicate SameInput(a: Command, b: Command) {
    a.target == b.target && a.move == b.move && a.fire == b.fire
  }

  lemma SameStep(state: State, a: Command, b: Command, dependency: Dependency)
    requires SameInput(a, b)
    ensures Step(state, a, dependency) == Step(state, b, dependency)
  {
  }

  /** Client and server run the same inputs and dependencies at the ticks after `k` up to `p`. */
  ghost predicate Agree(
    commands: map<int, Command>, deps: Dependencies, executed: seq<Command>, serverDeps: Dependencies, k: nat, p: nat)
  {
    && p <= |executed|
    && (forall t :: k < t <= p ==>
          t in commands && SameInput(commands[t], executed[t - 1])
            && DependencyAt(deps, t) == DependencyAt(serverDeps, t))
  }

  lemma AgreedCovers(
    states: seq<State>, executed: seq<Command>, serverDeps: Dependencies,
    commands: map<int, Command>, deps: Dependencies, k: nat, p: nat)
    requires IsRun(states, executed, serverDeps) && k <= p < |states|
    requires Agree(commands, deps, executed, serverDeps, k, p)
    ensures Covers(commands, k, p)
  {
    forall t | k < t <= p ensures t in commands && commands[t].target == t {
      assert StepsTo(states, executed, serverDeps, t - 1);
      assert SameInput(commands[t], executed[t - 1]);
    }
  }

  /** Restoring the server's state at `k` and replaying gives the server's state at every later tick. */
  lemma {:induction false} ReplayMatchesServer(
    states: seq<State>, executed: seq<Command>, serverDeps: Dependencies,
    commands: map<int, Command>, deps: Dependencies, k: nat, p: nat)
    requires IsRun(states, executed, serverDeps) && k <= p < |states|
    requires Agree(commands, deps, executed, serverDeps, k, p)
    ensures states[k].tick == k && Covers(commands, k, p)
    ensures Replayed(states[k], commands, deps, p) == states[p]
    decreases p
  {
    RunTick(states, executed, serverDeps, k);
    AgreedCovers(states, executed, serverDeps, commands, deps, k, p);
    if k < p {
      ReplayMatchesServer(states, executed, serverDeps, commands, deps, k, p - 1);
      assert StepsTo(states, executed, serverDeps, p - 1);
      assert SameInput(commands[p], executed[p - 1]);
      SameStep(states[p - 1], commands[p], executed[p - 1], DependencyAt(deps, p));
    }
  }

  // ---- reconciliation --------------------------------------------------------------------------------

  datatype Client = Client(
    state: State, history: map<int, State>, commands: map<int, Command>, events: map<int, seq<ActionKey>>,
    dependencies: Dependencies, historyCapacity: nat, replayCap: nat, lastAuthoritative: int)

  function NewClient(historyCapacity: nat, replayCap: nat, dependencies: Dependencies): Client {
    Client(START, map[0 := START], map[], map[], dependencies, historyCapacity, replayCap, -1)
  }

  function RetainedFrom<V>(m: map<int, V>, floor: int): map<int, V> {
    map t | t in m && t >= floor :: m[t]
  }

  function Predict(c: Client, command: Command): Result<Client, ReplayError> {
    if !ValidCommand(command) || command.target in c.commands
      || command.target != c.state.tick + 1 then Err(ProtocolError)
    else
      var next := Step(c.state, command, DependencyAt(c.dependencies, command.target));
      var oldest := next.tick - c.historyCapacity;
      Ok(c.(state := next,
            commands := RetainedFrom(c.commands[command.target := command], oldest + 1),
            events := RetainedFrom(c.events[command.target := EventsOf(c.state, command)], oldest + 1),
            history := RetainedFrom(c.history[command.target := next], oldest)))
  }

  /** The client's record: commands under their targets, exactly those of the retained ticks. */
  ghost predicate Inv(c: Client) {
    && c.state.tick >= 0
    && (forall t :: t in c.commands <==> 0 < t && c.state.tick - c.historyCapacity < t <= c.state.tick)
    && (forall t :: t in c.commands ==> c.commands[t].target == t)
    && c.state.tick in c.history && c.history[c.state.tick] == c.state
    && c.lastAuthoritative <= c.state.tick
  }

  /** All commands to replay from `k` are there. */
  predicate HasCommands(c: Client, k: int) {
    forall t :: k < t <= c.state.tick ==> t in c.commands
  }

  /** The only gap in the retained commands is the part that fell out of the history. */
  lemma MissingExactly(c: Client, k: int)
    requires Inv(c) && k <= c.state.tick
    ensures HasCommands(c, k) <==> k == c.state.tick || (k >= 0 && c.state.tick - c.historyCapacity <= k)
  {
    if k < c.state.tick {
      var first := k + 1;
      assert HasCommands(c, k) ==> first in c.commands;
    }
  }

  /** What reconciling answers, and whether it replays. */
  datatype Answer = Ignored | Replays | Refused

  function Judge(c: Client, authoritative: State): Answer {
    if authoritative.tick <= c.lastAuthoritative then Ignored
    else if authoritative.tick > c.state.tick then Refused
    else if c.state.tick - authoritative.tick > c.replayCap then Refused
    else if !HasCommands(c, authoritative.tick) then Refused
    else Replays
  }

  /** The history holds every replayed state from `from` to `end`. */
  ghost predicate HoldsStates(
    history: map<int, State>, start: State, commands: map<int, Command>, deps: Dependencies, end: int)
    requires start.tick <= end && Covers(commands, start.tick, end)
  {
    forall t :: start.tick <= t <= end ==> t in history && history[t] == Replayed(start, commands, deps, t)
  }

  ghost predicate HoldsEvents(
    events: map<int, seq<ActionKey>>, start: State, commands: map<int, Command>, deps: Dependencies, end: int)
    requires start.tick <= end && Covers(commands, start.tick, end)
  {
    forall t :: start.tick < t <= end ==> t in events && events[t] == ReplayedEvents(start, commands, deps, t)
  }

  /** Two tables agree outside the ticks from `low` to `high`. */
  ghost predicate SameOutside<V>(before: map<int, V>, after: map<int, V>, low: int, high: int) {
    forall t :: !(low <= t <= high) ==> (t in after <==> t in before) && (t in after ==> after[t] == before[t])
  }

  /** The client after replaying from the authoritative state, with the dependencies it brought. */
  ghost predicate Reconciled(c: Client, authoritative: State, deps: Dependencies, after: Client) {
    var k, p := authoritative.tick, c.state.tick;
    && k <= p && Covers(c.commands, k, p)
    && after.state == Replayed(authoritative, c.commands, deps, p)
    && after.dependencies == deps && after.lastAuthoritative == k
    && after.commands == c.commands && after.historyCapacity == c.historyCapacity && after.replayCap == c.replayCap
    && HoldsStates(after.history, authoritative, c.commands, deps, p) && SameOutside(c.history, after.history, k, p)
    && HoldsEvents(after.events, authoritative, c.commands, deps, p) && SameOutside(c.events, after.events, k + 1, p)
  }

  lemma PredictKeeps(c: Client, command: Command)
    requires Inv(c) && Predict(c, command).Ok?
    ensures Inv(Predict(c, command).value)
  {
    var after := Predict(c, command).value;
    assert after.state.tick == c.state.tick + 1;
  }

  lemma ReconcileKeeps(c: Client, authoritative: State, deps: Dependencies, after: Client)
    requires Inv(c) && Reconciled(c, authoritative, deps, after)
    ensures Inv(after)
  {
    var p := c.state.tick;
    assert after.state.tick == p;
    assert after.history[p] == Replayed(authoritative, c.commands, deps, p);
  }
}
