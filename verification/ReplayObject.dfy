/** The reference server and client as objects, and the agreement between them. */
module ReplayObject {
  import opened NetTypes
  import opened ReplayModel
  import opened ReplayServer

  /** The queue lies in the window, and the history is part of the run. */
  ghost predicate Sound(s: Server, states: seq<State>) {
    && (forall t :: t in s.pending ==> s.pending[t].target == t && s.state.tick < t <= s.state.tick + s.futureWindow)
    && (forall t :: t in s.history ==> 0 <= t < |states| && s.history[t] == states[t])
  }

  lemma AdvancedSound(s: Server, states: seq<State>)
    requires Sound(s, states) && s.state.tick == |states| - 1
    ensures var after := ReplayServer.Advance(s).0; Sound(after, states + [after.state])
  {
    assert Upcoming(s).target == s.state.tick + 1;
  }

  class ReferenceServer {
    const epoch: int
    const futureWindow: nat
    const heldGrace: nat
    const auditWindow: nat
    const dependencies: Dependencies
    var state: State
    var pending: map<int, Command>
    var admitted: map<int, Command>
    var receipts: map<int, Receipt>
    var history: map<int, State>
    var committedActions: set<ActionKey>
    var lastMove: int
    var missingStreak: nat
    var highestReceived: int

    /** Every state of the run and every command it executed. */
    ghost var states: seq<State>
    ghost var executed: seq<Command>

    function View(): Server
      reads this
    {
      Server(epoch, futureWindow, heldGrace, auditWindow, dependencies, state, pending, admitted, receipts, history,
             committedActions, lastMove, missingStreak, highestReceived)
    }

    ghost predicate Valid()
      reads this
    {
      Running() && Sound(View(), states)
    }

    /** The current state is the last of a run. */
    ghost predicate Running()
      reads this
    {
      IsRun(states, executed, dependencies) && state == states[|states| - 1] && state.tick == |executed|
    }

    constructor (epoch: int, futureWindow: nat, heldGrace: nat, auditWindow: nat, dependencies: Dependencies)
      ensures Valid() && states == [START] && executed == []
      ensures View() == NewServer(epoch, futureWindow, heldGrace, auditWindow, dependencies)
    {
      this.epoch, this.futureWindow, this.heldGrace, this.auditWindow := epoch, futureWindow, heldGrace, auditWindow;
      this.dependencies := dependencies;
      state, pending, admitted, receipts, history := START, map[], map[], map[], map[0 := START];
      committedActions, lastMove, missingStreak, highestReceived := {}, 0, 0, 0;
      states, executed := [START], [];
    }

    /** Queues the command exactly when it is accepted, and otherwise changes nothing. */
    method Submit(command: Command) returns (r: Result<Admission, ReplayError>)
      requires Valid()
      modifies this`pending, this`admitted, this`highestReceived
      ensures Valid() && (View(), r) == ReplayServer.Submit(old(View()), command)
    {
      if !ValidCommand(command) || command.epoch != epoch || command.stream != 1 {
        return Err(ProtocolError);
      }
      if command.seqNo in admitted {
        return if admitted[command.seqNo] != command then Err(ProtocolError) else Ok(Duplicate);
      }
      if command.target <= state.tick {
        return Ok(Late);
      }
      if command.target > state.tick + futureWindow {
        return Ok(Future);
      }
      if command.target in pending {
        return Err(ProtocolError);
      }
      pending := pending[command.target := command];
      admitted := admitted[command.seqNo := command];
      highestReceived := Max(highestReceived, command.seqNo);
      r := Ok(Accepted);
    }

    /** Takes the next tick's command off the queue, or makes up a substitute. */
    method TakeCommand() returns (command: Command, receipt: Receipt)
      requires forall t :: t in pending ==> pending[t].target == t
      modifies this`pending, this`lastMove, this`missingStreak
      ensures command == Upcoming(old(View())) && command.target == state.tick + 1
      ensures var s := Stepped(old(View())); View() == s.(state := state)
      ensures receipt == ReceiptOf(old(View()))
    {
      var tick := state.tick + 1;
      if tick !in pending {
        missingStreak := missingStreak + 1;
        command := Command(0, tick, if missingStreak <= heldGrace then lastMove else 0, false, epoch, 1);
        receipt := Receipt(tick, None);
        assert pending - {tick} == pending;
      } else {
        command := pending[tick];
        pending := pending - {tick};
        missingStreak, lastMove := 0, command.move;
        receipt := Receipt(tick, Some(command.seqNo));
      }
    }

    /** Records the tick and drops what has left the audit window. */
    method Retain(tick: int, receipt: Receipt)
      modifies this`admitted, this`receipts, this`history
      ensures View() == Recorded(old(View()), tick, receipt)
    {
      var oldest := tick - auditWindow;
      receipts := RetainedFrom(receipts[tick := receipt], oldest + 1);
      history := RetainedFrom(history[tick := state], oldest);
      admitted := TargetedAfter(admitted, oldest);
    }

    /** One authoritative tick. The run is extended even when the action check fails. */
    method Advance() returns (r: Result<Receipt, ReplayError>)
      requires Valid()
      modifies this`state, this`pending, this`admitted, this`receipts, this`history, this`committedActions,
        this`lastMove, this`missingStreak, this`states, this`executed
      ensures Valid() && (View(), r) == ReplayServer.Advance(old(View()))
      ensures executed == old(executed) + [Upcoming(old(View()))] && states == old(states) + [state]
    {
      var tick := state.tick + 1;
      ghost var before := View();
      AdvancedSound(before, states);
      var command, receipt := TakeCommand();
      var once := Execute(command);
      assert View() == Stepped(before).(committed := committedActions);
      if !once {
        return Err(ExecutedTwice);
      }
      Retain(tick, receipt);
      r := Ok(receipt);
    }

    /** Applies the command and commits its action, unless that was committed before. */
    method Execute(command: Command) returns (once: bool)
      requires Running() && command.target == state.tick + 1
      modifies this`state, this`states, this`executed, this`committedActions
      ensures Running() && executed == old(executed) + [command] && states == old(states) + [state]
      ensures state == Step(old(state), command, DependencyAt(dependencies, command.target))
      ensures once <==> !(Fires(old(state), command) && KeyOf(command) in old(committedActions))
      ensures committedActions ==
        if once && Fires(old(state), command) then old(committedActions) + {KeyOf(command)} else old(committedActions)
    {
      var events := EventsOf(state, command);
      ExtendRun(states, executed, dependencies, command);
      state := Step(state, command, DependencyAt(dependencies, command.target));
      states, executed := states + [state], executed + [command];
      once := true;
      if events != [] {
        once := events[0] !in committedActions;
        if once {
          committedActions := committedActions + {events[0]};
        }
      }
    }
  }

  lemma ExtendRun(states: seq<State>, executed: seq<Command>, deps: Dependencies, command: Command)
    requires IsRun(states, executed, deps) && command.target == |executed| + 1
    ensures states[|states| - 1].tick == |executed|
    ensures var next := Step(states[|states| - 1], command, DependencyAt(deps, |executed| + 1));
      IsRun(states + [next], executed + [command], deps)
  {
    RunTick(states, executed, deps, |states| - 1);
    var next := Step(states[|states| - 1], command, DependencyAt(deps, |executed| + 1));
    var longer, more := states + [next], executed + [command];
    forall t | 0 <= t < |more| ensures StepsTo(longer, more, deps, t) {
      if t < |executed| {
        assert StepsTo(states, executed, deps, t);
      }
    }
  }

  // ---- the client --------------------------------------------------------------------------

  class ReferenceClient {
    const historyCapacity: nat
    const replayCap: nat
    var state: State
    var history: map<int, State>
    var commands: map<int, Command>
    var events: map<int, seq<ActionKey>>
    var dependencies: Dependencies
    var lastAuthoritative: int

    function View(): Client
      reads this
    {
      Client(state, history, commands, events, dependencies, historyCapacity, replayCap, lastAuthoritative)
    }

    ghost predicate Valid()
      reads this
    {
      ReplayModel.Inv(View())
    }

    constructor (historyCapacity: nat, replayCap: nat, dependencies: Dependencies)
      ensures Valid() && View() == NewClient(historyCapacity, replayCap, dependencies)
    {
      this.historyCapacity, this.replayCap, this.dependencies := historyCapacity, replayCap, dependencies;
      state, history, commands, events, lastAuthoritative := START, map[0 := START], map[], map[], -1;
    }

    method Predict(command: Command) returns (r: Outcome<ReplayError>)
      requires Valid()
      modifies this`state, this`history, this`commands, this`events
      ensures Valid()
      ensures match ReplayModel.Predict(old(View()), command)
        case Ok(after) => r == Done && View() == after
        case Err(error) => r == Failed(error) && View() == old(View())
    {
      if !ValidCommand(command) || command.target in commands || command.target != state.tick + 1 {
        return Failed(ProtocolError);
      }
      PredictKeeps(View(), command);
      Record(command);
      r := Done;
    }

    method Record(command: Command)
      requires ReplayModel.Predict(View(), command).Ok?
      modifies this`state, this`history, this`commands, this`events
      ensures Ok(View()) == ReplayModel.Predict(old(View()), command)
    {
      var next := Step(state, command, DependencyAt(dependencies, command.target));
      var oldest := next.tick - historyCapacity;
      commands := RetainedFrom(commands[command.target := command], oldest + 1);
      events := RetainedFrom(events[command.target := EventsOf(state, command)], oldest + 1);
      history := RetainedFrom(history[command.target := next], oldest);
      state := next;
    }

    /** Restore and replay, or change nothing. */
    method Reconcile(authoritative: State, corrections: Dependencies) returns (r: Result<bool, ReplayError>)
      requires Valid()
      modifies this`state, this`history, this`events, this`dependencies, this`lastAuthoritative
      ensures Valid()
      ensures match Judge(old(View()), authoritative)
        case Ignored => r == Ok(false) && View() == old(View())
        case Refused => r == Err(ResyncRequired) && View() == old(View())
        case Replays => r == Ok(true) && Reconciled(old(View()), authoritative, old(dependencies) + corrections, View())
    {
      var k, p := authoritative.tick, state.tick;
      if k <= lastAuthoritative {
        return Ok(false);
      }
      if k > p || p - k > replayCap {
        return Err(ResyncRequired);
      }
      var complete := AllPresent(commands, k, p);
      if !complete {
        return Err(ResyncRequired);
      }
      var deps := dependencies + corrections;
      ghost var before := View();
      var last, replayed, fired := Replay(authoritative, commands, deps, p);
      state := last;
      dependencies := deps;
      history := history + replayed;
      events := events + fired;
      lastAuthoritative := k;
      ReconcileKeeps(before, authoritative, deps, View());
      r := Ok(true);
    }
  }

  method AllPresent(commands: map<int, Command>, k: int, p: int) returns (complete: bool)
    requires k <= p
    ensures complete == forall t :: k < t <= p ==> t in commands
  {
    var t := k + 1;
    while t <= p
      invariant k < t <= p + 1
      invariant forall u :: k < u < t ==> u in commands
    {
      if t !in commands {
        return false;
      }
      t := t + 1;
    }
    complete := true;
  }

  lemma HoldsMore(
    history: map<int, State>, events: map<int, seq<ActionKey>>, start: State, commands: map<int, Command>,
    deps: Dependencies, tick: int)
    requires start.tick < tick && Covers(commands, start.tick, tick - 1) && Covers(commands, start.tick, tick)
    requires HoldsStates(history, start, commands, deps, tick - 1)
      && HoldsEvents(events, start, commands, deps, tick - 1)
    ensures HoldsStates(history[tick := Replayed(start, commands, deps, tick)], start, commands, deps, tick)
    ensures HoldsEvents(events[tick := ReplayedEvents(start, commands, deps, tick)], start, commands, deps, tick)
  {
    var states := history[tick := Replayed(start, commands, deps, tick)];
    forall t | start.tick <= t <= tick ensures t in states && states[t] == Replayed(start, commands, deps, t) {
      assert t < tick ==> history[t] == Replayed(start, commands, deps, t);
    }
    var more := events[tick := ReplayedEvents(start, commands, deps, tick)];
    forall t | start.tick < t <= tick ensures t in more && more[t] == ReplayedEvents(start, commands, deps, t) {
      assert t < tick ==> events[t] == ReplayedEvents(start, commands, deps, t);
    }
  }

  /** Replays up to `end` on a staged state, collecting each tick's state and events. */
  method Replay(start: State, commands: map<int, Command>, deps: Dependencies, end: int)
    returns (last: State, history: map<int, State>, events: map<int, seq<ActionKey>>)
    requires start.tick <= end && Covers(commands, start.tick, end)
    ensures last == Replayed(start, commands, deps, end)
    ensures HoldsStates(history, start, commands, deps, end) && forall t :: t in history ==> start.tick <= t <= end
    ensures HoldsEvents(events, start, commands, deps, end) && forall t :: t in events ==> start.tick < t <= end
  {
    last := start;
    history := map[start.tick := start];
    events := map[];
    var tick := start.tick;
    while tick < end
      invariant start.tick <= tick <= end && Covers(commands, start.tick, tick)
      invariant last == Replayed(start, commands, deps, tick)
      invariant HoldsStates(history, start, commands, deps, tick)
      invariant forall t :: t in history ==> start.tick <= t <= tick
      invariant HoldsEvents(events, start, commands, deps, tick) && forall t :: t in events ==> start.tick < t <= tick
    {
      tick := tick + 1;
      HoldsMore(history, events, start, commands, deps, tick);
      events := events[tick := EventsOf(last, commands[tick])];
      last := Step(last, commands[tick], DependencyAt(deps, tick));
      history := history[tick := last];
    }
  }

  /**
   A client that reconciles from the server's state at `k`, having run the same inputs, holds the server's states
   from there on.
   */
  lemma ReconciledIsServer(
    c: Client, after: Client, deps: Dependencies,
    states: seq<State>, executed: seq<Command>, serverDeps: Dependencies, k: nat, t: nat)
    requires IsRun(states, executed, serverDeps) && k <= t <= c.state.tick < |states|
    requires states[k].tick == k && Reconciled(c, states[k], deps, after)
    requires Agree(c.commands, deps, executed, serverDeps, k, c.state.tick)
    ensures t in after.history && after.history[t] == states[t]
    ensures t == c.state.tick ==> after.state == states[t]
  {
    assert Agree(c.commands, deps, executed, serverDeps, k, t);
    ReplayMatchesServer(states, executed, serverDeps, c.commands, deps, k, t);
    assert after.history[t] == Replayed(states[k], c.commands, deps, t);
  }
}
