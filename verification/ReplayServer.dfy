/**
 The reference server over whole runs (todo/reference_model/model.py): its audit forgets sequences, so an action can
 come round again; it never does while accepted sequences differ.
 */
module ReplayServer {
  import opened NetTypes
  import opened ReplayModel

  datatype Admission = Accepted | Duplicate | Late | Future

  datatype Receipt = Receipt(tick: int, sequence: Option<int>)

  datatype Server = Server(
    epoch: int, futureWindow: nat, heldGrace: nat, auditWindow: nat, dependencies: Dependencies,
    state: State, pending: map<int, Command>, admitted: map<int, Command>, receipts: map<int, Receipt>,
    history: map<int, State>, committed: set<ActionKey>, lastMove: int, missingStreak: nat, highestReceived: int)

  function NewServer(
    epoch: int, futureWindow: nat, heldGrace: nat, auditWindow: nat, dependencies: Dependencies): Server
  {
    Server(epoch, futureWindow, heldGrace, auditWindow, dependencies,
           START, map[], map[], map[], map[0 := START], {}, 0, 0, 0)
  }

  /** Admission: refused, repeated, out of the window, or queued under its target. */
  function Verdict(s: Server, command: Command): Result<Admission, ReplayError> {
    if !ValidCommand(command) || command.epoch != s.epoch || command.stream != 1 then Err(ProtocolError)
    else if command.seqNo in s.admitted then
      (if s.admitted[command.seqNo] == command then Ok(Duplicate) else Err(ProtocolError))
    else if command.target <= s.state.tick then Ok(Late)
    else if command.target > s.state.tick + s.futureWindow then Ok(Future)
    else if command.target in s.pending then Err(ProtocolError)
    else Ok(Accepted)
  }

  function Submit(s: Server, command: Command): (Server, Result<Admission, ReplayError>) {
    var verdict := Verdict(s, command);
    if verdict != Ok(Accepted) then (s, verdict)
    else
      (s.(pending := s.pending[command.target := command], admitted := s.admitted[command.seqNo := command],
          highestReceived := Max(s.highestReceived, command.seqNo)), verdict)
  }

  /** The command the next tick will execute: the queued one, or a held or neutral substitute that never fires. */
  function Upcoming(s: Server): Command {
    var tick := s.state.tick + 1;
    if tick in s.pending then s.pending[tick]
    else Command(0, tick, if s.missingStreak + 1 <= s.heldGrace then s.lastMove else 0, false, s.epoch, 1)
  }

  /** The server once the next tick's command is taken and executed. */
  function Stepped(s: Server): Server {
    var tick, command := s.state.tick + 1, Upcoming(s);
    s.(state := Step(s.state, command, DependencyAt(s.dependencies, tick)),
       pending := s.pending - {tick},
       lastMove := if tick in s.pending then command.move else s.lastMove,
       missingStreak := if tick in s.pending then 0 else s.missingStreak + 1)
  }

  function TargetedAfter(admitted: map<int, Command>, oldest: int): map<int, Command> {
    map q | q in admitted && admitted[q].target > oldest :: admitted[q]
  }

  /** The tick is recorded and what has left the audit window is dropped. */
  function Recorded(s: Server, tick: int, receipt: Receipt): Server {
    var oldest := tick - s.auditWindow;
    s.(history := RetainedFrom(s.history[tick := s.state], oldest),
       receipts := RetainedFrom(s.receipts[tick := receipt], oldest + 1),
       admitted := TargetedAfter(s.admitted, oldest))
  }

  function ReceiptOf(s: Server): Receipt {
    var tick := s.state.tick + 1;
    Receipt(tick, if tick in s.pending then Some(s.pending[tick].seqNo) else None)
  }

  /** `advance`: the tick is executed even when its action turns out to be an old one, and is then not recorded. */
  function Advance(s: Server): (Server, Result<Receipt, ReplayError>) {
    var command, stepped := Upcoming(s), Stepped(s);
    var key := KeyOf(command);
    if !Fires(s.state, command) then (Recorded(stepped, s.state.tick + 1, ReceiptOf(s)), Ok(ReceiptOf(s)))
    else if key in s.committed then (stepped, Err(ExecutedTwice))
    else
      (Recorded(stepped.(committed := s.committed + {key}), s.state.tick + 1, ReceiptOf(s)), Ok(ReceiptOf(s)))
  }

  // ---- runs --------------------------------------------------------------------------------------------

  datatype Event = Submitting(command: Command) | Advancing

  /** A server, every command it accepted, those whose action it committed, and whether it ever met one again. */
  datatype Log = Log(server: Server, accepted: seq<Command>, fired: seq<Command>, twice: bool)

  function Next(log: Log, event: Event): Log {
    match event
    case Submitting(command) =>
      var (after, r) := Submit(log.server, command);
      log.(server := after, accepted := if r == Ok(Accepted) then log.accepted + [command] else log.accepted)
    case Advancing =>
      var (after, r) := Advance(log.server);
      var command := Upcoming(log.server);
      log.(server := after, twice := log.twice || r.Err?,
           fired := if r.Ok? && Fires(log.server.state, command) then log.fired + [command] else log.fired)
  }

  function Run(log: Log, events: seq<Event>): Log {
    if events == [] then log else Next(Run(log, events[..|events| - 1]), events[|events| - 1])
  }

  function Fresh(s: Server): Log {
    Log(s, [], [], false)
  }

  predicate DistinctSequences(commands: seq<Command>) {
    forall i, j :: 0 <= i < j < |commands| ==> commands[i].seqNo != commands[j].seqNo
  }

  predicate FiredBefore(fired: seq<Command>, sequence: int) {
    exists i :: 0 <= i < |fired| && fired[i].seqNo == sequence
  }

  predicate Ours(s: Server, c: Command) {
    c.epoch == s.epoch && c.stream == 1 && c.seqNo > 0
  }

  /** The queue holds accepted commands of later ticks; what fired was accepted for an earlier one. */
  ghost predicate Inv(log: Log) {
    var s := log.server;
    && (forall t :: t in s.pending ==>
      s.pending[t].target == t > s.state.tick && s.pending[t] in log.accepted && Ours(s, s.pending[t]))
    && (forall i :: 0 <= i < |log.fired| ==> FiredOk(log, log.fired[i]))
    && (forall key :: key in s.committed <==> KeyFired(log.fired, key))
  }

  predicate FiredOk(log: Log, c: Command) {
    c in log.accepted && c.target <= log.server.state.tick && Ours(log.server, c)
  }

  predicate KeyFired(fired: seq<Command>, key: ActionKey) {
    exists i :: 0 <= i < |fired| && KeyOf(fired[i]) == key
  }

  lemma FreshInv(epoch: int, futureWindow: nat, heldGrace: nat, auditWindow: nat, dependencies: Dependencies)
    ensures Inv(Fresh(NewServer(epoch, futureWindow, heldGrace, auditWindow, dependencies)))
  {
  }

  lemma {:induction false} KeyFiredMore(fired: seq<Command>, c: Command, key: ActionKey)
    ensures KeyFired(fired + [c], key) <==> KeyFired(fired, key) || key == KeyOf(c)
  {
    var more := fired + [c];
    if KeyFired(fired, key) {
      var i :| 0 <= i < |fired| && KeyOf(fired[i]) == key;
      assert KeyOf(more[i]) == key;
    }
    if key == KeyOf(c) {
      assert KeyOf(more[|fired|]) == key;
    }
  }

  lemma SubmittingKeeps(log: Log, command: Command)
    requires Inv(log)
    ensures Inv(Next(log, Submitting(command)))
  {
    var after := Next(log, Submitting(command));
    var s := after.server;
    forall t | t in s.pending
      ensures s.pending[t].target == t > s.state.tick && s.pending[t] in after.accepted && Ours(s, s.pending[t])
    {
      if s.pending[t] != command {
        assert s.pending[t] in log.accepted;
      }
    }
    forall i | 0 <= i < |after.fired| ensures FiredOk(after, after.fired[i]) {
      assert FiredOk(log, log.fired[i]);
    }
  }

  /** The upcoming command, when it fires, is an accepted one. */
  lemma FiringIsQueued(log: Log)
    requires Inv(log) && Fires(log.server.state, Upcoming(log.server))
    ensures var c := Upcoming(log.server);
      c in log.accepted && c.target == log.server.state.tick + 1 && Ours(log.server, c)
  {
  }

  lemma AdvancingKeeps(log: Log)
    requires Inv(log)
    ensures Inv(Next(log, Advancing))
  {
    var after := Next(log, Advancing);
    var s, s' := log.server, after.server;
    var command := Upcoming(s);
    assert s'.state.tick == s.state.tick + 1 by {
      assert command.target == s.state.tick + 1;
    }
    if Fires(s.state, command) {
      FiringIsQueued(log);
    }
    forall i | 0 <= i < |after.fired| ensures FiredOk(after, after.fired[i]) {
      if i < |log.fired| {
        assert FiredOk(log, log.fired[i]);
      }
    }
    forall key ensures key in s'.committed <==> KeyFired(after.fired, key) {
      if after.fired != log.fired {
        KeyFiredMore(log.fired, command, key);
      }
    }
  }

  lemma {:induction false} RunKeeps(log: Log, events: seq<Event>)
    requires Inv(log)
    ensures Inv(Run(log, events))
  {
    if events != [] {
      RunKeeps(log, events[..|events| - 1]);
      var before, last := Run(log, events[..|events| - 1]), events[|events| - 1];
      match last
      case Submitting(command) => SubmittingKeeps(before, command);
      case Advancing => AdvancingKeeps(before);
    }
  }

  /** A tick fails exactly when its command fires under a sequence whose action was committed before. */
  lemma FailsExactly(log: Log)
    requires Inv(log)
    ensures var command := Upcoming(log.server);
      Advance(log.server).1.Err? <==> Fires(log.server.state, command) && FiredBefore(log.fired, command.seqNo)
  {
    var command := Upcoming(log.server);
    if Fires(log.server.state, command) {
      FiringIsQueued(log);
      if KeyFired(log.fired, KeyOf(command)) {
        var i :| 0 <= i < |log.fired| && KeyOf(log.fired[i]) == KeyOf(command);
      }
      if FiredBefore(log.fired, command.seqNo) {
        var i :| 0 <= i < |log.fired| && log.fired[i].seqNo == command.seqNo;
        assert FiredOk(log, log.fired[i]);
        assert KeyOf(log.fired[i]) == KeyOf(command);
      }
    }
  }

  // ---- when it never happens ------------------------------------------------------------------------------

  lemma OneCommandEach(commands: seq<Command>, a: Command, b: Command)
    requires DistinctSequences(commands) && a in commands && b in commands && a.seqNo == b.seqNo
    ensures a == b
  {
    var i :| 0 <= i < |commands| && commands[i] == a;
    var j :| 0 <= j < |commands| && commands[j] == b;
    assert i == j;
  }

  lemma DistinctNext(log: Log)
    requires Inv(log) && DistinctSequences(log.accepted)
    ensures Advance(log.server).1.Ok?
  {
    FailsExactly(log);
    var command := Upcoming(log.server);
    if Fires(log.server.state, command) && FiredBefore(log.fired, command.seqNo) {
      FiringIsQueued(log);
      var i :| 0 <= i < |log.fired| && log.fired[i].seqNo == command.seqNo;
      assert FiredOk(log, log.fired[i]);
      OneCommandEach(log.accepted, command, log.fired[i]);
    }
  }

  lemma AcceptedGrows(log: Log, event: Event)
    ensures log.accepted <= Next(log, event).accepted
  {
  }

  lemma DistinctPrefix(a: seq<Command>, b: seq<Command>)
    requires a <= b && DistinctSequences(b)
    ensures DistinctSequences(a)
  {
    forall i, j | 0 <= i < j < |a| ensures a[i].seqNo != a[j].seqNo {
      assert a[i] == b[i] && a[j] == b[j];
    }
  }

  /** A run whose accepted commands have different sequences never meets an action twice, whatever the audit forgets. */
  lemma {:induction false} DistinctRunsNeverFail(log: Log, events: seq<Event>)
    requires Inv(log) && !log.twice && DistinctSequences(Run(log, events).accepted)
    ensures !Run(log, events).twice
  {
    if events != [] {
      var before, last := Run(log, events[..|events| - 1]), events[|events| - 1];
      AcceptedGrows(before, last);
      DistinctPrefix(before.accepted, Run(log, events).accepted);
      DistinctRunsNeverFail(log, events[..|events| - 1]);
      RunKeeps(log, events[..|events| - 1]);
      DistinctNext(before);
    }
  }

  /** So a new server, whatever its windows, executes no action twice while accepted sequences differ. */
  lemma DistinctSequencesFireOnce(
    epoch: int, futureWindow: nat, heldGrace: nat, auditWindow: nat, dependencies: Dependencies, events: seq<Event>)
    requires DistinctSequences(
      Run(Fresh(NewServer(epoch, futureWindow, heldGrace, auditWindow, dependencies)), events).accepted)
    ensures !Run(Fresh(NewServer(epoch, futureWindow, heldGrace, auditWindow, dependencies)), events).twice
  {
    FreshInv(epoch, futureWindow, heldGrace, auditWindow, dependencies);
    DistinctRunsNeverFail(Fresh(NewServer(epoch, futureWindow, heldGrace, auditWindow, dependencies)), events);
  }

  // ---- when it does ------------------------------------------------------------------------------------------

  /** The same firing command again, for another tick. */
  function Shot(epoch: int, target: int): Command {
    Command(1, target, 0, true, epoch, 1)
  }

  /**
   The shot of the first tick is committed, the weapon has cooled down so far, and the audit still knows it or not.
   */
  predicate Cooling(s: Server, n: nat) {
    && s.state.tick == n && s.state.ammo == 19 && s.state.cooldown == Max(0, 4 - n)
    && s.pending == map[] && s.committed == {KeyOf(Shot(s.epoch, 1))}
    && s.admitted == if n <= s.auditWindow then map[1 := Shot(s.epoch, 1)] else map[]
  }

  function Waits(n: nat): seq<Event> {
    if n == 0 then [] else Waits(n - 1) + [Advancing]
  }

  lemma ShotIsFired(s: Server)
    requires s.epoch > 0 && s.futureWindow >= 1
      && s == NewServer(s.epoch, s.futureWindow, s.heldGrace, s.auditWindow, s.dependencies)
    ensures var queued := Submit(s, Shot(s.epoch, 1)).0;
      Submit(s, Shot(s.epoch, 1)).1 == Ok(Accepted) && Cooling(Advance(queued).0, 1) && Advance(queued).1.Ok?
  {
    var queued := Submit(s, Shot(s.epoch, 1)).0;
    assert Upcoming(queued) == Shot(s.epoch, 1);
    assert queued.pending - {1} == map[];
  }

  lemma CoolingWaits(s: Server, n: nat)
    requires n >= 1 && Cooling(s, n)
    ensures Cooling(Advance(s).0, n + 1) && Advance(s).1.Ok?
    ensures Configured(s, Advance(s).0)
  {
    assert !Fires(s.state, Upcoming(s));
    var after := Advance(s).0;
    assert s.pending - {n + 1} == map[];
  }

  predicate Configured(s: Server, s': Server) {
    s'.epoch == s.epoch && s'.futureWindow == s.futureWindow && s'.auditWindow == s.auditWindow
  }

  lemma CoolingNext(log: Log, n: nat)
    requires n >= 1 && Cooling(log.server, n)
    ensures Cooling(Next(log, Advancing).server, n + 1) && Configured(log.server, Next(log, Advancing).server)
  {
    CoolingWaits(log.server, n);
  }

  lemma {:induction false} CoolingRun(log: Log, n: nat, k: nat, waits: seq<Event>)
    requires n >= 1 && Cooling(log.server, n) && waits == Waits(k)
    ensures Cooling(Run(log, waits).server, n + k) && Configured(log.server, Run(log, waits).server)
  {
    if k > 0 {
      var most := waits[..|waits| - 1];
      assert most == Waits(k - 1) && waits[|waits| - 1] == Advancing;
      CoolingRun(log, n, k - 1, most);
      CoolingNext(Run(log, most), n + k - 1);
    }
  }

  /** The audit has forgotten the sequence, so it is accepted again, and its shot fails the next tick. */
  lemma ForgottenShotFails(s: Server, n: nat)
    requires n >= 3 && n > s.auditWindow && s.futureWindow >= 1 && s.epoch > 0 && Cooling(s, n)
    ensures var (queued, verdict) := Submit(s, Shot(s.epoch, n + 1));
      verdict == Ok(Accepted) && Advance(queued).1 == Err(ExecutedTwice)
  {
    var queued := Submit(s, Shot(s.epoch, n + 1)).0;
    assert Upcoming(queued) == Shot(s.epoch, n + 1);
    assert KeyOf(Shot(s.epoch, n + 1)) == KeyOf(Shot(s.epoch, 1));
  }

  lemma RunSplit(log: Log, a: seq<Event>, b: Event)
    ensures Run(log, a + [b]) == Next(Run(log, a), b)
  {
    assert (a + [b])[..|a|] == a;
  }

  lemma {:induction false} RunThen(log: Log, a: seq<Event>, b: seq<Event>)
    ensures Run(log, a + b) == Run(Run(log, a), b)
  {
    if b == [] {
      assert a + b == a;
    } else {
      var last := |b| - 1;
      assert a + b == (a + b[..last]) + [b[last]];
      RunSplit(log, a + b[..last], b[last]);
      RunThen(log, a, b[..last]);
    }
  }

  /** Fire once, wait until the audit has forgotten it, and fire again under the same sequence. */
  function Again(epoch: int, wait: nat): seq<Event> {
    [Submitting(Shot(epoch, 1)), Advancing] + Waits(wait) + [Submitting(Shot(epoch, wait + 2)), Advancing]
  }

  lemma FirstShot(log: Log)
    requires log.server.epoch > 0 && log.server.futureWindow >= 1 && log == Fresh(log.server)
    requires var s := log.server; s == NewServer(s.epoch, s.futureWindow, s.heldGrace, s.auditWindow, s.dependencies)
    ensures var after := Run(log, [Submitting(Shot(log.server.epoch, 1)), Advancing]);
      Cooling(after.server, 1) && Configured(log.server, after.server)
  {
    var first := Submitting(Shot(log.server.epoch, 1));
    assert [first, Advancing] == [first] + [Advancing] && [first] == [] + [first];
    RunSplit(log, [first], Advancing);
    RunSplit(log, [], first);
    ShotIsFired(log.server);
  }

  lemma LastShot(log: Log, n: nat)
    requires n >= 3 && n > log.server.auditWindow && log.server.futureWindow >= 1 && log.server.epoch > 0
    requires Cooling(log.server, n)
    ensures Run(log, [Submitting(Shot(log.server.epoch, n + 1)), Advancing]).twice
  {
    var second := Submitting(Shot(log.server.epoch, n + 1));
    assert [second, Advancing] == [second] + [Advancing] && [second] == [] + [second];
    RunSplit(log, [second], Advancing);
    RunSplit(log, [], second);
    ForgottenShotFails(log.server, n);
  }

  /** Whatever the audit window, some run has a sequence accepted again and its action met twice. */
  lemma EveryWindowForgets(epoch: int, futureWindow: nat, heldGrace: nat, auditWindow: nat, dependencies: Dependencies)
    requires epoch > 0 && futureWindow >= 1
    ensures Run(Fresh(NewServer(epoch, futureWindow, heldGrace, auditWindow, dependencies)),
      Again(epoch, auditWindow + 2)).twice
  {
    var log := Fresh(NewServer(epoch, futureWindow, heldGrace, auditWindow, dependencies));
    var first := [Submitting(Shot(epoch, 1)), Advancing];
    var wait := auditWindow + 2;
    var second := [Submitting(Shot(epoch, wait + 2)), Advancing];
    FirstShot(log);
    CoolingRun(Run(log, first), 1, wait, Waits(wait));
    RunThen(log, first, Waits(wait));
    LastShot(Run(log, first + Waits(wait)), wait + 1);
    RunThen(log, first + Waits(wait), second);
  }
}
