/** What holds over every run of the inbox. */
module InboxRuns {
  import opened NetTypes
  import opened InboxModel
  import opened InboxInvariant
  import opened InboxSteps

  lemma ReadyCutoff(s: Inbox, log: Log)
    requires Inv(s, log)
    ensures CutoffAhead(s) && SelectionRetained(s)
  {
    if s.prepared.Some? && s.prepared.value.sequence.Some? {
      assert PendingOk(s, s.prepared.value.tick);
    }
  }

  /** Two inboxes with the same queue, audit and limits. */
  predicate SameQueue(s: Inbox, after: Inbox) {
    && after.limits == s.limits && after.finalized == s.finalized && after.pending == s.pending
    && after.audit == s.audit && after.auditOrder == s.auditOrder && after.retiredSequence == s.retiredSequence
  }

  lemma SameQueueKeeps(s: Inbox, log: Log, after: Inbox)
    requires SameQueue(s, after) && Queue(s) && Ordered(s) && Honoured(s, log) && Traced(s, log)
    ensures Queue(after) && Ordered(after) && Honoured(after, log) && Traced(after, log)
  {
    forall target | target in after.pending ensures PendingOk(after, target) {
      assert PendingOk(s, target);
    }
    forall sequence | sequence in after.audit ensures AuditOk(after, sequence) {
      assert AuditOk(s, sequence);
    }
    forall a | 0 <= a < |log.accepted|
      ensures Remembered(after, log.accepted[a]) && Served(after, log, log.accepted[a])
    {
      assert Remembered(s, log.accepted[a]) && Served(s, log, log.accepted[a]);
    }
  }

  /** Admission gets as far as filing the command. */
  predicate Files(s: Inbox, command: Command) {
    if command.sequence in s.audit then
      var previous := s.audit[command.sequence];
      previous.command == command && !previous.admission.Accepted? && previous.admission != Late
        && previous.admission != TargetOccupied
    else !Retired(s, command.sequence) && command.sequence <= SaturatingAdd(s.windowFloor, s.limits.sequenceAhead)
  }

  /** Admission files the command, or answers without touching anything. */
  lemma AdmitValidCases(s: Inbox, command: Command)
    requires CutoffAhead(s)
    ensures Files(s, command) ==> AdmitValid(s, command) == File(s, command) && Fileable(s, command)
    ensures !Files(s, command) ==>
      AdmitValid(s, command).0 == s && !(AdmitValid(s, command).1.Ok? && AdmitValid(s, command).1.value.Accepted?)
  {
  }

  lemma AdmitValidKeeps(s: Inbox, log: Log, command: Command)
    requires Inv(s, log) && CutoffAhead(s)
    ensures Inv(AdmitValid(s, command).0, LogAdmission(log, command, AdmitValid(s, command).1))
  {
    AdmitValidCases(s, command);
    if Files(s, command) {
      FileKeeps(s, log, command);
    }
  }

  lemma CountKeeps(s: Inbox, log: Log, submissions: nat)
    requires Inv(s, log)
    ensures Inv(s.(submissions := submissions), log)
  {
    SameQueueKeeps(s, log, s.(submissions := submissions));
  }

  /** The command comes from its owner, within the rate, and is valid. */
  predicate Passes(s: Inbox, connection: nat, command: Command, rules: Rules) {
    && connection == s.owner.connection && command.owner == s.owner
    && s.submissions < s.limits.submissionsPerTick
    && CheckCommand(command, rules, s.limits.maxCommandBytes).Done?
  }

  /** A command that does not pass is an error and costs at most a submission. */
  lemma AdmitCases(s: Inbox, connection: nat, command: Command, rules: Rules)
    requires CutoffAhead(s)
    ensures Passes(s, connection, command, rules) ==>
      Admit(s, connection, command, rules) == AdmitValid(s.(submissions := s.submissions + 1), command)
    ensures !Passes(s, connection, command, rules) ==>
      var (after, answer) := Admit(s, connection, command, rules);
      answer.Err? && after == s.(submissions := after.submissions)
  {
  }

  lemma AdmitKeeps(s: Inbox, log: Log, connection: nat, command: Command, rules: Rules)
    requires Inv(s, log) && CutoffAhead(s)
    ensures Inv(Admit(s, connection, command, rules).0,
      LogAdmission(log, command, Admit(s, connection, command, rules).1))
  {
    AdmitCases(s, connection, command, rules);
    if Passes(s, connection, command, rules) {
      CountKeeps(s, log, s.submissions + 1);
      AdmitValidKeeps(s.(submissions := s.submissions + 1), log, command);
    } else {
      CountKeeps(s, log, Admit(s, connection, command, rules).0.submissions);
    }
  }

  /** Preparing changes nothing but the selection, which is the one the next tick will consume. */
  lemma PrepareReady(s: Inbox, log: Log, rules: Rules)
    requires Summarised(s, log)
    ensures SameQueue(s, PrepareNext(s, rules).0) && Summarised(PrepareNext(s, rules).0, log)
  {
  }

  lemma PrepareKeeps(s: Inbox, log: Log, rules: Rules)
    requires Inv(s, log)
    ensures Inv(PrepareNext(s, rules).0, log)
  {
    PrepareReady(s, log, rules);
    SameQueueKeeps(s, log, PrepareNext(s, rules).0);
  }

  // ---- commit ---------------------------------------------------------------------------------

  function Consumed(p: Prepared): Tick {
    Tick(p.tick, p.sequence, p.input, p.actions)
  }

  function LogCommit(log: Log, p: Prepared): Log {
    log.(ticks := log.ticks + [Consumed(p)])
  }

  lemma FinalizeQueue(s: Inbox, ticks: seq<Tick>)
    requires Queue(s) && Ready(s, ticks) && s.prepared.Some? && SelectionRetained(s)
    ensures Queue(Finalize(s, s.prepared.value))
  {
    var p := s.prepared.value;
    var after := Finalize(s, p);
    forall target | target in after.pending ensures PendingOk(after, target) {
      assert PendingOk(s, target);
      assert p.tick in s.pending ==> PendingOk(s, p.tick);
    }
    forall sequence | sequence in after.audit ensures AuditOk(after, sequence) {
      assert AuditOk(s, sequence);
      assert p.tick in s.pending ==> PendingOk(s, p.tick);
    }
  }

  lemma FinalizeOrder(s: Inbox)
    requires Ordered(s) && s.prepared.Some? && SelectionRetained(s)
    ensures Ordered(Finalize(s, s.prepared.value))
  {
    var after := Finalize(s, s.prepared.value);
    SameOrder(s, after);
  }

  lemma FinalizeHonours(s: Inbox, log: Log)
    requires Queue(s) && Honoured(s, log) && Ready(s, log.ticks) && s.finalized == log.start + |log.ticks|
    requires s.prepared.Some? && SelectionRetained(s)
    ensures Honoured(Finalize(s, s.prepared.value), LogCommit(log, s.prepared.value))
  {
    var p := s.prepared.value;
    var after, log' := Finalize(s, p), LogCommit(log, p);
    forall a | 0 <= a < |log'.accepted|
      ensures Remembered(after, log'.accepted[a]) && Served(after, log', log'.accepted[a])
    {
      var c := log.accepted[a];
      assert Remembered(s, c) && Served(s, log, c);
      assert c.target == p.tick ==> PendingOk(s, p.tick);
    }
  }

  lemma FinalizeTraced(s: Inbox, log: Log)
    requires Queue(s) && Traced(s, log) && Ready(s, log.ticks) && s.prepared.Some? && SelectionRetained(s)
    ensures Traced(Finalize(s, s.prepared.value), LogCommit(log, s.prepared.value))
  {
    var p := s.prepared.value;
    var log' := LogCommit(log, p);
    if p.sequence.Some? {
      assert PendingOk(s, p.tick);
      assert TickOf(s.pending[p.tick]) == Consumed(p) && s.pending[p.tick] in log.accepted;
    }
    forall k | 0 <= k < |log'.ticks|
      ensures log'.ticks[k].tick == log'.start + 1 + k && Justified(log'.accepted, log'.ticks[k])
    {
      assert k < |log.ticks| ==> log'.ticks[k] == log.ticks[k];
    }
  }

  lemma AppendedReceipts(receipts: seq<Receipt>, ticks: seq<Tick>, capacity: nat, t: Tick)
    requires Receipted(receipts, ticks, capacity) && capacity > 0
    ensures Receipted(Appended(receipts, ReceiptOf(t), capacity), ticks + [t], capacity)
  {
    var after, longer := Appended(receipts, ReceiptOf(t), capacity), ticks + [t];
    forall i | 0 <= i < |after| ensures after[i] == ReceiptOf(longer[|longer| - |after| + i]) {
      if i < |after| - 1 {
        var back := i + |receipts| + 1 - |after|;
        assert after[i] == receipts[back];
      }
    }
  }

  lemma FinalizeSummarised(s: Inbox, log: Log)
    requires Summarised(s, log) && ValidLimits(s.limits) && s.prepared.Some? && SelectionRetained(s)
    ensures Summarised(Finalize(s, s.prepared.value), LogCommit(log, s.prepared.value))
  {
    var p := s.prepared.value;
    var longer := log.ticks + [Consumed(p)];
    assert longer[..|longer| - 1] == log.ticks && longer[|longer| - 1] == Consumed(p);
    AppendedReceipts(s.receipts, log.ticks, s.limits.auditRecords, Consumed(p));
  }

  lemma FinalizeKeeps(s: Inbox, log: Log)
    requires Inv(s, log) && s.prepared.Some? && SelectionRetained(s)
    ensures Inv(Finalize(s, s.prepared.value), LogCommit(log, s.prepared.value))
  {
    FinalizeQueue(s, log.ticks);
    FinalizeOrder(s);
    FinalizeHonours(s, log);
    FinalizeTraced(s, log);
    FinalizeSummarised(s, log);
  }

  // ---- runs ------------------------------------------------------------------------------------

  datatype Event =
    | Submit(connection: nat, command: Command, rules: Rules)
    | Prepare(rules: Rules)
    | Finish(tick: nat)

  /** One call on the inbox and what it adds to the log. */
  function Next(s: Inbox, log: Log, event: Event): (Inbox, Log)
    requires CutoffAhead(s) && SelectionRetained(s)
  {
    match event
    case Submit(connection, command, rules) =>
      var (after, answer) := Admit(s, connection, command, rules);
      (after, LogAdmission(log, command, answer))
    case Prepare(rules) => (PrepareNext(s, rules).0, log)
    case Finish(tick) =>
      var (after, answer) := Commit(s, tick);
      (after, if answer.Ok? then LogCommit(log, s.prepared.value) else log)
  }

  lemma NextKeeps(s: Inbox, log: Log, event: Event)
    requires Inv(s, log) && CutoffAhead(s) && SelectionRetained(s)
    ensures Inv(Next(s, log, event).0, Next(s, log, event).1)
  {
    match event
    case Submit(connection, command, rules) => AdmitKeeps(s, log, connection, command, rules);
    case Prepare(rules) => PrepareKeeps(s, log, rules);
    case Finish(tick) =>
      if s.prepared.Some? && s.prepared.value.tick == tick {
        FinalizeKeeps(s, log);
      }
  }

  /** The state and the log after any sequence of calls. */
  ghost function Run(owner: Owner, start: nat, limits: Limits, events: seq<Event>): (r: (Inbox, Log))
    requires ValidLimits(limits) && ValidOwner(owner)
    ensures Inv(r.0, r.1)
  {
    if events == [] then (NewInbox(owner, start, limits).value, Log(start, [], []))
    else
      var (s, log) := Run(owner, start, limits, events[..|events| - 1]);
      ReadyCutoff(s, log);
      NextKeeps(s, log, events[|events| - 1]);
      Next(s, log, events[|events| - 1])
  }
}
