/** The inbox as the program runs it: its maps, queue and watermarks updated in place. */
module InboxObject {
  import opened NetTypes
  import opened InboxModel
  import opened InboxInvariant
  import opened InboxSteps
  import opened InboxRuns

  /** Validates the action edges one by one. */
  method ValidateActions(actions: seq<Edge>, rules: Rules) returns (r: Outcome<CommandError>)
    ensures r == CheckActions(actions, {}, rules)
  {
    var seen: set<nat> := {};
    for i := 0 to |actions|
      invariant CheckActions(actions, {}, rules) == CheckActions(actions[i..], seen, rules)
    {
      var edge := actions[i];
      assert actions[i..][0] == edge && actions[i..][1..] == actions[i + 1..];
      if edge.slot >= 8 || !rules.validAction(edge.action) {
        return Failed(InvalidAction);
      }
      if edge.slot in seen {
        return Failed(DuplicateActionSlot);
      }
      seen := seen + {edge.slot};
    }
    assert actions[|actions|..] == [];
    r := Done;
  }

  /** The position of the oldest record that is not pending, or the length. */
  method FindIdle(order: seq<nat>, audit: map<nat, AuditRecord>) returns (p: nat)
    ensures p == FirstIdle(order, audit)
  {
    p := 0;
    while p < |order| && !Idle(audit, order[p])
      invariant 0 <= p <= |order|
      invariant FirstIdle(order, audit) == p + FirstIdle(order[p..], audit)
    {
      assert order[p..][0] == order[p] && order[p..][1..] == order[p + 1..];
      p := p + 1;
    }
    assert p < |order| ==> order[p..][0] == order[p];
    assert p == |order| ==> order[p..] == [];
  }

  /** The audit with room for one more record, the oldest idle one evicted if it is full. */
  method MakeRoom(s: Inbox, sequence: nat) returns (r: Result<Inbox, CommandError>)
    ensures r == Reserve(s, sequence)
  {
    if sequence in s.audit {
      return Ok(s);
    }
    if |s.audit| != s.limits.auditRecords {
      return Ok(s.(auditOrder := s.auditOrder + [sequence]));
    }
    var p := FindIdle(s.auditOrder, s.audit);
    if p == |s.auditOrder| {
      return Err(AuditFull);
    }
    var evicted := s.auditOrder[p];
    r := Ok(s.(
      auditOrder := s.auditOrder[..p] + s.auditOrder[p + 1..] + [sequence],
      audit := s.audit - {evicted},
      retiredSequence := MaxOption(s.retiredSequence, evicted)));
  }

  lemma ReserveFrame(s: Inbox, sequence: nat)
    requires Reserve(s, sequence).Ok?
    ensures var after := Reserve(s, sequence).value;
      after == s.(audit := after.audit, auditOrder := after.auditOrder, retiredSequence := after.retiredSequence)
  {
  }

  class CommandInbox {
    const owner: Owner
    const limits: Limits
    var finalized: nat
    var pending: map<nat, Command>
    var audit: map<nat, AuditRecord>
    var auditOrder: seq<nat>
    var retiredSequence: Option<nat>
    var highestReceived: Option<nat>
    var windowFloor: nat
    var receipts: seq<Receipt>
    var prepared: Option<Prepared>
    var continuity: Continuity
    var submissions: nat

    /** What the inbox has accepted and committed. */
    ghost var log: Log

    function View(): Inbox
      reads this
    {
      Inbox(owner, limits, finalized, pending, audit, auditOrder, retiredSequence, highestReceived, windowFloor,
            receipts, prepared, continuity, submissions)
    }

    ghost predicate Valid()
      reads this
    {
      Inv(View(), log)
    }

    constructor (owner: Owner, start: nat, limits: Limits)
      requires ValidLimits(limits) && ValidOwner(owner)
      ensures Valid() && Ok(View()) == NewInbox(owner, start, limits) && log == Log(start, [], [])
    {
      this.owner, this.limits, finalized := owner, limits, start;
      pending, audit, auditOrder := map[], map[], [];
      retiredSequence, highestReceived, windowFloor := None, None, 0;
      receipts, prepared, continuity, submissions := [], None, Continuity(None, 0), 0;
      log := Log(start, [], []);
    }

    /** Makes room for one more audit record. */
    method ReserveAudit(sequence: nat) returns (r: Outcome<CommandError>)
      modifies this`audit, this`auditOrder, this`retiredSequence
      ensures match Reserve(old(View()), sequence)
        case Ok(after) => r == Done && View() == after
        case Err(error) => r == Failed(error) && View() == old(View())
    {
      var room := MakeRoom(View(), sequence);
      if room.Err? {
        return Failed(room.error);
      }
      ReserveFrame(View(), sequence);
      audit, auditOrder, retiredSequence := room.value.audit, room.value.auditOrder, room.value.retiredSequence;
      r := Done;
    }

    /** Files a valid command under the answer it gets now. */
    method FileCommand(command: Command) returns (r: Result<Admission, CommandError>)
      requires CutoffAhead(View())
      modifies this`audit, this`auditOrder, this`retiredSequence, this`highestReceived, this`pending
      ensures (View(), r) == File(old(View()), command)
    {
      var cutoff := if prepared.Some? then prepared.value.tick else finalized;
      var admission := if command.target <= cutoff then Late
        else if command.target > SaturatingAdd(finalized, limits.futureTicks) then Future
        else if command.target in pending then TargetOccupied
        else Accepted(command.target - finalized);
      var reserved := ReserveAudit(command.sequence);
      if reserved.Failed? {
        return Err(reserved.error);
      }
      audit := audit[command.sequence := AuditRecord(command, admission, admission.Accepted?)];
      if admission.Accepted? {
        highestReceived := MaxOption(highestReceived, command.sequence);
        pending := pending[command.target := command];
      }
      r := Ok(admission);
    }

    method Admit(connection: nat, command: Command, rules: Rules) returns (r: Result<Admission, CommandError>)
      requires Valid()
      modifies this
      ensures Valid()
      ensures CutoffAhead(old(View())) && (View(), r) == InboxModel.Admit(old(View()), connection, command, rules)
      ensures log == LogAdmission(old(log), command, r)
    {
      ReadyCutoff(View(), log);
      AdmitKeeps(View(), log, connection, command, rules);
      r := Decide(connection, command, rules);
      log := LogAdmission(log, command, r);
    }

    method Decide(connection: nat, command: Command, rules: Rules) returns (r: Result<Admission, CommandError>)
      requires CutoffAhead(View())
      modifies this`audit, this`auditOrder, this`retiredSequence, this`highestReceived, this`pending, this`submissions
      ensures (View(), r) == InboxModel.Admit(old(View()), connection, command, rules)
    {
      if connection != owner.connection || command.owner != owner {
        return Err(WrongOwnerStream);
      }
      if submissions >= limits.submissionsPerTick {
        return Err(RateLimit);
      }
      submissions := submissions + 1;
      if !rules.ownsAt(command.owner, command.target) {
        return Err(OwnershipDenied);
      }
      if command.sequence == 0 || command.target == 0 {
        return Err(InvalidIdentity);
      }
      if !rules.validInput(command.input) {
        return Err(InvalidInput);
      }
      var edges := ValidateActions(command.actions, rules);
      if edges.Failed? {
        return Err(edges.error);
      }
      if rules.encodedBytes(command) > limits.maxCommandBytes {
        return Err(OversizedEncoding);
      }
      r := DecideValid(command);
    }

    method DecideValid(command: Command) returns (r: Result<Admission, CommandError>)
      requires CutoffAhead(View())
      modifies this`audit, this`auditOrder, this`retiredSequence, this`highestReceived, this`pending
      ensures (View(), r) == AdmitValid(old(View()), command)
    {
      if command.sequence in audit {
        var previous := audit[command.sequence];
        if previous.command != command {
          return Err(Equivocation);
        }
        match previous.admission {
          case Accepted(_) => return Ok(Duplicate);
          case Late => return Ok(Late);
          case TargetOccupied => return Ok(TargetOccupied);
          case _ =>
        }
      } else {
        if retiredSequence.Some? && command.sequence <= retiredSequence.value {
          return Ok(RetiredSequence);
        }
        if command.sequence > SaturatingAdd(windowFloor, limits.sequenceAhead) {
          return Err(SequenceWindow);
        }
      }
      r := FileCommand(command);
    }

    method PrepareNext(rules: Rules) returns (r: Result<Prepared, CommandError>)
      requires Valid()
      modifies this`prepared
      ensures Valid() && (View(), r) == InboxModel.PrepareNext(old(View()), rules)
    {
      PrepareKeeps(View(), log, rules);
      if prepared.Some? {
        return Err(TickInProgress);
      }
      if finalized >= U64_MAX {
        return Err(TickExhausted);
      }
      var tick := finalized + 1;
      if !rules.ownsAt(owner, tick) {
        return Err(OwnershipDenied);
      }
      var chosen: Prepared;
      if tick in pending {
        var command := pending[tick];
        chosen := Prepared(tick, Some(command.sequence), command.input, command.actions, 0);
      } else {
        var (input, missing) := Substitute(continuity, limits.heldGraceTicks, rules);
        if !rules.validInput(input) {
          return Err(InvalidSubstitute);
        }
        chosen := Prepared(tick, None, input, [], missing);
      }
      prepared := Some(chosen);
      r := Ok(chosen);
    }

    method Commit(tick: nat) returns (r: Result<Receipt, CommandError>)
      requires Valid()
      modifies this
      ensures Valid()
      ensures SelectionRetained(old(View())) && (View(), r) == InboxModel.Commit(old(View()), tick)
      ensures r.Err? ==> log == old(log)
      ensures r.Ok? ==> old(prepared).Some? && log == LogCommit(old(log), old(prepared).value)
    {
      ReadyCutoff(View(), log);
      if prepared.None? {
        return Err(NothingPrepared);
      }
      if prepared.value.tick != tick {
        return Err(WrongCommitTick);
      }
      FinalizeKeeps(View(), log);
      log := LogCommit(log, prepared.value);
      r := Ok(Receipt(tick, prepared.value.sequence));
      Apply(prepared.value);
    }

    /** The in-place update of a commit. */
    method Apply(p: Prepared)
      requires p.sequence.Some? ==> p.sequence.value in audit
      modifies this`prepared, this`windowFloor, this`continuity, this`pending, this`audit, this`finalized,
        this`submissions, this`receipts
      ensures View() == Finalize(old(View()), p)
    {
      Consume(p);
      prepared, finalized, submissions := None, p.tick, 0;
      receipts := Appended(receipts, Receipt(p.tick, p.sequence), limits.auditRecords);
    }

    /** The window, the continuity and, for a real command, the queue and its audit record. */
    method Consume(p: Prepared)
      requires p.sequence.Some? ==> p.sequence.value in audit
      modifies this`windowFloor, this`continuity, this`pending, this`audit
      ensures windowFloor == Finalize(old(View()), p).windowFloor && continuity == Finalize(old(View()), p).continuity
      ensures pending == Finalize(old(View()), p).pending && audit == Finalize(old(View()), p).audit
    {
      windowFloor := SaturatingAdd(windowFloor, 1);
      if p.sequence.Some? {
        var sequence := p.sequence.value;
        continuity := Continuity(Some(p.input), 0);
        windowFloor := Max(windowFloor, sequence);
        pending := pending - {p.tick};
        audit := audit[sequence := audit[sequence].(pending := false)];
      }
      continuity := continuity.(missingStreak := p.missingStreak);
    }
  }

  /** An inbox for a valid owner and configuration, or the reason there is none. */
  method Create(owner: Owner, start: nat, limits: Limits) returns (r: Result<CommandInbox, CommandError>)
    ensures match NewInbox(owner, start, limits)
      case Ok(s) => r.Ok? && fresh(r.value) && r.value.Valid() && r.value.View() == s
        && r.value.log == Log(start, [], [])
      case Err(error) => r == Err(error)
  {
    if !ValidLimits(limits) {
      return Err(InvalidConfiguration);
    }
    if !ValidOwner(owner) {
      return Err(InvalidIdentity);
    }
    var inbox := new CommandInbox(owner, start, limits);
    r := Ok(inbox);
  }
}
