/**
 Target-tick command admission (engine/net/src/commands.rs) as transitions of a value.
 Inputs and actions are opaque codes; the fingerprint of a command is the command itself.
 */
module InboxModel {
  import opened NetTypes

  const U32_MAX: nat := 0xFFFF_FFFF

  type Input = int

  datatype Edge = Edge(slot: nat, action: int)

  datatype Owner = Owner(connection: nat, epoch: nat, stream: nat, entity: EntityId, ownership: nat)

  datatype Command = Command(owner: Owner, sequence: nat, target: nat, input: Input, actions: seq<Edge>)

  /** The game's callbacks, and the size of a command's encoding. */
  datatype Rules = Rules(
    ownsAt: (Owner, nat) -> bool,
    validInput: Input -> bool,
    validAction: int -> bool,
    heldInput: Input -> Input,
    neutralInput: Input,
    encodedBytes: Command -> nat)

  datatype Limits = Limits(
    futureTicks: nat,
    heldGraceTicks: nat,
    auditRecords: nat,
    sequenceAhead: nat,
    maxCommandBytes: nat,
    submissionsPerTick: nat)

  datatype CommandError =
    | InvalidConfiguration
    | WrongOwnerStream
    | OwnershipDenied
    | InvalidIdentity
    | InvalidInput
    | InvalidAction
    | DuplicateActionSlot
    | OversizedEncoding
    | Equivocation
    | SequenceWindow
    | AuditFull
    | RateLimit
    | TickInProgress
    | TickExhausted
    | NothingPrepared
    | WrongCommitTick
    | InvalidSubstitute

  datatype Admission = Accepted(arrivalSlack: nat) | Duplicate | Late | Future | TargetOccupied | RetiredSequence

  datatype Receipt = Receipt(tick: nat, sequence: Option<nat>)

  datatype Prepared = Prepared(tick: nat, sequence: Option<nat>, input: Input, actions: seq<Edge>, missingStreak: nat)

  datatype AuditRecord = AuditRecord(command: Command, admission: Admission, pending: bool)

  datatype Continuity = Continuity(lastInput: Option<Input>, missingStreak: nat)

  datatype Inbox = Inbox(
    owner: Owner,
    limits: Limits,
    finalized: nat,
    pending: map<nat, Command>,
    audit: map<nat, AuditRecord>,
    auditOrder: seq<nat>,
    retiredSequence: Option<nat>,
    highestReceived: Option<nat>,
    windowFloor: nat,
    receipts: seq<Receipt>,
    prepared: Option<Prepared>,
    continuity: Continuity,
    submissions: nat)

  predicate ValidLimits(limits: Limits) {
    && 0 < limits.futureTicks <= 12
    && limits.heldGraceTicks <= 3
    && limits.futureTicks <= limits.auditRecords
    && limits.futureTicks <= limits.sequenceAhead
    && limits.maxCommandBytes > 0
    && limits.submissionsPerTick > 0
  }

  predicate ValidOwner(owner: Owner) {
    owner.epoch != 0 && owner.stream != 0 && owner.entity.generation != 0 && owner.ownership != 0
  }

  function NewInbox(owner: Owner, start: nat, limits: Limits): Result<Inbox, CommandError> {
    if !ValidLimits(limits) then Err(InvalidConfiguration)
    else if !ValidOwner(owner) then Err(InvalidIdentity)
    else Ok(Inbox(owner, limits, start, map[], map[], [], None, None, 0, [], None, Continuity(None, 0), 0))
  }

  // ---- admission ------------------------------------------------------------------------

  /** The first offending edge decides the error. */
  function CheckActions(actions: seq<Edge>, seen: set<nat>, rules: Rules): Outcome<CommandError> {
    if actions == [] then Done
    else if actions[0].slot >= 8 || !rules.validAction(actions[0].action) then Failed(InvalidAction)
    else if actions[0].slot in seen then Failed(DuplicateActionSlot)
    else CheckActions(actions[1..], seen + {actions[0].slot}, rules)
  }

  function CheckCommand(command: Command, rules: Rules, maxBytes: nat): Outcome<CommandError> {
    if !rules.ownsAt(command.owner, command.target) then Failed(OwnershipDenied)
    else if command.sequence == 0 || command.target == 0 then Failed(InvalidIdentity)
    else if !rules.validInput(command.input) then Failed(InvalidInput)
    else
      var edges := CheckActions(command.actions, {}, rules);
      if edges.Failed? then edges
      else if rules.encodedBytes(command) > maxBytes then Failed(OversizedEncoding)
      else Done
  }

  predicate Retired(s: Inbox, sequence: nat) {
    s.retiredSequence.Some? && sequence <= s.retiredSequence.value
  }

  function Cutoff(s: Inbox): nat {
    if s.prepared.Some? then s.prepared.value.tick else s.finalized
  }

  /** Preparing a tick moves the cutoff forward, never behind the finalized tick. */
  predicate CutoffAhead(s: Inbox) {
    s.finalized <= Cutoff(s)
  }

  function Classify(s: Inbox, command: Command): Admission
    requires CutoffAhead(s)
  {
    if command.target <= Cutoff(s) then Late
    else if command.target > SaturatingAdd(s.finalized, s.limits.futureTicks) then Future
    else if command.target in s.pending then TargetOccupied
    else Accepted(command.target - s.finalized)
  }

  predicate Idle(audit: map<nat, AuditRecord>, sequence: nat) {
    sequence in audit && !audit[sequence].pending
  }

  /** The place in the audit order of the oldest record that is not pending. */
  function FirstIdle(order: seq<nat>, audit: map<nat, AuditRecord>): (p: nat)
    ensures p <= |order|
  {
    if order == [] || Idle(audit, order[0]) then 0 else 1 + FirstIdle(order[1..], audit)
  }

  function MaxOption(current: Option<nat>, value: nat): Option<nat> {
    Some(if current.Some? && current.value > value then current.value else value)
  }

  /** `reserve_audit`: room for one more record, evicting the oldest idle one if full. */
  function Reserve(s: Inbox, sequence: nat): Result<Inbox, CommandError> {
    if sequence in s.audit then Ok(s)
    else if |s.audit| == s.limits.auditRecords then
      var p := FirstIdle(s.auditOrder, s.audit);
      if p == |s.auditOrder| then Err(AuditFull)
      else
        var evicted := s.auditOrder[p];
        Ok(s.(audit := s.audit - {evicted},
              retiredSequence := MaxOption(s.retiredSequence, evicted),
              auditOrder := s.auditOrder[..p] + s.auditOrder[p + 1..] + [sequence]))
    else Ok(s.(auditOrder := s.auditOrder + [sequence]))
  }

  function Record(s: Inbox, command: Command, admission: Admission): Inbox {
    var recorded := s.(audit := s.audit[command.sequence := AuditRecord(command, admission, admission.Accepted?)]);
    if admission.Accepted? then
      recorded.(highestReceived := MaxOption(s.highestReceived, command.sequence),
                pending := s.pending[command.target := command])
    else recorded
  }

  function File(s: Inbox, command: Command): (Inbox, Result<Admission, CommandError>)
    requires CutoffAhead(s)
  {
    var admission := Classify(s, command);
    var reserved := Reserve(s, command.sequence);
    if reserved.Err? then (s, Err(reserved.error)) else (Record(reserved.value, command, admission), Ok(admission))
  }

  function AdmitValid(s: Inbox, command: Command): (Inbox, Result<Admission, CommandError>)
    requires CutoffAhead(s)
  {
    if command.sequence in s.audit then
      var previous := s.audit[command.sequence];
      if previous.command != command then (s, Err(Equivocation))
      else match previous.admission
        case Accepted(_) => (s, Ok(Duplicate))
        case Late => (s, Ok(Late))
        case TargetOccupied => (s, Ok(TargetOccupied))
        case _ => File(s, command)
    else if Retired(s, command.sequence) then (s, Ok(RetiredSequence))
    else if command.sequence > SaturatingAdd(s.windowFloor, s.limits.sequenceAhead) then (s, Err(SequenceWindow))
    else File(s, command)
  }

  function Admit(s: Inbox, connection: nat, command: Command, rules: Rules): (Inbox, Result<Admission, CommandError>)
    requires CutoffAhead(s)
  {
    if connection != s.owner.connection || command.owner != s.owner then (s, Err(WrongOwnerStream))
    else if s.submissions >= s.limits.submissionsPerTick then (s, Err(RateLimit))
    else
      var counted := s.(submissions := s.submissions + 1);
      var check := CheckCommand(command, rules, s.limits.maxCommandBytes);
      if check.Failed? then (counted, Err(check.error)) else AdmitValid(counted, command)
  }

  // ---- preparing and committing a tick -----------------------------------------------------

  function Substitute(c: Continuity, grace: nat, rules: Rules): (Input, nat) {
    var missing := if c.missingStreak >= U32_MAX then U32_MAX else c.missingStreak + 1;
    (if missing <= grace && c.lastInput.Some? then rules.heldInput(c.lastInput.value) else rules.neutralInput, missing)
  }

  function Selection(s: Inbox, tick: nat, rules: Rules): Result<Prepared, CommandError> {
    if tick in s.pending then
      var command := s.pending[tick];
      Ok(Prepared(tick, Some(command.sequence), command.input, command.actions, 0))
    else
      var (input, missing) := Substitute(s.continuity, s.limits.heldGraceTicks, rules);
      if !rules.validInput(input) then Err(InvalidSubstitute) else Ok(Prepared(tick, None, input, [], missing))
  }

  function PrepareNext(s: Inbox, rules: Rules): (Inbox, Result<Prepared, CommandError>) {
    if s.prepared.Some? then (s, Err(TickInProgress))
    else if s.finalized >= U64_MAX then (s, Err(TickExhausted))
    else if !rules.ownsAt(s.owner, s.finalized + 1) then (s, Err(OwnershipDenied))
    else
      var selection := Selection(s, s.finalized + 1, rules);
      if selection.Err? then (s, selection) else (s.(prepared := Some(selection.value)), selection)
  }

  function Appended(receipts: seq<Receipt>, receipt: Receipt, capacity: nat): seq<Receipt> {
    (if |receipts| == capacity && |receipts| > 0 then receipts[1..] else receipts) + [receipt]
  }

  /** The state once the tick prepared as `p` has been simulated. */
  function Finalize(s: Inbox, p: Prepared): Inbox
    requires p.sequence.Some? ==> p.sequence.value in s.audit
  {
    var raised := SaturatingAdd(s.windowFloor, 1);
    var common := s.(
      prepared := None, finalized := p.tick, submissions := 0,
      receipts := Appended(s.receipts, Receipt(p.tick, p.sequence), s.limits.auditRecords));
    if p.sequence.Some? then
      var sequence := p.sequence.value;
      common.(windowFloor := Max(raised, sequence),
              pending := s.pending - {p.tick},
              audit := s.audit[sequence := s.audit[sequence].(pending := false)],
              continuity := Continuity(Some(p.input), p.missingStreak))
    else common.(windowFloor := raised, continuity := s.continuity.(missingStreak := p.missingStreak))
  }

  /** The record of a selected command is still in the audit. */
  predicate SelectionRetained(s: Inbox) {
    s.prepared.Some? && s.prepared.value.sequence.Some? ==> s.prepared.value.sequence.value in s.audit
  }

  function Commit(s: Inbox, tick: nat): (Inbox, Result<Receipt, CommandError>)
    requires SelectionRetained(s)
  {
    if s.prepared.None? then (s, Err(NothingPrepared))
    else if s.prepared.value.tick != tick then (s, Err(WrongCommitTick))
    else (Finalize(s, s.prepared.value), Ok(Receipt(tick, s.prepared.value.sequence)))
  }
}
