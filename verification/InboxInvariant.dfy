/** What every run of the inbox keeps about its queue, its audit and the ticks it has served. */
module InboxInvariant {
  import opened NetTypes
  import opened InboxModel

  /** What the simulation consumed at one tick. */
  datatype Tick = Tick(tick: nat, sequence: Option<nat>, input: Input, actions: seq<Edge>)

  /** Everything a run has answered Accepted, and every tick it has committed, in order. */
  datatype Log = Log(start: nat, accepted: seq<Command>, ticks: seq<Tick>)

  function TickOf(c: Command): Tick {
    Tick(c.target, Some(c.sequence), c.input, c.actions)
  }

  // ---- the queue and its audit ---------------------------------------------------------

  predicate PendingOk(s: Inbox, target: nat)
    requires target in s.pending
  {
    var c := s.pending[target];
    && c.target == target
    && s.finalized < target <= s.finalized + s.limits.futureTicks
    && c.sequence in s.audit
    && s.audit[c.sequence].command == c && s.audit[c.sequence].admission.Accepted? && s.audit[c.sequence].pending
  }

  predicate AuditOk(s: Inbox, sequence: nat)
    requires sequence in s.audit
  {
    var record := s.audit[sequence];
    && record.command.sequence == sequence
    && (record.pending ==> record.command.target in s.pending && s.pending[record.command.target] == record.command)
  }

  /** Pending commands and pending audit records are in bijection, inside the future window. */
  ghost predicate Queue(s: Inbox) {
    && (forall target :: target in s.pending ==> PendingOk(s, target))
    && (forall sequence :: sequence in s.audit ==> AuditOk(s, sequence))
  }

  function SequenceAt(order: seq<nat>, i: nat): nat
    requires i < |order|
  {
    order[i]
  }

  ghost predicate Distinct(order: seq<nat>) {
    forall i, j :: 0 <= i < j < |order| ==> SequenceAt(order, i) != SequenceAt(order, j)
  }

  /** The audit order lists every record once and stays within its limit. */
  ghost predicate Ordered(s: Inbox) {
    && Distinct(s.auditOrder)
    && (forall sequence :: sequence in s.auditOrder <==> sequence in s.audit)
    && |s.audit| <= s.limits.auditRecords
  }

  // ---- continuity, as the committed ticks determine it --------------------------------------

  /** The input of the last tick that executed a command. */
  function LastInput(ticks: seq<Tick>): Option<Input> {
    if ticks == [] then None
    else if ticks[|ticks| - 1].sequence.Some? then Some(ticks[|ticks| - 1].input)
    else LastInput(ticks[..|ticks| - 1])
  }

  /** How many ticks in a row, up to now, had no command. */
  function Missing(ticks: seq<Tick>): nat {
    if ticks == [] || ticks[|ticks| - 1].sequence.Some? then 0 else 1 + Missing(ticks[..|ticks| - 1])
  }

  function ContinuityOf(ticks: seq<Tick>): Continuity {
    Continuity(LastInput(ticks), Min(U32_MAX, Missing(ticks)))
  }

  function FloorOf(ticks: seq<Tick>): nat {
    if ticks == [] then 0
    else
      var raised, last := SaturatingAdd(FloorOf(ticks[..|ticks| - 1]), 1), ticks[|ticks| - 1];
      if last.sequence.Some? then Max(raised, last.sequence.value) else raised
  }

  function HighestOf(accepted: seq<Command>): Option<nat> {
    if accepted == [] then None
    else MaxOption(HighestOf(accepted[..|accepted| - 1]), accepted[|accepted| - 1].sequence)
  }

  /** The selection waiting for its commit: the command due at the next tick, or a substitute. */
  predicate Ready(s: Inbox, ticks: seq<Tick>) {
    s.prepared.Some? ==>
      var p := s.prepared.value;
      && p.tick == s.finalized + 1
      && (if p.tick in s.pending then
            p == Prepared(
              p.tick, Some(s.pending[p.tick].sequence), s.pending[p.tick].input, s.pending[p.tick].actions, 0)
          else p.sequence.None? && p.actions == [] && p.missingStreak == Min(U32_MAX, Missing(ticks) + 1))
  }

  // ---- what has been answered and served ------------------------------------------------------

  /** An accepted sequence is still audited as accepted, or can only be answered as retired. */
  predicate Remembered(s: Inbox, c: Command) {
    if c.sequence in s.audit then s.audit[c.sequence].command == c && s.audit[c.sequence].admission.Accepted?
    else Retired(s, c.sequence)
  }

  /** An accepted command waits at its target until that tick is committed, and is what that tick consumed. */
  predicate Served(s: Inbox, log: Log, c: Command) {
    && log.start < c.target
    && (if c.target <= s.finalized then
          c.target - log.start <= |log.ticks| && log.ticks[c.target - log.start - 1] == TickOf(c)
        else c.target in s.pending && s.pending[c.target] == c)
  }

  ghost predicate Honoured(s: Inbox, log: Log) {
    forall a :: 0 <= a < |log.accepted| ==> Remembered(s, log.accepted[a]) && Served(s, log, log.accepted[a])
  }

  /** No sequence and no target is accepted twice. */
  ghost predicate Unique(accepted: seq<Command>) {
    forall a, b :: 0 <= a < b < |accepted| ==>
      accepted[a].sequence != accepted[b].sequence && accepted[a].target != accepted[b].target
  }

  ghost predicate Justified(accepted: seq<Command>, tick: Tick) {
    tick.sequence.Some? ==> exists c :: c in accepted && TickOf(c) == tick
  }

  ghost predicate Traced(s: Inbox, log: Log) {
    && s.finalized == log.start + |log.ticks|
    && (forall k :: 0 <= k < |log.ticks| ==>
      log.ticks[k].tick == log.start + 1 + k && Justified(log.accepted, log.ticks[k]))
    && (forall target :: target in s.pending ==> s.pending[target] in log.accepted)
  }

  function ReceiptOf(t: Tick): Receipt {
    Receipt(t.tick, t.sequence)
  }

  /** The receipts are those of the latest ticks, without a gap. */
  ghost predicate Receipted(receipts: seq<Receipt>, ticks: seq<Tick>, capacity: nat) {
    && |receipts| == Min(capacity, |ticks|)
    && (forall i :: 0 <= i < |receipts| ==> receipts[i] == ReceiptOf(ticks[|ticks| - |receipts| + i]))
  }

  ghost predicate Summarised(s: Inbox, log: Log) {
    && Receipted(s.receipts, log.ticks, s.limits.auditRecords)
    && s.continuity == ContinuityOf(log.ticks)
    && s.windowFloor == FloorOf(log.ticks)
    && s.highestReceived == HighestOf(log.accepted)
    && Ready(s, log.ticks)
  }

  ghost predicate Inv(s: Inbox, log: Log) {
    && ValidLimits(s.limits)
    && Queue(s)
    && Ordered(s)
    && Honoured(s, log)
    && Unique(log.accepted)
    && Traced(s, log)
    && Summarised(s, log)
  }

  // ---- bounds ------------------------------------------------------------------------------------

  lemma {:induction false} FirstIdleFinds(order: seq<nat>, audit: map<nat, AuditRecord>)
    ensures var p := FirstIdle(order, audit);
      && (p < |order| ==> Idle(audit, order[p]))
      && (forall i :: 0 <= i < p ==> !Idle(audit, order[i]))
  {
    if order != [] && !Idle(audit, order[0]) {
      FirstIdleFinds(order[1..], audit);
      forall i | 0 <= i < FirstIdle(order, audit) ensures !Idle(audit, order[i]) {
        assert i > 0 ==> order[i] == order[1..][i - 1];
      }
    }
  }
}
