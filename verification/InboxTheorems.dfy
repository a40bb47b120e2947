/** The promises of the inbox, over every run. */
module InboxTheorems {
  import opened NetTypes
  import opened Sums
  import opened InboxModel
  import opened InboxInvariant
  import opened InboxRuns

  // ---- exactly once, at the exact tick ------------------------------------------------------

  /** An accepted command waits until its target tick, whose commit consumes it with its own input and actions. */
  lemma AcceptedIsConsumedAtItsTarget(s: Inbox, log: Log, a: nat)
    requires Inv(s, log) && a < |log.accepted|
    ensures var c := log.accepted[a];
      && log.start < c.target
      && (c.target <= s.finalized ==>
            c.target - log.start <= |log.ticks|
              && log.ticks[c.target - log.start - 1] == Tick(c.target, Some(c.sequence), c.input, c.actions))
      && (c.target > s.finalized ==> c.target in s.pending && s.pending[c.target] == c)
  {
    assert Served(s, log, log.accepted[a]);
  }

  lemma SameSequence(accepted: seq<Command>, c: Command, d: Command)
    requires Unique(accepted) && c in accepted && d in accepted && c.sequence == d.sequence
    ensures c == d
  {
    var a :| 0 <= a < |accepted| && accepted[a] == c;
    var b :| 0 <= b < |accepted| && accepted[b] == d;
  }

  /** No sequence is executed at two ticks, not even after its audit record is gone. */
  lemma NoSequenceExecutesTwice(s: Inbox, log: Log, i: nat, k: nat)
    requires Inv(s, log) && i < |log.ticks| && k < |log.ticks|
    requires log.ticks[i].sequence.Some? && log.ticks[i].sequence == log.ticks[k].sequence
    ensures i == k
  {
    assert Justified(log.accepted, log.ticks[i]) && Justified(log.accepted, log.ticks[k]);
    var c :| c in log.accepted && TickOf(c) == log.ticks[i];
    var d :| d in log.accepted && TickOf(d) == log.ticks[k];
    SameSequence(log.accepted, c, d);
  }

  /** A tick is substituted only when nothing was accepted for it. */
  lemma SubstituteMeansNothingAccepted(s: Inbox, log: Log, k: nat, a: nat)
    requires Inv(s, log) && k < |log.ticks| && log.ticks[k].sequence.None? && a < |log.accepted|
    ensures log.accepted[a].target != log.ticks[k].tick
  {
    assert Served(s, log, log.accepted[a]);
    assert log.ticks[k].tick == log.start + 1 + k;
  }

  // ---- the bounded audit -----------------------------------------------------------------------

  /** The sequences of the pending commands. */
  ghost function PendingSequences(pending: map<nat, Command>): set<nat> {
    set target | target in pending :: pending[target].sequence
  }

  ghost predicate SequencesDistinct(pending: map<nat, Command>) {
    forall t, u :: t in pending && u in pending && pending[t].sequence == pending[u].sequence ==> t == u
  }

  lemma ImageWithout(pending: map<nat, Command>, t: nat)
    requires SequencesDistinct(pending) && t in pending
    ensures PendingSequences(pending) == PendingSequences(pending - {t}) + {pending[t].sequence}
    ensures pending[t].sequence !in PendingSequences(pending - {t})
  {
    var rest := pending - {t};
    forall q ensures q in PendingSequences(pending) <==> q in PendingSequences(rest) + {pending[t].sequence} {
      if q in PendingSequences(pending) {
        var u :| u in pending && pending[u].sequence == q;
        assert u != t ==> u in rest && rest[u].sequence == q;
      }
      if q in PendingSequences(rest) {
        var u :| u in rest && rest[u].sequence == q;
        assert u in pending && pending[u].sequence == q;
      }
    }
  }

  lemma {:induction false} ImageSize(pending: map<nat, Command>)
    requires SequencesDistinct(pending)
    ensures |PendingSequences(pending)| == |pending|
    decreases |pending|
  {
    if pending == map[] {
      assert PendingSequences(pending) == {};
    } else {
      var t :| t in pending;
      var rest := pending - {t};
      assert rest.Keys == pending.Keys - {t};
      ImageSize(rest);
      ImageWithout(pending, t);
    }
  }

  lemma PendingBounds(s: Inbox)
    requires Queue(s) && Ordered(s)
    ensures |s.pending| <= s.limits.futureTicks
    ensures PendingSequences(s.pending) <= s.audit.Keys
    ensures |PendingSequences(s.pending)| == |s.pending|
  {
    forall target | target in s.pending
      ensures s.finalized < target <= s.finalized + s.limits.futureTicks && s.pending[target].sequence in s.audit
    {
      assert PendingOk(s, target);
    }
    WindowSize(s.pending.Keys, s.finalized, s.limits.futureTicks);
    forall t, u | t in s.pending && u in s.pending && s.pending[t].sequence == s.pending[u].sequence ensures t == u {
      assert PendingOk(s, t) && PendingOk(s, u);
    }
    ImageSize(s.pending);
  }

  /** A record is pending exactly when its command is. */
  lemma PendingIffAudited(s: Inbox, q: nat)
    requires Queue(s) && q in s.audit
    ensures s.audit[q].pending <==> q in PendingSequences(s.pending)
  {
    assert AuditOk(s, q);
    if q in PendingSequences(s.pending) {
      var t :| t in s.pending && s.pending[t].sequence == q;
      assert PendingOk(s, t);
    }
  }

  lemma AllPendingIsFull(s: Inbox)
    requires Queue(s) && Ordered(s)
    ensures FirstIdle(s.auditOrder, s.audit) == |s.auditOrder| <==> |s.pending| == |s.audit|
  {
    PendingBounds(s);
    FirstIdleFinds(s.auditOrder, s.audit);
    SubsetSize(PendingSequences(s.pending), s.audit.Keys);
    var p := FirstIdle(s.auditOrder, s.audit);
    if p == |s.auditOrder| {
      forall q | q in s.audit.Keys ensures q in PendingSequences(s.pending) {
        PendingIffAudited(s, q);
        assert q in s.auditOrder;
      }
      assert s.audit.Keys == PendingSequences(s.pending);
    } else {
      PendingIffAudited(s, s.auditOrder[p]);
    }
  }

  /** The audit refuses a new sequence exactly when every record it may hold is still pending. */
  lemma AuditFullExactly(s: Inbox, log: Log, sequence: nat)
    requires Inv(s, log)
    ensures Reserve(s, sequence).Err? <==> sequence !in s.audit && |s.pending| == s.limits.auditRecords
    ensures |s.pending| <= s.limits.futureTicks <= s.limits.auditRecords
  {
    PendingBounds(s);
    AllPendingIsFull(s);
    SubsetSize(PendingSequences(s.pending), s.audit.Keys);
  }

  lemma RoomyAuditFiles(s: Inbox, log: Log, command: Command)
    requires Inv(s, log) && CutoffAhead(s) && s.limits.auditRecords > s.limits.futureTicks
    ensures AdmitValid(s, command).1 != Err(AuditFull)
  {
    AuditFullExactly(s, log, command.sequence);
    AdmitValidCases(s, command);
  }

  /** With more audit records than future ticks, admission never answers that the audit is full. */
  lemma RoomyAuditNeverFull(s: Inbox, log: Log, connection: nat, command: Command, rules: Rules)
    requires Inv(s, log) && s.limits.auditRecords > s.limits.futureTicks
    ensures CutoffAhead(s) && Admit(s, connection, command, rules).1 != Err(AuditFull)
  {
    ReadyCutoff(s, log);
    AdmitCases(s, connection, command, rules);
    CountKeeps(s, log, s.submissions + 1);
    RoomyAuditFiles(s.(submissions := s.submissions + 1), log, command);
    ChecksAreNotAuditFull(command, rules, s.limits.maxCommandBytes);
  }

  lemma ChecksAreNotAuditFull(command: Command, rules: Rules, maxBytes: nat)
    ensures CheckCommand(command, rules, maxBytes) != Failed(AuditFull)
  {
    ActionsAreNotAuditFull(command.actions, {}, rules);
  }

  lemma {:induction false} ActionsAreNotAuditFull(actions: seq<Edge>, seen: set<nat>, rules: Rules)
    ensures CheckActions(actions, seen, rules) != Failed(AuditFull)
    decreases |actions|
  {
    if actions != [] {
      ActionsAreNotAuditFull(actions[1..], seen + {actions[0].slot}, rules);
    }
  }

  /** An error changes nothing but the submission count. */
  lemma ErrorsOnlyCount(s: Inbox, log: Log, connection: nat, command: Command, rules: Rules)
    requires Inv(s, log) && CutoffAhead(s)
    ensures var (after, answer) := Admit(s, connection, command, rules);
      answer.Err? ==> after == s.(submissions := after.submissions)
  {
    AdmitCases(s, connection, command, rules);
    AdmitValidCases(s.(submissions := s.submissions + 1), command);
  }

  // ---- receipts and continuity -------------------------------------------------------------------

  /** Receipts are the latest committed ticks, contiguous up to the finalized one. */
  lemma ReceiptsAreContiguous(s: Inbox, log: Log, i: nat)
    requires Traced(s, log) && Receipted(s.receipts, log.ticks, s.limits.auditRecords) && i < |s.receipts|
    ensures |s.receipts| == Min(s.limits.auditRecords, |log.ticks|)
    ensures s.receipts[i].tick == s.finalized - |s.receipts| + 1 + i
    ensures s.receipts[i] == ReceiptOf(log.ticks[|log.ticks| - |s.receipts| + i])
  {
    var k := |log.ticks| - |s.receipts| + i;
    assert log.ticks[k].tick == log.start + 1 + k;
  }

  /**
   The substitute offered is what the committed ticks determine: the held last input within the grace, else
   neutral.
   */
  lemma SubstituteFollowsCommittedTicks(s: Inbox, log: Log, rules: Rules)
    requires Inv(s, log)
    ensures s.continuity.lastInput == LastInput(log.ticks)
    ensures var offered := PrepareNext(s, rules).1;
      offered.Ok? && offered.value.sequence.None? ==>
        && offered.value.actions == []
        && offered.value.input ==
             if Missing(log.ticks) < s.limits.heldGraceTicks && LastInput(log.ticks).Some?
             then rules.heldInput(LastInput(log.ticks).value) else rules.neutralInput
  {
  }

  // ---- every run -----------------------------------------------------------------------------------

  predicate ConsumedAtTarget(s: Inbox, log: Log, c: Command) {
    if c.target <= s.finalized then
      log.start < c.target <= log.start + |log.ticks|
      && log.ticks[c.target - log.start - 1] == Tick(c.target, Some(c.sequence), c.input, c.actions)
    else c.target in s.pending && s.pending[c.target] == c
  }

  predicate SameTickIfSame(ticks: seq<Tick>, i: nat, k: nat)
    requires i < |ticks| && k < |ticks|
  {
    ticks[i].sequence.Some? && ticks[i].sequence == ticks[k].sequence ==> i == k
  }

  predicate RefusesOnlyWhenFull(s: Inbox, sequence: nat) {
    Reserve(s, sequence).Err? <==> sequence !in s.audit && |s.pending| == s.limits.auditRecords
  }

  ghost predicate AllConsumed(s: Inbox, log: Log) {
    forall a :: 0 <= a < |log.accepted| ==> ConsumedAtTarget(s, log, log.accepted[a])
  }

  ghost predicate NoneRepeated(ticks: seq<Tick>) {
    forall i, k :: 0 <= i < |ticks| && 0 <= k < |ticks| ==> SameTickIfSame(ticks, i, k)
  }

  ghost predicate NoneDisplaced(log: Log) {
    forall k, a :: 0 <= k < |log.ticks| && 0 <= a < |log.accepted| && log.ticks[k].sequence.None? ==>
      log.accepted[a].target != log.ticks[k].tick
  }

  ghost predicate AuditExact(s: Inbox) {
    |s.pending| <= s.limits.futureTicks && forall sequence :: RefusesOnlyWhenFull(s, sequence)
  }

  /** What the inbox promises of a state and the log that led to it. */
  ghost predicate Promises(s: Inbox, log: Log) {
    && AllConsumed(s, log)
    && NoneRepeated(log.ticks)
    && NoneDisplaced(log)
    && AuditExact(s)
    && s.continuity == ContinuityOf(log.ticks)
    && Receipted(s.receipts, log.ticks, s.limits.auditRecords)
  }

  lemma InvConsumes(s: Inbox, log: Log)
    requires Inv(s, log)
    ensures AllConsumed(s, log)
  {
    forall a | 0 <= a < |log.accepted| ensures ConsumedAtTarget(s, log, log.accepted[a]) {
      AcceptedIsConsumedAtItsTarget(s, log, a);
    }
  }

  lemma InvRepeatsNone(s: Inbox, log: Log)
    requires Inv(s, log)
    ensures NoneRepeated(log.ticks)
  {
    forall i, k | 0 <= i < |log.ticks| && 0 <= k < |log.ticks| ensures SameTickIfSame(log.ticks, i, k) {
      if log.ticks[i].sequence.Some? && log.ticks[i].sequence == log.ticks[k].sequence {
        NoSequenceExecutesTwice(s, log, i, k);
      }
    }
  }

  lemma InvDisplacesNone(s: Inbox, log: Log)
    requires Inv(s, log)
    ensures NoneDisplaced(log)
  {
    forall k, a | 0 <= k < |log.ticks| && 0 <= a < |log.accepted| && log.ticks[k].sequence.None?
      ensures log.accepted[a].target != log.ticks[k].tick
    {
      SubstituteMeansNothingAccepted(s, log, k, a);
    }
  }

  lemma InvAuditExact(s: Inbox, log: Log)
    requires Inv(s, log)
    ensures AuditExact(s)
  {
    forall sequence ensures RefusesOnlyWhenFull(s, sequence) {
      AuditFullExactly(s, log, sequence);
    }
    AuditFullExactly(s, log, 0);
  }

  lemma InvPromises(s: Inbox, log: Log)
    requires Inv(s, log)
    ensures Promises(s, log)
  {
    InvConsumes(s, log);
    InvRepeatsNone(s, log);
    InvDisplacesNone(s, log);
    InvAuditExact(s, log);
  }

  /** Every run keeps the promises: exactly once, at the exact tick, with a bounded audit and faithful summaries. */
  lemma RunKeepsPromises(owner: Owner, start: nat, limits: Limits, events: seq<Event>)
    requires ValidLimits(limits) && ValidOwner(owner)
    ensures var (s, log) := Run(owner, start, limits, events); Promises(s, log)
  {
    var (s, log) := Run(owner, start, limits, events);
    InvPromises(s, log);
  }

  predicate Extends(log: Log, longer: Log) {
    log.accepted <= longer.accepted && log.ticks <= longer.ticks
  }

  lemma NextGrows(s: Inbox, log: Log, event: Event)
    requires CutoffAhead(s) && SelectionRetained(s)
    ensures Extends(log, Next(s, log, event).1)
  {
  }

  /** One more call only adds to what was accepted and committed. */
  lemma RunOnlyGrows(owner: Owner, start: nat, limits: Limits, events: seq<Event>, event: Event)
    requires ValidLimits(limits) && ValidOwner(owner)
    ensures Extends(Run(owner, start, limits, events).1, Run(owner, start, limits, events + [event]).1)
  {
    var longer := events + [event];
    assert longer[..|longer| - 1] == events;
    var (s, log) := Run(owner, start, limits, events);
    ReadyCutoff(s, log);
    NextGrows(s, log, event);
  }
}
