/** Admission, preparation and commit keep the inbox's invariant. */
module InboxSteps {
  import opened NetTypes
  import opened InboxModel
  import opened InboxInvariant

  // ---- filing a command in the audit --------------------------------------------------------

  /** Neither accepted before nor known to be retired. */
  predicate Fileable(s: Inbox, command: Command) {
    if command.sequence in s.audit then !s.audit[command.sequence].admission.Accepted?
    else !Retired(s, command.sequence)
  }

  /** What filing does to the inbox: some idle records go, the command's record comes. */
  ghost predicate Filed(s: Inbox, after: Inbox, command: Command, admission: Admission, gone: set<nat>) {
    && command.sequence !in gone
    && (forall q :: q in gone ==> Idle(s.audit, q) && Retired(after, q))
    && (forall q :: Retired(s, q) ==> Retired(after, q))
    && after == s.(
         audit := (s.audit - gone)[command.sequence := AuditRecord(command, admission, admission.Accepted?)],
         pending := if admission.Accepted? then s.pending[command.target := command] else s.pending,
         highestReceived := if admission.Accepted? then MaxOption(s.highestReceived, command.sequence)
           else s.highestReceived,
         auditOrder := after.auditOrder,
         retiredSequence := after.retiredSequence)
  }

  /** The record `Reserve` evicts, if any. */
  function Evicted(s: Inbox, sequence: nat): set<nat> {
    var p := FirstIdle(s.auditOrder, s.audit);
    if sequence in s.audit || |s.audit| != s.limits.auditRecords || p == |s.auditOrder| then {} else {s.auditOrder[p]}
  }

  lemma FilingShape(s: Inbox, command: Command)
    requires Ordered(s) && CutoffAhead(s) && Reserve(s, command.sequence).Ok?
    ensures Filed(s, File(s, command).0, command, Classify(s, command), Evicted(s, command.sequence))
  {
    var gone := Evicted(s, command.sequence);
    var after := File(s, command).0;
    if gone == {} {
      assert s.audit - gone == s.audit;
    } else {
      FirstIdleFinds(s.auditOrder, s.audit);
      var evicted := s.auditOrder[FirstIdle(s.auditOrder, s.audit)];
      assert gone == {evicted} && after.retiredSequence == MaxOption(s.retiredSequence, evicted);
    }
  }

  lemma RemovedAt(order: seq<nat>, p: nat)
    requires Distinct(order) && p < |order|
    ensures var rest := order[..p] + order[p + 1..];
      Distinct(rest) && forall x :: x in rest <==> x in order && x != order[p]
  {
    var rest := order[..p] + order[p + 1..];
    forall i | 0 <= i < |rest|
      ensures SequenceAt(rest, i) == SequenceAt(order, if i < p then i else i + 1)
      ensures rest[i] != order[p]
    {
      assert SequenceAt(order, if i < p then i else i + 1) != SequenceAt(order, p);
    }
    forall x | x in order && x != order[p] ensures x in rest {
      var i :| 0 <= i < |order| && order[i] == x;
      assert rest[if i < p then i else i - 1] == x;
    }
  }

  lemma PushedBack(order: seq<nat>, q: nat)
    requires Distinct(order) && q !in order
    ensures Distinct(order + [q]) && forall x :: x in order + [q] <==> x in order || x == q
  {
    var longer := order + [q];
    forall i, j | 0 <= i < j < |longer| ensures SequenceAt(longer, i) != SequenceAt(longer, j) {
      assert SequenceAt(longer, i) == SequenceAt(order, i);
      assert j < |order| ==> SequenceAt(longer, j) == SequenceAt(order, j);
      assert order[i] in order;
    }
  }

  lemma SameOrder(s: Inbox, after: Inbox)
    requires Ordered(s) && after.limits == s.limits && after.auditOrder == s.auditOrder
    requires after.audit.Keys == s.audit.Keys
    ensures Ordered(after)
  {
    assert |after.audit.Keys| == |after.audit|;
  }

  lemma LongerOrder(s: Inbox, q: nat, after: Inbox)
    requires Ordered(s) && after.limits == s.limits && after.auditOrder == s.auditOrder + [q]
    requires q !in s.audit && |s.audit| != s.limits.auditRecords
    requires after.audit.Keys == s.audit.Keys + {q}
    ensures Ordered(after)
  {
    PushedBack(s.auditOrder, q);
    assert |after.audit.Keys| == |after.audit|;
  }

  lemma FilingKeys(s: Inbox, command: Command)
    requires Ordered(s) && CutoffAhead(s) && Reserve(s, command.sequence).Ok?
    ensures File(s, command).0.audit.Keys == s.audit.Keys - Evicted(s, command.sequence) + {command.sequence}
    ensures File(s, command).0.limits == s.limits
  {
    FilingShape(s, command);
  }

  lemma FilingOrder(s: Inbox, command: Command)
    requires Ordered(s) && CutoffAhead(s) && Reserve(s, command.sequence).Ok?
    ensures Ordered(File(s, command).0)
  {
    var after := File(s, command).0;
    FilingKeys(s, command);
    if command.sequence in s.audit {
      SameOrder(s, after);
    } else if |s.audit| != s.limits.auditRecords {
      LongerOrder(s, command.sequence, after);
    } else {
      FullOrder(s, command);
    }
  }

  lemma FullOrder(s: Inbox, command: Command)
    requires Ordered(s) && CutoffAhead(s) && Reserve(s, command.sequence).Ok?
    requires command.sequence !in s.audit && |s.audit| == s.limits.auditRecords
    ensures Ordered(File(s, command).0)
  {
    FilingKeys(s, command);
    EvictionOrder(s, command.sequence, FirstIdle(s.auditOrder, s.audit), File(s, command).0);
  }

  lemma EvictionOrder(s: Inbox, q: nat, p: nat, after: Inbox)
    requires Ordered(s) && q !in s.audit && p < |s.auditOrder| && |s.audit| == s.limits.auditRecords
    requires after.limits == s.limits
    requires after.auditOrder == s.auditOrder[..p] + s.auditOrder[p + 1..] + [q]
    requires after.audit.Keys == s.audit.Keys - {s.auditOrder[p]} + {q}
    ensures Ordered(after)
  {
    var e := s.auditOrder[p];
    RemovedAt(s.auditOrder, p);
    PushedBack(s.auditOrder[..p] + s.auditOrder[p + 1..], q);
    assert e in s.audit && |s.audit.Keys - {e}| == |s.audit.Keys| - 1;
    assert |after.audit.Keys| == |s.audit.Keys|;
  }

  lemma FiledQueue(s: Inbox, after: Inbox, command: Command, gone: set<nat>)
    requires Queue(s) && CutoffAhead(s) && Fileable(s, command)
    requires Filed(s, after, command, Classify(s, command), gone)
    ensures Queue(after)
  {
    forall target | target in after.pending ensures PendingOk(after, target) {
      if target in s.pending {
        assert PendingOk(s, target);
        assert AuditOk(s, s.pending[target].sequence);
      }
    }
    forall sequence | sequence in after.audit ensures AuditOk(after, sequence) {
      if sequence != command.sequence {
        assert AuditOk(s, sequence);
      }
    }
  }

  lemma FiledHonoured(s: Inbox, log: Log, after: Inbox, command: Command, gone: set<nat>)
    requires Queue(s) && Honoured(s, log) && CutoffAhead(s) && Fileable(s, command)
    requires Filed(s, after, command, Classify(s, command), gone)
    ensures Honoured(after, log)
    ensures forall a :: 0 <= a < |log.accepted| ==> log.accepted[a].sequence != command.sequence
  {
    forall a | 0 <= a < |log.accepted|
      ensures Remembered(after, log.accepted[a]) && Served(after, log, log.accepted[a])
      ensures log.accepted[a].sequence != command.sequence
    {
      assert Remembered(s, log.accepted[a]) && Served(s, log, log.accepted[a]);
    }
  }

  // ---- the log of an accepted command -----------------------------------------------------------

  lemma JustifiedMore(accepted: seq<Command>, c: Command, tick: Tick)
    requires Justified(accepted, tick)
    ensures Justified(accepted + [c], tick)
  {
    if tick.sequence.Some? {
      var d :| d in accepted && TickOf(d) == tick;
      assert d in accepted + [c];
    }
  }

  lemma AcceptedLog(s: Inbox, log: Log, command: Command)
    requires Unique(log.accepted) && Honoured(s, log) && command.target !in s.pending && command.target > s.finalized
    requires forall a :: 0 <= a < |log.accepted| ==> log.accepted[a].sequence != command.sequence
    ensures Unique(log.accepted + [command])
  {
    forall a | 0 <= a < |log.accepted| ensures log.accepted[a].target != command.target {
      assert Served(s, log, log.accepted[a]);
    }
  }

  /** The log after an admission. */
  function LogAdmission(log: Log, command: Command, answer: Result<Admission, CommandError>): Log {
    if answer.Ok? && answer.value.Accepted? then log.(accepted := log.accepted + [command]) else log
  }

  lemma FiledTraced(s: Inbox, log: Log, after: Inbox, command: Command, gone: set<nat>)
    requires Traced(s, log) && CutoffAhead(s) && Filed(s, after, command, Classify(s, command), gone)
    ensures Traced(after, LogAdmission(log, command, Ok(Classify(s, command))))
  {
    var log' := LogAdmission(log, command, Ok(Classify(s, command)));
    forall k | 0 <= k < |log.ticks| ensures Justified(log'.accepted, log'.ticks[k]) {
      JustifiedMore(log.accepted, command, log.ticks[k]);
    }
    forall target | target in after.pending ensures after.pending[target] in log'.accepted {
      assert target in s.pending ==> s.pending[target] in log.accepted;
    }
  }

  lemma FiledSummarised(s: Inbox, log: Log, after: Inbox, command: Command, gone: set<nat>)
    requires Summarised(s, log) && CutoffAhead(s) && Filed(s, after, command, Classify(s, command), gone)
    ensures Summarised(after, LogAdmission(log, command, Ok(Classify(s, command))))
  {
    var longer := log.accepted + [command];
    assert longer[..|longer| - 1] == log.accepted;
  }

  lemma HonouredMore(s: Inbox, log: Log, c: Command)
    requires Honoured(s, log) && Remembered(s, c) && Served(s, log, c)
    ensures Honoured(s, log.(accepted := log.accepted + [c]))
  {
    var log' := log.(accepted := log.accepted + [c]);
    forall a | 0 <= a < |log'.accepted| ensures Remembered(s, log'.accepted[a]) && Served(s, log', log'.accepted[a]) {
      assert Served(s, log, log'.accepted[a]);
    }
  }

  /** Filing the log's side: everything answered is still honoured, nothing is accepted twice. */
  lemma FileHonours(s: Inbox, log: Log, command: Command, after: Inbox, gone: set<nat>)
    requires Queue(s) && Honoured(s, log) && Unique(log.accepted) && Traced(s, log) && CutoffAhead(s)
      && Fileable(s, command)
    requires Filed(s, after, command, Classify(s, command), gone)
    ensures var log' := LogAdmission(log, command, Ok(Classify(s, command)));
      Honoured(after, log') && Unique(log'.accepted)
  {
    FiledHonoured(s, log, after, command, gone);
    if Classify(s, command).Accepted? {
      AcceptedLog(s, log, command);
      HonouredMore(after, log, command);
    }
  }

  lemma FileKeeps(s: Inbox, log: Log, command: Command)
    requires Inv(s, log) && CutoffAhead(s) && Fileable(s, command)
    ensures var (after, answer) := File(s, command); Inv(after, LogAdmission(log, command, answer))
  {
    var (after, answer) := File(s, command);
    if answer.Ok? {
      var gone := Evicted(s, command.sequence);
      FilingShape(s, command);
      FilingOrder(s, command);
      FiledQueue(s, after, command, gone);
      FileHonours(s, log, command, after, gone);
      FiledTraced(s, log, after, command, gone);
      FiledSummarised(s, log, after, command, gone);
    }
  }
}
