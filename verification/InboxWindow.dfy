/** The rate and sequence windows of the inbox hold in every run. */
module InboxWindow {
  import opened NetTypes
  import opened InboxModel
  import opened InboxInvariant
  import opened InboxSteps
  import opened InboxRuns

  /** Submissions stay within the rate, and no audited sequence is beyond what commits have opened up. */
  ghost predicate WindowOk(s: Inbox) {
    && s.submissions <= s.limits.submissionsPerTick
    && (forall sequence :: sequence in s.audit ==> sequence <= SaturatingAdd(s.windowFloor, s.limits.sequenceAhead))
    && s.limits.sequenceAhead <= U64_MAX
  }

  lemma FileKeepsWindow(s: Inbox, log: Log, command: Command)
    requires Inv(s, log) && CutoffAhead(s) && WindowOk(s) && Files(s, command)
    ensures WindowOk(File(s, command).0)
  {
    if Reserve(s, command.sequence).Ok? {
      FilingShape(s, command);
    }
  }

  lemma AdmitKeepsWindow(s: Inbox, log: Log, connection: nat, command: Command, rules: Rules)
    requires Inv(s, log) && CutoffAhead(s) && WindowOk(s)
    ensures WindowOk(Admit(s, connection, command, rules).0)
  {
    AdmitCases(s, connection, command, rules);
    if Passes(s, connection, command, rules) {
      var counted := s.(submissions := s.submissions + 1);
      CountKeeps(s, log, s.submissions + 1);
      AdmitValidCases(counted, command);
      if Files(counted, command) {
        FileKeepsWindow(counted, log, command);
      }
    } else {
      RefusedCount(s, connection, command, rules);
    }
  }

  lemma RefusedCount(s: Inbox, connection: nat, command: Command, rules: Rules)
    requires CutoffAhead(s) && s.submissions <= s.limits.submissionsPerTick && !Passes(s, connection, command, rules)
    ensures Admit(s, connection, command, rules).0.submissions <= s.limits.submissionsPerTick
  {
  }

  /** A commit, of a command or of a substitute, never narrows the sequence window. */
  lemma FinalizeKeepsWindow(s: Inbox, p: Prepared)
    requires WindowOk(s) && (p.sequence.Some? ==> p.sequence.value in s.audit)
    ensures WindowOk(Finalize(s, p)) && Min(s.windowFloor + 1, U64_MAX) <= Finalize(s, p).windowFloor
  {
    var after := Finalize(s, p);
    assert after.audit.Keys == s.audit.Keys;
    forall sequence | sequence in after.audit
      ensures sequence <= SaturatingAdd(after.windowFloor, after.limits.sequenceAhead)
    {
      assert sequence in s.audit;
    }
  }

  lemma NextKeepsWindow(s: Inbox, log: Log, event: Event)
    requires Inv(s, log) && CutoffAhead(s) && SelectionRetained(s) && WindowOk(s)
    ensures WindowOk(Next(s, log, event).0)
  {
    match event
    case Submit(connection, command, rules) => AdmitKeepsWindow(s, log, connection, command, rules);
    case Prepare(rules) =>
    case Finish(tick) =>
      if s.prepared.Some? && s.prepared.value.tick == tick {
        FinalizeKeepsWindow(s, s.prepared.value);
      }
  }

  /** In every run the rate holds and every audited sequence is inside the window. */
  lemma {:induction false} RunKeepsWindow(owner: Owner, start: nat, limits: Limits, events: seq<Event>)
    requires ValidLimits(limits) && ValidOwner(owner) && limits.sequenceAhead <= U64_MAX
    ensures WindowOk(Run(owner, start, limits, events).0)
  {
    if events != [] {
      RunKeepsWindow(owner, start, limits, events[..|events| - 1]);
      var (s, log) := Run(owner, start, limits, events[..|events| - 1]);
      ReadyCutoff(s, log);
      NextKeepsWindow(s, log, events[|events| - 1]);
    }
  }
}
