/** An audit with no more records than future ticks does fill up. */
module InboxFull {
  import opened NetTypes
  import opened InboxModel
  import opened InboxInvariant
  import opened InboxRuns
  import opened InboxTheorems

  /** Rules that refuse nothing. */
  function Open(): Rules {
    Rules((owner: Owner, tick: nat) => true, (input: Input) => true, (action: int) => true, (input: Input) => input, 0,
          (command: Command) => 0)
  }

  function Plain(owner: Owner, sequence: nat, target: nat): Command {
    Command(owner, sequence, target, 0, [])
  }

  function Offer(owner: Owner, sequence: nat, target: nat): Event {
    Submit(owner.connection, Plain(owner, sequence, target), Open())
  }

  /** Room for one more sequence and one more submission than there are records, of which there are no spare ones. */
  predicate Exact(limits: Limits) {
    && ValidLimits(limits) && limits.auditRecords == limits.futureTicks
    && limits.futureTicks < limits.sequenceAhead && limits.futureTicks < limits.submissionsPerTick
  }

  /** The first `k` ticks are taken and nothing else has happened. */
  predicate Filled(s: Inbox, owner: Owner, limits: Limits, k: nat) {
    && s.owner == owner && s.limits == limits && s.finalized == 0 && s.prepared.None? && s.retiredSequence.None?
    && s.windowFloor == 0 && s.submissions == k && |s.audit| == k && |s.pending| == k
    && (forall n :: n in s.audit ==> n <= k)
    && (forall t :: t in s.pending ==> t <= k)
  }

  lemma PlainPasses(owner: Owner, sequence: nat, target: nat, maxBytes: nat)
    requires sequence > 0 && target > 0
    ensures CheckCommand(Plain(owner, sequence, target), Open(), maxBytes) == Done
  {
  }

  lemma FillOne(s: Inbox, owner: Owner, limits: Limits, k: nat)
    requires Exact(limits) && k < limits.futureTicks && Filled(s, owner, limits, k)
    ensures CutoffAhead(s)
    ensures Filled(Admit(s, owner.connection, Plain(owner, k + 1, k + 1), Open()).0, owner, limits, k + 1)
  {
    PlainPasses(owner, k + 1, k + 1, limits.maxCommandBytes);
    var counted := s.(submissions := k + 1);
    var command := Plain(owner, k + 1, k + 1);
    assert Admit(s, owner.connection, command, Open()) == File(counted, command);
    assert Classify(counted, command) == Accepted(k + 1);
    assert k + 1 !in s.audit && k + 1 !in s.pending;
    OneMoreKey(s.audit, k + 1, AuditRecord(command, Accepted(k + 1), true));
    OneMoreKey(s.pending, k + 1, command);
  }

  lemma OneMoreKey<V>(m: map<nat, V>, key: nat, value: V)
    requires key !in m
    ensures |m[key := value]| == |m| + 1
  {
    assert m[key := value].Keys == m.Keys + {key};
  }

  lemma FillNext(s: Inbox, log: Log, owner: Owner, limits: Limits, k: nat)
    requires Exact(limits) && k < limits.futureTicks && Filled(s, owner, limits, k)
    ensures CutoffAhead(s) && SelectionRetained(s)
    ensures Filled(Next(s, log, Offer(owner, k + 1, k + 1)).0, owner, limits, k + 1)
  {
    FillOne(s, owner, limits, k);
  }

  lemma RunOneMore(owner: Owner, limits: Limits, events: seq<Event>, event: Event)
    requires ValidLimits(limits) && ValidOwner(owner)
    ensures var (s, log) := Run(owner, 0, limits, events);
      CutoffAhead(s) && SelectionRetained(s) && Run(owner, 0, limits, events + [event]) == Next(s, log, event)
  {
    var (s, log) := Run(owner, 0, limits, events);
    ReadyCutoff(s, log);
    assert (events + [event])[..|events|] == events;
  }

  lemma FillNone(owner: Owner, limits: Limits)
    requires Exact(limits) && ValidOwner(owner)
    ensures Filled(Run(owner, 0, limits, []).0, owner, limits, 0)
  {
  }

  lemma FillMore(owner: Owner, limits: Limits, events: seq<Event>, k: nat, longer: seq<Event>)
    requires Exact(limits) && ValidOwner(owner) && 0 < k <= limits.futureTicks
    requires Filled(Run(owner, 0, limits, events).0, owner, limits, k - 1) && longer == events + [Offer(owner, k, k)]
    ensures Filled(Run(owner, 0, limits, longer).0, owner, limits, k)
  {
    RunOneMore(owner, limits, events, Offer(owner, k, k));
    var (s, log) := Run(owner, 0, limits, events);
    FillNext(s, log, owner, limits, k - 1);
  }

  lemma {:induction false} FillAll(owner: Owner, limits: Limits, k: nat) returns (events: seq<Event>)
    requires Exact(limits) && ValidOwner(owner) && k <= limits.futureTicks
    ensures |events| == k && Filled(Run(owner, 0, limits, events).0, owner, limits, k)
  {
    if k == 0 {
      events := [];
      FillNone(owner, limits);
    } else {
      var fewer := FillAll(owner, limits, k - 1);
      events := fewer + [Offer(owner, k, k)];
      FillMore(owner, limits, fewer, k, events);
    }
  }

  /** A well-formed command of that sequence is answered that the audit is full. */
  predicate RefusesNext(s: Inbox, owner: Owner, sequence: nat) {
    CutoffAhead(s) && Admit(s, owner.connection, Plain(owner, sequence, 1), Open()).1 == Err(AuditFull)
  }

  lemma FullRefuses(s: Inbox, log: Log, owner: Owner, limits: Limits, n: nat)
    requires Exact(limits) && n == limits.futureTicks && Inv(s, log) && Filled(s, owner, limits, n)
    ensures RefusesNext(s, owner, n + 1)
  {
    var command := Plain(owner, n + 1, 1);
    var counted := s.(submissions := n + 1);
    PlainPasses(owner, n + 1, 1, limits.maxCommandBytes);
    assert Admit(s, owner.connection, command, Open()) == File(counted, command);
    CountKeeps(s, log, n + 1);
    AuditFullExactly(counted, log, n + 1);
    assert Reserve(counted, n + 1).Err?;
  }

  /** One command for each future tick, and the next sequence finds every record pending. */
  lemma ExactAuditFills(owner: Owner, limits: Limits) returns (events: seq<Event>)
    requires Exact(limits) && ValidOwner(owner)
    ensures |events| == limits.futureTicks
      && RefusesNext(Run(owner, 0, limits, events).0, owner, limits.futureTicks + 1)
  {
    events := FillAll(owner, limits, limits.futureTicks);
    var (s, log) := Run(owner, 0, limits, events);
    FullRefuses(s, log, owner, limits, limits.futureTicks);
  }
}
