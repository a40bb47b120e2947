/** The journal's ceilings between operations: how much it keeps, and how much one operation emits. */
module JournalBounds {
  import opened NetTypes
  import opened JournalModel
  import opened JournalRuns

  /** Bytes of the payloads a change list carries. */
  function Carriage(changes: seq<Change>): nat {
    if changes == [] then 0 else Carriage(changes[..|changes| - 1]) + ChangeBytes(changes[|changes| - 1])
  }

  /** The counts stay under the configured ceilings. */
  predicate Counted(j: Journal) {
    && ValidLimits(j.limits)
    && |j.entries| <= j.limits.records
    && |j.bindings| <= j.limits.bindings
    && |j.rejected| <= j.limits.actionFences
  }

  /** The change list stays under the transition ceilings and its running total is exact. */
  predicate Carries(limits: Limits, changes: seq<Change>, payloadBytes: nat) {
    && |changes| <= limits.transitions
    && payloadBytes == Carriage(changes)
    && limits.transitions * limits.changeSize + payloadBytes <= limits.transitionBytes
  }

  predicate Tidy(st: Staged) {
    Counted(st.journal) && Carries(st.journal.limits, st.changes, st.payloadBytes)
  }

  /** A successful step keeps the ceilings. */
  predicate StaysTidy(st: Staged, r: Result<Staged, EventError>) {
    Tidy(st) && r.Ok? ==> Tidy(r.value) && r.value.journal.limits == st.journal.limits
  }

  lemma EmitTidy(st: Staged, c: Change)
    ensures StaysTidy(st, Emit(st, c))
  {
    assert (st.changes + [c])[..|st.changes|] == st.changes;
  }

  lemma CancelTidy(st: Staged, i: nat, phase: Phase, reason: CancelReason)
    requires i < |st.journal.entries|
    ensures StaysTidy(st, CancelAt(st, i, phase, reason))
  {
    EmitTidy(st, Cancel(st.journal.entries[i].identity.key, reason));
  }

  lemma RejectTidy(st: Staged, i: nat)
    requires i < |st.journal.entries|
    ensures StaysTidy(st, RejectAt(st, i))
  {
    CancelTidy(SetEntry(st, i, st.journal.entries[i].(decision := Rejected)), i, Refused, WasRejected);
  }

  lemma {:induction false} AdvanceTidy(st: Staged, now: nat, i: nat)
    requires i <= |st.journal.entries|
    ensures StaysTidy(st, AdvanceFrom(st, now, i))
    decreases |st.journal.entries| - i
  {
    if i < |st.journal.entries| {
      var r := LapseAt(st, i, now);
      CancelTidy(st, i, Expired, HasExpired);
      if r.Ok? {
        AdvanceTidy(r.value, now, i + 1);
      }
    }
  }

  lemma AdvanceInnerTidy(st: Staged, now: nat)
    ensures StaysTidy(st, AdvanceInner(st, now))
  {
    AdvanceTidy(st.(journal := st.journal.(now := now)), now, 0);
  }

  predicate EnsuredTidy(st: Staged, r: Result<(Staged, nat), EventError>) {
    Tidy(st) && r.Ok? ==> Tidy(r.value.0) && r.value.0.journal.limits == st.journal.limits
  }

  lemma EnsureTidy(st: Staged, identity: EventIdentity)
    ensures EnsuredTidy(st, EnsureEntry(st, identity))
  {
  }

  lemma PresentTidy(st: Staged, i: nat, event: EventRecord)
    requires i < |st.journal.entries|
    ensures StaysTidy(st, PresentAt(st, i, event))
  {
    var e := st.journal.entries[i];
    var staged := SetEntry(st, i, e.(payload := Some(event.payload), phase := Live, delivered := true));
    EmitTidy(staged, Create(event, e.decision == Accepted, e.binding));
    EmitTidy(staged, Update(event));
  }

  lemma CorrectTidy(st: Staged, i: nat, event: EventRecord)
    requires i < |st.journal.entries|
    ensures StaysTidy(st, CorrectAt(st, i, event))
  {
    var dated := SetEntry(st, i, st.journal.entries[i].(lifetime := Some(Lifetime(event.expiresAt, event.delivery))));
    RejectTidy(dated, i);
    CancelTidy(dated, i, Expired, HasExpired);
    PresentTidy(dated, i, event);
  }

  lemma {:induction false} CorrectFromTidy(
    st: Staged, range: ReplayRange, corrected: seq<EventRecord>, n: nat, validate: Payload -> bool)
    requires n <= |corrected|
    ensures StaysTidy(st, CorrectFrom(st, range, corrected, n, validate))
    decreases |corrected| - n
  {
    if n < |corrected| {
      var r := CorrectOne(st, range, corrected[..n], corrected[n], validate);
      if r.Ok? {
        EnsureTidy(st, corrected[n].identity);
        var (found, i) := EnsureEntry(st, corrected[n].identity).value;
        CorrectTidy(found, i, corrected[n]);
        CorrectFromTidy(r.value, range, corrected, n + 1, validate);
      }
    }
  }

  lemma {:induction false} VanishTidy(st: Staged, range: ReplayRange, corrected: seq<EventRecord>, i: nat)
    requires i <= |st.journal.entries|
    ensures StaysTidy(st, VanishFrom(st, range, corrected, i))
    decreases |st.journal.entries| - i
  {
    if i < |st.journal.entries| {
      var r := VanishAt(st, i, range, corrected);
      CancelTidy(st, i, ReplayAbsent, AbsentOnReplay);
      if r.Ok? {
        VanishTidy(r.value, range, corrected, i + 1);
      }
    }
  }

  lemma ReconcileTidy(st: Staged, now: nat, range: ReplayRange, corrected: seq<EventRecord>, validate: Payload -> bool)
    ensures StaysTidy(st, ReconcileStaged(st, now, range, corrected, validate))
  {
    if ReconcileStaged(st, now, range, corrected, validate).Ok? {
      AdvanceInnerTidy(st, now);
      var advanced := AdvanceInner(st, now).value;
      CorrectFromTidy(advanced, range, corrected, 0, validate);
      VanishTidy(CorrectFrom(advanced, range, corrected, 0, validate).value, range, corrected, 0);
    }
  }

  /** A new fence needs room; replacing one does not. */
  lemma FenceCount(bindings: map<nat, Binding>, index: nat, b: Binding)
    ensures |bindings[index := b]| == |bindings| + (if index in bindings then 0 else 1)
  {
    assert bindings[index := b].Keys == bindings.Keys + {index};
  }

  lemma RecordTidy(st: Staged, i: nat, entity: EntityId)
    requires i < |st.journal.entries|
    requires entity.index in st.journal.bindings || |st.journal.bindings| < st.journal.limits.bindings
    ensures StaysTidy(st, RecordBinding(st, i, entity))
  {
    var j := st.journal;
    var e := j.entries[i];
    var key := e.identity.key;
    var bound := st.(journal := j.(
      bindings := j.bindings[entity.index := Binding(entity, key)],
      entries := j.entries[i := e.(binding := Some(entity))]));
    FenceCount(j.bindings, entity.index, Binding(entity, key));
    EmitTidy(bound, JournalModel.Bind(key, entity));
    EmitTidy(bound, BindRetired(key, entity));
  }

  lemma BindTidy(st: Staged, i: nat, entity: EntityId)
    requires i < |st.journal.entries|
    ensures StaysTidy(st, BindAt(st, i, entity))
  {
    var j := st.journal;
    if entity.index in j.bindings {
      var fence := j.bindings[entity.index];
      if Present(j.entries, fence.key) {
        var p := Pos(j.entries, fence.key);
        CancelTidy(st, p, Expired, HasExpired);
        var superseded := CancelAt(st, p, Expired, HasExpired);
        if superseded.Ok? {
          RecordTidy(superseded.value, i, entity);
        }
      }
      RecordTidy(st, i, entity);
    } else if |j.bindings| < j.limits.bindings {
      RecordTidy(st, i, entity);
    }
  }

  lemma AcceptTidy(st: Staged, i: nat, binding: Option<EntityId>)
    requires i < |st.journal.entries|
    ensures StaysTidy(st, AcceptAt(st, i, binding))
  {
    var e := st.journal.entries[i];
    var accepted := SetEntry(st, i, e.(decision := Accepted));
    EmitTidy(accepted, Confirm(e.identity.key));
    if binding.Some? {
      if e.decision == Accepted {
        BindTidy(st, i, binding.value);
      } else if Emit(accepted, Confirm(e.identity.key)).Ok? {
        BindTidy(Emit(accepted, Confirm(e.identity.key)).value, i, binding.value);
      }
    }
  }

  lemma ResolveTidy(st: Staged, now: nat, identity: EventIdentity, verdict: Verdict)
    ensures StaysTidy(st, ResolveStaged(st, now, identity, verdict))
  {
    if ResolveStaged(st, now, identity, verdict).Ok? {
      AdvanceInnerTidy(st, now);
      var advanced := AdvanceInner(st, now).value;
      EnsureTidy(advanced, identity);
      var (found, i) := EnsureEntry(advanced, identity).value;
      match verdict
      case Reject => RejectTidy(found, i);
      case Accept(binding) => AcceptTidy(found, i, binding);
    }
  }

  lemma {:induction false} RejectFromTidy(st: Staged, action: ActionKey, i: nat)
    requires i <= |st.journal.entries|
    ensures StaysTidy(st, RejectFrom(st, action, i))
    decreases |st.journal.entries| - i
  {
    if i < |st.journal.entries| {
      var r := RejectActionAt(st, i, action);
      RejectTidy(st, i);
      if r.Ok? {
        RejectFromTidy(r.value, action, i + 1);
      }
    }
  }

  lemma RejectActionTidy(st: Staged, now: nat, action: ActionKey)
    ensures StaysTidy(st, RejectActionStaged(st, now, action))
  {
    if RejectActionStaged(st, now, action).Ok? {
      AdvanceInnerTidy(st, now);
      var advanced := AdvanceInner(st, now).value;
      var j := advanced.journal;
      assert action in j.rejected ==> j.rejected + {action} == j.rejected;
      RejectFromTidy(advanced.(journal := j.(rejected := j.rejected + {action})), action, 0);
    }
  }

  lemma ExpireTidy(st: Staged, now: nat, identity: EventIdentity)
    ensures StaysTidy(st, ExpireStaged(st, now, identity))
  {
    if ExpireStaged(st, now, identity).Ok? {
      AdvanceInnerTidy(st, now);
      var advanced := AdvanceInner(st, now).value;
      EnsureTidy(advanced, identity);
      var (found, i) := EnsureEntry(advanced, identity).value;
      CancelTidy(found, i, Expired, HasExpired);
    }
  }

  lemma StageTidy(st: Staged, op: Op)
    requires !op.RetireThrough? && !op.ResetScope?
    ensures StaysTidy(st, Stage(st, op))
  {
    match op
    case Advance(now) => AdvanceInnerTidy(st, now);
    case Reconcile(now, range, corrected, validate) => ReconcileTidy(st, now, range, corrected, validate);
    case Resolve(now, identity, verdict) => ResolveTidy(st, now, identity, verdict);
    case RejectAction(now, action) => RejectActionTidy(st, now, action);
    case Expire(now, identity) => ExpireTidy(st, now, identity);
  }

  lemma {:induction false} RetainedShrinks(entries: seq<Entry>, sequence: nat)
    ensures |Retained(entries, sequence)| <= |entries|
    ensures PayloadSum(Retained(entries, sequence)) <= PayloadSum(entries)
  {
    if entries != [] {
      RetainedShrinks(entries[1..], sequence);
      var rest := Retained(entries[1..], sequence);
      assert ([entries[0]] + rest)[1..] == rest;
    }
  }

  lemma SubsetCount<T>(a: set<T>, b: set<T>)
    requires a <= b
    ensures |a| <= |b|
  {
    assert b == a + (b - a);
  }

  /** Between operations everything retained fits the resident ceiling. */
  predicate Resident(j: Journal) {
    Counted(j) && RetainedBytes(j) <= j.limits.residentBytes
  }

  lemma RetireBounded(j: Journal, sequence: nat)
    requires Resident(j) && Retire(j, sequence).Ok?
    ensures Resident(Retire(j, sequence).value.journal)
  {
    RetainedShrinks(j.entries, sequence);
    SubsetCount(Retire(j, sequence).value.journal.rejected, j.rejected);
  }

  lemma RestartBounded(j: Journal, scope: JournalScope)
    requires Resident(j) && Restart(j, scope).Ok?
    ensures var st := Restart(j, scope).value; Resident(st.journal) && Tidy(st) && st.journal.limits == j.limits
  {
    EmitTidy(Staged(j, [], 0), Reset(j.scope, scope));
  }

  /** One operation, failed or not, leaves everything within its ceiling. */
  lemma AfterBounded(j: Journal, op: Op)
    requires Resident(j)
    ensures var st := After(j, op);
      Resident(st.journal) && Tidy(st) && st.journal.limits == j.limits
  {
    assert Tidy(Staged(j, [], 0));
    if Execute(j, op).Ok? {
      match op {
        case RetireThrough(sequence) => RetireBounded(j, sequence);
        case ResetScope(scope) => RestartBounded(j, scope);
        case _ => StageTidy(Staged(j, [], 0), op);
      }
    }
  }

  /** Every journal ever reached from a configured one is within its limits. */
  lemma {:induction false} RunBounded(scope: JournalScope, limits: Limits, ops: seq<Op>)
    requires NewJournal(scope, limits).Ok?
    ensures var j := Run(NewJournal(scope, limits).value, ops).0; Resident(j) && j.limits == limits
  {
    if ops != [] {
      var last := |ops| - 1;
      RunBounded(scope, limits, ops[..last]);
      AfterBounded(Run(NewJournal(scope, limits).value, ops[..last]).0, ops[last]);
    }
  }

  /** At every step of every run what the operation emits and what it leaves behind is bounded. */
  lemma EveryStepIsBounded(scope: JournalScope, limits: Limits, ops: seq<Op>, op: Op)
    requires NewJournal(scope, limits).Ok?
    ensures var st := After(Run(NewJournal(scope, limits).value, ops).0, op);
      Carries(limits, st.changes, st.payloadBytes) && Resident(st.journal)
  {
    RunBounded(scope, limits, ops);
    AfterBounded(Run(NewJournal(scope, limits).value, ops).0, op);
  }
}
