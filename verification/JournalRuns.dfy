/** What holds of every run of the journal. */
module JournalRuns {
  import opened NetTypes
  import opened JournalModel
  import opened JournalInvariant
  import opened JournalSteps
  import opened JournalInsert
  import opened JournalReconcile
  import opened JournalDecide

  // ---- retiring a command prefix --------------------------------------------------------

  lemma {:induction false} RetainedAt(entries: seq<Entry>, sequence: nat, i: nat) returns (a: nat)
    requires i < |Retained(entries, sequence)|
    ensures i <= a < |entries| && Retained(entries, sequence)[i] == entries[a]
    ensures entries[a].identity.key.action.command > sequence
  {
    if entries[0].identity.key.action.command > sequence {
      if i == 0 {
        a := 0;
      } else {
        var b := RetainedAt(entries[1..], sequence, i - 1);
        a := b + 1;
      }
    } else {
      var b := RetainedAt(entries[1..], sequence, i);
      a := b + 1;
    }
  }

  lemma {:induction false} RetainedPair(entries: seq<Entry>, sequence: nat, i: nat, k: nat) returns (a: nat, b: nat)
    requires i < k < |Retained(entries, sequence)|
    ensures a < b < |entries|
    ensures Retained(entries, sequence)[i] == entries[a] && Retained(entries, sequence)[k] == entries[b]
  {
    if entries[0].identity.key.action.command > sequence {
      if i == 0 {
        var c := RetainedAt(entries[1..], sequence, k - 1);
        a, b := 0, c + 1;
      } else {
        var c, d := RetainedPair(entries[1..], sequence, i - 1, k - 1);
        a, b := c + 1, d + 1;
      }
    } else {
      var c, d := RetainedPair(entries[1..], sequence, i, k);
      a, b := c + 1, d + 1;
    }
  }

  lemma {:induction false} RetainedHas(entries: seq<Entry>, sequence: nat, a: nat) returns (i: nat)
    requires a < |entries| && entries[a].identity.key.action.command > sequence
    ensures i < |Retained(entries, sequence)| && Retained(entries, sequence)[i] == entries[a]
  {
    if a == 0 {
      i := 0;
    } else {
      var k := RetainedHas(entries[1..], sequence, a - 1);
      i := if entries[0].identity.key.action.command > sequence then k + 1 else k;
    }
  }

  lemma RetiredEntries(j: Journal, sequence: nat)
    requires Structured(j) && Retire(j, sequence).Ok?
    ensures var after := Retire(j, sequence).value.journal;
      Sorted(after.entries) && BindingsDistinct(after.entries)
  {
    var after := Retained(j.entries, sequence);
    forall i, k | 0 <= i < k < |after|
      ensures Less(KeyAt(after, i), KeyAt(after, k))
      ensures after[i].binding.Some? ==> after[i].binding != after[k].binding
    {
      var a, b := RetainedPair(j.entries, sequence, i, k);
      assert Less(KeyAt(j.entries, a), KeyAt(j.entries, b));
    }
  }

  lemma RetiredStructured(j: Journal, sequence: nat)
    requires Structured(j) && Retire(j, sequence).Ok?
    ensures Structured(Retire(j, sequence).value.journal)
  {
    var after := Retire(j, sequence).value.journal;
    RetiredEntries(j, sequence);
    forall i | 0 <= i < |after.entries| ensures EntryOk(after, after.entries[i]) {
      var a := RetainedAt(j.entries, sequence, i);
      assert EntryOk(j, j.entries[a]);
    }
    forall index | index in after.bindings ensures Holds(after, after.bindings[index]) {
      var b := j.bindings[index];
      assert Holds(j, b);
      if b.key.action.command > sequence {
        var k :| 0 <= k < |j.entries| && KeyAt(j.entries, k) == b.key && j.entries[k].binding == Some(b.entity);
        var i := RetainedHas(j.entries, sequence, k);
        assert KeyAt(after.entries, i) == b.key;
      }
    }
  }

  lemma RetiredShows(j: Journal, sequence: nat, view: map<EventKey, Payload>)
    requires Shows(view, j.entries) && !LiveThrough(j.entries, sequence)
    ensures Shows(view, Retained(j.entries, sequence))
  {
    var after := Retained(j.entries, sequence);
    forall i | 0 <= i < |after| && Shown(after[i])
      ensures KeyAt(after, i) in view && after[i].payload == Some(view[KeyAt(after, i)])
    {
      var a := RetainedAt(j.entries, sequence, i);
      assert KeyAt(j.entries, a) == KeyAt(after, i);
    }
    forall key | key in view ensures ShownKey(after, key) {
      var a :| 0 <= a < |j.entries| && KeyAt(j.entries, a) == key && Shown(j.entries[a]);
      var i := RetainedHas(j.entries, sequence, a);
      assert KeyAt(after, i) == key;
    }
  }

  lemma RetiredSpent(j: Journal, sequence: nat, key: EventKey)
    requires Structured(j) && Retire(j, sequence).Ok? && Spent(j, key)
    ensures Spent(Retire(j, sequence).value.journal, key)
  {
    var after := Retire(j, sequence).value.journal;
    if a :| 0 <= a < |j.entries| && SpentEntry(j.entries[a], key) {
      assert EntryOk(j, j.entries[a]);
      if key.action.command > sequence {
        var i := RetainedHas(j.entries, sequence, a);
        assert SpentEntry(after.entries[i], key);
      }
    }
  }

  lemma RetireKeeps(j: Journal, history: seq<Change>, sequence: nat)
    requires Inv(j, history) && Retire(j, sequence).Ok?
    ensures Inv(Retire(j, sequence).value.journal, history)
    ensures Later(j, Retire(j, sequence).value.journal)
  {
    var after := Retire(j, sequence).value.journal;
    RetiredStructured(j, sequence);
    RetiredShows(j, sequence, Fold(history));
    forall key | OneShotCreates(history, key) == 1 ensures Spent(after, key) {
      RetiredSpent(j, sequence, key);
    }
    forall a | 0 <= a < |j.entries| && KeyAt(j.entries, a).action.command > sequence
      ensures Carried(j.entries[a], after.entries)
    {
      var i := RetainedHas(j.entries, sequence, a);
      assert Kept(j.entries[a], after.entries[i]);
    }
  }

  // ---- a new scope ------------------------------------------------------------------------

  lemma RestartKeeps(j: Journal, history: seq<Change>, scope: JournalScope)
    requires Inv(j, history) && ScopeLess(j.scope, scope)
    ensures Inv(EmptyJournal(scope, j.limits), history + [Reset(j.scope, scope)])
  {
    var after, c := EmptyJournal(scope, j.limits), Reset(j.scope, scope);
    Extend(history, c);
    forall key | OneShotCreates(history + [c], key) == 1 ensures Spent(after, key) {
      assert Spent(j, key);
      if i :| 0 <= i < |j.entries| && SpentEntry(j.entries[i], key) {
        assert EntryOk(j, j.entries[i]);
      }
    }
    assert FenceGenerations(after.bindings) == map[];
  }

  // ---- one operation -----------------------------------------------------------------------

  /** Either the same scope, later; or a strictly newer scope. */
  ghost predicate Follows(j: Journal, j': Journal) {
    Later(j, j') || (ScopeLess(j.scope, j'.scope) && j'.limits == j.limits)
  }

  lemma StageSteps(st: Staged, past: seq<Change>, op: Op)
    requires Good(st, past) && !op.RetireThrough? && !op.ResetScope?
    ensures Steps(st, Stage(st, op), past)
  {
    match op
    case Advance(now) => AdvanceSteps(st, past, now);
    case Reconcile(now, range, corrected, validate) => ReconcileSteps(st, past, now, range, corrected, validate);
    case Resolve(now, identity, verdict) => ResolveSteps(st, past, now, identity, verdict);
    case RejectAction(now, action) => RejectActionSteps(st, past, now, action);
    case Expire(now, identity) => ExpireSteps(st, past, now, identity);
  }

  /** What an operation leaves behind: a sound journal over the extended stream that undoes nothing. */
  ghost predicate Continues(j: Journal, history: seq<Change>, st: Staged) {
    Inv(st.journal, history + st.changes) && Follows(j, st.journal) && CreatesCurrent(j, st.changes)
  }

  lemma TransactionKeeps(j: Journal, history: seq<Change>, op: Op)
    requires Inv(j, history) && !op.RetireThrough? && !op.ResetScope? && Transaction(j, op).Ok?
    ensures Continues(j, history, Transaction(j, op).value)
  {
    assert history + [] == history;
    assert Good(Staged(j, [], 0), history);
    StageSteps(Staged(j, [], 0), history, op);
  }

  /** Every operation that succeeds keeps the invariant over the extended change stream. */
  lemma ExecuteKeeps(j: Journal, history: seq<Change>, op: Op)
    requires Inv(j, history) && Execute(j, op).Ok?
    ensures Continues(j, history, Execute(j, op).value)
  {
    if op.RetireThrough? {
      assert history + [] == history;
      RetireKeeps(j, history, op.sequence);
    } else if op.ResetScope? {
      RestartKeeps(j, history, op.scope);
      assert Execute(j, op).value.changes == [Reset(j.scope, op.scope)];
    } else {
      TransactionKeeps(j, history, op);
    }
  }

  // ---- runs ----------------------------------------------------------------------------------

  /** A failing operation leaves the journal as it was and emits nothing. */
  function After(j: Journal, op: Op): Staged {
    var r := Execute(j, op);
    if r.Ok? then r.value else Staged(j, [], 0)
  }

  /** The journal and the whole change stream after a run. */
  function Run(j: Journal, ops: seq<Op>): (Journal, seq<Change>) {
    if ops == [] then (j, [])
    else
      var (before, history) := Run(j, ops[..|ops| - 1]);
      var st := After(before, ops[|ops| - 1]);
      (st.journal, history + st.changes)
  }

  lemma EmptyInv(scope: JournalScope, limits: Limits)
    ensures Inv(EmptyJournal(scope, limits), [])
  {
    assert FenceGenerations(EmptyJournal(scope, limits).bindings) == map[];
  }

  lemma FollowsTrans(a: Journal, b: Journal, c: Journal)
    requires Follows(a, b) && Follows(b, c)
    ensures Follows(a, c)
  {
    if Later(a, b) && Later(b, c) {
      LaterTrans(a, b, c);
    }
  }

  /** One more operation of a run keeps what the run has established. */
  lemma AfterKeeps(j: Journal, history: seq<Change>, op: Op)
    requires Inv(j, history)
    ensures Continues(j, history, After(j, op))
  {
    if Execute(j, op).Ok? {
      ExecuteKeeps(j, history, op);
    } else {
      LaterSame(j);
      assert history + [] == history;
    }
  }

  lemma Appended(j: Journal, past: seq<Change>, before: Journal, earlier: seq<Change>, st: Staged)
    requires Inv(st.journal, past + earlier + st.changes) && Follows(j, before) && Follows(before, st.journal)
    ensures Inv(st.journal, past + (earlier + st.changes)) && Follows(j, st.journal)
  {
    FollowsTrans(j, before, st.journal);
    assert past + (earlier + st.changes) == past + earlier + st.changes;
  }

  lemma RunOneMore(j: Journal, past: seq<Change>, before: Journal, earlier: seq<Change>, op: Op)
    requires Inv(before, past + earlier) && Follows(j, before)
    ensures var st := After(before, op); Inv(st.journal, past + (earlier + st.changes)) && Follows(j, st.journal)
  {
    AfterKeeps(before, past + earlier, op);
    Appended(j, past, before, earlier, After(before, op));
  }

  lemma {:induction false} RunKeeps(j: Journal, past: seq<Change>, ops: seq<Op>)
    requires Inv(j, past)
    ensures var (j', emitted) := Run(j, ops); Inv(j', past + emitted) && Follows(j, j')
  {
    if ops == [] {
      LaterSame(j);
      assert past + [] == past;
    } else {
      var last := |ops| - 1;
      RunKeeps(j, past, ops[..last]);
      var (before, earlier) := Run(j, ops[..last]);
      RunOneMore(j, past, before, earlier, ops[last]);
    }
  }

  // ---- theorems over all runs from an empty journal ------------------------------------------

  ghost predicate Reachable(j: Journal, history: seq<Change>) {
    exists scope, limits, ops :: Run(EmptyJournal(scope, limits), ops) == (j, history)
  }

  lemma ReachableInv(j: Journal, history: seq<Change>)
    requires Reachable(j, history)
    ensures Inv(j, history)
  {
    var scope, limits, ops :| Run(EmptyJournal(scope, limits), ops) == (j, history);
    EmptyInv(scope, limits);
    RunKeeps(EmptyJournal(scope, limits), [], ops);
    assert [] + history == history;
  }

  /** Folding the emitted changes yields exactly the live, revocable entries with their payloads. */
  lemma StreamRefinesJournal(j: Journal, history: seq<Change>, key: EventKey)
    requires Reachable(j, history)
    ensures key in Fold(history) <==>
      Present(j.entries, key) && Shown(j.entries[Pos(j.entries, key)])
    ensures key in Fold(history) ==> j.entries[Pos(j.entries, key)].payload == Some(Fold(history)[key])
  {
    ReachableInv(j, history);
    if key in Fold(history) {
      assert ShownKey(j.entries, key);
      var i :| 0 <= i < |j.entries| && KeyAt(j.entries, i) == key && Shown(j.entries[i]);
      Found(j.entries, key, i);
    }
    if Present(j.entries, key) {
      assert KeyAt(j.entries, Pos(j.entries, key)) == key;
    }
  }

  /** Decision, phase and payload agree in every reachable entry, and a rejected action has no live or accepted one. */
  lemma ReachableEntries(j: Journal, history: seq<Change>, i: nat)
    requires Reachable(j, history) && i < |j.entries|
    ensures j.entries[i].decision == Rejected <==> j.entries[i].phase == Refused
    ensures j.entries[i].payload.Some? <==> j.entries[i].phase == Live
    ensures j.entries[i].identity.key.action in j.rejected ==>
      j.entries[i].phase != Live && j.entries[i].decision != Accepted
  {
    ReachableInv(j, history);
    assert EntryOk(j, j.entries[i]);
  }

  /**
   However the run goes on, within the scope and until its command is retired an entry stays, keeps
   its decision, binding and lifetime, and once expired or refused is never live again.
   */
  lemma DecisionsAreFinal(j: Journal, history: seq<Change>, ops: seq<Op>, i: nat)
    requires Reachable(j, history) && i < |j.entries|
    ensures var j' := Run(j, ops).0;
      var key := KeyAt(j.entries, i);
      j'.scope == j.scope && key.action.command > j'.retired ==>
        Present(j'.entries, key) && Kept(j.entries[i], j'.entries[Pos(j'.entries, key)])
  {
    ReachableInv(j, history);
    RunKeeps(j, history, ops);
    var (j', emitted) := Run(j, ops);
    var key := KeyAt(j.entries, i);
    if j'.scope == j.scope && key.action.command > j'.retired {
      assert Carried(j.entries[i], j'.entries);
      var k :| 0 <= k < |j'.entries| && Kept(j.entries[i], j'.entries[k]);
      Found(j'.entries, key, k);
    }
  }

  /** An event overtaken by a newer generation is expired, and stays so for the rest of the run. */
  lemma SupersededStaysExpired(j: Journal, history: seq<Change>, ops: seq<Op>, i: nat)
    requires Reachable(j, history) && i < |j.entries| && j.entries[i].binding.Some?
    requires var entity := j.entries[i].binding.value;
      entity.index in j.bindings && entity.generation < j.bindings[entity.index].entity.generation
    ensures var j' := Run(j, ops).0;
      var key := KeyAt(j.entries, i);
      j'.scope == j.scope && key.action.command > j'.retired ==>
        Present(j'.entries, key) && j'.entries[Pos(j'.entries, key)].phase == Expired
  {
    DecisionsAreFinal(j, history, ops, i);
    ReachableInv(j, history);
    RunKeeps(j, history, ops);
    assert EntryOk(j, j.entries[i]);
    var (j', emitted) := Run(j, ops);
    var key := KeyAt(j.entries, i);
    if j'.scope == j.scope && key.action.command > j'.retired {
      assert EntryOk(j', j'.entries[Pos(j'.entries, key)]);
    }
  }

  /** No two events hold the same entity and generation. */
  lemma BindingsNeverShared(j: Journal, history: seq<Change>, i: nat, k: nat)
    requires Reachable(j, history) && i < k < |j.entries| && j.entries[i].binding.Some?
    ensures j.entries[i].binding != j.entries[k].binding
  {
    ReachableInv(j, history);
  }

  /** The newest generation known at the end is at least that of any binding since the last reset. */
  lemma {:induction false} GenerationsCover(history: seq<Change>, a: nat)
    requires BindsIncrease(history) && a < |history| && Binds(history[a])
    requires forall n :: a < n < |history| ==> !history[n].Reset?
    ensures history[a].entity.index in Generations(history)
    ensures history[a].entity.generation <= Generations(history)[history[a].entity.index]
  {
    if a < |history| - 1 {
      GenerationsCover(history[..|history| - 1], a);
    }
  }

  lemma {:induction false} BindsIncreasePrefix(history: seq<Change>, n: nat)
    requires BindsIncrease(history) && n <= |history|
    ensures BindsIncrease(history[..n])
  {
    if n == |history| {
      assert history[..n] == history;
    } else {
      BindsIncreasePrefix(history[..|history| - 1], n);
      assert history[..|history| - 1][..n] == history[..n];
    }
  }

  lemma LaterBindIsNewer(history: seq<Change>, a: nat, b: nat)
    requires BindsIncrease(history) && a < b < |history| && Binds(history[a]) && Binds(history[b])
    requires history[a].entity.index == history[b].entity.index
    requires forall n :: a < n < b ==> !history[n].Reset?
    ensures history[a].entity.generation < history[b].entity.generation
  {
    var upTo := history[..b + 1];
    BindsIncreasePrefix(history, b + 1);
    BindsIncreasePrefix(history, b);
    assert upTo[..b] == history[..b] && upTo[b] == history[b];
    GenerationsCover(history[..b], a);
  }

  /** Until a scope reset, each index is bound to strictly newer generations only. */
  lemma BindingsOnlyRise(j: Journal, history: seq<Change>, a: nat, b: nat)
    requires Reachable(j, history) && a < b < |history| && Binds(history[a]) && Binds(history[b])
    requires history[a].entity.index == history[b].entity.index
    requires forall n :: a < n < b ==> !history[n].Reset?
    ensures history[a].entity.generation < history[b].entity.generation
  {
    ReachableInv(j, history);
    LaterBindIsNewer(history, a, b);
  }

  lemma {:induction false} CreateCounts(history: seq<Change>, a: nat, key: EventKey)
    requires a < |history| && CreatesOneShot(history[a], key)
    ensures OneShotCreates(history, key) >= 1
  {
    if a < |history| - 1 {
      CreateCounts(history[..|history| - 1], a, key);
    }
  }

  lemma {:induction false} CreatesCountTwice(history: seq<Change>, a: nat, b: nat, key: EventKey)
    requires a < b < |history| && CreatesOneShot(history[a], key) && CreatesOneShot(history[b], key)
    ensures OneShotCreates(history, key) >= 2
  {
    if b < |history| - 1 {
      CreatesCountTwice(history[..|history| - 1], a, b, key);
    } else {
      CreateCounts(history[..b], a, key);
    }
  }

  /** Over any run a one-shot key is created at most once. */
  lemma OneShotOnce(j: Journal, history: seq<Change>, a: nat, b: nat, key: EventKey)
    requires Reachable(j, history) && a < |history| && b < |history|
    requires CreatesOneShot(history[a], key) && CreatesOneShot(history[b], key)
    ensures a == b
  {
    ReachableInv(j, history);
    if a < b {
      CreatesCountTwice(history, a, b, key);
    } else if b < a {
      CreatesCountTwice(history, b, a, key);
    }
  }

  /** A key of a retired command or an older scope. */
  predicate Dead(j: Journal, key: EventKey) {
    var scope := JournalScope(key.action.connection, key.action.stream);
    (scope == j.scope && key.action.command <= j.retired) || ScopeLess(scope, j.scope)
  }

  predicate NeverCreates(changes: seq<Change>, key: EventKey) {
    forall n :: 0 <= n < |changes| && changes[n].Create? ==> changes[n].event.identity.key != key
  }

  lemma {:induction false} DeadNeverCreated(j: Journal, past: seq<Change>, ops: seq<Op>, key: EventKey)
    requires Inv(j, past) && Dead(j, key)
    ensures NeverCreates(Run(j, ops).1, key) && Dead(Run(j, ops).0, key)
  {
    if ops != [] {
      var last := |ops| - 1;
      DeadNeverCreated(j, past, ops[..last], key);
      RunKeeps(j, past, ops[..last]);
      var (before, earlier) := Run(j, ops[..last]);
      AfterKeeps(before, past + earlier, ops[last]);
      var st := After(before, ops[last]);
      assert NeverCreates(st.changes, key);
    }
  }

  /** A retired command or an old scope produces no presentation ever again. */
  lemma RetiredStaysSilent(j: Journal, history: seq<Change>, ops: seq<Op>, key: EventKey)
    requires Reachable(j, history) && Dead(j, key)
    ensures NeverCreates(Run(j, ops).1, key)
  {
    ReachableInv(j, history);
    DeadNeverCreated(j, history, ops, key);
  }
}
