/**
 The journal as the program runs it: searches and sweeps over the staged copy, and an
 object that takes the staged copy over only when the whole operation succeeded.
 */
module JournalObject {
  import opened NetTypes
  import opened JournalModel
  import opened JournalInvariant
  import opened JournalSteps
  import opened JournalInsert
  import opened JournalReconcile
  import opened JournalRuns

  // ---- searching the sorted entries --------------------------------------------------------

  lemma {:induction false} PosUnique(entries: seq<Entry>, key: EventKey, p: nat)
    requires Sorted(entries) && p <= |entries|
    requires forall i :: 0 <= i < p ==> Less(KeyAt(entries, i), key)
    requires p < |entries| ==> !Less(KeyAt(entries, p), key)
    ensures Pos(entries, key) == p
  {
    PosSplits(entries, key);
    var q := Pos(entries, key);
    var found := if q < |entries| then KeyAt(entries, q) else key;
  }

  /** Binary search: whether the key is present, and where it is or belongs. */
  method Locate(entries: seq<Entry>, key: EventKey) returns (found: bool, p: nat)
    requires Sorted(entries)
    ensures p == Pos(entries, key) && found == Present(entries, key)
  {
    var low, high := 0, |entries|;
    while low < high
      invariant 0 <= low <= high <= |entries|
      invariant forall i :: 0 <= i < low ==> Less(KeyAt(entries, i), key)
      invariant high < |entries| ==> !Less(KeyAt(entries, high), key)
    {
      var mid := (low + high) / 2;
      if Less(entries[mid].identity.key, key) {
        forall i | 0 <= i < mid ensures Less(KeyAt(entries, i), key) {
          LessTrans(KeyAt(entries, i), KeyAt(entries, mid), key);
        }
        low := mid + 1;
      } else {
        high := mid;
      }
    }
    PosUnique(entries, key, low);
    p := low;
    found := p < |entries| && entries[p].identity.key == key;
  }

  method FindOrInsert(st: Staged, identity: EventIdentity) returns (r: Result<(Staged, nat), EventError>)
    requires Sorted(st.journal.entries)
    ensures r == EnsureEntry(st, identity)
  {
    var j := st.journal;
    var valid := ValidAction(j, identity.key.action);
    if valid.Failed? {
      return Err(valid.error);
    }
    if identity.key.kind == 0 || identity.schema == 0 || identity.originTick > j.now {
      return Err(InvalidIdentity);
    }
    var found, p := Locate(j.entries, identity.key);
    if found {
      if j.entries[p].identity != identity {
        return Err(Conflict);
      }
      return Ok((st, p));
    }
    if |j.entries| >= j.limits.records {
      return Err(ResetRequired);
    }
    r := Ok((st.(journal := j.(entries := j.entries[..p] + [NewEntry(identity)] + j.entries[p..])), p));
  }

  // ---- the sweeps over the staged copy -------------------------------------------------------

  method AdvanceStaged(st: Staged, now: nat) returns (r: Result<Staged, EventError>)
    ensures r == AdvanceInner(st, now)
  {
    if now < st.journal.now {
      return Err(Stale);
    }
    var staged := st.(journal := st.journal.(now := now));
    var i := 0;
    while i < |staged.journal.entries|
      invariant 0 <= i <= |staged.journal.entries|
      invariant AdvanceInner(st, now) == AdvanceFrom(staged, now, i)
      decreases |staged.journal.entries| - i
    {
      if Lapses(staged.journal.entries[i], now) {
        r := CancelAt(staged, i, Expired, HasExpired);
        if r.Err? {
          return;
        }
        staged := r.value;
      }
      i := i + 1;
    }
    r := Ok(staged);
  }

  /** Whether one of the first `n` corrected events has the key. */
  method Mentioned(corrected: seq<EventRecord>, n: nat, key: EventKey) returns (found: bool)
    requires n <= |corrected|
    ensures found == Corrected(corrected[..n], key)
  {
    for m := 0 to n
      invariant forall l :: 0 <= l < m ==> corrected[l].identity.key != key
    {
      if corrected[m].identity.key == key {
        assert corrected[..n][m].identity.key == key;
        return true;
      }
    }
    found := false;
  }

  /** The checks and the application of one corrected event. */
  method CorrectEvent(
    st: Staged, range: ReplayRange, corrected: seq<EventRecord>, n: nat, validate: Payload -> bool)
    returns (r: Result<Staged, EventError>)
    requires Sorted(st.journal.entries) && n < |corrected|
    ensures r == CorrectOne(st, range, corrected[..n], corrected[n], validate)
  {
    var event := corrected[n];
    var valid := ValidIdentity(st.journal, event.identity);
    if valid.Failed? {
      return Err(valid.error);
    }
    var duplicate := Mentioned(corrected, n, event.identity.key);
    if duplicate {
      return Err(DuplicateKey);
    }
    if event.identity.originTick < range.first || event.identity.originTick > range.last
       || event.expiresAt <= event.identity.originTick
       || event.expiresAt - event.identity.originTick > st.journal.limits.lifetimeTicks {
      return Err(InvalidIdentity);
    }
    if event.payload.bytes > st.journal.limits.payloadBytes || !validate(event.payload) {
      return Err(InvalidPayload);
    }
    var entry := FindOrInsert(st, event.identity);
    if entry.Err? {
      return Err(entry.error);
    }
    r := CorrectAt(entry.value.0, entry.value.1, event);
  }

  method CorrectStaged(
    st: Staged, range: ReplayRange, corrected: seq<EventRecord>, validate: Payload -> bool, ghost past: seq<Change>)
    returns (r: Result<Staged, EventError>)
    requires Good(st, past)
    ensures r == CorrectFrom(st, range, corrected, 0, validate)
  {
    var staged := st;
    for n := 0 to |corrected|
      invariant Good(staged, past)
      invariant CorrectFrom(st, range, corrected, 0, validate) == CorrectFrom(staged, range, corrected, n, validate)
    {
      r := CorrectEvent(staged, range, corrected, n, validate);
      if r.Err? {
        return;
      }
      CorrectOneSteps(staged, past, range, corrected[..n], corrected[n], validate);
      staged := r.value;
    }
    r := Ok(staged);
  }

  method VanishStaged(
    st: Staged, range: ReplayRange, corrected: seq<EventRecord>) returns (r: Result<Staged, EventError>)
    ensures r == VanishFrom(st, range, corrected, 0)
  {
    var staged := st;
    var i := 0;
    while i < |staged.journal.entries|
      invariant 0 <= i <= |staged.journal.entries|
      invariant VanishFrom(st, range, corrected, 0) == VanishFrom(staged, range, corrected, i)
      decreases |staged.journal.entries| - i
    {
      var e := staged.journal.entries[i];
      var mentioned := Mentioned(corrected, |corrected|, e.identity.key);
      assert corrected[..|corrected|] == corrected;
      if e.phase == Live && e.decision != Accepted && range.first <= e.identity.originTick <= range.last && !mentioned {
        r := CancelAt(staged, i, ReplayAbsent, AbsentOnReplay);
        if r.Err? {
          return;
        }
        staged := r.value;
      }
      i := i + 1;
    }
    r := Ok(staged);
  }

  method RejectStaged(st: Staged, action: ActionKey) returns (r: Result<Staged, EventError>)
    ensures r == RejectFrom(st, action, 0)
  {
    var staged := st;
    var i := 0;
    while i < |staged.journal.entries|
      invariant 0 <= i <= |staged.journal.entries|
      invariant RejectFrom(st, action, 0) == RejectFrom(staged, action, i)
      decreases |staged.journal.entries| - i
    {
      if staged.journal.entries[i].identity.key.action == action {
        r := RejectAt(staged, i);
        if r.Err? {
          return;
        }
        staged := r.value;
      }
      i := i + 1;
    }
    r := Ok(staged);
  }

  method AnyAccepted(entries: seq<Entry>, action: ActionKey) returns (found: bool)
    ensures found == ActionAccepted(entries, action)
  {
    for i := 0 to |entries|
      invariant forall k :: 0 <= k < i ==>
        !(entries[k].identity.key.action == action && entries[k].decision == Accepted)
    {
      if entries[i].identity.key.action == action && entries[i].decision == Accepted {
        return true;
      }
    }
    found := false;
  }

  method Bind(st: Staged, i: nat, entity: EntityId) returns (r: Result<Staged, EventError>)
    requires Sorted(st.journal.entries) && i < |st.journal.entries|
    ensures r == BindAt(st, i, entity)
  {
    var j := st.journal;
    var e := j.entries[i];
    if entity.generation == 0 {
      return Err(InvalidIdentity);
    }
    if e.binding.Some? {
      return if e.binding.value == entity then Ok(st) else Err(Conflict);
    }
    var staged := st;
    if entity.index in j.bindings {
      var fence := j.bindings[entity.index];
      if entity.generation < fence.entity.generation {
        return Err(Stale);
      }
      if entity.generation == fence.entity.generation && fence.key != e.identity.key {
        return Err(Conflict);
      }
      if fence.key != e.identity.key {
        var found, p := Locate(j.entries, fence.key);
        if found {
          var superseded := CancelAt(st, p, Expired, HasExpired);
          if superseded.Err? {
            return superseded;
          }
          staged := superseded.value;
        }
      }
    } else if |j.bindings| >= j.limits.bindings {
      return Err(ResetRequired);
    }
    r := RecordBinding(staged, i, entity);
  }

  // ---- whole operations on the staged copy ----------------------------------------------------

  method RunReconcile(
    st: Staged, now: nat, range: ReplayRange, corrected: seq<EventRecord>, validate: Payload -> bool,
    ghost past: seq<Change>)
    returns (r: Result<Staged, EventError>)
    requires Good(st, past)
    ensures r == ReconcileStaged(st, now, range, corrected, validate)
  {
    r := AdvanceStaged(st, now);
    if r.Err? {
      return;
    }
    AdvanceSteps(st, past, now);
    if range.first > range.last || range.last > now {
      return Err(InvalidIdentity);
    }
    if now - range.first >= st.journal.limits.historyTicks {
      return Err(OutsideHistory);
    }
    if |corrected| > st.journal.limits.records {
      return Err(Capacity);
    }
    r := CorrectStaged(r.value, range, corrected, validate, past);
    if r.Ok? {
      r := VanishStaged(r.value, range, corrected);
    }
  }

  method RunAccept(st: Staged, i: nat, binding: Option<EntityId>) returns (r: Result<Staged, EventError>)
    requires Sorted(st.journal.entries) && i < |st.journal.entries|
    ensures r == AcceptAt(st, i, binding)
  {
    var e := st.journal.entries[i];
    if e.decision == Rejected || e.identity.key.action in st.journal.rejected {
      return Err(Conflict);
    }
    r := Ok(st);
    if e.decision != Accepted {
      r := Emit(SetEntry(st, i, e.(decision := Accepted)), Confirm(e.identity.key));
      if r.Err? {
        return;
      }
      assert forall k :: 0 <= k < |st.journal.entries| ==>
        KeyAt(r.value.journal.entries, k) == KeyAt(st.journal.entries, k);
    }
    if binding.Some? {
      r := Bind(r.value, i, binding.value);
    }
  }

  method RunResolve(st: Staged, now: nat, identity: EventIdentity, verdict: Verdict, ghost past: seq<Change>)
    returns (r: Result<Staged, EventError>)
    requires Good(st, past)
    ensures r == ResolveStaged(st, now, identity, verdict)
  {
    r := AdvanceStaged(st, now);
    if r.Err? {
      return;
    }
    AdvanceSteps(st, past, now);
    EnsureSteps(r.value, past, identity);
    var entry := FindOrInsert(r.value, identity);
    if entry.Err? {
      return Err(entry.error);
    }
    var found, i := entry.value.0, entry.value.1;
    match verdict
    case Reject =>
      if found.journal.entries[i].decision == Accepted {
        return Err(Conflict);
      }
      r := RejectAt(found, i);
    case Accept(binding) =>
      r := RunAccept(found, i, binding);
  }

  method RunRejectAction(st: Staged, now: nat, action: ActionKey) returns (r: Result<Staged, EventError>)
    ensures r == RejectActionStaged(st, now, action)
  {
    r := AdvanceStaged(st, now);
    if r.Err? {
      return;
    }
    var j := r.value.journal;
    var valid := ValidAction(j, action);
    if valid.Failed? {
      return Err(valid.error);
    }
    var accepted := AnyAccepted(j.entries, action);
    if accepted {
      return Err(Conflict);
    }
    if action !in j.rejected && |j.rejected| >= j.limits.actionFences {
      return Err(ResetRequired);
    }
    r := RejectStaged(r.value.(journal := j.(rejected := j.rejected + {action})), action);
  }

  method RunExpire(st: Staged, now: nat, identity: EventIdentity, ghost past: seq<Change>)
    returns (r: Result<Staged, EventError>)
    requires Good(st, past)
    ensures r == ExpireStaged(st, now, identity)
  {
    r := AdvanceStaged(st, now);
    if r.Err? {
      return;
    }
    AdvanceSteps(st, past, now);
    var entry := FindOrInsert(r.value, identity);
    if entry.Err? {
      return Err(entry.error);
    }
    var found, i := entry.value.0, entry.value.1;
    if found.journal.entries[i].phase == Refused {
      return Ok(found);
    }
    r := CancelAt(found, i, Expired, HasExpired);
  }

  method Keep(entries: seq<Entry>, sequence: nat) returns (kept: seq<Entry>)
    ensures kept == Retained(entries, sequence)
  {
    kept := [];
    var i := |entries|;
    assert entries[i..] == [];
    while i > 0
      invariant 0 <= i <= |entries|
      invariant kept == Retained(entries[i..], sequence)
    {
      i := i - 1;
      assert entries[i..][1..] == entries[i + 1..];
      if entries[i].identity.key.action.command > sequence {
        kept := [entries[i]] + kept;
      }
    }
    assert entries[0..] == entries;
  }

  method AnyLive(entries: seq<Entry>, sequence: nat) returns (found: bool)
    ensures found == LiveThrough(entries, sequence)
  {
    for i := 0 to |entries|
      invariant forall k :: 0 <= k < i ==>
        !(entries[k].identity.key.action.command <= sequence && entries[k].phase == Live)
    {
      if entries[i].identity.key.action.command <= sequence && entries[i].phase == Live {
        return true;
      }
    }
    found := false;
  }

  /** What one call did: the operation's journal and changes, or an error and nothing at all. */
  ghost predicate Performed(
    before: Journal, past: seq<Change>, op: Op, after: Journal, history: seq<Change>,
    r: Result<seq<Change>, EventError>)
  {
    match Execute(before, op)
    case Ok(st) => after == st.journal && history == past + st.changes && r == Ok(st.changes)
    case Err(error) => after == before && history == past && r == Err(error)
  }

  class EventJournal {
    const limits: Limits
    var scope: JournalScope
    var now: nat
    var retired: nat
    var entries: seq<Entry>
    var bindings: map<nat, Binding>
    var rejected: set<ActionKey>

    /** Everything emitted so far. */
    ghost var history: seq<Change>

    function View(): Journal
      reads this
    {
      Journal(scope, limits, now, retired, entries, bindings, rejected)
    }

    ghost predicate Valid()
      reads this
    {
      Inv(View(), history)
    }

    constructor (scope: JournalScope, limits: Limits)
      ensures Valid() && View() == EmptyJournal(scope, limits) && history == []
    {
      this.scope, this.limits := scope, limits;
      now, retired, entries, bindings, rejected, history := 0, 0, [], map[], {}, [];
      new;
      EmptyInv(scope, limits);
    }

    /** Takes a staged copy over, or leaves everything as it was. */
    method Commit(staged: Result<Staged, EventError>, ghost op: Op) returns (r: Result<seq<Change>, EventError>)
      requires Valid() && staged == Execute(View(), op)
      modifies this
      ensures Valid() && Performed(old(View()), old(history), op, View(), history, r)
    {
      if staged.Err? {
        return Err(staged.error);
      }
      ExecuteKeeps(View(), history, op);
      var j := staged.value.journal;
      assert j.limits == limits;
      scope, now, retired, entries, bindings, rejected := j.scope, j.now, j.retired, j.entries, j.bindings, j.rejected;
      history := history + staged.value.changes;
      assert View() == j;
      r := Ok(staged.value.changes);
    }

    /** The staged copy every transaction works on. */
    method Begin() returns (staged: Result<Staged, EventError>)
      requires Valid()
      ensures staged == CheckResident(Staged(View(), [], 0))
      ensures staged.Ok? ==> Good(staged.value, history)
    {
      staged := CheckResident(Staged(View(), [], 0));
      assert history + [] == history;
    }

    method Advance(now: nat) returns (r: Result<seq<Change>, EventError>)
      requires Valid()
      modifies this
      ensures Valid() && Performed(old(View()), old(history), Op.Advance(now), View(), history, r)
    {
      var staged := Begin();
      if staged.Ok? {
        staged := AdvanceStaged(staged.value, now);
        if staged.Ok? {
          staged := CheckResident(staged.value);
        }
      }
      r := Commit(staged, Op.Advance(now));
    }

    method Reconcile(now: nat, range: ReplayRange, corrected: seq<EventRecord>, validate: Payload -> bool)
      returns (r: Result<seq<Change>, EventError>)
      requires Valid()
      modifies this
      ensures Valid()
      ensures Performed(old(View()), old(history), Op.Reconcile(now, range, corrected, validate), View(), history, r)
    {
      var staged := Begin();
      if staged.Ok? {
        staged := RunReconcile(staged.value, now, range, corrected, validate, history);
        if staged.Ok? {
          staged := CheckResident(staged.value);
        }
      }
      r := Commit(staged, Op.Reconcile(now, range, corrected, validate));
    }

    method Resolve(now: nat, identity: EventIdentity, verdict: Verdict) returns (r: Result<seq<Change>, EventError>)
      requires Valid()
      modifies this
      ensures Valid() && Performed(old(View()), old(history), Op.Resolve(now, identity, verdict), View(), history, r)
    {
      var staged := Begin();
      if staged.Ok? {
        staged := RunResolve(staged.value, now, identity, verdict, history);
        if staged.Ok? {
          staged := CheckResident(staged.value);
        }
      }
      r := Commit(staged, Op.Resolve(now, identity, verdict));
    }

    method RejectAction(now: nat, action: ActionKey) returns (r: Result<seq<Change>, EventError>)
      requires Valid()
      modifies this
      ensures Valid() && Performed(old(View()), old(history), Op.RejectAction(now, action), View(), history, r)
    {
      var staged := Begin();
      if staged.Ok? {
        staged := RunRejectAction(staged.value, now, action);
        if staged.Ok? {
          staged := CheckResident(staged.value);
        }
      }
      r := Commit(staged, Op.RejectAction(now, action));
    }

    method Expire(now: nat, identity: EventIdentity) returns (r: Result<seq<Change>, EventError>)
      requires Valid()
      modifies this
      ensures Valid() && Performed(old(View()), old(history), Op.Expire(now, identity), View(), history, r)
    {
      var staged := Begin();
      if staged.Ok? {
        staged := RunExpire(staged.value, now, identity, history);
        if staged.Ok? {
          staged := CheckResident(staged.value);
        }
      }
      r := Commit(staged, Op.Expire(now, identity));
    }

    method RetireThrough(sequence: nat) returns (r: Result<seq<Change>, EventError>)
      requires Valid()
      modifies this
      ensures Valid() && Performed(old(View()), old(history), Op.RetireThrough(sequence), View(), history, r)
    {
      if sequence < retired {
        return Err(Stale);
      }
      var live := AnyLive(entries, sequence);
      if live {
        return Err(LiveHistory);
      }
      RetireKeeps(View(), history, sequence);
      assert history + [] == history;
      entries := Keep(entries, sequence);
      rejected := (set a | a in rejected && a.command > sequence);
      retired := sequence;
      r := Ok([]);
    }

    method Reset(newScope: JournalScope) returns (r: Result<seq<Change>, EventError>)
      requires Valid()
      modifies this
      ensures Valid() && Performed(old(View()), old(history), Op.ResetScope(newScope), View(), history, r)
    {
      var staged := Restart(View(), newScope);
      r := Commit(staged, Op.ResetScope(newScope));
    }
  }

  /** A journal for a valid scope and configuration, or the reason there is none. */
  method Create(scope: JournalScope, limits: Limits) returns (r: Result<EventJournal, EventError>)
    ensures match NewJournal(scope, limits)
      case Ok(j) => r.Ok? && fresh(r.value) && r.value.Valid() && r.value.View() == j && r.value.history == []
      case Err(error) => r == Err(error)
  {
    if scope.connection == 0 || scope.stream == 0 {
      return Err(InvalidIdentity);
    }
    if !ValidLimits(limits) {
      return Err(InvalidConfiguration);
    }
    var journal := new EventJournal(scope, limits);
    r := Ok(journal);
  }
}
