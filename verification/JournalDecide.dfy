/** Accepting, binding, rejecting and expiring keep the journal's invariant. */
module JournalDecide {
  import opened NetTypes
  import opened JournalModel
  import opened JournalInvariant
  import opened JournalSteps
  import opened JournalInsert

  // ---- binding an entity -------------------------------------------------------------------

  /** The entity at hand is newer than everything bound at its index. */
  ghost predicate Fresher(j: Journal, entity: EntityId) {
    && entity.generation > 0
    && (entity.index in j.bindings ==>
          && j.bindings[entity.index].entity.generation < entity.generation
          && forall k :: 0 <= k < |j.entries| && KeyAt(j.entries, k) == j.bindings[entity.index].key ==>
               j.entries[k].phase == Expired)
  }

  function Bound(j: Journal, i: nat, entity: EntityId): Journal
    requires i < |j.entries|
  {
    j.(bindings := j.bindings[entity.index := Binding(entity, KeyAt(j.entries, i))],
       entries := j.entries[i := j.entries[i].(binding := Some(entity))])
  }

  /** Whatever an entry was bound to is older than a fresher entity, and then the entry is expired. */
  lemma Outdated(j: Journal, k: nat, entity: EntityId)
    requires Structured(j) && Fresher(j, entity) && k < |j.entries|
    requires j.entries[k].binding.Some? && j.entries[k].binding.value.index == entity.index
    ensures j.entries[k].binding.value.generation < entity.generation && j.entries[k].phase == Expired
  {
    assert EntryOk(j, j.entries[k]);
    assert KeyAt(j.entries, k) == j.entries[k].identity.key;
  }

  lemma BoundEntries(j: Journal, i: nat, entity: EntityId)
    requires Structured(j) && Fresher(j, entity) && i < |j.entries|
    requires j.entries[i].decision == Accepted && j.entries[i].binding.None?
    ensures forall k :: 0 <= k < |j.entries| ==> EntryOk(Bound(j, i, entity), Bound(j, i, entity).entries[k])
  {
    var after := Bound(j, i, entity);
    forall k | 0 <= k < |j.entries| ensures EntryOk(after, after.entries[k]) {
      assert EntryOk(j, j.entries[k]);
      if k != i && j.entries[k].binding.Some? && j.entries[k].binding.value.index == entity.index {
        Outdated(j, k, entity);
      }
    }
  }

  lemma BoundFences(j: Journal, i: nat, entity: EntityId)
    requires Structured(j) && Fresher(j, entity) && i < |j.entries| && j.entries[i].binding.None?
    ensures FencesOk(Bound(j, i, entity))
  {
    var after := Bound(j, i, entity);
    assert KeyAt(after.entries, i) == KeyAt(j.entries, i);
    forall index | index in after.bindings && index != entity.index ensures Holds(after, after.bindings[index]) {
      var b := j.bindings[index];
      assert Holds(j, b);
      if k :| 0 <= k < |j.entries| && KeyAt(j.entries, k) == b.key && j.entries[k].binding == Some(b.entity) {
        assert KeyAt(after.entries, k) == b.key && after.entries[k].binding == Some(b.entity);
      }
    }
  }

  lemma BoundDistinct(j: Journal, i: nat, entity: EntityId)
    requires Structured(j) && Fresher(j, entity) && i < |j.entries|
    ensures BindingsDistinct(Bound(j, i, entity).entries)
  {
    var after := Bound(j, i, entity).entries;
    forall k | 0 <= k < |after| && k != i ensures after[k].binding != Some(entity) {
      if after[k].binding.Some? && after[k].binding.value.index == entity.index {
        Outdated(j, k, entity);
      }
    }
  }

  lemma BoundStructured(j: Journal, i: nat, entity: EntityId)
    requires Structured(j) && Fresher(j, entity) && i < |j.entries|
    requires j.entries[i].decision == Accepted && j.entries[i].binding.None?
    ensures Structured(Bound(j, i, entity))
  {
    BoundEntries(j, i, entity);
    BoundFences(j, i, entity);
    BoundDistinct(j, i, entity);
    var after := Bound(j, i, entity).entries;
    forall a, b | 0 <= a < b < |after| ensures Less(KeyAt(after, a), KeyAt(after, b)) {
      assert KeyAt(after, a) == KeyAt(j.entries, a) && KeyAt(after, b) == KeyAt(j.entries, b);
    }
  }

  lemma BoundStream(j: Journal, history: seq<Change>, i: nat, entity: EntityId, c: Change)
    requires Inv(j, history) && Fresher(j, entity) && i < |j.entries|
    requires j.entries[i].binding.None? && Binds(c) && c.entity == entity
    ensures StreamOk(Bound(j, i, entity), history + [c])
  {
    var e' := j.entries[i].(binding := Some(entity));
    Extend(history, c);
    ReplaceShows(j.entries, i, e', Fold(history), []);
    BoundSpends(j, history, i, entity, c);
    BoundGenerations(j, i, entity);
  }

  lemma BoundSpends(j: Journal, history: seq<Change>, i: nat, entity: EntityId, c: Change)
    requires OneShotsOk(j, history) && i < |j.entries| && j.entries[i].binding.None? && Binds(c)
    ensures OneShotsOk(Bound(j, i, entity), history + [c])
  {
    var after := Bound(j, i, entity);
    var e' := j.entries[i].(binding := Some(entity));
    Extend(history, c);
    forall key | OneShotCreates(history, key) == 1 ensures Spent(after, key) {
      ReplaceSpent(j, i, e', key);
      assert Spent(Replaced(j, i, e'), key);
    }
  }

  lemma BoundGenerations(j: Journal, i: nat, entity: EntityId)
    requires i < |j.entries|
    ensures FenceGenerations(Bound(j, i, entity).bindings)
      == FenceGenerations(j.bindings)[entity.index := entity.generation]
  {
  }

  lemma BoundLater(j: Journal, i: nat, entity: EntityId)
    requires Fresher(j, entity) && i < |j.entries| && j.entries[i].binding.None?
    ensures Later(j, Bound(j, i, entity))
  {
    forall k | 0 <= k < |j.entries| ensures Carried(j.entries[k], Bound(j, i, entity).entries) {
      assert Kept(j.entries[k], Bound(j, i, entity).entries[k]);
    }
  }

  lemma RecordSteps(st: Staged, past: seq<Change>, i: nat, entity: EntityId)
    requires Good(st, past) && i < |st.journal.entries| && Fresher(st.journal, entity)
    requires st.journal.entries[i].decision == Accepted && st.journal.entries[i].binding.None?
    ensures Steps(st, RecordBinding(st, i, entity), past)
  {
    var r := RecordBinding(st, i, entity);
    if r.Ok? {
      var c := r.value.changes[|st.changes|];
      BoundStructured(st.journal, i, entity);
      BoundStream(st.journal, past + st.changes, i, entity, c);
      BoundLater(st.journal, i, entity);
      assert past + r.value.changes == past + st.changes + [c];
      assert r.value.journal == Bound(st.journal, i, entity);
    }
  }

  /** The event behind a fence still holds the fenced entity while it is retained. */
  lemma FenceHolder(j: Journal, index: nat, k: nat)
    requires Structured(j) && index in j.bindings && k < |j.entries| && KeyAt(j.entries, k) == j.bindings[index].key
    ensures j.entries[k].binding == Some(j.bindings[index].entity)
  {
    var b := j.bindings[index];
    assert Holds(j, b);
    assert EntryOk(j, j.entries[k]);
    var l :| 0 <= l < |j.entries| && KeyAt(j.entries, l) == b.key && j.entries[l].binding == Some(b.entity);
    SortedKeys(j.entries, k, l);
  }

  lemma Absent(entries: seq<Entry>, key: EventKey)
    requires Sorted(entries) && !Present(entries, key)
    ensures forall k :: 0 <= k < |entries| ==> KeyAt(entries, k) != key
  {
    forall k | 0 <= k < |entries| ensures KeyAt(entries, k) != key {
      if KeyAt(entries, k) == key {
        Found(entries, key, k);
      }
    }
  }

  /** Cancelling the fenced event makes room for a newer generation. */
  lemma SupersedeFresher(st: Staged, i: nat, entity: EntityId)
    requires Structured(st.journal) && i < |st.journal.entries|
    requires entity.index in st.journal.bindings
    requires st.journal.bindings[entity.index].entity.generation < entity.generation
    requires Present(st.journal.entries, st.journal.bindings[entity.index].key)
    requires st.journal.bindings[entity.index].key != KeyAt(st.journal.entries, i)
    ensures var p := Pos(st.journal.entries, st.journal.bindings[entity.index].key);
      var r := CancelAt(st, p, Expired, HasExpired);
      r.Ok? ==> Fresher(r.value.journal, entity) && r.value.journal.entries[i] == st.journal.entries[i]
  {
    var j := st.journal;
    var key := j.bindings[entity.index].key;
    var p := Pos(j.entries, key);
    var r := CancelAt(st, p, Expired, HasExpired);
    if r.Ok? {
      var after := r.value.journal;
      forall k | 0 <= k < |after.entries| && KeyAt(after.entries, k) == key ensures after.entries[k].phase == Expired {
        assert KeyAt(after.entries, k) == KeyAt(j.entries, k);
        SortedKeys(j.entries, k, p);
      }
    }
  }

  lemma BindSteps(st: Staged, past: seq<Change>, i: nat, entity: EntityId)
    requires Good(st, past) && i < |st.journal.entries| && st.journal.entries[i].decision == Accepted
    ensures Steps(st, BindAt(st, i, entity), past)
  {
    var j := st.journal;
    var r := BindAt(st, i, entity);
    if r.Err? {
    } else if j.entries[i].binding.Some? {
      LaterSame(j);
    } else if entity.index !in j.bindings {
      RecordSteps(st, past, i, entity);
    } else {
      BindNewer(st, past, i, entity);
    }
  }

  lemma BindNewer(st: Staged, past: seq<Change>, i: nat, entity: EntityId)
    requires Good(st, past) && i < |st.journal.entries| && st.journal.entries[i].decision == Accepted
    requires st.journal.entries[i].binding.None? && entity.index in st.journal.bindings
    ensures Steps(st, BindAt(st, i, entity), past)
  {
    var j := st.journal;
    var fence := j.bindings[entity.index];
    var r := BindAt(st, i, entity);
    assert fence.key != KeyAt(j.entries, i) by {
      if fence.key == KeyAt(j.entries, i) {
        FenceHolder(j, entity.index, i);
      }
    }
    if r.Err? {
    } else if Present(j.entries, fence.key) {
      var p := Pos(j.entries, fence.key);
      FenceHolder(j, entity.index, p);
      assert EntryOk(j, j.entries[p]);
      CancelSteps(st, past, p, Expired, HasExpired);
      SupersedeFresher(st, i, entity);
      var superseded := CancelAt(st, p, Expired, HasExpired).value;
      RecordSteps(superseded, past, i, entity);
      StepsThen(st, superseded, r, past);
    } else {
      Absent(j.entries, fence.key);
      RecordSteps(st, past, i, entity);
    }
  }

  // ---- verdicts --------------------------------------------------------------------------------

  lemma ConfirmSteps(st: Staged, past: seq<Change>, i: nat)
    requires Good(st, past) && i < |st.journal.entries|
    requires st.journal.entries[i].decision == Unresolved
    requires st.journal.entries[i].identity.key.action !in st.journal.rejected
    ensures var accepted := SetEntry(st, i, st.journal.entries[i].(decision := Accepted));
      Steps(st, Emit(accepted, Confirm(KeyAt(st.journal.entries, i))), past)
  {
    var e := st.journal.entries[i];
    var r := Emit(SetEntry(st, i, e.(decision := Accepted)), Confirm(e.identity.key));
    assert EntryOk(st.journal, e);
    if r.Ok? {
      Move(st, past, i, e.(decision := Accepted), [Confirm(e.identity.key)], r.value);
    }
  }

  lemma AcceptSteps(st: Staged, past: seq<Change>, i: nat, binding: Option<EntityId>)
    requires Good(st, past) && i < |st.journal.entries|
    ensures Steps(st, AcceptAt(st, i, binding), past)
  {
    var e := st.journal.entries[i];
    var r := AcceptAt(st, i, binding);
    if r.Ok? {
      if e.decision == Accepted {
        LaterSame(st.journal);
        if binding.Some? {
          BindSteps(st, past, i, binding.value);
        }
      } else {
        ConfirmSteps(st, past, i);
        var confirmed := Emit(SetEntry(st, i, e.(decision := Accepted)), Confirm(e.identity.key)).value;
        if binding.Some? {
          BindSteps(confirmed, past, i, binding.value);
          StepsThen(st, confirmed, r, past);
        }
      }
    }
  }

  lemma DecideSteps(st: Staged, past: seq<Change>, i: nat, verdict: Verdict)
    requires Good(st, past) && i < |st.journal.entries|
    ensures Steps(st, DecideAt(st, i, verdict), past)
  {
    match verdict
    case Reject =>
      if st.journal.entries[i].decision != Accepted {
        RejectSteps(st, past, i);
      }
    case Accept(binding) => AcceptSteps(st, past, i, binding);
  }

  lemma ResolveSteps(st: Staged, past: seq<Change>, now: nat, identity: EventIdentity, verdict: Verdict)
    requires Good(st, past)
    ensures Steps(st, ResolveStaged(st, now, identity, verdict), past)
  {
    var r := ResolveStaged(st, now, identity, verdict);
    if r.Ok? {
      AdvanceSteps(st, past, now);
      var advanced := AdvanceInner(st, now).value;
      EnsureSteps(advanced, past, identity);
      var (found, i) := EnsureEntry(advanced, identity).value;
      LaterTrans(st.journal, advanced.journal, found.journal);
      DecideSteps(found, past, i, verdict);
      LaterTrans(st.journal, found.journal, r.value.journal);
    }
  }

  lemma ExpireSteps(st: Staged, past: seq<Change>, now: nat, identity: EventIdentity)
    requires Good(st, past)
    ensures Steps(st, ExpireStaged(st, now, identity), past)
  {
    var r := ExpireStaged(st, now, identity);
    if r.Ok? {
      AdvanceSteps(st, past, now);
      var advanced := AdvanceInner(st, now).value;
      EnsureSteps(advanced, past, identity);
      var (found, i) := EnsureEntry(advanced, identity).value;
      LaterTrans(st.journal, advanced.journal, found.journal);
      if found.journal.entries[i].phase != Refused {
        CancelSteps(found, past, i, Expired, HasExpired);
        LaterTrans(st.journal, found.journal, r.value.journal);
      }
    }
  }

  // ---- rejecting a whole action -------------------------------------------------------------------

  function Fenced(st: Staged, action: ActionKey): Staged {
    st.(journal := st.journal.(rejected := st.journal.rejected + {action}))
  }

  function FencedResult(r: Result<Staged, EventError>, action: ActionKey): Result<Staged, EventError> {
    if r.Err? then r else Ok(Fenced(r.value, action))
  }

  /** The sweep does not look at the fences, so fencing first or last is the same. */
  lemma {:induction false} FenceCommutes(st: Staged, action: ActionKey, i: nat)
    requires i <= |st.journal.entries|
    ensures RejectFrom(Fenced(st, action), action, i) == FencedResult(RejectFrom(st, action, i), action)
    decreases |st.journal.entries| - i
  {
    if i < |st.journal.entries| {
      var r := RejectActionAt(st, i, action);
      assert RejectActionAt(Fenced(st, action), i, action) == FencedResult(r, action);
      if r.Ok? {
        FenceCommutes(r.value, action, i + 1);
      }
    }
  }

  /** No entry of the action is accepted, and those before `i` are refused. */
  ghost predicate SweptTo(entries: seq<Entry>, action: ActionKey, i: nat) {
    forall k :: 0 <= k < |entries| && KeyAt(entries, k).action == action ==>
      entries[k].decision != Accepted && (k < i ==> entries[k].phase == Refused)
  }

  /** From index `i` on, no entry of the action is accepted. */
  predicate NoneAccepted(entries: seq<Entry>, action: ActionKey, i: nat)
    requires i <= |entries|
    decreases |entries| - i
  {
    i == |entries| ||
      (!(KeyAt(entries, i).action == action && entries[i].decision == Accepted) && NoneAccepted(entries, action, i + 1))
  }

  lemma {:induction false} NoneAcceptedFrom(entries: seq<Entry>, action: ActionKey, i: nat)
    requires i <= |entries| && !ActionAccepted(entries, action)
    ensures NoneAccepted(entries, action, i)
    decreases |entries| - i
  {
    if i < |entries| {
      NoneAcceptedFrom(entries, action, i + 1);
    }
  }

  lemma {:induction false} NoneAcceptedFrame(entries: seq<Entry>, after: seq<Entry>, action: ActionKey, i: nat)
    requires i <= |entries| == |after| && entries[i..] == after[i..] && NoneAccepted(entries, action, i)
    ensures NoneAccepted(after, action, i)
    decreases |entries| - i
  {
    if i < |entries| {
      assert entries[i] == entries[i..][0] && after[i] == after[i..][0];
      assert entries[i + 1..] == entries[i..][1..] && after[i + 1..] == after[i..][1..];
      NoneAcceptedFrame(entries, after, action, i + 1);
    }
  }

  lemma SweepAtSteps(st: Staged, past: seq<Change>, action: ActionKey, i: nat)
    requires Good(st, past) && i < |st.journal.entries|
    requires KeyAt(st.journal.entries, i).action == action ==> st.journal.entries[i].decision != Accepted
    ensures Steps(st, RejectActionAt(st, i, action), past)
  {
    LaterSame(st.journal);
    if KeyAt(st.journal.entries, i).action == action {
      RejectSteps(st, past, i);
    }
  }

  lemma SweepAtFrame(st: Staged, action: ActionKey, i: nat)
    requires i < |st.journal.entries| && NoneAccepted(st.journal.entries, action, i)
    ensures var r := RejectActionAt(st, i, action); r.Ok? ==> NoneAccepted(r.value.journal.entries, action, i + 1)
  {
    var r := RejectActionAt(st, i, action);
    if r.Ok? {
      NoneAcceptedFrame(st.journal.entries, r.value.journal.entries, action, i + 1);
    }
  }

  lemma SweepAtSwept(st: Staged, action: ActionKey, i: nat)
    requires i < |st.journal.entries| && SweptTo(st.journal.entries, action, i)
    ensures var r := RejectActionAt(st, i, action); r.Ok? ==> SweptTo(r.value.journal.entries, action, i + 1)
  {
    var r := RejectActionAt(st, i, action);
    if r.Ok? {
      var after := r.value.journal.entries;
      forall k | 0 <= k < |after| && KeyAt(after, k).action == action
        ensures after[k].decision != Accepted && (k < i + 1 ==> after[k].phase == Refused)
      {
        assert KeyAt(after, k) == KeyAt(st.journal.entries, k);
      }
    }
  }

  lemma SweepDone(st: Staged, past: seq<Change>, action: ActionKey)
    requires Good(st, past)
    ensures Steps(st, RejectFrom(st, action, |st.journal.entries|), past)
  {
    LaterSame(st.journal);
  }

  lemma SweepFails(st: Staged, past: seq<Change>, action: ActionKey, i: nat)
    requires i < |st.journal.entries| && RejectActionAt(st, i, action).Err?
    ensures Steps(st, RejectFrom(st, action, i), past)
  {
  }

  lemma SweepContinues(st: Staged, past: seq<Change>, action: ActionKey, i: nat, mid: Staged)
    requires i < |st.journal.entries| && RejectActionAt(st, i, action) == Ok(mid) && Steps(st, Ok(mid), past)
    requires Steps(mid, RejectFrom(mid, action, i + 1), past)
    ensures Steps(st, RejectFrom(st, action, i), past)
  {
    StepsThen(st, mid, RejectFrom(mid, action, i + 1), past);
  }

  /** One turn of the sweep: it ends here, or goes on from a good state. */
  lemma SweepTurn(st: Staged, past: seq<Change>, action: ActionKey, i: nat) returns (mid: Option<Staged>)
    requires Good(st, past) && i <= |st.journal.entries| && NoneAccepted(st.journal.entries, action, i)
    ensures mid.None? ==> Steps(st, RejectFrom(st, action, i), past)
    ensures mid.Some? ==>
      && Good(mid.value, past) && i < |st.journal.entries| == |mid.value.journal.entries|
      && NoneAccepted(mid.value.journal.entries, action, i + 1)
      && (Steps(mid.value, RejectFrom(mid.value, action, i + 1), past) ==> Steps(st, RejectFrom(st, action, i), past))
  {
    mid := None;
    if i == |st.journal.entries| {
      SweepDone(st, past, action);
    } else if RejectActionAt(st, i, action).Err? {
      SweepFails(st, past, action, i);
    } else {
      var next := RejectActionAt(st, i, action).value;
      SweepAtSteps(st, past, action, i);
      SweepAtFrame(st, action, i);
      if Steps(next, RejectFrom(next, action, i + 1), past) {
        SweepContinues(st, past, action, i, next);
      }
      mid := Some(next);
    }
  }

  lemma {:induction false} SweepSteps(st: Staged, past: seq<Change>, action: ActionKey, i: nat)
    requires Good(st, past) && i <= |st.journal.entries| && NoneAccepted(st.journal.entries, action, i)
    ensures Steps(st, RejectFrom(st, action, i), past)
    decreases |st.journal.entries| - i
  {
    var mid := SweepTurn(st, past, action, i);
    if mid.Some? {
      SweepSteps(mid.value, past, action, i + 1);
    }
  }

  lemma {:induction false} SweepEnds(st: Staged, action: ActionKey, i: nat)
    requires i <= |st.journal.entries| && SweptTo(st.journal.entries, action, i)
    ensures var r := RejectFrom(st, action, i);
      r.Ok? ==> SweptTo(r.value.journal.entries, action, |r.value.journal.entries|)
    decreases |st.journal.entries| - i
  {
    if i < |st.journal.entries| {
      SweepAtSwept(st, action, i);
      var r := RejectActionAt(st, i, action);
      if r.Ok? {
        SweepEnds(r.value, action, i + 1);
      }
    }
  }

  /** An action whose entries are all refused may be fenced. */
  lemma FenceSteps(st: Staged, past: seq<Change>, action: ActionKey)
    requires Good(st, past) && SweptTo(st.journal.entries, action, |st.journal.entries|)
    ensures Steps(st, Ok(Fenced(st, action)), past)
  {
    var j, after := st.journal, Fenced(st, action).journal;
    LaterSame(j);
    forall i | 0 <= i < |after.entries| ensures EntryOk(after, after.entries[i]) {
      assert EntryOk(j, j.entries[i]);
      assert KeyAt(j.entries, i).action == action ==> j.entries[i].phase == Refused;
    }
    forall index | index in after.bindings ensures Holds(after, after.bindings[index]) {
      assert Holds(j, j.bindings[index]);
    }
    forall key | OneShotCreates(past + st.changes, key) == 1 ensures Spent(after, key) {
      assert Spent(j, key);
    }
  }

  /** Rejecting an action keeps the invariant, refuses all its entries and fences later ones. */
  lemma RejectActionSteps(st: Staged, past: seq<Change>, now: nat, action: ActionKey)
    requires Good(st, past)
    ensures var r := RejectActionStaged(st, now, action);
      && Steps(st, r, past)
      && (r.Ok? ==>
            && action in r.value.journal.rejected
            && SweptTo(r.value.journal.entries, action, |r.value.journal.entries|))
  {
    var r := RejectActionStaged(st, now, action);
    if r.Ok? {
      AdvanceSteps(st, past, now);
      var advanced := AdvanceInner(st, now).value;
      FenceCommutes(advanced, action, 0);
      NoneAcceptedFrom(advanced.journal.entries, action, 0);
      SweepSteps(advanced, past, action, 0);
      SweepEnds(advanced, action, 0);
      var swept := RejectFrom(advanced, action, 0).value;
      FenceSteps(swept, past, action);
      LaterTrans(st.journal, advanced.journal, swept.journal);
      LaterTrans(st.journal, swept.journal, r.value.journal);
    }
  }
}
