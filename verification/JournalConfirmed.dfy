/** Confirmed events survive provisional replay and the passing of time. */
module JournalConfirmed {
  import opened NetTypes
  import opened JournalModel
  import opened JournalInvariant
  import opened JournalSteps
  import opened JournalInsert
  import opened JournalReconcile
  import opened JournalRuns

  predicate IsConfirmed(e: Entry, key: EventKey) {
    e.identity.key == key && e.decision == Accepted && e.phase == Live
  }

  /** The event is accepted and presented. */
  ghost predicate Confirmed(entries: seq<Entry>, key: EventKey) {
    exists i :: 0 <= i < |entries| && IsConfirmed(entries[i], key)
  }

  /** The result still presents every confirmed event. */
  ghost predicate Spares(st: Staged, r: Result<Staged, EventError>, key: EventKey) {
    r.Ok? && Confirmed(st.journal.entries, key) ==> Confirmed(r.value.journal.entries, key)
  }

  /** Replacing one entry spares the event unless it was that entry and lost its confirmation. */
  lemma ReplaceSpares(entries: seq<Entry>, i: nat, e': Entry, key: EventKey)
    requires i < |entries| && Confirmed(entries, key)
    requires IsConfirmed(entries[i], key) ==> IsConfirmed(e', key)
    ensures Confirmed(entries[i := e'], key)
  {
    var k :| 0 <= k < |entries| && IsConfirmed(entries[k], key);
    var after := entries[i := e'];
    assert IsConfirmed(after[k], key);
  }

  lemma CancelSpares(st: Staged, i: nat, phase: Phase, reason: CancelReason, key: EventKey)
    requires i < |st.journal.entries| && st.journal.entries[i].decision != Accepted
    ensures Spares(st, CancelAt(st, i, phase, reason), key)
  {
    var e := st.journal.entries[i];
    if CancelAt(st, i, phase, reason).Ok? && Confirmed(st.journal.entries, key) {
      ReplaceSpares(st.journal.entries, i, e.(phase := phase, payload := None), key);
    }
  }

  lemma {:induction false} AdvanceSpares(st: Staged, now: nat, i: nat, key: EventKey)
    requires i <= |st.journal.entries|
    ensures Spares(st, AdvanceFrom(st, now, i), key)
    decreases |st.journal.entries| - i
  {
    if i < |st.journal.entries| {
      var r := LapseAt(st, i, now);
      if Lapses(st.journal.entries[i], now) {
        CancelSpares(st, i, Expired, HasExpired, key);
      }
      if r.Ok? {
        AdvanceSpares(r.value, now, i + 1, key);
      }
    }
  }

  lemma {:induction false} VanishSpares(
    st: Staged, range: ReplayRange, corrected: seq<EventRecord>, i: nat, key: EventKey)
    requires i <= |st.journal.entries|
    ensures Spares(st, VanishFrom(st, range, corrected, i), key)
    decreases |st.journal.entries| - i
  {
    if i < |st.journal.entries| {
      var r := VanishAt(st, i, range, corrected);
      if Vanishes(st.journal.entries[i], range, corrected) {
        CancelSpares(st, i, ReplayAbsent, AbsentOnReplay, key);
      }
      if r.Ok? {
        VanishSpares(r.value, range, corrected, i + 1, key);
      }
    }
  }

  lemma InsertSpares(j: Journal, identity: EventIdentity, key: EventKey)
    requires Confirmed(j.entries, key)
    ensures Confirmed(WithEntry(j, identity).entries, key)
  {
    var i :| 0 <= i < |j.entries| && IsConfirmed(j.entries[i], key);
    var p := Pos(j.entries, identity.key);
    InsertedOld(j.entries, p, NewEntry(identity), i);
    assert IsConfirmed(WithEntry(j, identity).entries[Shift(p, i)], key);
  }

  /** Correcting a confirmed event leaves it confirmed. */
  lemma CorrectSpares(st: Staged, i: nat, event: EventRecord, key: EventKey)
    requires i < |st.journal.entries| && EntryOk(st.journal, st.journal.entries[i])
    requires st.journal.entries[i].identity == event.identity
    ensures Spares(st, CorrectAt(st, i, event), key)
  {
    var e := st.journal.entries[i];
    var r := CorrectAt(st, i, event);
    if r.Ok? && Confirmed(st.journal.entries, key) {
      var e' := r.value.journal.entries[i];
      assert r.value.journal.entries == st.journal.entries[i := e'];
      ReplaceSpares(st.journal.entries, i, e', key);
    }
  }

  lemma CorrectOneSpares(
    st: Staged, past: seq<Change>, range: ReplayRange, earlier: seq<EventRecord>, event: EventRecord,
    validate: Payload -> bool, key: EventKey)
    requires Good(st, past)
    ensures Spares(st, CorrectOne(st, range, earlier, event, validate), key)
  {
    var entry := EnsureEntry(st, event.identity);
    if entry.Ok? && Confirmed(st.journal.entries, key) {
      EnsureSpares(st, event.identity, key);
      EnsuredOk(st, past, event.identity);
      CorrectSpares(entry.value.0, entry.value.1, event, key);
    }
  }

  lemma EnsureSpares(st: Staged, identity: EventIdentity, key: EventKey)
    requires EnsureEntry(st, identity).Ok? && Confirmed(st.journal.entries, key)
    ensures Confirmed(EnsureEntry(st, identity).value.0.journal.entries, key)
  {
    if !Present(st.journal.entries, identity.key) {
      InsertSpares(st.journal, identity, key);
    }
  }

  lemma EnsuredOk(st: Staged, past: seq<Change>, identity: EventIdentity)
    requires Good(st, past) && EnsureEntry(st, identity).Ok?
    ensures var (found, i) := EnsureEntry(st, identity).value;
      EntryOk(found.journal, found.journal.entries[i]) && found.journal.entries[i].identity == identity
  {
    EnsureSteps(st, past, identity);
  }

  lemma {:induction false} CorrectFromSpares(
    st: Staged, past: seq<Change>, range: ReplayRange, corrected: seq<EventRecord>, n: nat, validate: Payload -> bool,
    key: EventKey)
    requires Good(st, past) && n <= |corrected|
    ensures Spares(st, CorrectFrom(st, range, corrected, n, validate), key)
    decreases |corrected| - n
  {
    if n < |corrected| {
      var r := CorrectOne(st, range, corrected[..n], corrected[n], validate);
      CorrectOneSpares(st, past, range, corrected[..n], corrected[n], validate, key);
      if r.Ok? {
        CorrectOneSteps(st, past, range, corrected[..n], corrected[n], validate);
        CorrectFromSpares(r.value, past, range, corrected, n + 1, validate, key);
      }
    }
  }

  lemma AdvanceInnerSpares(st: Staged, now: nat, key: EventKey)
    ensures Spares(st, AdvanceInner(st, now), key)
  {
    if st.journal.now <= now {
      AdvanceSpares(st.(journal := st.journal.(now := now)), now, 0, key);
    }
  }

  lemma ReconcileSpares(
    st: Staged, past: seq<Change>, now: nat, range: ReplayRange, corrected: seq<EventRecord>, validate: Payload -> bool,
    key: EventKey)
    requires Good(st, past)
    ensures Spares(st, ReconcileStaged(st, now, range, corrected, validate), key)
  {
    if ReconcileStaged(st, now, range, corrected, validate).Ok? {
      AdvanceInnerSpares(st, now, key);
      AdvanceSteps(st, past, now);
      var advanced := AdvanceInner(st, now).value;
      CorrectFromSpares(advanced, past, range, corrected, 0, validate, key);
      VanishSpares(CorrectFrom(advanced, range, corrected, 0, validate).value, range, corrected, 0, key);
    }
  }

  /** In any reachable journal neither time nor a replay takes an accepted, presented event off the screen. */
  lemma ConfirmedSurvives(j: Journal, history: seq<Change>, op: Op, key: EventKey)
    requires Reachable(j, history) && (op.Advance? || op.Reconcile?) && Execute(j, op).Ok?
    requires Confirmed(j.entries, key)
    ensures Confirmed(Execute(j, op).value.journal.entries, key)
  {
    ReachableInv(j, history);
    var st := Staged(j, [], 0);
    assert history + [] == history;
    match op
    case Advance(now) => AdvanceInnerSpares(st, now, key);
    case Reconcile(now, range, corrected, validate) =>
      ReconcileSpares(st, history, now, range, corrected, validate, key);
  }
}
