/** Every staged transition of the journal keeps the invariant and undoes no decision. */
module JournalSteps {
  import opened NetTypes
  import opened JournalModel
  import opened JournalInvariant

  /** A key the journal can still accept. */
  predicate Current(j: Journal, key: EventKey) {
    && JournalScope(key.action.connection, key.action.stream) == j.scope
    && key.action.command > j.retired
  }

  /** Nothing retired and nothing of another scope is created. */
  predicate CreatesCurrent(j: Journal, changes: seq<Change>) {
    forall n :: 0 <= n < |changes| && changes[n].Create? ==> Current(j, changes[n].event.identity.key)
  }

  ghost predicate Good(st: Staged, past: seq<Change>) {
    Inv(st.journal, past + st.changes) && CreatesCurrent(st.journal, st.changes)
  }

  /** A transition either fails or leads to a good later state. */
  ghost predicate Steps(st: Staged, r: Result<Staged, EventError>, past: seq<Change>) {
    r.Ok? ==>
      Good(r.value, past) && Later(st.journal, r.value.journal) && r.value.journal.retired == st.journal.retired
  }

  lemma StepsThen(st: Staged, mid: Staged, r: Result<Staged, EventError>, past: seq<Change>)
    requires Later(st.journal, mid.journal) && mid.journal.retired == st.journal.retired && Steps(mid, r, past)
    ensures Steps(st, r, past)
  {
    if r.Ok? {
      LaterTrans(st.journal, mid.journal, r.value.journal);
    }
  }

  lemma Move(st: Staged, past: seq<Change>, i: nat, e': Entry, emitted: seq<Change>, st': Staged)
    requires Good(st, past) && i < |st.journal.entries|
    requires EntryOk(st.journal, e') && Kept(st.journal.entries[i], e') && e'.binding == st.journal.entries[i].binding
    requires Explains(st.journal.entries[i], e', emitted)
    requires st'.journal == Replaced(st.journal, i, e') && st'.changes == st.changes + emitted
    ensures Good(st', past) && Later(st.journal, st'.journal)
  {
    assert EntryOk(st.journal, st.journal.entries[i]);
    ReplaceKeeps(st.journal, past + st.changes, i, e', emitted);
    ReplaceLater(st.journal, i, e');
    assert past + st'.changes == past + st.changes + emitted;
  }

  // ---- cancelling, rejecting, advancing --------------------------------------------------

  lemma CancelSteps(st: Staged, past: seq<Change>, i: nat, phase: Phase, reason: CancelReason)
    requires Good(st, past) && i < |st.journal.entries|
    requires phase == Expired || phase == ReplayAbsent
    requires st.journal.entries[i].phase != Refused
    requires phase == ReplayAbsent ==> st.journal.entries[i].phase == Live && st.journal.entries[i].decision != Accepted
    ensures Steps(st, CancelAt(st, i, phase, reason), past)
  {
    var e := st.journal.entries[i];
    var e' := e.(phase := phase, payload := None);
    var r := CancelAt(st, i, phase, reason);
    assert EntryOk(st.journal, e);
    if r.Ok? {
      Move(st, past, i, e', if Shown(e) then [Cancel(e.identity.key, reason)] else [], r.value);
    }
  }

  lemma RejectSteps(st: Staged, past: seq<Change>, i: nat)
    requires Good(st, past) && i < |st.journal.entries|
    requires st.journal.entries[i].decision != Accepted
    ensures Steps(st, RejectAt(st, i), past)
  {
    var e := st.journal.entries[i];
    var e' := e.(decision := Rejected, phase := Refused, payload := None);
    var r := RejectAt(st, i);
    assert EntryOk(st.journal, e);
    if r.Ok? {
      Move(st, past, i, e', if Shown(e) then [Cancel(e.identity.key, WasRejected)] else [], r.value);
    }
  }

  lemma LapseSteps(st: Staged, past: seq<Change>, i: nat, now: nat)
    requires Good(st, past) && i < |st.journal.entries|
    ensures Steps(st, LapseAt(st, i, now), past)
  {
    LaterSame(st.journal);
    if Lapses(st.journal.entries[i], now) {
      CancelSteps(st, past, i, Expired, HasExpired);
    }
  }

  lemma AdvanceDone(st: Staged, past: seq<Change>, now: nat)
    requires Good(st, past)
    ensures Steps(st, AdvanceFrom(st, now, |st.journal.entries|), past)
  {
    LaterSame(st.journal);
  }

  lemma AdvanceFails(st: Staged, past: seq<Change>, now: nat, i: nat)
    requires i < |st.journal.entries| && LapseAt(st, i, now).Err?
    ensures Steps(st, AdvanceFrom(st, now, i), past)
  {
  }

  lemma AdvanceContinues(st: Staged, past: seq<Change>, now: nat, i: nat, mid: Staged)
    requires i < |st.journal.entries| && LapseAt(st, i, now) == Ok(mid) && Steps(st, Ok(mid), past)
    requires Steps(mid, AdvanceFrom(mid, now, i + 1), past)
    ensures Steps(st, AdvanceFrom(st, now, i), past)
  {
    StepsThen(st, mid, AdvanceFrom(mid, now, i + 1), past);
  }

  lemma {:induction false} AdvanceFromSteps(st: Staged, past: seq<Change>, now: nat, i: nat)
    requires Good(st, past) && i <= |st.journal.entries|
    ensures Steps(st, AdvanceFrom(st, now, i), past)
    decreases |st.journal.entries| - i
  {
    if i == |st.journal.entries| {
      AdvanceDone(st, past, now);
    } else if LapseAt(st, i, now).Err? {
      AdvanceFails(st, past, now, i);
    } else {
      var mid := LapseAt(st, i, now).value;
      LapseSteps(st, past, i, now);
      AdvanceFromSteps(mid, past, now, i + 1);
      AdvanceContinues(st, past, now, i, mid);
    }
  }

  lemma TickStructured(j: Journal, now: nat)
    requires Structured(j) && j.now <= now
    ensures Structured(j.(now := now))
  {
    var after := j.(now := now);
    forall i | 0 <= i < |after.entries| ensures EntryOk(after, after.entries[i]) {
      assert EntryOk(j, j.entries[i]);
    }
    forall index | index in after.bindings ensures Holds(after, after.bindings[index]) {
      assert Holds(j, j.bindings[index]);
    }
  }

  lemma TickSteps(st: Staged, past: seq<Change>, now: nat)
    requires Good(st, past) && st.journal.now <= now
    ensures Steps(st, Ok(st.(journal := st.journal.(now := now))), past)
  {
    var j := st.journal;
    TickStructured(j, now);
    LaterSame(j);
    forall key | OneShotCreates(past + st.changes, key) == 1 ensures Spent(j.(now := now), key) {
      assert Spent(j, key);
    }
  }

  lemma AdvanceSteps(st: Staged, past: seq<Change>, now: nat)
    requires Good(st, past)
    ensures Steps(st, AdvanceInner(st, now), past)
  {
    if st.journal.now <= now {
      var ticked := st.(journal := st.journal.(now := now));
      TickSteps(st, past, now);
      AdvanceFromSteps(ticked, past, now, 0);
      StepsThen(st, ticked, AdvanceInner(st, now), past);
    }
  }
}
