/** Reconciliation keeps the journal's invariant. */
module JournalReconcile {
  import opened NetTypes
  import opened JournalModel
  import opened JournalInvariant
  import opened JournalSteps
  import opened JournalInsert

  function Presented(e: Entry, event: EventRecord): Entry {
    e.(payload := Some(event.payload), phase := Live, delivered := true)
  }

  /** What `PresentAt` emits. */
  function Announcement(e: Entry, event: EventRecord): seq<Change> {
    if e.phase != Live && (!e.delivered || event.delivery != OneShot) then
      [Create(event, e.decision == Accepted, e.binding)]
    else if e.payload != Some(event.payload) && (event.delivery != OneShot || e.phase == Live) then [Update(event)]
    else []
  }

  lemma PresentedOk(j: Journal, e: Entry, event: EventRecord)
    requires EntryOk(j, e) && e.identity == event.identity
    requires e.lifetime == Some(Lifetime(event.expiresAt, event.delivery))
    requires e.phase != Expired && e.phase != Refused && event.identity.key.action !in j.rejected
    ensures EntryOk(j, Presented(e, event)) && Kept(e, Presented(e, event))
    ensures Explains(e, Presented(e, event), Announcement(e, event))
  {
  }

  lemma PresentSteps(st: Staged, past: seq<Change>, i: nat, event: EventRecord)
    requires Good(st, past) && i < |st.journal.entries|
    requires st.journal.entries[i].identity == event.identity
    requires st.journal.entries[i].lifetime == Some(Lifetime(event.expiresAt, event.delivery))
    requires st.journal.entries[i].phase != Expired && st.journal.entries[i].phase != Refused
    requires event.identity.key.action !in st.journal.rejected
    ensures Steps(st, PresentAt(st, i, event), past)
  {
    var e := st.journal.entries[i];
    assert EntryOk(st.journal, e);
    PresentedOk(st.journal, e, event);
    var r := PresentAt(st, i, event);
    if r.Ok? {
      Move(st, past, i, Presented(e, event), Announcement(e, event), r.value);
    }
  }

  lemma DateSteps(st: Staged, past: seq<Change>, i: nat, life: Lifetime)
    requires Good(st, past) && i < |st.journal.entries|
    requires st.journal.entries[i].lifetime.Some? ==> st.journal.entries[i].lifetime.value == life
    ensures Steps(st, Ok(SetEntry(st, i, st.journal.entries[i].(lifetime := Some(life)))), past)
  {
    var e := st.journal.entries[i];
    assert EntryOk(st.journal, e);
    Move(st, past, i, e.(lifetime := Some(life)), [], SetEntry(st, i, e.(lifetime := Some(life))));
  }

  /** What `CorrectAt` does once the lifetime is recorded. */
  function Continue(dated: Staged, i: nat, event: EventRecord): Result<Staged, EventError>
    requires i < |dated.journal.entries|
  {
    var e := dated.journal.entries[i];
    if event.identity.key.action in dated.journal.rejected then RejectAt(dated, i)
    else if e.phase == Expired || e.phase == Refused
      || (e.phase == ReplayAbsent && e.decision == Accepted) then Ok(dated)
    else if event.delivery != SimulationOwned && event.expiresAt <= dated.journal.now && e.phase != Live then
      CancelAt(dated, i, Expired, HasExpired)
    else PresentAt(dated, i, event)
  }

  lemma ContinueSteps(dated: Staged, past: seq<Change>, i: nat, event: EventRecord)
    requires Good(dated, past) && i < |dated.journal.entries|
    requires dated.journal.entries[i].identity == event.identity
    requires dated.journal.entries[i].lifetime == Some(Lifetime(event.expiresAt, event.delivery))
    ensures Steps(dated, Continue(dated, i, event), past)
  {
    var e := dated.journal.entries[i];
    assert EntryOk(dated.journal, e);
    if event.identity.key.action in dated.journal.rejected {
      RejectSteps(dated, past, i);
    } else if e.phase == Expired || e.phase == Refused || (e.phase == ReplayAbsent && e.decision == Accepted) {
      LaterSame(dated.journal);
    } else if event.delivery != SimulationOwned && event.expiresAt <= dated.journal.now && e.phase != Live {
      CancelSteps(dated, past, i, Expired, HasExpired);
    } else {
      PresentSteps(dated, past, i, event);
    }
  }

  lemma CorrectSteps(st: Staged, past: seq<Change>, i: nat, event: EventRecord)
    requires Good(st, past) && i < |st.journal.entries|
    requires st.journal.entries[i].identity == event.identity
    ensures Steps(st, CorrectAt(st, i, event), past)
  {
    var life := Lifetime(event.expiresAt, event.delivery);
    var e := st.journal.entries[i];
    if e.lifetime.None? || e.lifetime.value == life {
      var dated := SetEntry(st, i, e.(lifetime := Some(life)));
      DateSteps(st, past, i, life);
      ContinueSteps(dated, past, i, event);
      assert CorrectAt(st, i, event) == Continue(dated, i, event);
      StepsThen(st, dated, Continue(dated, i, event), past);
    }
  }

  lemma CorrectOneSteps(
    st: Staged, past: seq<Change>, range: ReplayRange, earlier: seq<EventRecord>, event: EventRecord,
    validate: Payload -> bool)
    requires Good(st, past)
    ensures Steps(st, CorrectOne(st, range, earlier, event, validate), past)
  {
    EnsureSteps(st, past, event.identity);
    var entry := EnsureEntry(st, event.identity);
    if CheckEvent(st.journal, range, earlier, event, validate).Done? && entry.Ok? {
      CorrectSteps(entry.value.0, past, entry.value.1, event);
      StepsThen(st, entry.value.0, CorrectAt(entry.value.0, entry.value.1, event), past);
    }
  }

  lemma {:induction false} CorrectFromSteps(
    st: Staged, past: seq<Change>, range: ReplayRange, corrected: seq<EventRecord>, n: nat, validate: Payload -> bool)
    requires Good(st, past) && n <= |corrected|
    ensures Steps(st, CorrectFrom(st, range, corrected, n, validate), past)
    decreases |corrected| - n
  {
    if n == |corrected| {
      LaterSame(st.journal);
    } else {
      CorrectOneSteps(st, past, range, corrected[..n], corrected[n], validate);
      var r := CorrectOne(st, range, corrected[..n], corrected[n], validate);
      if r.Ok? {
        CorrectFromSteps(r.value, past, range, corrected, n + 1, validate);
        StepsThen(st, r.value, CorrectFrom(r.value, range, corrected, n + 1, validate), past);
      }
    }
  }

  lemma VanishAtSteps(st: Staged, past: seq<Change>, i: nat, range: ReplayRange, corrected: seq<EventRecord>)
    requires Good(st, past) && i < |st.journal.entries|
    ensures Steps(st, VanishAt(st, i, range, corrected), past)
  {
    LaterSame(st.journal);
    if Vanishes(st.journal.entries[i], range, corrected) {
      CancelSteps(st, past, i, ReplayAbsent, AbsentOnReplay);
    }
  }

  lemma VanishDone(st: Staged, past: seq<Change>, range: ReplayRange, corrected: seq<EventRecord>)
    requires Good(st, past)
    ensures Steps(st, VanishFrom(st, range, corrected, |st.journal.entries|), past)
  {
    LaterSame(st.journal);
  }

  lemma VanishFails(st: Staged, past: seq<Change>, range: ReplayRange, corrected: seq<EventRecord>, i: nat)
    requires i < |st.journal.entries| && VanishAt(st, i, range, corrected).Err?
    ensures Steps(st, VanishFrom(st, range, corrected, i), past)
  {
  }

  lemma VanishContinues(
    st: Staged, past: seq<Change>, range: ReplayRange, corrected: seq<EventRecord>, i: nat, mid: Staged)
    requires i < |st.journal.entries| && VanishAt(st, i, range, corrected) == Ok(mid) && Steps(st, Ok(mid), past)
    requires Steps(mid, VanishFrom(mid, range, corrected, i + 1), past)
    ensures Steps(st, VanishFrom(st, range, corrected, i), past)
  {
    StepsThen(st, mid, VanishFrom(mid, range, corrected, i + 1), past);
  }

  lemma {:induction false} VanishSteps(
    st: Staged, past: seq<Change>, range: ReplayRange, corrected: seq<EventRecord>, i: nat)
    requires Good(st, past) && i <= |st.journal.entries|
    ensures Steps(st, VanishFrom(st, range, corrected, i), past)
    decreases |st.journal.entries| - i
  {
    if i == |st.journal.entries| {
      VanishDone(st, past, range, corrected);
    } else if VanishAt(st, i, range, corrected).Err? {
      VanishFails(st, past, range, corrected, i);
    } else {
      var mid := VanishAt(st, i, range, corrected).value;
      VanishAtSteps(st, past, i, range, corrected);
      VanishSteps(mid, past, range, corrected, i + 1);
      VanishContinues(st, past, range, corrected, i, mid);
    }
  }

  lemma ReconcileSteps(
    st: Staged, past: seq<Change>, now: nat, range: ReplayRange, corrected: seq<EventRecord>, validate: Payload -> bool)
    requires Good(st, past)
    ensures Steps(st, ReconcileStaged(st, now, range, corrected, validate), past)
  {
    var result := ReconcileStaged(st, now, range, corrected, validate);
    if result.Ok? {
      AdvanceSteps(st, past, now);
      var advanced := AdvanceInner(st, now).value;
      CorrectFromSteps(advanced, past, range, corrected, 0, validate);
      var applied := CorrectFrom(advanced, range, corrected, 0, validate).value;
      VanishSteps(applied, past, range, corrected, 0);
      LaterTrans(st.journal, advanced.journal, applied.journal);
      LaterTrans(st.journal, applied.journal, result.value.journal);
    }
  }
}
