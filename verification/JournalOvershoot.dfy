/** The peak is exact: a replay that stores one payload too many holds all of it. */
module JournalOvershoot {
  import opened NetTypes
  import opened JournalModel
  import opened JournalRuns
  import opened JournalPeak

  const LIMITS := Limits(2, 1, 1, 10, 10, 4, 10, 40, 10, 10, 0, 0, 0, 0)
  const SCOPE := JournalScope(1, 1)
  const RANGE := ReplayRange(0, 0)

  function IdentityOf(ordinal: nat): EventIdentity {
    EventIdentity(EventKey(ActionKey(1, 1, 1, 0), 1, ordinal), 0, 1)
  }

  function Event(ordinal: nat, content: int): EventRecord {
    EventRecord(IdentityOf(ordinal), 1, Reversible, Payload(content, 10))
  }

  function Always(): Payload -> bool {
    (p: Payload) => true
  }

  function Stored(ordinal: nat, content: int): Entry {
    Entry(IdentityOf(ordinal), Some(Lifetime(1, Reversible)), Some(Payload(content, 10)), Live, Unresolved, true, None)
  }

  function Replay(corrected: seq<EventRecord>): Op {
    Reconcile(0, RANGE, corrected, Always())
  }

  const EMPTY := EmptyJournal(SCOPE, LIMITS)
  const HOLDING := EMPTY.(entries := [Stored(0, 1)])

  lemma {:induction false} EntryPayload(e: Entry)
    ensures PayloadSum([e]) == PayloadOf(e)
  {
    assert [e][1..] == [];
  }

  lemma {:induction false} TwoPayloads(a: Entry, b: Entry)
    ensures PayloadSum([a, b]) == PayloadOf(a) + PayloadOf(b)
  {
    assert [a, b][1..] == [b];
    EntryPayload(b);
  }

  // ---- the first replay stores one event ------------------------------------------------------------

  const START := Staged(EMPTY, [], 0)
  const ENTERED := Staged(EMPTY.(entries := [NewEntry(IdentityOf(0))]), [], 0)
  const DATED := Staged(EMPTY.(entries := [NewEntry(IdentityOf(0)).(lifetime := Some(Lifetime(1, Reversible)))]), [], 0)
  const STORED := Staged(HOLDING, [Create(Event(0, 1), false, None)], 10)

  lemma {:induction false} FirstEntered()
    ensures EnsureEntry(START, IdentityOf(0)) == Ok((ENTERED, 0))
  {
    assert Pos([], IdentityOf(0).key) == 0;
    assert [][..0] + [NewEntry(IdentityOf(0))] + [][0..] == [NewEntry(IdentityOf(0))];
  }

  lemma {:induction false} FirstDated()
    ensures CorrectAt(ENTERED, 0, Event(0, 1)) == PresentAt(DATED, 0, Event(0, 1))
  {
    var e := NewEntry(IdentityOf(0));
    assert [e][0 := e.(lifetime := Some(Lifetime(1, Reversible)))] == [e.(lifetime := Some(Lifetime(1, Reversible)))];
  }

  lemma {:induction false} FirstPresented()
    ensures PresentAt(DATED, 0, Event(0, 1)) == Ok(STORED)
  {
    var staged := Staged(HOLDING, [], 0);
    assert DATED.journal.entries[0 := Stored(0, 1)] == [Stored(0, 1)];
    assert SetEntry(DATED, 0, Stored(0, 1)) == staged;
    EntryPayload(Stored(0, 1));
    assert CheckResident(staged) == Ok(staged);
    assert [] + [Create(Event(0, 1), false, None)] == STORED.changes;
  }

  lemma {:induction false} FirstCorrected()
    ensures CorrectOne(START, RANGE, [], Event(0, 1), Always()) == Ok(STORED)
  {
    FirstEntered();
    FirstDated();
    FirstPresented();
  }

  lemma {:induction false} FirstReplay(corrected: seq<EventRecord>)
    requires corrected == [Event(0, 1)]
    ensures ReconcileStaged(START, 0, RANGE, corrected, Always()) == Ok(STORED)
  {
    assert corrected[..0] == [];
    FirstCorrected();
    assert CorrectFrom(STORED, RANGE, corrected, 1, Always()) == Ok(STORED);
    assert Corrected(corrected, IdentityOf(0).key) by {
      assert corrected[0].identity.key == IdentityOf(0).key;
    }
    assert VanishFrom(STORED, RANGE, corrected, 0) == VanishFrom(STORED, RANGE, corrected, 1);
  }

  predicate Replays(j: Journal, corrected: seq<EventRecord>, st: Staged) {
    && ReconcileStaged(Staged(j, [], 0), 0, RANGE, corrected, Always()) == Ok(st)
    && CheckResident(Staged(j, [], 0)).Ok? && CheckResident(st).Ok?
  }

  lemma {:induction false} RunOne(j: Journal, corrected: seq<EventRecord>, st: Staged)
    requires Replays(j, corrected, st)
    ensures Run(j, [Replay(corrected)]).0 == st.journal
  {
    var op := Replay(corrected);
    assert Execute(j, op) == Ok(st);
    assert [op][..0] == [];
    assert Run(j, []) == (j, []);
  }

  lemma {:induction false} Fits(st: Staged, e: Entry)
    requires st.journal.limits == LIMITS && PayloadOf(e) <= 10
    requires st.journal.entries == [] || st.journal.entries == [e]
    ensures CheckResident(st).Ok?
  {
    EntryPayload(e);
  }

  lemma {:induction false} StoresOne(j: Journal, corrected: seq<EventRecord>, st: Staged, e: Entry)
    requires ReconcileStaged(Staged(j, [], 0), 0, RANGE, corrected, Always()) == Ok(st)
    requires j.limits == LIMITS && j.entries == [] && PayloadOf(e) <= 10
    requires st.journal.limits == LIMITS && st.journal.entries == [e]
    ensures Replays(j, corrected, st)
  {
    Fits(Staged(j, [], 0), e);
    Fits(st, e);
  }

  lemma {:induction false} FirstReplays(first: seq<EventRecord>)
    requires first == [Event(0, 1)]
    ensures Replays(EMPTY, first, STORED)
  {
    FirstReplay(first);
    StoresOne(EMPTY, first, STORED, Stored(0, 1));
  }

  lemma {:induction false} Reached(start: Journal, first: seq<EventRecord>)
    requires start == EMPTY && first == [Event(0, 1)]
    ensures Run(start, [Replay(first)]).0 == HOLDING
  {
    FirstReplays(first);
    RunOne(start, first, STORED);
  }

  // ---- the second one updates it and stores another before measuring -----------------------------------

  const BASE := Staged(HOLDING, [], 0)
  const UPDATED := Staged(EMPTY.(entries := [Stored(0, 2)]), [Update(Event(0, 2))], 10)
  const NEXT := Staged(EMPTY.(entries := [Stored(0, 2), NewEntry(IdentityOf(1))]), [Update(Event(0, 2))], 10)
  const SECOND := NEXT.(journal := NEXT.journal.(
    entries := [Stored(0, 2), NewEntry(IdentityOf(1)).(lifetime := Some(Lifetime(1, Reversible)))]))
  const FULL := NEXT.(journal := NEXT.journal.(entries := [Stored(0, 2), Stored(1, 3)]))

  lemma {:induction false} Updated()
    ensures PresentAt(BASE, 0, Event(0, 2)) == Ok(UPDATED)
  {
    var staged := Staged(EMPTY.(entries := [Stored(0, 2)]), [], 0);
    assert BASE.journal.entries[0 := Stored(0, 2)] == [Stored(0, 2)];
    assert SetEntry(BASE, 0, Stored(0, 2)) == staged;
    EntryPayload(Stored(0, 2));
    assert CheckResident(staged) == Ok(staged);
    assert [] + [Update(Event(0, 2))] == UPDATED.changes;
  }

  lemma {:induction false} UpdateCorrected()
    ensures CorrectOne(BASE, RANGE, [], Event(0, 2), Always()) == Ok(UPDATED)
  {
    assert HOLDING.entries[0 := Stored(0, 1)] == HOLDING.entries;
    assert EnsureEntry(BASE, IdentityOf(0)) == Ok((BASE, 0));
    Updated();
  }

  lemma {:induction false} NextEntered()
    ensures EnsureEntry(UPDATED, IdentityOf(1)) == Ok((NEXT, 1))
  {
    var entries, key := UPDATED.journal.entries, IdentityOf(1).key;
    assert entries[1..] == [] && Pos(entries, key) == 1;
    assert entries[..1] + [NewEntry(IdentityOf(1))] + entries[1..] == NEXT.journal.entries;
  }

  lemma {:induction false} SecondDated()
    ensures Moment(FULL, 0) in CorrectMoments(NEXT, 1, Event(1, 3))
  {
    var e := NewEntry(IdentityOf(1)).(lifetime := Some(Lifetime(1, Reversible)));
    assert NEXT.journal.entries[1 := e] == SECOND.journal.entries;
    assert SetEntry(NEXT, 1, e) == SECOND;
    assert SECOND.journal.entries[1 := Stored(1, 3)] == FULL.journal.entries;
    assert SetEntry(SECOND, 1, Stored(1, 3)) == FULL;
    assert PresentMoments(SECOND, 1, Event(1, 3))[1] == Moment(FULL, 0);
    assert DatedMoments(SECOND, 1, Event(1, 3)) == PresentMoments(SECOND, 1, Event(1, 3));
  }

  lemma {:induction false} Overshoots()
    ensures Moment(FULL, 0) in CorrectFromMoments(BASE, RANGE, [Event(0, 2), Event(1, 3)], 0, Always())
  {
    var corrected := [Event(0, 2), Event(1, 3)];
    assert corrected[..0] == [] && corrected[..1] == [Event(0, 2)];
    UpdateCorrected();
    NextEntered();
    SecondDated();
    assert Moment(FULL, 0) in CorrectOneMoments(UPDATED, RANGE, [Event(0, 2)], Event(1, 3), Always());
    assert Moment(FULL, 0) in CorrectFromMoments(UPDATED, RANGE, corrected, 1, Always());
  }

  lemma {:induction false} HoldsAll()
    ensures Held(HOLDING, Moment(FULL, 0)) == LIMITS.peakBytes && RetainedBytes(FULL.journal) > LIMITS.residentBytes
  {
    EntryPayload(Stored(0, 1));
    TwoPayloads(Stored(0, 2), Stored(1, 3));
  }

  lemma {:induction false} ReplayHolds(corrected: seq<EventRecord>, m: Moment)
    requires m in CorrectFromMoments(BASE, RANGE, corrected, 0, Always()) && |corrected| <= 2
    ensures m in Moments(HOLDING, Replay(corrected))
  {
    EntryPayload(Stored(0, 1));
    assert AdvanceInner(BASE, 0) == Ok(BASE);
    assert m in ReplayMoments(BASE, RANGE, corrected, Always());
    assert m in ReconcileMoments(BASE, 0, RANGE, corrected, Always());
  }

  lemma {:induction false} Configured()
    ensures NewJournal(SCOPE, LIMITS) == Ok(EMPTY)
  {
  }

  /** A configured journal reaches a moment at which it holds exactly the peak, the staged copy over its own ceiling. */
  lemma {:induction false} PeakIsReached(start: Journal, first: seq<EventRecord>, second: seq<EventRecord>)
    returns (k: nat)
    requires NewJournal(SCOPE, LIMITS) == Ok(start) && first == [Event(0, 1)] && second == [Event(0, 2), Event(1, 3)]
    ensures var j := Run(start, [Replay(first)]).0;
      && k < |Moments(j, Replay(second))|
      && var m := Moments(j, Replay(second))[k];
      Held(j, m) == LIMITS.peakBytes && RetainedBytes(m.staged.journal) > LIMITS.residentBytes
  {
    Reached(start, first);
    Overshoots();
    HoldsAll();
    ReplayHolds(second, Moment(FULL, 0));
    var j := Run(start, [Replay(first)]).0;
    k :| 0 <= k < |Moments(j, Replay(second))| && Moments(j, Replay(second))[k] == Moment(FULL, 0);
  }
}
