/**
 Memory held while a journal operation runs: every state the staged copy passes through, one write at a time,
 whether the operation succeeds or fails.
 */
module JournalPeak {
  import opened NetTypes
  import opened JournalModel
  import opened JournalBounds
  import opened JournalRuns

  /** The staged copy between two writes, and the bytes of a payload copy that nothing owns yet. */
  datatype Moment = Moment(staged: Staged, offered: nat)

  // ---- the moments of each step --------------------------------------------------------------------

  function EmitMoments(st: Staged, c: Change): seq<Moment> {
    var r := Emit(st, c);
    [Moment(st, ChangeBytes(c))] + if r.Ok? then [Moment(r.value, 0)] else []
  }

  function CancelMoments(st: Staged, i: nat, phase: Phase, reason: CancelReason): seq<Moment>
    requires i < |st.journal.entries|
  {
    var e := st.journal.entries[i];
    var r := CancelAt(st, i, phase, reason);
    (if Shown(e) then EmitMoments(st, Cancel(e.identity.key, reason)) else [])
    + if r.Ok? then [Moment(r.value, 0)] else []
  }

  function RejectMoments(st: Staged, i: nat): seq<Moment>
    requires i < |st.journal.entries|
  {
    var marked := SetEntry(st, i, st.journal.entries[i].(decision := Rejected));
    [Moment(marked, 0)] + CancelMoments(marked, i, Refused, WasRejected)
  }

  function LapseMoments(st: Staged, i: nat, now: nat): seq<Moment>
    requires i < |st.journal.entries|
  {
    if Lapses(st.journal.entries[i], now) then CancelMoments(st, i, Expired, HasExpired) else []
  }

  function AdvanceFromMoments(st: Staged, now: nat, i: nat): seq<Moment>
    requires i <= |st.journal.entries|
    decreases |st.journal.entries| - i
  {
    if i == |st.journal.entries| then []
    else
      var r := LapseAt(st, i, now);
      LapseMoments(st, i, now) + if r.Ok? then AdvanceFromMoments(r.value, now, i + 1) else []
  }

  function AdvanceMoments(st: Staged, now: nat): seq<Moment> {
    if now < st.journal.now then []
    else
      var ticked := st.(journal := st.journal.(now := now));
      [Moment(ticked, 0)] + AdvanceFromMoments(ticked, now, 0)
  }

  function EnsureMoments(st: Staged, identity: EventIdentity): seq<Moment> {
    var r := EnsureEntry(st, identity);
    if r.Ok? then [Moment(r.value.0, 0)] else []
  }

  /** The corrected payload is copied, stored, measured, and copied once more for the change. */
  function PresentMoments(st: Staged, i: nat, event: EventRecord): seq<Moment>
    requires i < |st.journal.entries|
  {
    var e := st.journal.entries[i];
    var wasLive := e.phase == Live;
    var staged := SetEntry(st, i, e.(payload := Some(event.payload), phase := Live, delivered := true));
    [Moment(st, event.payload.bytes), Moment(staged, 0)]
    + if CheckResident(staged).Err? then []
      else if !wasLive && (!e.delivered || event.delivery != OneShot) then
        EmitMoments(staged, Create(event, e.decision == Accepted, e.binding))
      else if e.payload != Some(event.payload) && (event.delivery != OneShot || wasLive) then
        EmitMoments(staged, Update(event))
      else []
  }

  function CorrectMoments(st: Staged, i: nat, event: EventRecord): seq<Moment>
    requires i < |st.journal.entries|
  {
    var life := Lifetime(event.expiresAt, event.delivery);
    var e := st.journal.entries[i];
    if e.lifetime.Some? && e.lifetime.value != life then []
    else
      var dated := SetEntry(st, i, e.(lifetime := Some(life)));
      [Moment(dated, 0)] + DatedMoments(dated, i, event)
  }

  /** What follows once the lifetime of the entry is recorded. */
  function Dated(st: Staged, i: nat, event: EventRecord): Result<Staged, EventError>
    requires i < |st.journal.entries|
  {
    var e := st.journal.entries[i];
    if event.identity.key.action in st.journal.rejected then RejectAt(st, i)
    else if e.phase == Expired || e.phase == Refused || (e.phase == ReplayAbsent && e.decision == Accepted) then Ok(st)
    else if event.delivery != SimulationOwned && event.expiresAt <= st.journal.now && e.phase != Live then
      CancelAt(st, i, Expired, HasExpired)
    else PresentAt(st, i, event)
  }

  function DatedMoments(st: Staged, i: nat, event: EventRecord): seq<Moment>
    requires i < |st.journal.entries|
  {
    var e := st.journal.entries[i];
    if event.identity.key.action in st.journal.rejected then RejectMoments(st, i)
    else if e.phase == Expired || e.phase == Refused || (e.phase == ReplayAbsent && e.decision == Accepted) then []
    else if event.delivery != SimulationOwned && event.expiresAt <= st.journal.now && e.phase != Live then
      CancelMoments(st, i, Expired, HasExpired)
    else PresentMoments(st, i, event)
  }

  function CorrectOneMoments(
    st: Staged, range: ReplayRange, earlier: seq<EventRecord>, event: EventRecord, validate: Payload -> bool)
    : seq<Moment>
  {
    var entry := EnsureEntry(st, event.identity);
    if CheckEvent(st.journal, range, earlier, event, validate).Failed? || entry.Err? then []
    else EnsureMoments(st, event.identity) + CorrectMoments(entry.value.0, entry.value.1, event)
  }

  function CorrectFromMoments(
    st: Staged, range: ReplayRange, corrected: seq<EventRecord>, n: nat, validate: Payload -> bool): seq<Moment>
    requires n <= |corrected|
    decreases |corrected| - n
  {
    if n == |corrected| then []
    else
      var r := CorrectOne(st, range, corrected[..n], corrected[n], validate);
      CorrectOneMoments(st, range, corrected[..n], corrected[n], validate)
      + if r.Ok? then CorrectFromMoments(r.value, range, corrected, n + 1, validate) else []
  }

  function VanishAtMoments(st: Staged, i: nat, range: ReplayRange, corrected: seq<EventRecord>): seq<Moment>
    requires i < |st.journal.entries|
  {
    if Vanishes(st.journal.entries[i], range, corrected) then CancelMoments(st, i, ReplayAbsent, AbsentOnReplay) else []
  }

  function VanishMoments(st: Staged, range: ReplayRange, corrected: seq<EventRecord>, i: nat): seq<Moment>
    requires i <= |st.journal.entries|
    decreases |st.journal.entries| - i
  {
    if i == |st.journal.entries| then []
    else
      var r := VanishAt(st, i, range, corrected);
      VanishAtMoments(st, i, range, corrected) + if r.Ok? then VanishMoments(r.value, range, corrected, i + 1) else []
  }

  /** The checks of a replay that follow the clock. */
  predicate Replayable(st: Staged, now: nat, range: ReplayRange, corrected: seq<EventRecord>) {
    && range.first <= range.last <= now
    && now - range.first < st.journal.limits.historyTicks
    && |corrected| <= st.journal.limits.records
  }

  function ReplayMoments(
    st: Staged, range: ReplayRange, corrected: seq<EventRecord>, validate: Payload -> bool): seq<Moment>
  {
    var applied := CorrectFrom(st, range, corrected, 0, validate);
    CorrectFromMoments(st, range, corrected, 0, validate)
    + if applied.Ok? then VanishMoments(applied.value, range, corrected, 0) else []
  }

  function ReconcileMoments(
    st: Staged, now: nat, range: ReplayRange, corrected: seq<EventRecord>, validate: Payload -> bool): seq<Moment>
  {
    var advanced := AdvanceInner(st, now);
    AdvanceMoments(st, now)
    + if advanced.Ok? && Replayable(st, now, range, corrected)
      then ReplayMoments(advanced.value, range, corrected, validate) else []
  }

  function RecordMoments(st: Staged, i: nat, entity: EntityId): seq<Moment>
    requires i < |st.journal.entries|
  {
    var j := st.journal;
    var e := j.entries[i];
    var key := e.identity.key;
    var fenced := st.(journal := j.(bindings := j.bindings[entity.index := Binding(entity, key)]));
    var bound := SetEntry(fenced, i, e.(binding := Some(entity)));
    var retired := e.phase == ReplayAbsent || e.phase == Expired || e.phase == Refused;
    [Moment(fenced, 0), Moment(bound, 0)]
    + EmitMoments(bound, if retired then BindRetired(key, entity) else Bind(key, entity))
  }

  function SupersedeMoments(st: Staged, former: nat, i: nat, entity: EntityId): seq<Moment>
    requires former < |st.journal.entries| && i < |st.journal.entries|
  {
    var superseded := CancelAt(st, former, Expired, HasExpired);
    CancelMoments(st, former, Expired, HasExpired)
    + if superseded.Ok? then RecordMoments(superseded.value, i, entity) else []
  }

  function BindMoments(st: Staged, i: nat, entity: EntityId): seq<Moment>
    requires i < |st.journal.entries|
  {
    var j := st.journal;
    var e := j.entries[i];
    var key := e.identity.key;
    if entity.generation == 0 || e.binding.Some? then []
    else if entity.index in j.bindings then
      var fence := j.bindings[entity.index];
      if entity.generation < fence.entity.generation then []
      else if entity.generation == fence.entity.generation && fence.key != key then []
      else if fence.key != key && Present(j.entries, fence.key) then
        SupersedeMoments(st, Pos(j.entries, fence.key), i, entity)
      else RecordMoments(st, i, entity)
    else if |j.bindings| >= j.limits.bindings then []
    else RecordMoments(st, i, entity)
  }

  function ConfirmMoments(st: Staged, i: nat): seq<Moment>
    requires i < |st.journal.entries|
  {
    var e := st.journal.entries[i];
    if e.decision == Accepted then []
    else
      var accepted := SetEntry(st, i, e.(decision := Accepted));
      [Moment(accepted, 0)] + EmitMoments(accepted, Confirm(e.identity.key))
  }

  function Confirmed(st: Staged, i: nat): Result<Staged, EventError>
    requires i < |st.journal.entries|
  {
    var e := st.journal.entries[i];
    if e.decision == Accepted then Ok(st) else Emit(SetEntry(st, i, e.(decision := Accepted)), Confirm(e.identity.key))
  }

  function AcceptMoments(st: Staged, i: nat, binding: Option<EntityId>): seq<Moment>
    requires i < |st.journal.entries|
  {
    var e := st.journal.entries[i];
    if e.decision == Rejected || e.identity.key.action in st.journal.rejected then []
    else
      ConfirmMoments(st, i)
      + if Confirmed(st, i).Ok? && binding.Some? then BindMoments(Confirmed(st, i).value, i, binding.value) else []
  }

  function DecideMoments(st: Staged, i: nat, verdict: Verdict): seq<Moment>
    requires i < |st.journal.entries|
  {
    match verdict
    case Reject => if st.journal.entries[i].decision == Accepted then [] else RejectMoments(st, i)
    case Accept(binding) => AcceptMoments(st, i, binding)
  }

  function ExpireEntryMoments(st: Staged, i: nat): seq<Moment>
    requires i < |st.journal.entries|
  {
    if st.journal.entries[i].phase == Refused then [] else CancelMoments(st, i, Expired, HasExpired)
  }

  function ResolveMoments(st: Staged, now: nat, identity: EventIdentity, verdict: Verdict): seq<Moment> {
    var advanced := AdvanceInner(st, now);
    AdvanceMoments(st, now)
    + if advanced.Err? || EnsureEntry(advanced.value, identity).Err? then []
      else
        var (found, i) := EnsureEntry(advanced.value, identity).value;
        EnsureMoments(advanced.value, identity) + DecideMoments(found, i, verdict)
  }

  function ExpireMoments(st: Staged, now: nat, identity: EventIdentity): seq<Moment> {
    var advanced := AdvanceInner(st, now);
    AdvanceMoments(st, now)
    + if advanced.Err? || EnsureEntry(advanced.value, identity).Err? then []
      else
        var (found, i) := EnsureEntry(advanced.value, identity).value;
        EnsureMoments(advanced.value, identity) + ExpireEntryMoments(found, i)
  }

  function RejectEntryMoments(st: Staged, i: nat, action: ActionKey): seq<Moment>
    requires i < |st.journal.entries|
  {
    if KeyAt(st.journal.entries, i).action == action then RejectMoments(st, i) else []
  }

  function RejectFromMoments(st: Staged, action: ActionKey, i: nat): seq<Moment>
    requires i <= |st.journal.entries|
    decreases |st.journal.entries| - i
  {
    if i == |st.journal.entries| then []
    else
      var r := RejectActionAt(st, i, action);
      RejectEntryMoments(st, i, action) + if r.Ok? then RejectFromMoments(r.value, action, i + 1) else []
  }

  /** A whole action may be rejected here. */
  predicate Rejectable(j: Journal, action: ActionKey) {
    && ValidAction(j, action).Done?
    && !ActionAccepted(j.entries, action)
    && (action in j.rejected || |j.rejected| < j.limits.actionFences)
  }

  function FenceMoments(st: Staged, action: ActionKey): seq<Moment> {
    var fenced := st.(journal := st.journal.(rejected := st.journal.rejected + {action}));
    [Moment(fenced, 0)] + RejectFromMoments(fenced, action, 0)
  }

  function RejectActionMoments(st: Staged, now: nat, action: ActionKey): seq<Moment> {
    var advanced := AdvanceInner(st, now);
    AdvanceMoments(st, now)
    + if advanced.Ok? && Rejectable(advanced.value.journal, action) then FenceMoments(advanced.value, action) else []
  }

  function StageMoments(st: Staged, op: Op): seq<Moment>
    requires !op.RetireThrough? && !op.ResetScope?
  {
    match op
    case Advance(now) => AdvanceMoments(st, now)
    case Reconcile(now, range, corrected, validate) => ReconcileMoments(st, now, range, corrected, validate)
    case Resolve(now, identity, verdict) => ResolveMoments(st, now, identity, verdict)
    case RejectAction(now, action) => RejectActionMoments(st, now, action)
    case Expire(now, identity) => ExpireMoments(st, now, identity)
  }

  /** The moments of an operation on a journal; retiring a prefix works in place and stages nothing. */
  function Moments(j: Journal, op: Op): seq<Moment> {
    match op
    case RetireThrough(_) => []
    case ResetScope(scope) =>
      if !ScopeLess(j.scope, scope) || scope.connection == 0 || scope.stream == 0 then []
      else
        [Moment(Staged(EmptyJournal(scope, j.limits), [], 0), 0)]
        + if Restart(j, scope).Ok? then [Moment(Restart(j, scope).value, 0)] else []
    case _ =>
      var start := Staged(j, [], 0);
      [Moment(start, 0)] + if CheckResident(start).Ok? then StageMoments(start, op) else []
  }

  // ---- what every moment keeps -----------------------------------------------------------------------

  /** Within every ceiling, as between two steps. */
  predicate Neat(st: Staged, limits: Limits) {
    && st.journal.limits == limits && ValidLimits(limits)
    && RetainedBytes(st.journal) <= limits.residentBytes
    && limits.transitions * limits.changeSize + st.payloadBytes <= limits.transitionBytes
  }

  /** Over the resident ceiling by no more than one payload. */
  predicate Slim(m: Moment, limits: Limits) {
    && m.staged.journal.limits == limits
    && RetainedBytes(m.staged.journal) + m.offered <= limits.residentBytes + limits.payloadBytes
    && limits.transitions * limits.changeSize + m.staged.payloadBytes <= limits.transitionBytes
  }

  /** The entries differ in one place, or by one insertion. */
  predicate OneEntry(a: seq<Entry>, b: seq<Entry>) {
    exists i :: 0 <= i < |b| && (b[..i] + b[i + 1..] == a || (|a| == |b| && b == a[i := b[i]]))
  }

  /** One write to the staged copy, or one change taken into the list. */
  predicate OneWrite(a: Staged, b: Staged) {
    || a == b
    || (a.journal == b.journal && |b.changes| == |a.changes| + 1 && b.changes[..|a.changes|] == a.changes)
    || (&& a.changes == b.changes && a.payloadBytes == b.payloadBytes
        && (|| b.journal == a.journal.(now := b.journal.now)
            || b.journal == a.journal.(bindings := b.journal.bindings)
            || b.journal == a.journal.(rejected := b.journal.rejected)
            || (b.journal == a.journal.(entries := b.journal.entries)
              && OneEntry(a.journal.entries, b.journal.entries))))
  }

  /** The moment is one write after the one before, and not too large. */
  predicate StepOk(st: Staged, ms: seq<Moment>, k: nat, limits: Limits)
    requires k < |ms|
  {
    OneWrite(if k == 0 then st else ms[k - 1].staged, ms[k].staged) && Slim(ms[k], limits)
  }

  function Last(st: Staged, ms: seq<Moment>): Staged {
    if ms == [] then st else ms[|ms| - 1].staged
  }

  /** The moments lead from the start to the result, write by write, and none is too large. */
  predicate Traced(st: Staged, ms: seq<Moment>, r: Result<Staged, EventError>, limits: Limits) {
    && (forall k :: 0 <= k < |ms| ==> StepOk(st, ms, k, limits))
    && (r.Ok? ==> Last(st, ms) == r.value && Neat(r.value, limits))
  }

  // ---- composing traces --------------------------------------------------------------------------------

  lemma TracedNothing(st: Staged, r: Result<Staged, EventError>, limits: Limits)
    requires Neat(st, limits) && (r.Ok? ==> r.value == st)
    ensures Traced(st, [], r, limits)
  {
  }

  /** A failing step ends the trace. */
  lemma TracedFails(
    st: Staged, ms: seq<Moment>, r: Result<Staged, EventError>, end: Result<Staged, EventError>, limits: Limits)
    requires Traced(st, ms, r, limits) && end.Err?
    ensures Traced(st, ms + [], end, limits)
  {
    assert ms + [] == ms;
  }

  lemma TracedThen(
    st: Staged, ms: seq<Moment>, mid: Staged, more: seq<Moment>, r: Result<Staged, EventError>, limits: Limits)
    requires Traced(st, ms, Ok(mid), limits) && Traced(mid, more, r, limits)
    ensures Traced(st, ms + more, r, limits)
  {
    var all := ms + more;
    forall k | 0 <= k < |all| ensures StepOk(st, all, k, limits) {
      if k < |ms| {
        assert StepOk(st, ms, k, limits);
      } else {
        assert StepOk(mid, more, k - |ms|, limits) && all[k] == more[k - |ms|];
        assert k > |ms| ==> all[k - 1] == more[k - |ms| - 1];
      }
    }
    assert Last(st, all) == Last(mid, more);
  }

  lemma TracedWrite(st: Staged, m: Moment, limits: Limits)
    requires OneWrite(st, m.staged) && Neat(m.staged, limits) && m.offered == 0
    ensures Traced(st, [m], Ok(m.staged), limits)
  {
  }

  // ---- payload sums --------------------------------------------------------------------------------------

  function PayloadOf(e: Entry): nat {
    if e.payload.Some? then e.payload.value.bytes else 0
  }

  lemma {:induction false} PayloadReplaced(entries: seq<Entry>, i: nat, e: Entry)
    requires i < |entries|
    ensures PayloadSum(entries[i := e]) == PayloadSum(entries) - PayloadOf(entries[i]) + PayloadOf(e)
  {
    var after := entries[i := e];
    if i == 0 {
      assert after[1..] == entries[1..];
    } else {
      assert after[1..] == entries[1..][i - 1 := e];
      PayloadReplaced(entries[1..], i - 1, e);
    }
  }

  lemma {:induction false} PayloadInserted(entries: seq<Entry>, p: nat, e: Entry)
    requires p <= |entries| && e.payload.None?
    ensures PayloadSum(entries[..p] + [e] + entries[p..]) == PayloadSum(entries)
  {
    var after := entries[..p] + [e] + entries[p..];
    if p == 0 {
      assert after[1..] == entries;
    } else {
      assert after[1..] == entries[1..][..p - 1] + [e] + entries[1..][p - 1..];
      PayloadInserted(entries[1..], p - 1, e);
    }
  }

  lemma OnePlace(entries: seq<Entry>, i: nat, e: Entry)
    requires i < |entries|
    ensures OneEntry(entries, entries[i := e])
  {
    var after := entries[i := e];
    assert after == entries[i := after[i]];
  }

  /** Writing an entry whose payload is no larger keeps everything within its ceiling. */
  lemma WriteTraced(st: Staged, i: nat, e: Entry, limits: Limits)
    requires Neat(st, limits) && i < |st.journal.entries| && PayloadOf(e) <= PayloadOf(st.journal.entries[i])
    ensures Traced(st, [Moment(SetEntry(st, i, e), 0)], Ok(SetEntry(st, i, e)), limits)
  {
    PayloadReplaced(st.journal.entries, i, e);
    OnePlace(st.journal.entries, i, e);
    TracedWrite(st, Moment(SetEntry(st, i, e), 0), limits);
  }

  // ---- the steps ---------------------------------------------------------------------------------------------

  /** Offering a change costs its payload until the list takes it. */
  lemma EmitTraced(st: Staged, c: Change, limits: Limits)
    requires Neat(st, limits) && ChangeBytes(c) <= limits.payloadBytes
    ensures Traced(st, EmitMoments(st, c), Emit(st, c), limits)
  {
    var ms, r := EmitMoments(st, c), Emit(st, c);
    assert StepOk(st, ms, 0, limits);
    if r.Ok? {
      assert (st.changes + [c])[..|st.changes|] == st.changes;
      assert OneWrite(st, r.value);
      assert StepOk(st, ms, 1, limits);
    }
  }

  lemma CancelTraced(st: Staged, i: nat, phase: Phase, reason: CancelReason, limits: Limits)
    requires Neat(st, limits) && i < |st.journal.entries|
    ensures Traced(st, CancelMoments(st, i, phase, reason), CancelAt(st, i, phase, reason), limits)
  {
    var e := st.journal.entries[i];
    var c := Cancel(e.identity.key, reason);
    var e' := e.(phase := phase, payload := None);
    var r := CancelAt(st, i, phase, reason);
    if !Shown(e) {
      WriteTraced(st, i, e', limits);
      assert CancelMoments(st, i, phase, reason) == [Moment(r.value, 0)];
    } else {
      EmitTraced(st, c, limits);
      if r.Err? {
        TracedFails(st, EmitMoments(st, c), Emit(st, c), r, limits);
      } else {
        WriteTraced(Emit(st, c).value, i, e', limits);
        TracedThen(st, EmitMoments(st, c), Emit(st, c).value, [Moment(r.value, 0)], r, limits);
      }
    }
  }

  lemma RejectTraced(st: Staged, i: nat, limits: Limits)
    requires Neat(st, limits) && i < |st.journal.entries|
    ensures Traced(st, RejectMoments(st, i), RejectAt(st, i), limits)
  {
    var e := st.journal.entries[i].(decision := Rejected);
    var marked := SetEntry(st, i, e);
    WriteTraced(st, i, e, limits);
    CancelTraced(marked, i, Refused, WasRejected, limits);
    TracedThen(
      st, [Moment(marked, 0)], marked, CancelMoments(marked, i, Refused, WasRejected), RejectAt(st, i), limits);
  }

  lemma LapseTraced(st: Staged, i: nat, now: nat, limits: Limits)
    requires Neat(st, limits) && i < |st.journal.entries|
    ensures Traced(st, LapseMoments(st, i, now), LapseAt(st, i, now), limits)
  {
    if Lapses(st.journal.entries[i], now) {
      CancelTraced(st, i, Expired, HasExpired, limits);
    }
  }

  lemma {:induction false} AdvanceFromTraced(st: Staged, now: nat, i: nat, limits: Limits)
    requires Neat(st, limits) && i <= |st.journal.entries|
    ensures Traced(st, AdvanceFromMoments(st, now, i), AdvanceFrom(st, now, i), limits)
    decreases |st.journal.entries| - i
  {
    if i < |st.journal.entries| {
      var r := LapseAt(st, i, now);
      LapseTraced(st, i, now, limits);
      if r.Ok? {
        AdvanceFromTraced(r.value, now, i + 1, limits);
        TracedThen(
          st, LapseMoments(st, i, now), r.value, AdvanceFromMoments(r.value, now, i + 1), AdvanceFrom(st, now, i),
          limits);
      } else {
        TracedFails(st, LapseMoments(st, i, now), r, AdvanceFrom(st, now, i), limits);
      }
    }
  }

  lemma AdvanceTraced(st: Staged, now: nat, limits: Limits)
    requires Neat(st, limits)
    ensures Traced(st, AdvanceMoments(st, now), AdvanceInner(st, now), limits)
  {
    if st.journal.now <= now {
      var ticked := st.(journal := st.journal.(now := now));
      TracedWrite(st, Moment(ticked, 0), limits);
      AdvanceFromTraced(ticked, now, 0, limits);
      TracedThen(st, [Moment(ticked, 0)], ticked, AdvanceFromMoments(ticked, now, 0), AdvanceInner(st, now), limits);
    }
  }

  lemma EnsureTraced(st: Staged, identity: EventIdentity, limits: Limits)
    requires Neat(st, limits) && EnsureEntry(st, identity).Ok?
    ensures Traced(st, EnsureMoments(st, identity), Ok(EnsureEntry(st, identity).value.0), limits)
  {
    var j := st.journal;
    var found := EnsureEntry(st, identity).value.0;
    if !Present(j.entries, identity.key) {
      var p := Pos(j.entries, identity.key);
      var after := found.journal.entries;
      PayloadInserted(j.entries, p, NewEntry(identity));
      assert after[..p] + after[p + 1..] == j.entries;
    }
    TracedWrite(st, Moment(found, 0), limits);
  }

  /** The only overshoot: a corrected payload is stored before it is measured. */
  lemma StoreTraced(st: Staged, i: nat, event: EventRecord, limits: Limits)
    requires Neat(st, limits) && i < |st.journal.entries| && event.payload.bytes <= limits.payloadBytes
    ensures var e := st.journal.entries[i];
      var staged := SetEntry(st, i, e.(payload := Some(event.payload), phase := Live, delivered := true));
      && Traced(st, [Moment(st, event.payload.bytes), Moment(staged, 0)], Err(Capacity), limits)
      && (CheckResident(staged).Ok? ==> Neat(staged, limits))
  {
    var e := st.journal.entries[i].(payload := Some(event.payload), phase := Live, delivered := true);
    var staged := SetEntry(st, i, e);
    var ms := [Moment(st, event.payload.bytes), Moment(staged, 0)];
    PayloadReplaced(st.journal.entries, i, e);
    OnePlace(st.journal.entries, i, e);
    assert StepOk(st, ms, 0, limits) && StepOk(st, ms, 1, limits);
  }

  lemma PresentTraced(st: Staged, i: nat, event: EventRecord, limits: Limits)
    requires Neat(st, limits) && i < |st.journal.entries| && event.payload.bytes <= limits.payloadBytes
    ensures Traced(st, PresentMoments(st, i, event), PresentAt(st, i, event), limits)
  {
    var e := st.journal.entries[i];
    var wasLive := e.phase == Live;
    var staged := SetEntry(st, i, e.(payload := Some(event.payload), phase := Live, delivered := true));
    var stored := [Moment(st, event.payload.bytes), Moment(staged, 0)];
    var r := PresentAt(st, i, event);
    StoreTraced(st, i, event, limits);
    if CheckResident(staged).Err? {
      TracedFails(st, stored, r, r, limits);
    } else {
      var c := if !wasLive && (!e.delivered || event.delivery != OneShot)
               then Create(event, e.decision == Accepted, e.binding) else Update(event);
      assert Traced(st, stored, Ok(staged), limits);
      if r == Ok(staged) {
        TracedNothing(staged, r, limits);
        TracedThen(st, stored, staged, [], r, limits);
      } else {
        EmitTraced(staged, c, limits);
        TracedThen(st, stored, staged, EmitMoments(staged, c), r, limits);
      }
    }
  }

  lemma CorrectTraced(st: Staged, i: nat, event: EventRecord, limits: Limits)
    requires Neat(st, limits) && i < |st.journal.entries| && event.payload.bytes <= limits.payloadBytes
    ensures Traced(st, CorrectMoments(st, i, event), CorrectAt(st, i, event), limits)
  {
    var life := Lifetime(event.expiresAt, event.delivery);
    var e := st.journal.entries[i];
    if e.lifetime.None? || e.lifetime.value == life {
      var dated := SetEntry(st, i, e.(lifetime := Some(life)));
      WriteTraced(st, i, e.(lifetime := Some(life)), limits);
      DatedTraced(dated, i, event, limits);
      TracedThen(st, [Moment(dated, 0)], dated, DatedMoments(dated, i, event), CorrectAt(st, i, event), limits);
    }
  }

  lemma DatedTraced(st: Staged, i: nat, event: EventRecord, limits: Limits)
    requires Neat(st, limits) && i < |st.journal.entries| && event.payload.bytes <= limits.payloadBytes
    ensures Traced(st, DatedMoments(st, i, event), Dated(st, i, event), limits)
  {
    var e := st.journal.entries[i];
    if event.identity.key.action in st.journal.rejected {
      RejectTraced(st, i, limits);
    } else if e.phase == Expired || e.phase == Refused || (e.phase == ReplayAbsent && e.decision == Accepted) {
      TracedNothing(st, Ok(st), limits);
    } else if event.delivery != SimulationOwned && event.expiresAt <= st.journal.now && e.phase != Live {
      CancelTraced(st, i, Expired, HasExpired, limits);
    } else {
      PresentTraced(st, i, event, limits);
    }
  }

  lemma CorrectOneTraced(
    st: Staged, range: ReplayRange, earlier: seq<EventRecord>, event: EventRecord, validate: Payload -> bool,
    limits: Limits)
    requires Neat(st, limits)
    ensures Traced(st, CorrectOneMoments(st, range, earlier, event, validate),
      CorrectOne(st, range, earlier, event, validate), limits)
  {
    if CheckEvent(st.journal, range, earlier, event, validate).Done? && EnsureEntry(st, event.identity).Ok? {
      var (found, i) := EnsureEntry(st, event.identity).value;
      EnsureTraced(st, event.identity, limits);
      CorrectTraced(found, i, event, limits);
      TracedThen(
        st, EnsureMoments(st, event.identity), found, CorrectMoments(found, i, event), CorrectAt(found, i, event),
        limits);
    }
  }

  lemma {:induction false} CorrectFromTraced(
    st: Staged, range: ReplayRange, corrected: seq<EventRecord>, n: nat, validate: Payload -> bool, limits: Limits)
    requires Neat(st, limits) && n <= |corrected|
    ensures Traced(st, CorrectFromMoments(st, range, corrected, n, validate),
      CorrectFrom(st, range, corrected, n, validate), limits)
    decreases |corrected| - n
  {
    if n < |corrected| {
      var r := CorrectOne(st, range, corrected[..n], corrected[n], validate);
      var ms := CorrectOneMoments(st, range, corrected[..n], corrected[n], validate);
      var end := CorrectFrom(st, range, corrected, n, validate);
      CorrectOneTraced(st, range, corrected[..n], corrected[n], validate, limits);
      if r.Ok? {
        CorrectFromTraced(r.value, range, corrected, n + 1, validate, limits);
        TracedThen(st, ms, r.value, CorrectFromMoments(r.value, range, corrected, n + 1, validate), end, limits);
      } else {
        TracedFails(st, ms, r, end, limits);
      }
    }
  }

  lemma VanishAtTraced(st: Staged, i: nat, range: ReplayRange, corrected: seq<EventRecord>, limits: Limits)
    requires Neat(st, limits) && i < |st.journal.entries|
    ensures Traced(st, VanishAtMoments(st, i, range, corrected), VanishAt(st, i, range, corrected), limits)
  {
    if Vanishes(st.journal.entries[i], range, corrected) {
      CancelTraced(st, i, ReplayAbsent, AbsentOnReplay, limits);
    }
  }

  lemma {:induction false} VanishTraced(
    st: Staged, range: ReplayRange, corrected: seq<EventRecord>, i: nat, limits: Limits)
    requires Neat(st, limits) && i <= |st.journal.entries|
    ensures Traced(st, VanishMoments(st, range, corrected, i), VanishFrom(st, range, corrected, i), limits)
    decreases |st.journal.entries| - i
  {
    if i < |st.journal.entries| {
      var r := VanishAt(st, i, range, corrected);
      var ms, end := VanishAtMoments(st, i, range, corrected), VanishFrom(st, range, corrected, i);
      VanishAtTraced(st, i, range, corrected, limits);
      if r.Ok? {
        VanishTraced(r.value, range, corrected, i + 1, limits);
        TracedThen(st, ms, r.value, VanishMoments(r.value, range, corrected, i + 1), end, limits);
      } else {
        TracedFails(st, ms, r, end, limits);
      }
    }
  }

  function Replayed(st: Staged, range: ReplayRange, corrected: seq<EventRecord>, validate: Payload -> bool)
    : Result<Staged, EventError>
  {
    var applied := CorrectFrom(st, range, corrected, 0, validate);
    if applied.Err? then applied else VanishFrom(applied.value, range, corrected, 0)
  }

  lemma ReplayTraced(
    st: Staged, range: ReplayRange, corrected: seq<EventRecord>, validate: Payload -> bool, limits: Limits)
    requires Neat(st, limits)
    ensures Traced(st, ReplayMoments(st, range, corrected, validate), Replayed(st, range, corrected, validate), limits)
  {
    var applied := CorrectFrom(st, range, corrected, 0, validate);
    var ms, end := CorrectFromMoments(st, range, corrected, 0, validate), Replayed(st, range, corrected, validate);
    CorrectFromTraced(st, range, corrected, 0, validate, limits);
    if applied.Ok? {
      VanishTraced(applied.value, range, corrected, 0, limits);
      TracedThen(st, ms, applied.value, VanishMoments(applied.value, range, corrected, 0), end, limits);
    } else {
      TracedFails(st, ms, applied, end, limits);
    }
  }

  lemma ReconcileTraced(
    st: Staged, now: nat, range: ReplayRange, corrected: seq<EventRecord>, validate: Payload -> bool, limits: Limits)
    requires Neat(st, limits)
    ensures Traced(st, ReconcileMoments(st, now, range, corrected, validate),
      ReconcileStaged(st, now, range, corrected, validate), limits)
  {
    var advanced := AdvanceInner(st, now);
    var end := ReconcileStaged(st, now, range, corrected, validate);
    AdvanceTraced(st, now, limits);
    if advanced.Ok? && Replayable(st, now, range, corrected) {
      ReplayTraced(advanced.value, range, corrected, validate, limits);
      TracedThen(
        st, AdvanceMoments(st, now), advanced.value, ReplayMoments(advanced.value, range, corrected, validate), end,
        limits);
    } else {
      TracedFails(st, AdvanceMoments(st, now), advanced, end, limits);
    }
  }

  lemma RecordTraced(st: Staged, i: nat, entity: EntityId, limits: Limits)
    requires Neat(st, limits) && i < |st.journal.entries|
    ensures Traced(st, RecordMoments(st, i, entity), RecordBinding(st, i, entity), limits)
  {
    var j := st.journal;
    var e := j.entries[i];
    var key := e.identity.key;
    var fenced := st.(journal := j.(bindings := j.bindings[entity.index := Binding(entity, key)]));
    var bound := SetEntry(fenced, i, e.(binding := Some(entity)));
    var retired := e.phase == ReplayAbsent || e.phase == Expired || e.phase == Refused;
    var c := if retired then BindRetired(key, entity) else Bind(key, entity);
    TracedWrite(st, Moment(fenced, 0), limits);
    WriteTraced(fenced, i, e.(binding := Some(entity)), limits);
    TracedThen(st, [Moment(fenced, 0)], fenced, [Moment(bound, 0)], Ok(bound), limits);
    EmitTraced(bound, c, limits);
    TracedThen(
      st, [Moment(fenced, 0)] + [Moment(bound, 0)], bound, EmitMoments(bound, c), RecordBinding(st, i, entity), limits);
    assert [Moment(fenced, 0)] + [Moment(bound, 0)] == [Moment(fenced, 0), Moment(bound, 0)];
  }

  lemma SupersedeTraced(st: Staged, former: nat, i: nat, entity: EntityId, limits: Limits)
    requires Neat(st, limits) && former < |st.journal.entries| && i < |st.journal.entries|
    ensures Traced(st, SupersedeMoments(st, former, i, entity), Superseded(st, former, i, entity), limits)
  {
    var r := CancelAt(st, former, Expired, HasExpired);
    var ms, end := CancelMoments(st, former, Expired, HasExpired), Superseded(st, former, i, entity);
    CancelTraced(st, former, Expired, HasExpired, limits);
    if r.Ok? {
      RecordTraced(r.value, i, entity, limits);
      TracedThen(st, ms, r.value, RecordMoments(r.value, i, entity), end, limits);
    } else {
      TracedFails(st, ms, r, end, limits);
    }
  }

  function Superseded(st: Staged, former: nat, i: nat, entity: EntityId): Result<Staged, EventError>
    requires former < |st.journal.entries| && i < |st.journal.entries|
  {
    var r := CancelAt(st, former, Expired, HasExpired);
    if r.Err? then r else RecordBinding(r.value, i, entity)
  }

  lemma BindTraced(st: Staged, i: nat, entity: EntityId, limits: Limits)
    requires Neat(st, limits) && i < |st.journal.entries|
    ensures Traced(st, BindMoments(st, i, entity), BindAt(st, i, entity), limits)
  {
    var j := st.journal;
    RecordTraced(st, i, entity, limits);
    if entity.index in j.bindings && Present(j.entries, j.bindings[entity.index].key) {
      SupersedeTraced(st, Pos(j.entries, j.bindings[entity.index].key), i, entity, limits);
    }
  }

  lemma ConfirmTraced(st: Staged, i: nat, limits: Limits)
    requires Neat(st, limits) && i < |st.journal.entries|
    ensures Traced(st, ConfirmMoments(st, i), Confirmed(st, i), limits)
  {
    var e := st.journal.entries[i];
    if e.decision != Accepted {
      var accepted := SetEntry(st, i, e.(decision := Accepted));
      var c := Confirm(e.identity.key);
      WriteTraced(st, i, e.(decision := Accepted), limits);
      EmitTraced(accepted, c, limits);
      TracedThen(st, [Moment(accepted, 0)], accepted, EmitMoments(accepted, c), Confirmed(st, i), limits);
    }
  }

  lemma AcceptTraced(st: Staged, i: nat, binding: Option<EntityId>, limits: Limits)
    requires Neat(st, limits) && i < |st.journal.entries|
    ensures Traced(st, AcceptMoments(st, i, binding), AcceptAt(st, i, binding), limits)
  {
    var e := st.journal.entries[i];
    if e.decision != Rejected && e.identity.key.action !in st.journal.rejected {
      var r, ms := Confirmed(st, i), ConfirmMoments(st, i);
      ConfirmTraced(st, i, limits);
      if r.Ok? && binding.Some? {
        BindTraced(r.value, i, binding.value, limits);
        TracedThen(st, ms, r.value, BindMoments(r.value, i, binding.value), AcceptAt(st, i, binding), limits);
      } else {
        assert ms + [] == ms;
      }
    }
  }

  lemma DecideTraced(st: Staged, i: nat, verdict: Verdict, limits: Limits)
    requires Neat(st, limits) && i < |st.journal.entries|
    ensures Traced(st, DecideMoments(st, i, verdict), DecideAt(st, i, verdict), limits)
  {
    match verdict
    case Reject => RejectTraced(st, i, limits);
    case Accept(binding) => AcceptTraced(st, i, binding, limits);
  }

  lemma ResolveTraced(st: Staged, now: nat, identity: EventIdentity, verdict: Verdict, limits: Limits)
    requires Neat(st, limits)
    ensures Traced(st, ResolveMoments(st, now, identity, verdict), ResolveStaged(st, now, identity, verdict), limits)
  {
    var advanced := AdvanceInner(st, now);
    var ms, end := AdvanceMoments(st, now), ResolveStaged(st, now, identity, verdict);
    AdvanceTraced(st, now, limits);
    if advanced.Err? || EnsureEntry(advanced.value, identity).Err? {
      TracedFails(st, ms, advanced, end, limits);
    } else {
      var (found, i) := EnsureEntry(advanced.value, identity).value;
      EnsureTraced(advanced.value, identity, limits);
      DecideTraced(found, i, verdict, limits);
      TracedThen(
        advanced.value, EnsureMoments(advanced.value, identity), found, DecideMoments(found, i, verdict), end, limits);
      TracedThen(
        st, ms, advanced.value, EnsureMoments(advanced.value, identity) + DecideMoments(found, i, verdict), end,
        limits);
    }
  }

  lemma ExpireEntryTraced(st: Staged, i: nat, limits: Limits)
    requires Neat(st, limits) && i < |st.journal.entries|
    ensures Traced(
      st, ExpireEntryMoments(st, i),
      if st.journal.entries[i].phase == Refused then Ok(st) else CancelAt(st, i, Expired, HasExpired), limits)
  {
    CancelTraced(st, i, Expired, HasExpired, limits);
  }

  lemma ExpireTraced(st: Staged, now: nat, identity: EventIdentity, limits: Limits)
    requires Neat(st, limits)
    ensures Traced(st, ExpireMoments(st, now, identity), ExpireStaged(st, now, identity), limits)
  {
    var advanced := AdvanceInner(st, now);
    var ms, end := AdvanceMoments(st, now), ExpireStaged(st, now, identity);
    AdvanceTraced(st, now, limits);
    if advanced.Err? || EnsureEntry(advanced.value, identity).Err? {
      TracedFails(st, ms, advanced, end, limits);
    } else {
      var (found, i) := EnsureEntry(advanced.value, identity).value;
      EnsureTraced(advanced.value, identity, limits);
      ExpireEntryTraced(found, i, limits);
      TracedThen(
        advanced.value, EnsureMoments(advanced.value, identity), found, ExpireEntryMoments(found, i), end, limits);
      TracedThen(
        st, ms, advanced.value, EnsureMoments(advanced.value, identity) + ExpireEntryMoments(found, i), end, limits);
    }
  }

  lemma RejectEntryTraced(st: Staged, i: nat, action: ActionKey, limits: Limits)
    requires Neat(st, limits) && i < |st.journal.entries|
    ensures Traced(st, RejectEntryMoments(st, i, action), RejectActionAt(st, i, action), limits)
  {
    RejectTraced(st, i, limits);
  }

  lemma {:induction false} RejectFromTraced(st: Staged, action: ActionKey, i: nat, limits: Limits)
    requires Neat(st, limits) && i <= |st.journal.entries|
    ensures Traced(st, RejectFromMoments(st, action, i), RejectFrom(st, action, i), limits)
    decreases |st.journal.entries| - i
  {
    if i < |st.journal.entries| {
      var r := RejectActionAt(st, i, action);
      var ms, end := RejectEntryMoments(st, i, action), RejectFrom(st, action, i);
      RejectEntryTraced(st, i, action, limits);
      if r.Ok? {
        RejectFromTraced(r.value, action, i + 1, limits);
        TracedThen(st, ms, r.value, RejectFromMoments(r.value, action, i + 1), end, limits);
      } else {
        TracedFails(st, ms, r, end, limits);
      }
    }
  }

  lemma FenceTraced(st: Staged, action: ActionKey, limits: Limits)
    requires Neat(st, limits)
    ensures Traced(
      st, FenceMoments(st, action),
      RejectFrom(st.(journal := st.journal.(rejected := st.journal.rejected + {action})), action, 0), limits)
  {
    var fenced := st.(journal := st.journal.(rejected := st.journal.rejected + {action}));
    TracedWrite(st, Moment(fenced, 0), limits);
    RejectFromTraced(fenced, action, 0, limits);
    TracedThen(
      st, [Moment(fenced, 0)], fenced, RejectFromMoments(fenced, action, 0), RejectFrom(fenced, action, 0), limits);
  }

  lemma RejectActionTraced(st: Staged, now: nat, action: ActionKey, limits: Limits)
    requires Neat(st, limits)
    ensures Traced(st, RejectActionMoments(st, now, action), RejectActionStaged(st, now, action), limits)
  {
    var advanced := AdvanceInner(st, now);
    var ms, end := AdvanceMoments(st, now), RejectActionStaged(st, now, action);
    AdvanceTraced(st, now, limits);
    if advanced.Ok? && Rejectable(advanced.value.journal, action) {
      FenceTraced(advanced.value, action, limits);
      TracedThen(st, ms, advanced.value, FenceMoments(advanced.value, action), end, limits);
    } else {
      TracedFails(st, ms, advanced, end, limits);
    }
  }

  lemma StageTraced(st: Staged, op: Op, limits: Limits)
    requires Neat(st, limits) && !op.RetireThrough? && !op.ResetScope?
    ensures Traced(st, StageMoments(st, op), Stage(st, op), limits)
  {
    match op
    case Advance(now) => AdvanceTraced(st, now, limits);
    case Reconcile(now, range, corrected, validate) => ReconcileTraced(st, now, range, corrected, validate, limits);
    case Resolve(now, identity, verdict) => ResolveTraced(st, now, identity, verdict, limits);
    case RejectAction(now, action) => RejectActionTraced(st, now, action, limits);
    case Expire(now, identity) => ExpireTraced(st, now, identity, limits);
  }

  // ---- the peak --------------------------------------------------------------------------------------------

  /** Everything held at a moment: the journal, its staged copy, the change list and a payload copy under way. */
  function Held(j: Journal, m: Moment): nat {
    RetainedBytes(j) + RetainedBytes(m.staged.journal)
    + j.limits.transitions * j.limits.changeSize + m.staged.payloadBytes + m.offered
  }

  lemma SlimHeld(j: Journal, m: Moment)
    requires Resident(j) && Slim(m, j.limits)
    ensures Held(j, m) <= j.limits.peakBytes
  {
  }

  /** The moments of a transaction, failed or not, lead write by write to its result and stay under the peak. */
  lemma TransactionTraced(j: Journal, op: Op)
    requires Resident(j) && !op.RetireThrough? && !op.ResetScope?
    ensures Neat(Staged(j, [], 0), j.limits)
    ensures Traced(Staged(j, [], 0), Moments(j, op), Stage(Staged(j, [], 0), op), j.limits)
    ensures Transaction(j, op).Ok? ==> Last(Staged(j, [], 0), Moments(j, op)) == Transaction(j, op).value
  {
    var start := Staged(j, [], 0);
    StageTraced(start, op, j.limits);
    TracedWrite(start, Moment(start, 0), j.limits);
    TracedThen(start, [Moment(start, 0)], start, StageMoments(start, op), Stage(start, op), j.limits);
  }

  lemma MomentsSlim(j: Journal, op: Op, k: nat)
    requires Resident(j) && k < |Moments(j, op)|
    ensures Slim(Moments(j, op)[k], j.limits)
  {
    if op.ResetScope? {
      if Restart(j, op.scope).Ok? {
        RestartBounded(j, op.scope);
      }
    } else {
      TransactionTraced(j, op);
      assert StepOk(Staged(j, [], 0), Moments(j, op), k, j.limits);
    }
  }

  /** At every moment of every operation of every run, what is held stays under the configured peak. */
  lemma PeakIsNeverPassed(scope: JournalScope, limits: Limits, ops: seq<Op>, op: Op, k: nat)
    requires NewJournal(scope, limits).Ok?
    requires k < |Moments(Run(NewJournal(scope, limits).value, ops).0, op)|
    ensures var j := Run(NewJournal(scope, limits).value, ops).0; Held(j, Moments(j, op)[k]) <= limits.peakBytes
  {
    RunBounded(scope, limits, ops);
    var j := Run(NewJournal(scope, limits).value, ops).0;
    MomentsSlim(j, op, k);
    SlimHeld(j, Moments(j, op)[k]);
  }
}
