/**
 The predicted-event journal (engine/net/src/events/journal.rs) as transitions of a
 value. Every operation works on a staged copy and its change list; an error discards
 both.
 */
module JournalModel {
  import opened NetTypes

  datatype ActionKey = ActionKey(connection: nat, stream: nat, command: nat, slot: nat)

  datatype EventKey = EventKey(action: ActionKey, kind: nat, spawnOrdinal: nat)

  datatype EventIdentity = EventIdentity(key: EventKey, originTick: nat, schema: nat)

  datatype JournalScope = JournalScope(connection: nat, stream: nat)

  datatype Delivery = Reversible | SimulationOwned | OneShot

  /** A game payload: opaque content and the heap bytes it reports. */
  datatype Payload = Payload(content: int, bytes: nat)

  datatype EventRecord = EventRecord(identity: EventIdentity, expiresAt: nat, delivery: Delivery, payload: Payload)

  datatype ReplayRange = ReplayRange(first: nat, last: nat)

  datatype Verdict = Accept(binding: Option<EntityId>) | Reject

  datatype Decision = Unresolved | Accepted | Rejected

  datatype Phase = Unseen | Live | ReplayAbsent | Expired | Refused

  datatype CancelReason = AbsentOnReplay | WasRejected | HasExpired

  datatype Change =
    | Create(event: EventRecord, committed: bool, binding: Option<EntityId>)
    | Update(event: EventRecord)
    | Cancel(key: EventKey, reason: CancelReason)
    | Confirm(key: EventKey)
    | Bind(key: EventKey, entity: EntityId)
    | BindRetired(key: EventKey, entity: EntityId)
    | Reset(previous: JournalScope, current: JournalScope)

  datatype EventError =
    | InvalidConfiguration
    | InvalidIdentity
    | InvalidPayload
    | WrongScope
    | Stale
    | OutsideHistory
    | DuplicateKey
    | Conflict
    | Capacity
    | ResetRequired
    | LiveHistory

  datatype Lifetime = Lifetime(expires: nat, delivery: Delivery)

  datatype Entry = Entry(
    identity: EventIdentity,
    lifetime: Option<Lifetime>,
    payload: Option<Payload>,
    phase: Phase,
    decision: Decision,
    delivered: bool,
    binding: Option<EntityId>)

  datatype Binding = Binding(entity: EntityId, key: EventKey)

  /** Ceilings; the last four fields are the sizes of one stored element. */
  datatype Limits = Limits(
    records: nat,
    bindings: nat,
    actionFences: nat,
    payloadBytes: nat,
    residentBytes: nat,
    transitions: nat,
    transitionBytes: nat,
    peakBytes: nat,
    historyTicks: nat,
    lifetimeTicks: nat,
    entrySize: nat,
    bindingSize: nat,
    actionSize: nat,
    changeSize: nat)

  datatype Journal = Journal(
    scope: JournalScope,
    limits: Limits,
    now: nat,
    retired: nat,
    entries: seq<Entry>,
    bindings: map<nat, Binding>,
    rejected: set<ActionKey>)

  datatype Staged = Staged(journal: Journal, changes: seq<Change>, payloadBytes: nat)

  // ---- order of keys and the sorted entry list -----------------------------------

  predicate ScopeLess(a: JournalScope, b: JournalScope) {
    a.connection < b.connection || (a.connection == b.connection && a.stream < b.stream)
  }

  predicate ActionLess(a: ActionKey, b: ActionKey) {
    if a.connection != b.connection then a.connection < b.connection
    else if a.stream != b.stream then a.stream < b.stream
    else if a.command != b.command then a.command < b.command
    else a.slot < b.slot
  }

  predicate Less(a: EventKey, b: EventKey) {
    if a.action != b.action then ActionLess(a.action, b.action)
    else if a.kind != b.kind then a.kind < b.kind
    else a.spawnOrdinal < b.spawnOrdinal
  }

  function KeyAt(entries: seq<Entry>, i: nat): EventKey
    requires i < |entries|
  {
    entries[i].identity.key
  }

  predicate Sorted(entries: seq<Entry>) {
    forall i, j :: 0 <= i < j < |entries| ==> Less(KeyAt(entries, i), KeyAt(entries, j))
  }

  /** Where `key` is, or where it would be inserted. */
  function Pos(entries: seq<Entry>, key: EventKey): (p: nat)
    ensures p <= |entries|
  {
    if entries == [] || !Less(entries[0].identity.key, key) then 0 else 1 + Pos(entries[1..], key)
  }

  predicate Present(entries: seq<Entry>, key: EventKey) {
    Pos(entries, key) < |entries| && KeyAt(entries, Pos(entries, key)) == key
  }

  // ---- capacity -------------------------------------------------------------------

  function PayloadSum(entries: seq<Entry>): nat {
    if entries == [] then 0
    else (if entries[0].payload.Some? then entries[0].payload.value.bytes else 0) + PayloadSum(entries[1..])
  }

  function RetainedBytes(j: Journal): nat {
    j.limits.records * j.limits.entrySize + j.limits.bindings * j.limits.bindingSize
    + j.limits.actionFences * j.limits.actionSize + PayloadSum(j.entries)
  }

  function CheckResident(st: Staged): Result<Staged, EventError> {
    if RetainedBytes(st.journal) > st.journal.limits.residentBytes then Err(Capacity) else Ok(st)
  }

  function ChangeBytes(c: Change): nat {
    match c
    case Create(event, _, _) => event.payload.bytes
    case Update(event) => event.payload.bytes
    case _ => 0
  }

  function Emit(st: Staged, c: Change): Result<Staged, EventError> {
    var limits := st.journal.limits;
    if |st.changes| >= limits.transitions
       || limits.transitions * limits.changeSize + st.payloadBytes + ChangeBytes(c) > limits.transitionBytes
    then Err(Capacity)
    else Ok(st.(changes := st.changes + [c], payloadBytes := st.payloadBytes + ChangeBytes(c)))
  }

  function SetEntry(st: Staged, i: nat, e: Entry): Staged
    requires i < |st.journal.entries|
  {
    st.(journal := st.journal.(entries := st.journal.entries[i := e]))
  }

  // ---- single-entry transitions -----------------------------------------------------

  /** On screen: the consumer holds a visual it was told to create and not yet to cancel. */
  predicate Shown(e: Entry) {
    e.phase == Live && e.lifetime.Some? && e.lifetime.value.delivery != OneShot
  }

  function CancelAt(st: Staged, i: nat, phase: Phase, reason: CancelReason): Result<Staged, EventError>
    requires i < |st.journal.entries|
  {
    var e := st.journal.entries[i];
    var r := if Shown(e) then Emit(st, Cancel(e.identity.key, reason)) else Ok(st);
    if r.Err? then r else Ok(SetEntry(r.value, i, e.(phase := phase, payload := None)))
  }

  function RejectAt(st: Staged, i: nat): Result<Staged, EventError>
    requires i < |st.journal.entries|
  {
    CancelAt(SetEntry(st, i, st.journal.entries[i].(decision := Rejected)), i, Refused, WasRejected)
  }

  predicate Lapses(e: Entry, now: nat) {
    && e.decision != Accepted
    && (e.phase == Live || e.phase == ReplayAbsent)
    && e.lifetime.Some? && e.lifetime.value.delivery != SimulationOwned && e.lifetime.value.expires <= now
  }

  function LapseAt(st: Staged, i: nat, now: nat): (r: Result<Staged, EventError>)
    requires i < |st.journal.entries|
    ensures r.Ok? ==> |r.value.journal.entries| == |st.journal.entries|
  {
    if Lapses(st.journal.entries[i], now) then CancelAt(st, i, Expired, HasExpired) else Ok(st)
  }

  function AdvanceFrom(st: Staged, now: nat, i: nat): Result<Staged, EventError>
    requires i <= |st.journal.entries|
    decreases |st.journal.entries| - i
  {
    if i == |st.journal.entries| then Ok(st)
    else
      var r := LapseAt(st, i, now);
      if r.Err? then r else AdvanceFrom(r.value, now, i + 1)
  }

  /** `advance_inner`: moves the clock and expires unconfirmed predictions. */
  function AdvanceInner(st: Staged, now: nat): Result<Staged, EventError> {
    if now < st.journal.now then Err(Stale)
    else AdvanceFrom(st.(journal := st.journal.(now := now)), now, 0)
  }

  function ValidAction(j: Journal, action: ActionKey): Outcome<EventError> {
    if action.connection != j.scope.connection || action.stream != j.scope.stream then Failed(WrongScope)
    else if action.command == 0 then Failed(InvalidIdentity)
    else if action.command <= j.retired then Failed(Stale)
    else Done
  }

  function ValidIdentity(j: Journal, identity: EventIdentity): Outcome<EventError> {
    var action := ValidAction(j, identity.key.action);
    if action.Failed? then action
    else if identity.key.kind == 0 || identity.schema == 0 || identity.originTick > j.now then Failed(InvalidIdentity)
    else if Present(j.entries, identity.key) && j.entries[Pos(j.entries, identity.key)].identity != identity
    then Failed(Conflict)
    else Done
  }

  function NewEntry(identity: EventIdentity): Entry {
    Entry(identity, None, None, Unseen, Unresolved, false, None)
  }

  /** `entry`: the staged state in which the identity has an entry, and where. */
  function EnsureEntry(st: Staged, identity: EventIdentity): (r: Result<(Staged, nat), EventError>)
    ensures r.Ok? ==> r.value.1 < |r.value.0.journal.entries|
  {
    var j := st.journal;
    var valid := ValidIdentity(j, identity);
    if valid.Failed? then Err(valid.error)
    else
      var p := Pos(j.entries, identity.key);
      if Present(j.entries, identity.key) then Ok((st, p))
      else if |j.entries| >= j.limits.records then Err(ResetRequired)
      else Ok((st.(journal := j.(entries := j.entries[..p] + [NewEntry(identity)] + j.entries[p..])), p))
  }

  // ---- reconcile ----------------------------------------------------------------------

  /** The checks one corrected event passes before it touches an entry. */
  function CheckEvent(
    j: Journal, range: ReplayRange, earlier: seq<EventRecord>, event: EventRecord, validate: Payload -> bool)
    : Outcome<EventError>
  {
    var valid := ValidIdentity(j, event.identity);
    if valid.Failed? then valid
    else if exists n :: 0 <= n < |earlier| && earlier[n].identity.key == event.identity.key then Failed(DuplicateKey)
    else if event.identity.originTick < range.first || event.identity.originTick > range.last
            || event.expiresAt <= event.identity.originTick
            || event.expiresAt - event.identity.originTick > j.limits.lifetimeTicks then Failed(InvalidIdentity)
    else if event.payload.bytes > j.limits.payloadBytes || !validate(event.payload) then Failed(InvalidPayload)
    else Done
  }

  /** Presents the corrected payload of an entry that is neither retired nor refused. */
  function PresentAt(st: Staged, i: nat, event: EventRecord): Result<Staged, EventError>
    requires i < |st.journal.entries|
  {
    var e := st.journal.entries[i];
    var wasLive := e.phase == Live;
    var create := !wasLive && (!e.delivered || event.delivery != OneShot);
    var changed := e.payload != Some(event.payload);
    var staged := SetEntry(st, i, e.(payload := Some(event.payload), phase := Live, delivered := true));
    var resident := CheckResident(staged);
    if resident.Err? then resident
    else if create then Emit(staged, Create(event, e.decision == Accepted, e.binding))
    else if changed && (event.delivery != OneShot || wasLive) then Emit(staged, Update(event))
    else Ok(staged)
  }

  /** Applies one corrected event to its entry. */
  function CorrectAt(st: Staged, i: nat, event: EventRecord): Result<Staged, EventError>
    requires i < |st.journal.entries|
  {
    var life := Lifetime(event.expiresAt, event.delivery);
    var e := st.journal.entries[i];
    if e.lifetime.Some? && e.lifetime.value != life then Err(Conflict)
    else
      var dated := SetEntry(st, i, e.(lifetime := Some(life)));
      if event.identity.key.action in st.journal.rejected then RejectAt(dated, i)
      else if e.phase == Expired || e.phase == Refused
        || (e.phase == ReplayAbsent && e.decision == Accepted) then Ok(dated)
      else if event.delivery != SimulationOwned && event.expiresAt <= st.journal.now && e.phase != Live then
        CancelAt(dated, i, Expired, HasExpired)
      else PresentAt(dated, i, event)
  }

  function CorrectOne(
    st: Staged, range: ReplayRange, earlier: seq<EventRecord>, event: EventRecord, validate: Payload -> bool)
    : Result<Staged, EventError>
  {
    var check := CheckEvent(st.journal, range, earlier, event, validate);
    if check.Failed? then Err(check.error)
    else
      var entry := EnsureEntry(st, event.identity);
      if entry.Err? then Err(entry.error) else CorrectAt(entry.value.0, entry.value.1, event)
  }

  function CorrectFrom(st: Staged, range: ReplayRange, corrected: seq<EventRecord>, n: nat, validate: Payload -> bool)
    : Result<Staged, EventError>
    requires n <= |corrected|
    decreases |corrected| - n
  {
    if n == |corrected| then Ok(st)
    else
      var r := CorrectOne(st, range, corrected[..n], corrected[n], validate);
      if r.Err? then r else CorrectFrom(r.value, range, corrected, n + 1, validate)
  }

  predicate Corrected(corrected: seq<EventRecord>, key: EventKey) {
    exists n :: 0 <= n < |corrected| && corrected[n].identity.key == key
  }

  predicate Vanishes(e: Entry, range: ReplayRange, corrected: seq<EventRecord>) {
    && e.phase == Live
    && e.decision != Accepted
    && range.first <= e.identity.originTick <= range.last
    && !Corrected(corrected, e.identity.key)
  }

  function VanishAt(
    st: Staged, i: nat, range: ReplayRange, corrected: seq<EventRecord>): (r: Result<Staged, EventError>)
    requires i < |st.journal.entries|
    ensures r.Ok? ==> |r.value.journal.entries| == |st.journal.entries|
  {
    if Vanishes(st.journal.entries[i], range, corrected) then CancelAt(st, i, ReplayAbsent, AbsentOnReplay) else Ok(st)
  }

  function VanishFrom(st: Staged, range: ReplayRange, corrected: seq<EventRecord>, i: nat): Result<Staged, EventError>
    requires i <= |st.journal.entries|
    decreases |st.journal.entries| - i
  {
    if i == |st.journal.entries| then Ok(st)
    else
      var r := VanishAt(st, i, range, corrected);
      if r.Err? then r else VanishFrom(r.value, range, corrected, i + 1)
  }

  function ReconcileStaged(
    st: Staged, now: nat, range: ReplayRange, corrected: seq<EventRecord>, validate: Payload -> bool)
    : Result<Staged, EventError>
  {
    var advanced := AdvanceInner(st, now);
    if advanced.Err? then advanced
    else if range.first > range.last || range.last > now then Err(InvalidIdentity)
    else if now - range.first >= st.journal.limits.historyTicks then Err(OutsideHistory)
    else if |corrected| > st.journal.limits.records then Err(Capacity)
    else
      var applied := CorrectFrom(advanced.value, range, corrected, 0, validate);
      if applied.Err? then applied else VanishFrom(applied.value, range, corrected, 0)
  }

  // ---- resolve, reject, expire ---------------------------------------------------------

  /** Records the binding of an entry under its entity's index. */
  function RecordBinding(st: Staged, i: nat, entity: EntityId): Result<Staged, EventError>
    requires i < |st.journal.entries|
  {
    var j := st.journal;
    var e := j.entries[i];
    var key := e.identity.key;
    var bound := st.(journal := j.(
      bindings := j.bindings[entity.index := Binding(entity, key)],
      entries := j.entries[i := e.(binding := Some(entity))]));
    var retired := e.phase == ReplayAbsent || e.phase == Expired || e.phase == Refused;
    Emit(bound, if retired then BindRetired(key, entity) else Bind(key, entity))
  }

  function BindAt(st: Staged, i: nat, entity: EntityId): Result<Staged, EventError>
    requires i < |st.journal.entries|
  {
    var j := st.journal;
    var e := j.entries[i];
    var key := e.identity.key;
    if entity.generation == 0 then Err(InvalidIdentity)
    else if e.binding.Some? then (if e.binding.value == entity then Ok(st) else Err(Conflict))
    else if entity.index in j.bindings then
      var fence := j.bindings[entity.index];
      if entity.generation < fence.entity.generation then Err(Stale)
      else if entity.generation == fence.entity.generation && fence.key != key then Err(Conflict)
      else if fence.key != key && Present(j.entries, fence.key) then
        var superseded := CancelAt(st, Pos(j.entries, fence.key), Expired, HasExpired);
        if superseded.Err? then superseded else RecordBinding(superseded.value, i, entity)
      else RecordBinding(st, i, entity)
    else if |j.bindings| >= j.limits.bindings then Err(ResetRequired)
    else RecordBinding(st, i, entity)
  }

  function AcceptAt(st: Staged, i: nat, binding: Option<EntityId>): Result<Staged, EventError>
    requires i < |st.journal.entries|
  {
    var e := st.journal.entries[i];
    if e.decision == Rejected || e.identity.key.action in st.journal.rejected then Err(Conflict)
    else
      var confirmed := if e.decision == Accepted then Ok(st)
                       else Emit(SetEntry(st, i, e.(decision := Accepted)), Confirm(e.identity.key));
      if confirmed.Err? || binding.None? then confirmed else BindAt(confirmed.value, i, binding.value)
  }

  function DecideAt(st: Staged, i: nat, verdict: Verdict): Result<Staged, EventError>
    requires i < |st.journal.entries|
  {
    match verdict
    case Reject => if st.journal.entries[i].decision == Accepted then Err(Conflict) else RejectAt(st, i)
    case Accept(binding) => AcceptAt(st, i, binding)
  }

  function ResolveStaged(st: Staged, now: nat, identity: EventIdentity, verdict: Verdict): Result<Staged, EventError> {
    var advanced := AdvanceInner(st, now);
    if advanced.Err? then advanced
    else
      var entry := EnsureEntry(advanced.value, identity);
      if entry.Err? then Err(entry.error) else DecideAt(entry.value.0, entry.value.1, verdict)
  }

  function RejectActionAt(st: Staged, i: nat, action: ActionKey): (r: Result<Staged, EventError>)
    requires i < |st.journal.entries|
    ensures r.Ok? ==> |r.value.journal.entries| == |st.journal.entries|
  {
    if KeyAt(st.journal.entries, i).action == action then RejectAt(st, i) else Ok(st)
  }

  function RejectFrom(st: Staged, action: ActionKey, i: nat): Result<Staged, EventError>
    requires i <= |st.journal.entries|
    decreases |st.journal.entries| - i
  {
    if i == |st.journal.entries| then Ok(st)
    else
      var r := RejectActionAt(st, i, action);
      if r.Err? then r else RejectFrom(r.value, action, i + 1)
  }

  predicate ActionAccepted(entries: seq<Entry>, action: ActionKey) {
    exists i :: 0 <= i < |entries| && entries[i].identity.key.action == action && entries[i].decision == Accepted
  }

  function RejectActionStaged(st: Staged, now: nat, action: ActionKey): Result<Staged, EventError> {
    var advanced := AdvanceInner(st, now);
    if advanced.Err? then advanced
    else
      var j := advanced.value.journal;
      var valid := ValidAction(j, action);
      if valid.Failed? then Err(valid.error)
      else if ActionAccepted(j.entries, action) then Err(Conflict)
      else if action !in j.rejected && |j.rejected| >= j.limits.actionFences then Err(ResetRequired)
      else RejectFrom(advanced.value.(journal := j.(rejected := j.rejected + {action})), action, 0)
  }

  function ExpireStaged(st: Staged, now: nat, identity: EventIdentity): Result<Staged, EventError> {
    var advanced := AdvanceInner(st, now);
    if advanced.Err? then advanced
    else
      var entry := EnsureEntry(advanced.value, identity);
      if entry.Err? then Err(entry.error)
      else
        var (found, i) := entry.value;
        if found.journal.entries[i].phase == Refused then Ok(found) else CancelAt(found, i, Expired, HasExpired)
  }

  // ---- whole operations ------------------------------------------------------------------

  datatype Op =
    | Advance(now: nat)
    | Reconcile(now: nat, range: ReplayRange, corrected: seq<EventRecord>, validate: Payload -> bool)
    | Resolve(now: nat, identity: EventIdentity, verdict: Verdict)
    | RejectAction(now: nat, action: ActionKey)
    | Expire(now: nat, identity: EventIdentity)
    | RetireThrough(sequence: nat)
    | ResetScope(scope: JournalScope)

  function Stage(st: Staged, op: Op): Result<Staged, EventError>
    requires !op.RetireThrough? && !op.ResetScope?
  {
    match op
    case Advance(now) => AdvanceInner(st, now)
    case Reconcile(now, range, corrected, validate) => ReconcileStaged(st, now, range, corrected, validate)
    case Resolve(now, identity, verdict) => ResolveStaged(st, now, identity, verdict)
    case RejectAction(now, action) => RejectActionStaged(st, now, action)
    case Expire(now, identity) => ExpireStaged(st, now, identity)
  }

  /** `transaction`: the staged journal and its changes are taken together or not at all. */
  function Transaction(j: Journal, op: Op): Result<Staged, EventError>
    requires !op.RetireThrough? && !op.ResetScope?
  {
    var before := CheckResident(Staged(j, [], 0));
    if before.Err? then before
    else
      var staged := Stage(before.value, op);
      if staged.Err? then staged else CheckResident(staged.value)
  }

  function Retained(entries: seq<Entry>, sequence: nat): seq<Entry> {
    if entries == [] then []
    else if entries[0].identity.key.action.command > sequence then [entries[0]] + Retained(entries[1..], sequence)
    else Retained(entries[1..], sequence)
  }

  predicate LiveThrough(entries: seq<Entry>, sequence: nat) {
    exists i :: 0 <= i < |entries| && entries[i].identity.key.action.command <= sequence && entries[i].phase == Live
  }

  function Retire(j: Journal, sequence: nat): Result<Staged, EventError> {
    if sequence < j.retired then Err(Stale)
    else if LiveThrough(j.entries, sequence) then Err(LiveHistory)
    else Ok(Staged(
      j.(entries := Retained(j.entries, sequence),
         rejected := (set a | a in j.rejected && a.command > sequence),
         retired := sequence), [], 0))
  }

  function EmptyJournal(scope: JournalScope, limits: Limits): Journal {
    Journal(scope, limits, 0, 0, [], map[], {})
  }

  predicate ValidLimits(limits: Limits) {
    && 0 !in [limits.records, limits.bindings, limits.actionFences, limits.payloadBytes, limits.transitions]
    && limits.historyTicks > 0 && limits.lifetimeTicks > 0
    && limits.records * limits.entrySize + limits.bindings * limits.bindingSize
      + limits.actionFences * limits.actionSize
       + limits.payloadBytes <= limits.residentBytes
    && limits.transitions * limits.changeSize + limits.payloadBytes <= limits.transitionBytes
    && 2 * limits.residentBytes + limits.transitionBytes + limits.payloadBytes <= limits.peakBytes
  }

  function NewJournal(scope: JournalScope, limits: Limits): Result<Journal, EventError> {
    if scope.connection == 0 || scope.stream == 0 then Err(InvalidIdentity)
    else if !ValidLimits(limits) then Err(InvalidConfiguration)
    else Ok(EmptyJournal(scope, limits))
  }

  function Restart(j: Journal, scope: JournalScope): Result<Staged, EventError> {
    if !ScopeLess(j.scope, scope) then Err(Stale)
    else if scope.connection == 0 || scope.stream == 0 then Err(InvalidIdentity)
    else
      var r := Emit(Staged(j, [], 0), Reset(j.scope, scope));
      if r.Err? then r else Ok(r.value.(journal := EmptyJournal(scope, j.limits)))
  }

  function Execute(j: Journal, op: Op): Result<Staged, EventError> {
    match op
    case RetireThrough(sequence) => Retire(j, sequence)
    case ResetScope(scope) => Restart(j, scope)
    case _ => Transaction(j, op)
  }
}
