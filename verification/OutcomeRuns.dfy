/** The ledger's operations on its records, and what every run of them keeps. */
module OutcomeRuns {
  import opened NetTypes
  import opened TickRates
  import opened OutcomeModel

  // ---- reserving ---------------------------------------------------------------------------

  predicate ValidKey(key: ActionKey) {
    key.connection != 0 && key.stream != 0 && key.command != 0 && key.slot < 8
  }

  predicate ValidKeys(keys: seq<ActionKey>) {
    && 0 < |keys| <= 8
    && (forall i, j :: 0 <= i < j < |keys| ==> keys[i] != keys[j])
    && (forall i :: 0 <= i < |keys| ==> ValidKey(keys[i]))
  }

  predicate OwnedElsewhere(records: Records, owner: nat, key: ActionKey) {
    key in records && records[key].owner != owner
  }

  function NewKeys(records: Records, keys: seq<ActionKey>): seq<ActionKey> {
    if keys == [] then []
    else NewKeys(records, keys[..|keys| - 1]) + if keys[|keys| - 1] in records then [] else [keys[|keys| - 1]]
  }

  /** The three budgets: all records, one owner's records, and bytes. */
  predicate WithinBudgets(limits: Limits, total: nat, owned: nat) {
    total <= limits.records && owned <= limits.recordsPerOwner && total * Charge(limits) <= limits.retainedBytes
  }

  ghost function Reserve(
    records: Records, limits: Limits, owner: nat, keys: seq<ActionKey>): Result<seq<ActionKey>, OutcomeError>
  {
    var added := NewKeys(records, keys);
    if owner == 0 || !ValidKeys(keys) then Err(Invalid)
    else if exists i :: 0 <= i < |keys| && OwnedElsewhere(records, owner, keys[i]) then Err(Conflict)
    else if !WithinBudgets(limits, |records| + |added|, |OwnedBy(records, owner)| + |added|) then Err(Capacity)
    else Ok(added)
  }

  function KeySet(keys: seq<ActionKey>): set<ActionKey> {
    set i | 0 <= i < |keys| :: keys[i]
  }

  ghost function Reserved(records: Records, limits: Limits, owner: nat, keys: seq<ActionKey>): Records {
    match Reserve(records, limits, owner, keys)
    case Ok(added) => WithPending(records, owner, KeySet(added))
    case Err(_) => records
  }

  function Product(a: nat, b: nat): nat {
    a * b
  }

  function Quotient(a: nat, b: nat): nat
    requires b > 0
  {
    a / b
  }

  /** How many more results fit, given how many there are and how many the owner has. */
  function Room(limits: Limits, total: nat, owned: nat): nat {
    var free, own := SaturatingSub(limits.records, total), SaturatingSub(limits.recordsPerOwner, owned);
    var bytes := SaturatingSub(limits.retainedBytes, Product(total, Charge(limits)));
    Min(Min(free, own), Quotient(bytes, Charge(limits)))
  }

  ghost function Available(records: Records, limits: Limits, owner: nat): nat {
    Room(limits, |records|, |OwnedBy(records, owner)|)
  }

  /** A reservation fits the budgets exactly when it asks for no more than is available. */
  lemma FitsIffAvailable(records: Records, limits: Limits, owner: nat, n: nat)
    requires ValidLimits(limits) && WithinBudgets(limits, |records|, |OwnedBy(records, owner)|)
    ensures WithinBudgets(limits, |records| + n, |OwnedBy(records, owner)| + n) <==>
      n <= Available(records, limits, owner)
  {
    var charge := Charge(limits);
    assert (|records| + n) * charge == |records| * charge + n * charge;
    FloorAtLeast(limits.retainedBytes - |records| * charge, charge, n);
  }

  predicate DistinctKeys(keys: seq<ActionKey>) {
    forall i, j :: 0 <= i < j < |keys| ==> keys[i] != keys[j]
  }

  lemma {:induction false} NewKeysExactly(records: Records, keys: seq<ActionKey>)
    ensures forall key :: key in NewKeys(records, keys) <==> key in keys && key !in records
    ensures DistinctKeys(keys) ==> DistinctKeys(NewKeys(records, keys))
  {
    if keys != [] {
      var most, last := keys[..|keys| - 1], keys[|keys| - 1];
      NewKeysExactly(records, most);
      assert keys == most + [last];
      if DistinctKeys(keys) {
        var added := NewKeys(records, most);
        forall i | 0 <= i < |added| ensures added[i] != last {
          assert added[i] in most;
        }
      }
    }
  }

  lemma KeySetMembers(keys: seq<ActionKey>)
    ensures forall key :: key in KeySet(keys) <==> key in keys
  {
  }

  lemma {:induction false} KeySetSize(keys: seq<ActionKey>)
    requires DistinctKeys(keys)
    ensures |KeySet(keys)| == |keys|
  {
    if keys == [] {
      assert KeySet(keys) == {};
    } else {
      var most, last := keys[..|keys| - 1], keys[|keys| - 1];
      KeySetSize(most);
      KeySetMembers(most);
      KeySetMembers(keys);
      assert keys == most + [last];
      assert KeySet(keys) == KeySet(most) + {last};
    }
  }

  /** The keys a successful reservation adds: those asked for and not yet known. */
  lemma NewKeySet(records: Records, keys: seq<ActionKey>)
    requires ValidKeys(keys)
    ensures var added := KeySet(NewKeys(records, keys));
      && added !! records.Keys && |added| == |NewKeys(records, keys)|
      && forall key :: key in added <==> key in keys && key !in records
  {
    NewKeysExactly(records, keys);
    assert DistinctKeys(keys);
    KeySetSize(NewKeys(records, keys));
    KeySetMembers(NewKeys(records, keys));
  }

  // ---- the other operations ---------------------------------------------------------------------

  function Cancelled(records: Records, keys: seq<ActionKey>): Records {
    records - set i | 0 <= i < |keys| && keys[i] in records && records[keys[i]].terminal.None? :: keys[i]
  }

  function Finish(records: Records, limits: Limits, next: nat, owner: nat, key: ActionKey, at: nat, payload: Payload)
    : Result<nat, OutcomeError>
  {
    if payload.bytes > limits.maximumPayloadBytes then Err(Capacity)
    else if key !in records || records[key].owner != owner then Err(Unknown)
    else if records[key].terminal.Some? then
      var before := records[key].terminal.value;
      if before.at == at && before.payload == payload then Ok(before.sequence) else Err(Conflict)
    else if next >= U64_MAX then Err(SequenceExhausted)
    else Ok(next)
  }

  /** The call records a result, rather than repeating or refusing one. */
  predicate RecordsResult(
    records: Records, limits: Limits, next: nat, owner: nat, key: ActionKey, at: nat, payload: Payload)
  {
    key in records && records[key].terminal.None? && Finish(records, limits, next, owner, key, at, payload).Ok?
  }

  function Finished(
    records: Records, limits: Limits, next: nat, owner: nat, key: ActionKey, at: nat, payload: Payload): Records
  {
    if RecordsResult(records, limits, next, owner, key, at, payload)
    then records[key := records[key].(terminal := Some(Terminal(next, key, at, payload)))]
    else records
  }

  predicate Reportable(records: Records, owner: nat, key: ActionKey) {
    key in records && records[key].owner == owner && records[key].terminal.Some?
  }

  predicate AllReportable(records: Records, owner: nat, keys: seq<ActionKey>) {
    forall i :: 0 <= i < |keys| ==> Reportable(records, owner, keys[i])
  }

  function Marked(records: Records, keys: seq<ActionKey>): Records {
    map key | key in records :: if key in keys then records[key].(reported := true) else records[key]
  }

  function Reported(records: Records, owner: nat, keys: seq<ActionKey>): Records {
    if AllReportable(records, owner, keys) then Marked(records, keys) else records
  }

  function Closed(records: Records, owner: nat, connection: nat): Records {
    map key | key in records ::
      if records[key].owner == owner && key.connection == connection
      then records[key].(deliveryClosed := true) else records[key]
  }

  /** Settled, and old enough to be forgotten. */
  predicate Expires(r: Record, now: nat, limits: Limits) {
    && (r.reported || r.deliveryClosed)
    && r.terminal.Some? && SaturatingSub(now, r.terminal.value.at) >= limits.retentionTicks
  }

  function Expired(records: Records, now: nat, limits: Limits): Records {
    records - set key | key in records && Expires(records[key], now, limits)
  }

  // ---- runs ------------------------------------------------------------------------------------------

  datatype Event =
    | Reserving(owner: nat, keys: seq<ActionKey>)
    | Cancelling(keys: seq<ActionKey>)
    | Finishing(owner: nat, key: ActionKey, at: nat, payload: Payload)
    | Reporting(owner: nat, keys: seq<ActionKey>)
    | Closing(owner: nat, connection: nat)
    | Expiring(now: nat)
    | Elsewhere(skipped: nat)

  /** The records, the shared counter, and every result recorded, in the order of recording. */
  datatype State = State(records: Records, next: nat, finished: seq<Slot>)

  ghost function Next(st: State, limits: Limits, event: Event): State {
    match event
    case Reserving(owner, keys) => st.(records := Reserved(st.records, limits, owner, keys))
    case Cancelling(keys) => st.(records := Cancelled(st.records, keys))
    case Finishing(owner, key, at, payload) =>
      if RecordsResult(st.records, limits, st.next, owner, key, at, payload)
      then
        State(Finished(st.records, limits, st.next, owner, key, at, payload), st.next + 1,
              st.finished + [Slot(st.next, key)])
      else st
    case Reporting(owner, keys) => st.(records := Reported(st.records, owner, keys))
    case Closing(owner, connection) => st.(records := Closed(st.records, owner, connection))
    case Expiring(now) => st.(records := Expired(st.records, now, limits))
    case Elsewhere(skipped) => st.(next := st.next + skipped)
  }

  /** Results are numbered in the order they were recorded. */
  ghost predicate InFinishOrder(finished: seq<Slot>, next: nat) {
    && (forall i, j :: 0 <= i < j < |finished| ==> finished[i].sequence < finished[j].sequence)
    && (forall i :: 0 <= i < |finished| ==> finished[i].sequence < next)
  }

  /** A result still on record was recorded under its own key and number. */
  predicate Recorded(st: State, key: ActionKey)
    requires key in st.records && st.records[key].terminal.Some?
  {
    var terminal := st.records[key].terminal.value;
    terminal.key == key && Slot(terminal.sequence, key) in st.finished
  }

  ghost predicate BudgetsOk(records: Records, limits: Limits) {
    forall owner :: WithinBudgets(limits, |records|, |OwnedBy(records, owner)|)
  }

  /** Only results are reported. */
  ghost predicate ReportedOk(records: Records) {
    forall key :: key in records && records[key].reported ==> records[key].terminal.Some?
  }

  ghost predicate Inv(st: State, limits: Limits) {
    && ReportedOk(st.records)
    && InFinishOrder(st.finished, st.next)
    && (forall key :: key in st.records && st.records[key].terminal.Some? ==> Recorded(st, key))
    && BudgetsOk(st.records, limits)
  }

  /** What one call may do to one record: settle it further, or drop it once nobody waits for it. */
  predicate Evolves(records: Records, after: Records, key: ActionKey) {
    key in records ==>
      if key in after then
        && after[key].owner == records[key].owner
        && (records[key].terminal.Some? ==> after[key].terminal == records[key].terminal)
        && (records[key].reported ==> after[key].reported)
        && (records[key].deliveryClosed ==> after[key].deliveryClosed)
      else records[key].terminal.None? || records[key].reported || records[key].deliveryClosed
  }

  lemma NextEvolves(st: State, limits: Limits, event: Event, key: ActionKey)
    ensures Evolves(st.records, Next(st, limits, event).records, key)
  {
    match event
    case Reserving(owner, keys) =>
      if Reserve(st.records, limits, owner, keys).Ok? {
        NewKeySet(st.records, keys);
      }
    case _ =>
  }

  lemma FewerWithin(records: Records, after: Records, limits: Limits)
    requires BudgetsOk(records, limits) && after.Keys <= records.Keys
    requires forall key :: key in after ==> after[key].owner == records[key].owner
    ensures BudgetsOk(after, limits)
  {
    Sums.SubsetSize(after.Keys, records.Keys);
    assert |after| == |after.Keys| && |records| == |records.Keys|;
    forall owner ensures WithinBudgets(limits, |after|, |OwnedBy(after, owner)|) {
      Sums.SubsetSize(OwnedBy(after, owner), OwnedBy(records, owner));
      assert WithinBudgets(limits, |records|, |OwnedBy(records, owner)|);
      assert |after| * Charge(limits) <= |records| * Charge(limits);
    }
  }

  lemma AddedWithin(records: Records, limits: Limits, owner: nat, added: set<ActionKey>)
    requires BudgetsOk(records, limits) && added !! records.Keys
    requires WithinBudgets(limits, |records| + |added|, |OwnedBy(records, owner)| + |added|)
    ensures BudgetsOk(WithPending(records, owner, added), limits)
  {
    var after := WithPending(records, owner, added);
    AddedSize(records, owner, added);
    forall other ensures WithinBudgets(limits, |after|, |OwnedBy(after, other)|) {
      assert WithinBudgets(limits, |records|, |OwnedBy(records, other)|);
      AddedOwned(records, owner, added, other);
    }
  }

  lemma AddedSize(records: Records, owner: nat, added: set<ActionKey>)
    requires added !! records.Keys
    ensures |WithPending(records, owner, added)| == |records| + |added|
  {
    var after := WithPending(records, owner, added);
    assert after.Keys == records.Keys + added;
    assert |after| == |after.Keys| && |records| == |records.Keys|;
  }

  lemma AddedOwned(records: Records, owner: nat, added: set<ActionKey>, other: nat)
    requires added !! records.Keys
    ensures |OwnedBy(WithPending(records, owner, added), other)| ==
      |OwnedBy(records, other)| + if other == owner then |added| else 0
  {
    var after := WithPending(records, owner, added);
    if other == owner {
      assert OwnedBy(after, owner) == OwnedBy(records, owner) + added;
      assert OwnedBy(records, owner) !! added;
    } else {
      assert OwnedBy(after, other) == OwnedBy(records, other);
    }
  }

  lemma ReserveWithin(records: Records, limits: Limits, owner: nat, keys: seq<ActionKey>)
    requires BudgetsOk(records, limits) && Reserve(records, limits, owner, keys).Ok?
    ensures BudgetsOk(Reserved(records, limits, owner, keys), limits)
  {
    NewKeySet(records, keys);
    AddedWithin(records, limits, owner, KeySet(NewKeys(records, keys)));
  }

  lemma NextWithin(st: State, limits: Limits, event: Event)
    requires BudgetsOk(st.records, limits)
    ensures BudgetsOk(Next(st, limits, event).records, limits)
  {
    if event.Reserving? {
      if Reserve(st.records, limits, event.owner, event.keys).Ok? {
        ReserveWithin(st.records, limits, event.owner, event.keys);
      }
    } else {
      FewerWithin(st.records, Next(st, limits, event).records, limits);
    }
  }

  /** The key carries a result, and carried it before. */
  predicate SameResult(records: Records, after: Records, key: ActionKey) {
    key in after && after[key].terminal.Some? ==> key in records && records[key].terminal == after[key].terminal
  }

  lemma ReservedResults(records: Records, limits: Limits, owner: nat, keys: seq<ActionKey>, key: ActionKey)
    ensures SameResult(records, Reserved(records, limits, owner, keys), key)
  {
    if Reserve(records, limits, owner, keys).Ok? {
      NewKeySet(records, keys);
    }
  }

  lemma OtherResults(st: State, limits: Limits, event: Event, key: ActionKey)
    requires !event.Finishing?
    ensures SameResult(st.records, Next(st, limits, event).records, key)
      && Next(st, limits, event).finished == st.finished
  {
    match event
    case Reserving(owner, keys) => ReservedResults(st.records, limits, owner, keys, key);
    case Cancelling(keys) =>
    case Reporting(owner, keys) =>
    case Closing(owner, connection) =>
    case Expiring(now) =>
    case Elsewhere(skipped) =>
  }

  lemma FinishRecorded(st: State, limits: Limits, event: Event, key: ActionKey)
    requires forall k :: k in st.records && st.records[k].terminal.Some? ==> Recorded(st, k)
    requires event.Finishing?
    ensures var after := Next(st, limits, event);
      key in after.records && after.records[key].terminal.Some? ==> Recorded(after, key)
  {
    var after := Next(st, limits, event);
    if key in after.records && after.records[key].terminal.Some? && key != event.key {
      assert Recorded(st, key);
    }
  }

  lemma NextRecorded(st: State, limits: Limits, event: Event, key: ActionKey)
    requires forall k :: k in st.records && st.records[k].terminal.Some? ==> Recorded(st, k)
    ensures var after := Next(st, limits, event);
      key in after.records && after.records[key].terminal.Some? ==> Recorded(after, key)
  {
    if event.Finishing? {
      FinishRecorded(st, limits, event, key);
    } else {
      OtherResults(st, limits, event, key);
    }
  }

  lemma ReservedReported(records: Records, limits: Limits, owner: nat, keys: seq<ActionKey>)
    requires ReportedOk(records)
    ensures ReportedOk(Reserved(records, limits, owner, keys))
  {
  }

  lemma NextReported(st: State, limits: Limits, event: Event)
    requires ReportedOk(st.records)
    ensures ReportedOk(Next(st, limits, event).records)
  {
    match event
    case Reserving(owner, keys) => ReservedReported(st.records, limits, owner, keys);
    case Cancelling(keys) =>
    case Finishing(owner, key, at, payload) =>
    case Reporting(owner, keys) =>
    case Closing(owner, connection) =>
    case Expiring(now) =>
    case Elsewhere(skipped) =>
  }

  lemma NextKeeps(st: State, limits: Limits, event: Event)
    requires Inv(st, limits)
    ensures Inv(Next(st, limits, event), limits)
  {
    var after := Next(st, limits, event);
    NextWithin(st, limits, event);
    NextReported(st, limits, event);
    forall key | key in after.records && after.records[key].terminal.Some? ensures Recorded(after, key) {
      NextRecorded(st, limits, event, key);
    }
  }

  /** The ledger after any sequence of calls. */
  ghost function Run(st: State, limits: Limits, events: seq<Event>): (after: State)
    requires Inv(st, limits)
    ensures Inv(after, limits)
  {
    if events == [] then st
    else
      var before := Run(st, limits, events[..|events| - 1]);
      NextKeeps(before, limits, events[|events| - 1]);
      Next(before, limits, events[|events| - 1])
  }

  /** While a result is retained it never changes, and stays with its owner. */
  lemma {:induction false} TerminalIsFinal(st: State, limits: Limits, events: seq<Event>, key: ActionKey)
    requires Inv(st, limits) && key in st.records && st.records[key].terminal.Some?
    requires forall n :: 0 <= n <= |events| ==> key in Run(st, limits, events[..n]).records
    ensures events[..|events|] == events
    ensures Run(st, limits, events).records[key].terminal == st.records[key].terminal
    ensures Run(st, limits, events).records[key].owner == st.records[key].owner
  {
    assert events[..|events|] == events;
    if events != [] {
      var most := events[..|events| - 1];
      forall n | 0 <= n <= |most| ensures key in Run(st, limits, most[..n]).records {
        assert most[..n] == events[..n];
      }
      TerminalIsFinal(st, limits, most, key);
      NextEvolves(Run(st, limits, most), limits, events[|events| - 1], key);
    }
  }

  /** The record has been reported, or its lane closed. */
  predicate Released(records: Records, key: ActionKey) {
    key in records && (records[key].reported || records[key].deliveryClosed)
  }

  /** Over any run, an undelivered result stays as it is until it has been reported or its lane closed. */
  lemma {:induction false} AwaitedIsKept(st: State, limits: Limits, events: seq<Event>, key: ActionKey)
    requires Inv(st, limits) && key in st.records && Undelivered(st.records[key])
    requires forall n :: 0 <= n < |events| ==> !Released(Run(st, limits, events[..n]).records, key)
    ensures var after := Run(st, limits, events).records;
      key in after && after[key].terminal == st.records[key].terminal
        && (Undelivered(after[key]) || Released(after, key))
  {
    if events != [] {
      var most := events[..|events| - 1];
      forall n | 0 <= n < |most| ensures !Released(Run(st, limits, most[..n]).records, key) {
        assert most[..n] == events[..n];
      }
      AwaitedIsKept(st, limits, most, key);
      NextEvolves(Run(st, limits, most), limits, events[|events| - 1], key);
    }
  }

  /** A reservation goes only by being finished or by its own cancellation, never to make room. */
  lemma PendingIsKept(st: State, limits: Limits, event: Event, key: ActionKey)
    requires key in st.records && st.records[key].terminal.None?
    ensures key in Next(st, limits, event).records <==> !(event.Cancelling? && key in event.keys)
    ensures key in Next(st, limits, event).records && Next(st, limits, event).records[key].terminal.Some? ==>
      event.Finishing? && event.key == key
  {
    match event
    case Reserving(owner, keys) => NextEvolves(st, limits, event, key);
    case Cancelling(keys) =>
      if key in keys {
        var i :| 0 <= i < |keys| && keys[i] == key;
        assert keys[i] in st.records;
      }
    case _ =>
  }
}
