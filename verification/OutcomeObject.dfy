/** The outcome ledger as the program runs it, with a counter other ledgers may share. */
module OutcomeObject {
  import opened NetTypes
  import opened OutcomeModel
  import opened OutcomeRuns

  class Sequencer {
    var next: nat

    constructor ()
      ensures next == 1
    {
      next := 1;
    }
  }

  /** Whether the keys are well formed and pairwise different. */
  method CheckKeys(keys: seq<ActionKey>) returns (ok: bool)
    requires 0 < |keys| <= 8
    ensures ok == ValidKeys(keys)
  {
    var seen: set<ActionKey> := {};
    for i := 0 to |keys|
      invariant forall k :: k in seen <==> exists j :: 0 <= j < i && keys[j] == k
      invariant forall a, b :: 0 <= a < b < i ==> keys[a] != keys[b]
      invariant forall j :: 0 <= j < i ==> ValidKey(keys[j])
    {
      if keys[i] in seen || !ValidKey(keys[i]) {
        return false;
      }
      seen := seen + {keys[i]};
    }
    ok := true;
  }

  method AnyElsewhere(records: Records, owner: nat, keys: seq<ActionKey>) returns (found: bool)
    ensures found == exists i :: 0 <= i < |keys| && OwnedElsewhere(records, owner, keys[i])
  {
    for i := 0 to |keys|
      invariant forall j :: 0 <= j < i ==> !OwnedElsewhere(records, owner, keys[j])
    {
      if OwnedElsewhere(records, owner, keys[i]) {
        return true;
      }
    }
    found := false;
  }

  method CollectNew(records: Records, keys: seq<ActionKey>) returns (added: seq<ActionKey>)
    ensures added == NewKeys(records, keys)
  {
    added := [];
    for i := 0 to |keys|
      invariant added == NewKeys(records, keys[..i])
    {
      assert keys[..i + 1][..i] == keys[..i];
      if keys[i] !in records {
        added := added + [keys[i]];
      }
    }
    assert keys[..|keys|] == keys;
  }

  method AllKnown(records: Records, owner: nat, keys: seq<ActionKey>) returns (ok: bool)
    ensures ok == AllReportable(records, owner, keys)
  {
    for i := 0 to |keys|
      invariant forall j :: 0 <= j < i ==> Reportable(records, owner, keys[j])
    {
      if !Reportable(records, owner, keys[i]) {
        return false;
      }
    }
    ok := true;
  }

  method InsertPending(records: Records, owner: nat, added: seq<ActionKey>) returns (after: Records)
    ensures after == WithPending(records, owner, KeySet(added))
  {
    after := records;
    assert KeySet([]) == {};
    for i := 0 to |added|
      invariant after == WithPending(records, owner, KeySet(added[..i]))
    {
      PendingMore(records, owner, added, i);
      after := after[added[i] := Record(owner, None, false, false)];
    }
    assert added[..|added|] == added;
  }

  lemma PendingMore(records: Records, owner: nat, added: seq<ActionKey>, i: nat)
    requires i < |added|
    ensures WithPending(records, owner, KeySet(added[..i + 1])) ==
      WithPending(records, owner, KeySet(added[..i]))[added[i] := Record(owner, None, false, false)]
  {
    assert added[..i + 1] == added[..i] + [added[i]];
    KeySetMembers(added[..i]);
    KeySetMembers(added[..i + 1]);
    assert KeySet(added[..i + 1]) == KeySet(added[..i]) + {added[i]};
  }

  method CloseAll(records: Records, owner: nat, connection: nat) returns (after: Records)
    ensures after == Closed(records, owner, connection)
  {
    after := records;
    var rest := records.Keys;
    while rest != {}
      invariant rest <= records.Keys && after.Keys == records.Keys
      invariant forall key :: key in records ==>
        after[key] == if key in rest then records[key] else Closed(records, owner, connection)[key]
      decreases rest
    {
      var key :| key in rest;
      if after[key].owner == owner && key.connection == connection {
        after := after[key := after[key].(deliveryClosed := true)];
      }
      rest := rest - {key};
    }
  }

  lemma MarkedMore(records: Records, keys: seq<ActionKey>, i: nat)
    requires i < |keys| && keys[i] in records
    ensures Marked(records, keys[..i + 1]) ==
      Marked(records, keys[..i])[keys[i] := Marked(records, keys[..i])[keys[i]].(reported := true)]
  {
    assert keys[..i + 1] == keys[..i] + [keys[i]];
  }

  /** The result behind an index entry. */
  function ResultOf(records: Records, slot: Slot): Terminal
    requires slot.key in records && records[slot.key].terminal.Some?
  {
    records[slot.key].terminal.value
  }

  ghost predicate AllQueued(records: Records, lane: Lane, slots: set<Slot>) {
    forall slot :: slot in slots ==> Queued(records, lane, slot)
  }

  ghost predicate ComesFrom(records: Records, lane: Lane, slots: set<Slot>, terminal: Terminal)
    requires AllQueued(records, lane, slots)
  {
    exists slot :: slot in slots && terminal == ResultOf(records, slot)
  }

  /** Exactly the results of the slots, in ascending order. */
  ghost predicate Lists(records: Records, lane: Lane, slots: set<Slot>, results: seq<Terminal>)
    requires AllQueued(records, lane, slots)
  {
    && (forall i, j :: 0 <= i < j < |results| ==> results[i].sequence < results[j].sequence)
    && (forall i :: 0 <= i < |results| ==> ComesFrom(records, lane, slots, results[i]))
    && (forall slot :: slot in slots ==> ResultOf(records, slot) in results)
  }

  lemma ListsMore(records: Records, lane: Lane, slots: set<Slot>, results: seq<Terminal>, slot: Slot)
    requires AllQueued(records, lane, slots + {slot}) && AllQueued(records, lane, slots)
      && Lists(records, lane, slots, results)
    requires forall other :: other in slots ==> other.sequence < slot.sequence
    ensures Lists(records, lane, slots + {slot}, results + [ResultOf(records, slot)])
  {
    var longer, more := results + [ResultOf(records, slot)], slots + {slot};
    assert Queued(records, lane, slot);
    forall i | 0 <= i < |results| ensures results[i].sequence < ResultOf(records, slot).sequence {
      assert ComesFrom(records, lane, slots, results[i]);
      var other :| other in slots && results[i] == ResultOf(records, other);
      assert Queued(records, lane, other);
    }
    forall i | 0 <= i < |longer| ensures ComesFrom(records, lane, more, longer[i]) {
      if i < |results| {
        assert ComesFrom(records, lane, slots, results[i]);
        var other :| other in slots && results[i] == ResultOf(records, other);
        assert other in more;
      } else {
        assert slot in more;
      }
    }
    forall s | s in more ensures ResultOf(records, s) in longer {
      assert s != slot ==> ResultOf(records, s) in results;
      assert longer[|results|] == ResultOf(records, slot);
    }
  }

  /** Reads a lane of the index in ascending order. */
  method ReadLane(records: Records, lane: Lane, slots: set<Slot>, ghost st: State, ghost limits: Limits)
    returns (results: seq<Terminal>)
    requires Inv(st, limits) && st.records == records && AllQueued(records, lane, slots)
    ensures Lists(records, lane, slots, results)
  {
    var rest, done := slots, {};
    LaneDistinct(st, limits, lane, slots);
    results := [];
    while rest != {}
      invariant slots == rest + done && rest !! done && AllQueued(records, lane, done)
      invariant Lists(records, lane, done, results)
      invariant forall a, b :: a in done && b in rest ==> a.sequence < b.sequence
      decreases rest
    {
      LeastSlot(rest);
      var slot :| IsLeast(rest, slot);
      ListsMore(records, lane, done, results, slot);
      results := results + [ResultOf(records, slot)];
      rest, done := rest - {slot}, done + {slot};
    }
    assert done == slots;
  }

  /** Two results of one ledger never carry the same number. */
  lemma SlotsDistinct(st: State, a: ActionKey, b: ActionKey)
    requires InFinishOrder(st.finished, st.next)
    requires a in st.records && st.records[a].terminal.Some? && Recorded(st, a)
    requires b in st.records && st.records[b].terminal.Some? && Recorded(st, b)
    requires st.records[a].terminal.value.sequence == st.records[b].terminal.value.sequence
    ensures a == b
  {
    var i :| 0 <= i < |st.finished| && st.finished[i] == Slot(st.records[a].terminal.value.sequence, a);
    var j :| 0 <= j < |st.finished| && st.finished[j] == Slot(st.records[b].terminal.value.sequence, b);
  }

  lemma ReserveKeepsInv(st: State, limits: Limits, owner: nat, keys: seq<ActionKey>)
    requires Inv(st, limits)
    ensures Inv(State(Reserved(st.records, limits, owner, keys), st.next, st.finished), limits)
  {
    NextKeeps(st, limits, Reserving(owner, keys));
  }

  class OutcomeLedger {
    const limits: Limits
    const sequencer: Sequencer
    var records: Records
    var owners: map<nat, nat>
    var delivery: map<Lane, set<Slot>>

    /** Every result recorded, in order. */
    ghost var finished: seq<Slot>

    ghost function View(): State
      reads this, sequencer
    {
      State(records, sequencer.next, finished)
    }

    /** The counts and the index are what a scan of the records gives. */
    ghost predicate Synced()
      reads this
    {
      OwnersOk(owners, records) && IndexOk(delivery, records)
    }

    ghost predicate Valid()
      reads this, sequencer
    {
      ValidLimits(limits) && Inv(View(), limits) && Synced()
    }

    constructor (limits: Limits, sequencer: Sequencer)
      requires ValidLimits(limits)
      ensures Valid() && records == map[] && finished == [] && this.sequencer == sequencer && this.limits == limits
    {
      this.limits, this.sequencer := limits, sequencer;
      records, owners, delivery, finished := map[], map[], map[], [];
      new;
      forall owner ensures OwnedBy(records, owner) == {} {
      }
    }

    method AvailableFor(owner: nat) returns (n: nat)
      requires Valid()
      ensures n == Available(records, limits, owner)
    {
      CountedIsOwned(owners, records, owner);
      n := Room(limits, |records|, Counted(owners, owner));
    }

    /** All results of a command are reserved together, within every budget, or none is. */
    method Reserve(owner: nat, keys: seq<ActionKey>) returns (r: Result<seq<ActionKey>, OutcomeError>)
      requires Valid()
      modifies this`records, this`owners
      ensures Valid() && r == OutcomeRuns.Reserve(old(records), limits, owner, keys)
      ensures records == Reserved(old(records), limits, owner, keys)
    {
      r := CheckReservation(owner, keys);
      if r.Ok? {
        ReserveKeepsInv(View(), limits, owner, keys);
        ghost var after := View().(records := Reserved(records, limits, owner, keys));
        NewKeySet(records, keys);
        AddPending(owner, r.value);
        assert View() == after;
      }
    }

    /** The keys a reservation would add, or why it is refused. */
    method CheckReservation(owner: nat, keys: seq<ActionKey>) returns (r: Result<seq<ActionKey>, OutcomeError>)
      requires OwnersOk(owners, records)
      ensures r == OutcomeRuns.Reserve(records, limits, owner, keys)
    {
      if owner == 0 || |keys| == 0 || |keys| > 8 {
        return Err(Invalid);
      }
      var ok := CheckKeys(keys);
      if !ok {
        return Err(Invalid);
      }
      var elsewhere := AnyElsewhere(records, owner, keys);
      if elsewhere {
        return Err(Conflict);
      }
      var added := CollectNew(records, keys);
      CountedIsOwned(owners, records, owner);
      var total, owned := |records| + |added|, Counted(owners, owner) + |added|;
      if !WithinBudgets(limits, total, owned) {
        return Err(Capacity);
      }
      r := Ok(added);
    }

    method AddPending(owner: nat, added: seq<ActionKey>)
      requires Synced() && KeySet(added) !! records.Keys && |KeySet(added)| == |added|
      modifies this`records, this`owners
      ensures Synced() && records == WithPending(old(records), owner, KeySet(added))
    {
      OwnersAddOrNone(owners, records, owner, KeySet(added));
      QuietIndexes(delivery, records, WithPending(records, owner, KeySet(added)));
      records := InsertPending(records, owner, added);
      var owned := Counted(owners, owner) + |added|;
      if owned != 0 {
        owners := owners[owner := owned];
      }
    }

    /** Drops one record together with its count and its index entry. */
    method Remove(key: ActionKey)
      requires Synced()
      modifies this`records, this`owners, this`delivery
      ensures Synced() && records == old(records) - {key}
    {
      if key in records {
        var record := records[key];
        OwnerListed(owners, records, key);
        OwnersRemove(owners, records, key);
        if record.terminal.Some? {
          DequeueIndexes(delivery, records, key, records - {key});
          delivery := Dequeue(delivery, Lane(record.owner, key.connection), Slot(record.terminal.value.sequence, key));
        } else {
          QuietIndexes(delivery, records, records - {key});
        }
        owners := CountDown(owners, record.owner);
        records := records - {key};
      }
    }

    method CancelReservations(keys: seq<ActionKey>)
      requires Valid()
      modifies this`records, this`owners, this`delivery
      ensures Valid() && records == Cancelled(old(records), keys)
    {
      NextKeeps(View(), limits, Cancelling(keys));
      Release(keys);
    }

    method Release(keys: seq<ActionKey>)
      requires Synced()
      modifies this`records, this`owners, this`delivery
      ensures Synced() && records == Cancelled(old(records), keys)
    {
      ghost var before := records;
      for i := 0 to |keys|
        invariant Synced() && records == Cancelled(before, keys[..i])
      {
        CancelledMore(before, keys, i);
        if keys[i] in records && records[keys[i]].terminal.None? {
          Remove(keys[i]);
        }
      }
      assert keys[..|keys|] == keys;
    }

    method Finish(owner: nat, key: ActionKey, at: nat, payload: Payload) returns (r: Result<nat, OutcomeError>)
      requires Valid()
      modifies this`records, this`delivery, this`finished, sequencer
      ensures Valid() && r == OutcomeRuns.Finish(old(records), limits, old(sequencer.next), owner, key, at, payload)
      ensures View() == Next(old(View()), limits, Finishing(owner, key, at, payload))
    {
      NextKeeps(View(), limits, Finishing(owner, key, at, payload));
      if payload.bytes > limits.maximumPayloadBytes {
        return Err(Capacity);
      }
      if key !in records || records[key].owner != owner {
        return Err(Unknown);
      }
      var record := records[key];
      if record.terminal.Some? {
        var before := record.terminal.value;
        return if before.at == at && before.payload == payload then Ok(before.sequence) else Err(Conflict);
      }
      if sequencer.next >= U64_MAX {
        return Err(SequenceExhausted);
      }
      var sequence := sequencer.next;
      sequencer.next := sequence + 1;
      Settle(key, Terminal(sequence, key, at, payload));
      finished := finished + [Slot(sequence, key)];
      r := Ok(sequence);
    }

    /** Stores a result and, while its lane is open, queues it for delivery. */
    method Settle(key: ActionKey, terminal: Terminal)
      requires Synced() && key in records && records[key].terminal.None? && !records[key].reported
      modifies this`records, this`delivery
      ensures Synced() && records == old(records)[key := old(records[key]).(terminal := Some(terminal))]
    {
      var record := records[key];
      var after := records[key := record.(terminal := Some(terminal))];
      OwnersSame(owners, records, after);
      if record.deliveryClosed {
        QuietIndexes(delivery, records, after);
      } else {
        EnqueueIndexes(delivery, records, key, terminal);
        delivery := Enqueue(delivery, Lane(record.owner, key.connection), Slot(terminal.sequence, key));
      }
      records := after;
    }

    /** Results are marked together, and only if every one is the owner's and finished. */
    method MarkReported(owner: nat, keys: seq<ActionKey>) returns (r: Outcome<OutcomeError>)
      requires Valid()
      modifies this`records, this`delivery
      ensures Valid() && records == Reported(old(records), owner, keys)
      ensures r == if AllReportable(old(records), owner, keys) then Done else Failed(Unknown)
    {
      NextKeeps(View(), limits, Reporting(owner, keys));
      var ok := AllKnown(records, owner, keys);
      if !ok {
        return Failed(Unknown);
      }
      MarkAll(keys);
      r := Done;
    }

    method MarkAll(keys: seq<ActionKey>)
      requires Synced() && forall i :: 0 <= i < |keys| ==> keys[i] in records && records[keys[i]].terminal.Some?
      modifies this`records, this`delivery
      ensures Synced() && records == Marked(old(records), keys)
    {
      ghost var before := records;
      assert Marked(before, []) == before;
      for i := 0 to |keys|
        invariant Synced() && records == Marked(before, keys[..i])
      {
        MarkedMore(before, keys, i);
        assert keys[i] in before && before[keys[i]].terminal.Some?;
        MarkOne(keys[i]);
      }
      assert keys[..|keys|] == keys;
    }

    method MarkOne(key: ActionKey)
      requires Synced() && key in records && records[key].terminal.Some?
      modifies this`records, this`delivery
      ensures Synced() && records == old(records)[key := old(records[key]).(reported := true)]
    {
      var record := records[key];
      var after := records[key := record.(reported := true)];
      OwnersSame(owners, records, after);
      DequeueIndexes(delivery, records, key, after);
      delivery := Dequeue(delivery, Lane(record.owner, key.connection), Slot(record.terminal.value.sequence, key));
      records := after;
    }

    method CloseDelivery(owner: nat, connection: nat)
      requires Valid()
      modifies this`records, this`delivery
      ensures Valid() && records == Closed(old(records), owner, connection)
    {
      NextKeeps(View(), limits, Closing(owner, connection));
      CloseIndexes(delivery, records, owner, connection);
      OwnersSame(owners, records, Closed(records, owner, connection));
      delivery := delivery - {Lane(owner, connection)};
      records := CloseAll(records, owner, connection);
    }

    method Expire(now: nat)
      requires Valid()
      modifies this`records, this`owners, this`delivery
      ensures Valid() && records == Expired(old(records), now, limits)
    {
      NextKeeps(View(), limits, Expiring(now));
      ghost var after := Next(View(), limits, Expiring(now));
      RemoveAll(set key | key in records && Expires(records[key], now, limits));
      assert View() == after;
    }

    method RemoveAll(keys: set<ActionKey>)
      requires Synced()
      modifies this`records, this`owners, this`delivery
      ensures Synced() && records == old(records) - keys
    {
      ghost var before := records;
      var rest := keys;
      while rest != {}
        invariant rest <= keys && Synced() && records == before - (keys - rest)
        decreases rest
      {
        var key :| key in rest;
        assert before - (keys - rest) - {key} == before - (keys - (rest - {key}));
        Remove(key);
        rest := rest - {key};
      }
      assert keys - rest == keys;
    }

    /** The undelivered results of one lane, all of them, in the order they were finished. */
    method Unreported(owner: nat, connection: nat) returns (results: seq<Terminal>)
      requires Valid()
      ensures forall i, j :: 0 <= i < j < |results| ==> results[i].sequence < results[j].sequence
      ensures forall terminal :: terminal in results <==>
        terminal.key in records && Undelivered(records[terminal.key])
        && LaneOf(records, terminal.key) == Lane(owner, connection) && records[terminal.key].terminal == Some(terminal)
    {
      var lane := Lane(owner, connection);
      var slots := if lane in delivery then delivery[lane] else {};
      assert AllQueued(records, lane, slots);
      results := ReadLane(records, lane, slots, View(), limits);
      LaneIsScan(View(), limits, delivery, lane, results);
    }
  }

  /** A lane of the index lists exactly what a scan of the records finds. */
  lemma LaneIsScan(st: State, limits: Limits, delivery: map<Lane, set<Slot>>, lane: Lane, results: seq<Terminal>)
    requires Inv(st, limits) && IndexOk(delivery, st.records)
    requires var slots := if lane in delivery then delivery[lane] else {};
      AllQueued(st.records, lane, slots) && Lists(st.records, lane, slots, results)
    ensures forall terminal :: terminal in results <==>
      terminal.key in st.records && Undelivered(st.records[terminal.key])
      && LaneOf(st.records, terminal.key) == lane && st.records[terminal.key].terminal == Some(terminal)
  {
    var slots := if lane in delivery then delivery[lane] else {};
    forall terminal | terminal in results
      ensures terminal.key in st.records && Undelivered(st.records[terminal.key])
        && LaneOf(st.records, terminal.key) == lane && st.records[terminal.key].terminal == Some(terminal)
    {
      var i :| 0 <= i < |results| && results[i] == terminal;
      assert ComesFrom(st.records, lane, slots, results[i]);
      var slot :| slot in slots && results[i] == ResultOf(st.records, slot);
      assert Queued(st.records, lane, slot) && Recorded(st, slot.key);
    }
    forall key | key in st.records && Undelivered(st.records[key]) && LaneOf(st.records, key) == lane
      ensures st.records[key].terminal.value in results
    {
      assert Indexed(delivery, st.records, key);
    }
  }

  lemma CountedIsOwned(owners: map<nat, nat>, records: Records, owner: nat)
    requires OwnersOk(owners, records)
    ensures Counted(owners, owner) == |OwnedBy(records, owner)|
  {
    assert owner !in owners ==> OwnedBy(records, owner) == {};
  }

  lemma OwnersAddOrNone(owners: map<nat, nat>, records: Records, owner: nat, added: set<ActionKey>)
    requires OwnersOk(owners, records) && added !! records.Keys
    ensures var owned := Counted(owners, owner) + |added|;
      OwnersOk(if owned == 0 then owners else owners[owner := owned], WithPending(records, owner, added))
  {
    if Counted(owners, owner) + |added| > 0 {
      OwnersAdd(owners, records, owner, added);
    } else {
      assert added == {};
      assert WithPending(records, owner, added) == records;
    }
  }

  lemma CancelledMore(records: Records, keys: seq<ActionKey>, i: nat)
    requires i < |keys|
    ensures var before := Cancelled(records, keys[..i]);
      Cancelled(records, keys[..i + 1]) ==
        if keys[i] in before && before[keys[i]].terminal.None? then before - {keys[i]} else before
  {
    var shorter, longer := keys[..i], keys[..i + 1];
    assert longer == shorter + [keys[i]];
    forall key ensures key in Cancelled(records, longer) <==>
      key in Cancelled(records, shorter) && !(key == keys[i] && records[key].terminal.None?)
    {
      assert key in longer <==> key in shorter || key == keys[i];
    }
  }

  lemma CloseIndexes(delivery: map<Lane, set<Slot>>, records: Records, owner: nat, connection: nat)
    requires IndexOk(delivery, records)
    ensures IndexOk(delivery - {Lane(owner, connection)}, Closed(records, owner, connection))
  {
    var lane := Lane(owner, connection);
    var open, after := delivery - {lane}, Closed(records, owner, connection);
    forall l, s | l in open && s in open[l] ensures Queued(after, l, s) {
      assert Queued(records, l, s);
    }
    forall key | key in after && Undelivered(after[key]) ensures Indexed(open, after, key) {
      assert Indexed(delivery, records, key);
    }
  }

  predicate DistinctSlots(slots: set<Slot>) {
    forall a, b :: a in slots && b in slots && a.sequence == b.sequence ==> a == b
  }

  lemma LaneDistinct(st: State, limits: Limits, lane: Lane, slots: set<Slot>)
    requires Inv(st, limits) && AllQueued(st.records, lane, slots)
    ensures DistinctSlots(slots)
  {
    forall a, b | a in slots && b in slots && a.sequence == b.sequence ensures a == b {
      assert Queued(st.records, lane, a) && Queued(st.records, lane, b);
      assert Recorded(st, a.key) && Recorded(st, b.key);
      SlotsDistinct(st, a.key, b.key);
    }
  }

  predicate IsLeast(rest: set<Slot>, slot: Slot) {
    slot in rest && forall other :: other in rest && other != slot ==> slot.sequence < other.sequence
  }

  lemma {:induction false} LeastSlot(rest: set<Slot>)
    requires rest != {} && DistinctSlots(rest)
    ensures exists slot :: IsLeast(rest, slot)
    decreases |rest|
  {
    var slot :| slot in rest;
    var others := rest - {slot};
    if others == {} {
      assert rest == {slot};
      assert IsLeast(rest, slot);
    } else {
      LeastSlot(others);
      var least :| IsLeast(others, least);
      assert least.sequence != slot.sequence;
      assert IsLeast(rest, if slot.sequence < least.sequence then slot else least);
    }
  }

  /** An empty ledger on a given counter, or nothing for an invalid configuration. */
  method Create(limits: Limits, sequencer: Sequencer) returns (r: Result<OutcomeLedger, OutcomeError>)
    ensures r.Err? <==> !ValidLimits(limits)
    ensures r.Err? ==> r == Err(Invalid)
    ensures r.Ok? ==>
      fresh(r.value) && r.value.Valid() && r.value.records == map[] && r.value.finished == []
        && r.value.sequencer == sequencer
  {
    if !ValidLimits(limits) {
      return Err(Invalid);
    }
    var ledger := new OutcomeLedger(limits, sequencer);
    r := Ok(ledger);
  }
}
