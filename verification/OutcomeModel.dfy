/**
 Bounded terminal action results (engine/net/src/outcomes.rs). The records are the primary
 state; the per-owner counts and the delivery index must be what a scan of them gives.
 */
module OutcomeModel {
  import opened NetTypes
  import opened Sums

  datatype ActionKey = ActionKey(connection: nat, stream: nat, command: nat, slot: nat)

  datatype Payload = Payload(content: int, bytes: nat)

  datatype Limits = Limits(
    records: nat, recordsPerOwner: nat, retainedBytes: nat, maximumPayloadBytes: nat, retentionTicks: nat,
    recordSize: nat)

  datatype OutcomeError = Invalid | Capacity | Unknown | Conflict | SequenceExhausted

  datatype Terminal = Terminal(sequence: nat, key: ActionKey, at: nat, payload: Payload)

  datatype Record = Record(owner: nat, terminal: Option<Terminal>, reported: bool, deliveryClosed: bool)

  type Records = map<ActionKey, Record>

  /** The transport a result is delivered on. */
  datatype Lane = Lane(owner: nat, connection: nat)

  /** An index entry; lanes are read in ascending sequence. */
  datatype Slot = Slot(sequence: nat, key: ActionKey)

  function Charge(limits: Limits): nat {
    limits.recordSize + 256 + limits.maximumPayloadBytes
  }

  predicate ValidLimits(limits: Limits) {
    && limits.records > 0
    && limits.recordsPerOwner > 0
    && limits.retentionTicks > 0
    && limits.maximumPayloadBytes > 0
    && Charge(limits) <= limits.retainedBytes <= U64_MAX
  }

  // ---- what the counts and the index must be -----------------------------------------------

  ghost function OwnedBy(records: Records, owner: nat): set<ActionKey> {
    set key | key in records && records[key].owner == owner
  }

  /** Per-owner counts equal the real counts; owners without records are not listed. */
  ghost predicate OwnersOk(owners: map<nat, nat>, records: Records) {
    forall owner :: (owner in owners <==> OwnedBy(records, owner) != {})
      && (owner in owners ==> owners[owner] == |OwnedBy(records, owner)|)
  }

  function Counted(owners: map<nat, nat>, owner: nat): nat {
    if owner in owners then owners[owner] else 0
  }

  /** Finished, not yet reported, and its lane still open. */
  predicate Undelivered(r: Record) {
    r.terminal.Some? && !r.reported && !r.deliveryClosed
  }

  function LaneOf(records: Records, key: ActionKey): Lane
    requires key in records
  {
    Lane(records[key].owner, key.connection)
  }

  predicate Queued(records: Records, lane: Lane, slot: Slot) {
    && slot.key in records
    && Undelivered(records[slot.key])
    && lane == LaneOf(records, slot.key)
    && records[slot.key].terminal.value.sequence == slot.sequence
  }

  ghost predicate IndexOk(delivery: map<Lane, set<Slot>>, records: Records) {
    && (forall lane :: lane in delivery ==> delivery[lane] != {})
    && (forall lane, slot :: lane in delivery && slot in delivery[lane] ==> Queued(records, lane, slot))
    && (forall key :: key in records && Undelivered(records[key]) ==> Indexed(delivery, records, key))
  }

  predicate Indexed(delivery: map<Lane, set<Slot>>, records: Records, key: ActionKey)
    requires key in records && records[key].terminal.Some?
  {
    LaneOf(records, key) in delivery
      && Slot(records[key].terminal.value.sequence, key) in delivery[LaneOf(records, key)]
  }

  /** Only one index and one count table agree with given records. */
  lemma IndexIsUnique(a: map<Lane, set<Slot>>, b: map<Lane, set<Slot>>, records: Records)
    requires IndexOk(a, records) && IndexOk(b, records)
    ensures a == b
  {
    forall lane, slot | lane in a && slot in a[lane] ensures lane in b && slot in b[lane] {
      assert Queued(records, lane, slot);
      assert Indexed(b, records, slot.key);
    }
    forall lane, slot | lane in b && slot in b[lane] ensures lane in a && slot in a[lane] {
      assert Queued(records, lane, slot);
      assert Indexed(a, records, slot.key);
    }
    forall lane ensures lane in a <==> lane in b {
      if lane in a {
        var slot :| slot in a[lane];
      }
      if lane in b {
        var slot :| slot in b[lane];
      }
    }
    forall lane | lane in a ensures a[lane] == b[lane] {
      assert forall slot :: slot in a[lane] <==> slot in b[lane];
    }
    assert a.Keys == b.Keys;
  }

  // ---- single-record updates ------------------------------------------------------------------

  function Enqueue(delivery: map<Lane, set<Slot>>, lane: Lane, slot: Slot): map<Lane, set<Slot>> {
    delivery[lane := (if lane in delivery then delivery[lane] else {}) + {slot}]
  }

  /** Removes a slot, and its lane when it empties. */
  function Dequeue(delivery: map<Lane, set<Slot>>, lane: Lane, slot: Slot): map<Lane, set<Slot>> {
    if lane !in delivery then delivery
    else if delivery[lane] - {slot} == {} then delivery - {lane}
    else delivery[lane := delivery[lane] - {slot}]
  }

  lemma EnqueueIndexes(delivery: map<Lane, set<Slot>>, records: Records, key: ActionKey, terminal: Terminal)
    requires IndexOk(delivery, records) && key in records && records[key].terminal.None? && !records[key].reported
    requires !records[key].deliveryClosed
    ensures IndexOk(Enqueue(delivery, LaneOf(records, key), Slot(terminal.sequence, key)),
              records[key := records[key].(terminal := Some(terminal))])
  {
    var lane, slot := LaneOf(records, key), Slot(terminal.sequence, key);
    var after, finished := Enqueue(delivery, lane, slot), records[key := records[key].(terminal := Some(terminal))];
    forall l, s | l in after && s in after[l] ensures Queued(finished, l, s) {
      if s != slot || l != lane {
        assert Queued(records, l, s);
      }
    }
    forall k | k in finished && Undelivered(finished[k]) ensures Indexed(after, finished, k) {
      if k != key {
        assert Indexed(delivery, records, k);
      }
    }
  }

  /** Reporting, closing or removing a record takes it out of the index; `rest` is what remains of the others. */
  lemma DequeueIndexes(delivery: map<Lane, set<Slot>>, records: Records, key: ActionKey, after: Records)
    requires IndexOk(delivery, records) && key in records && records[key].terminal.Some?
    requires key in after ==> !Undelivered(after[key])
    requires forall k :: k != key ==> (k in after <==> k in records) && (k in after ==> after[k] == records[k])
    ensures IndexOk(Dequeue(delivery, LaneOf(records, key), Slot(records[key].terminal.value.sequence, key)), after)
  {
    var lane, slot := LaneOf(records, key), Slot(records[key].terminal.value.sequence, key);
    var shorter := Dequeue(delivery, lane, slot);
    forall l, s | l in shorter && s in shorter[l] ensures Queued(after, l, s) {
      assert s in delivery[l];
      assert Queued(records, l, s);
      assert !(s == slot && l == lane);
    }
    forall k | k in after && Undelivered(after[k]) ensures Indexed(shorter, after, k) {
      assert Indexed(delivery, records, k);
      var s := Slot(records[k].terminal.value.sequence, k);
      assert s != slot;
      assert LaneOf(records, k) == lane ==> s in delivery[lane] - {slot};
    }
  }

  /** Records that are not undelivered may come, go or change without the index noticing. */
  lemma QuietIndexes(delivery: map<Lane, set<Slot>>, records: Records, after: Records)
    requires IndexOk(delivery, records)
    requires forall key :: (key in records && Undelivered(records[key])) <==> (key in after && Undelivered(after[key]))
    requires forall key :: key in records && key in after && Undelivered(records[key]) ==> after[key] == records[key]
    ensures IndexOk(delivery, after)
  {
    forall l, s | l in delivery && s in delivery[l] ensures Queued(after, l, s) {
      assert Queued(records, l, s);
    }
    forall k | k in after && Undelivered(after[k]) ensures Indexed(delivery, after, k) {
      assert Indexed(delivery, records, k);
    }
  }

  lemma OwnersSame(owners: map<nat, nat>, records: Records, after: Records)
    requires OwnersOk(owners, records) && after.Keys == records.Keys
    requires forall key :: key in records ==> after[key].owner == records[key].owner
    ensures OwnersOk(owners, after)
  {
    forall owner ensures OwnedBy(after, owner) == OwnedBy(records, owner) {
    }
  }

  function CountDown(owners: map<nat, nat>, owner: nat): map<nat, nat>
    requires owner in owners && owners[owner] > 0
  {
    if owners[owner] == 1 then owners - {owner} else owners[owner := owners[owner] - 1]
  }

  lemma OwnerListed(owners: map<nat, nat>, records: Records, key: ActionKey)
    requires OwnersOk(owners, records) && key in records
    ensures records[key].owner in owners && owners[records[key].owner] > 0
  {
    assert key in OwnedBy(records, records[key].owner);
  }

  lemma OwnersRemove(owners: map<nat, nat>, records: Records, key: ActionKey)
    requires OwnersOk(owners, records) && key in records
    requires records[key].owner in owners && owners[records[key].owner] > 0
    ensures OwnersOk(CountDown(owners, records[key].owner), records - {key})
  {
    var mine, after := records[key].owner, records - {key};
    var fewer := CountDown(owners, mine);
    assert key in OwnedBy(records, mine);
    assert OwnedBy(after, mine) == OwnedBy(records, mine) - {key};
    forall owner
      ensures owner in fewer <==> OwnedBy(after, owner) != {}
      ensures owner in fewer ==> fewer[owner] == |OwnedBy(after, owner)|
    {
      if owner != mine {
        assert OwnedBy(after, owner) == OwnedBy(records, owner);
      } else {
        assert |OwnedBy(after, mine)| == owners[mine] - 1;
      }
    }
  }

  /** Adds pending records for keys that were unknown. */
  function WithPending(records: Records, owner: nat, added: set<ActionKey>): Records {
    records + map key | key in added :: Record(owner, None, false, false)
  }

  lemma OwnersAdd(owners: map<nat, nat>, records: Records, owner: nat, added: set<ActionKey>)
    requires OwnersOk(owners, records) && added !! records.Keys
    requires Counted(owners, owner) + |added| > 0
    ensures OwnersOk(owners[owner := Counted(owners, owner) + |added|], WithPending(records, owner, added))
  {
    var after := WithPending(records, owner, added);
    var more := owners[owner := Counted(owners, owner) + |added|];
    assert OwnedBy(after, owner) == OwnedBy(records, owner) + added;
    assert OwnedBy(records, owner) !! added;
    forall other
      ensures other in more <==> OwnedBy(after, other) != {}
      ensures other in more ==> more[other] == |OwnedBy(after, other)|
    {
      if other != owner {
        assert OwnedBy(after, other) == OwnedBy(records, other);
      }
    }
  }
}
