/** Giving an identity its entry keeps the journal's order and everything known about it. */
module JournalInsert {
  import opened NetTypes
  import opened JournalModel
  import opened JournalInvariant
  import opened JournalSteps

  lemma LessTrans(a: EventKey, b: EventKey, c: EventKey)
    requires Less(a, b) && Less(b, c)
    ensures Less(a, c)
  {
  }

  /** `Pos` is the partition point of a sorted list. */
  lemma {:induction false} PosSplits(entries: seq<Entry>, key: EventKey)
    requires Sorted(entries)
    ensures forall i :: 0 <= i < Pos(entries, key) ==> Less(KeyAt(entries, i), key)
    ensures forall i :: Pos(entries, key) <= i < |entries| ==> !Less(KeyAt(entries, i), key)
  {
    if entries != [] {
      var rest := entries[1..];
      assert forall i :: 0 <= i < |rest| ==> KeyAt(rest, i) == KeyAt(entries, i + 1);
      if Less(KeyAt(entries, 0), key) {
        PosSplits(rest, key);
        forall i | 0 <= i < Pos(entries, key) ensures Less(KeyAt(entries, i), key) {
          assert i > 0 ==> Less(KeyAt(rest, i - 1), key);
        }
        forall i | Pos(entries, key) <= i < |entries| ensures !Less(KeyAt(entries, i), key) {
          assert !Less(KeyAt(rest, i - 1), key);
        }
      } else {
        forall i | 0 <= i < |entries| ensures !Less(KeyAt(entries, i), key) {
          if i > 0 && Less(KeyAt(entries, i), key) {
            LessTrans(KeyAt(entries, 0), KeyAt(entries, i), key);
          }
        }
      }
    }
  }

  /** An entry is found exactly when some index holds the key. */
  lemma Found(entries: seq<Entry>, key: EventKey, i: nat)
    requires Sorted(entries) && i < |entries| && KeyAt(entries, i) == key
    ensures Pos(entries, key) == i && Present(entries, key)
  {
    PosSplits(entries, key);
    var p := Pos(entries, key);
    assert p <= i;
    var before, at := KeyAt(entries, p), KeyAt(entries, i);
  }

  function Inserted(entries: seq<Entry>, p: nat, e: Entry): seq<Entry>
    requires p <= |entries|
  {
    entries[..p] + [e] + entries[p..]
  }

  /** Where an old index lands. */
  function Shift(p: nat, i: nat): nat {
    if i < p then i else i + 1
  }

  /** Where an index of the longer list came from; the new slot is excluded by callers. */
  function Unshift(p: nat, i: nat): nat
    requires i != p
  {
    if i < p then i else i - 1
  }

  lemma InsertedNew(entries: seq<Entry>, p: nat, e: Entry)
    requires p <= |entries|
    ensures |Inserted(entries, p, e)| == |entries| + 1 && Inserted(entries, p, e)[p] == e
  {
  }

  /** An old entry sits where its index was shifted. */
  lemma InsertedOld(entries: seq<Entry>, p: nat, e: Entry, i: nat)
    requires p <= |entries| && i < |entries|
    ensures Shift(p, i) < |Inserted(entries, p, e)| == |entries| + 1
    ensures Inserted(entries, p, e)[Shift(p, i)] == entries[i]
  {
    var head := entries[..p] + [e];
    assert |head| == p + 1 && Inserted(entries, p, e) == head + entries[p..];
    if i < p {
      assert head[i] == entries[i];
    } else {
      assert entries[p..][i - p] == entries[i];
    }
  }

  /** An index of the longer list, other than the new one, holds an old entry. */
  lemma InsertedFrom(entries: seq<Entry>, p: nat, e: Entry, i: nat)
    requires p <= |entries| && i <= |entries| && i != p
    ensures Unshift(p, i) < |entries| && |Inserted(entries, p, e)| == |entries| + 1
    ensures Inserted(entries, p, e)[i] == entries[Unshift(p, i)]
  {
    InsertedOld(entries, p, e, Unshift(p, i));
  }

  /** Everything from the insertion point on is above the new key. */
  lemma AboveInserted(entries: seq<Entry>, key: EventKey, i: nat)
    requires Sorted(entries) && !Present(entries, key) && Pos(entries, key) <= i < |entries|
    ensures Less(key, KeyAt(entries, i))
  {
    var p := Pos(entries, key);
    PosSplits(entries, key);
    var first := KeyAt(entries, p);
    if p < i {
      LessTrans(key, first, KeyAt(entries, i));
    }
  }

  lemma BelowInserted(entries: seq<Entry>, key: EventKey, i: nat)
    requires Sorted(entries) && i < Pos(entries, key)
    ensures Less(KeyAt(entries, i), key)
  {
    PosSplits(entries, key);
  }

  lemma InsertPair(entries: seq<Entry>, e: Entry, i: nat, k: nat)
    requires Sorted(entries) && !Present(entries, e.identity.key) && i < k <= |entries|
    ensures var after := Inserted(entries, Pos(entries, e.identity.key), e);
      |after| == |entries| + 1 && Less(KeyAt(after, i), KeyAt(after, k))
  {
    var key := e.identity.key;
    var p := Pos(entries, key);
    InsertedNew(entries, p, e);
    if i == p {
      InsertedFrom(entries, p, e, k);
      AboveInserted(entries, key, k - 1);
    } else if k == p {
      InsertedFrom(entries, p, e, i);
      BelowInserted(entries, key, i);
    } else {
      InsertedFrom(entries, p, e, i);
      InsertedFrom(entries, p, e, k);
      assert Less(KeyAt(entries, Unshift(p, i)), KeyAt(entries, Unshift(p, k)));
    }
  }

  lemma InsertSorted(entries: seq<Entry>, e: Entry)
    requires Sorted(entries) && !Present(entries, e.identity.key)
    ensures Sorted(Inserted(entries, Pos(entries, e.identity.key), e))
  {
    var after := Inserted(entries, Pos(entries, e.identity.key), e);
    forall i, k | 0 <= i < k < |after| ensures Less(KeyAt(after, i), KeyAt(after, k)) {
      InsertPair(entries, e, i, k);
    }
  }

  /** The journal with an empty entry for `identity` in its sorted place. */
  function WithEntry(j: Journal, identity: EventIdentity): Journal {
    j.(entries := Inserted(j.entries, Pos(j.entries, identity.key), NewEntry(identity)))
  }

  ghost predicate Insertable(j: Journal, identity: EventIdentity) {
    && Sorted(j.entries) && !Present(j.entries, identity.key)
    && identity.key.action.connection == j.scope.connection
    && identity.key.action.stream == j.scope.stream
    && identity.key.action.command > j.retired
    && identity.originTick <= j.now
  }

  lemma InsertEntries(j: Journal, identity: EventIdentity)
    requires Structured(j) && Insertable(j, identity)
    ensures var after := WithEntry(j, identity);
      forall i :: 0 <= i < |after.entries| ==> EntryOk(after, after.entries[i])
  {
    var e, p := NewEntry(identity), Pos(j.entries, identity.key);
    var after := WithEntry(j, identity);
    InsertedNew(j.entries, p, e);
    forall i | 0 <= i < |after.entries| ensures EntryOk(after, after.entries[i]) {
      if i != p {
        InsertedFrom(j.entries, p, e, i);
        assert EntryOk(j, j.entries[Unshift(p, i)]);
      }
    }
  }

  lemma InsertFences(j: Journal, identity: EventIdentity)
    requires FencesOk(j)
    ensures FencesOk(WithEntry(j, identity))
  {
    var e, p := NewEntry(identity), Pos(j.entries, identity.key);
    var after := WithEntry(j, identity);
    forall index | index in after.bindings ensures Holds(after, after.bindings[index]) {
      assert Holds(j, j.bindings[index]);
      var b := j.bindings[index];
      if k :| 0 <= k < |j.entries| && KeyAt(j.entries, k) == b.key && j.entries[k].binding == Some(b.entity) {
        InsertedOld(j.entries, p, e, k);
        assert KeyAt(after.entries, Shift(p, k)) == b.key;
      }
    }
  }

  lemma InsertDistinct(entries: seq<Entry>, p: nat, e: Entry)
    requires BindingsDistinct(entries) && p <= |entries| && e.binding.None?
    ensures BindingsDistinct(Inserted(entries, p, e))
  {
    var after := Inserted(entries, p, e);
    InsertedNew(entries, p, e);
    forall i, k | 0 <= i < k < |after| && after[i].binding.Some? ensures after[i].binding != after[k].binding {
      InsertedFrom(entries, p, e, i);
      if k != p {
        InsertedFrom(entries, p, e, k);
      }
    }
  }

  lemma InsertStructured(j: Journal, identity: EventIdentity)
    requires Structured(j) && Insertable(j, identity)
    ensures Structured(WithEntry(j, identity))
  {
    InsertSorted(j.entries, NewEntry(identity));
    InsertEntries(j, identity);
    InsertFences(j, identity);
    InsertDistinct(j.entries, Pos(j.entries, identity.key), NewEntry(identity));
  }

  lemma InsertShows(entries: seq<Entry>, p: nat, e: Entry, view: map<EventKey, Payload>)
    requires p <= |entries| && Shows(view, entries) && !Shown(e)
    ensures Shows(view, Inserted(entries, p, e))
  {
    var after := Inserted(entries, p, e);
    InsertedNew(entries, p, e);
    forall i | 0 <= i < |after| && Shown(after[i])
      ensures KeyAt(after, i) in view && after[i].payload == Some(view[KeyAt(after, i)])
    {
      InsertedFrom(entries, p, e, i);
      assert KeyAt(after, i) == KeyAt(entries, Unshift(p, i));
    }
    forall key | key in view ensures ShownKey(after, key) {
      var i :| 0 <= i < |entries| && KeyAt(entries, i) == key && Shown(entries[i]);
      InsertedOld(entries, p, e, i);
      assert KeyAt(after, Shift(p, i)) == key;
    }
  }

  lemma InsertSpent(j: Journal, identity: EventIdentity, key: EventKey)
    requires Spent(j, key)
    ensures Spent(WithEntry(j, identity), key)
  {
    var p := Pos(j.entries, identity.key);
    if i :| 0 <= i < |j.entries| && SpentEntry(j.entries[i], key) {
      InsertedOld(j.entries, p, NewEntry(identity), i);
      assert SpentEntry(WithEntry(j, identity).entries[Shift(p, i)], key);
    }
  }

  lemma InsertLater(j: Journal, identity: EventIdentity)
    ensures Later(j, WithEntry(j, identity))
  {
    var p := Pos(j.entries, identity.key);
    forall i | 0 <= i < |j.entries| ensures Carried(j.entries[i], WithEntry(j, identity).entries) {
      InsertedOld(j.entries, p, NewEntry(identity), i);
      assert Kept(j.entries[i], WithEntry(j, identity).entries[Shift(p, i)]);
    }
  }

  lemma InsertKeeps(j: Journal, history: seq<Change>, identity: EventIdentity)
    requires Inv(j, history) && Insertable(j, identity)
    ensures Inv(WithEntry(j, identity), history)
  {
    InsertStructured(j, identity);
    InsertShows(j.entries, Pos(j.entries, identity.key), NewEntry(identity), Fold(history));
    forall key | OneShotCreates(history, key) == 1 ensures Spent(WithEntry(j, identity), key) {
      InsertSpent(j, identity, key);
    }
  }

  /** `entry` yields a good later state and the place of the identity's entry. */
  lemma EnsureSteps(st: Staged, past: seq<Change>, identity: EventIdentity)
    requires Good(st, past)
    ensures var r := EnsureEntry(st, identity);
      r.Ok? ==>
        && Good(r.value.0, past) && Later(st.journal, r.value.0.journal)
        && r.value.0.journal.entries[r.value.1].identity == identity
        && r.value.0.changes == st.changes
        && r.value.0.journal.rejected == st.journal.rejected
        && r.value.0.journal.retired == st.journal.retired
  {
    var j := st.journal;
    var r := EnsureEntry(st, identity);
    if r.Ok? {
      if Present(j.entries, identity.key) {
        LaterSame(j);
      } else {
        InsertKeeps(j, past + st.changes, identity);
        InsertLater(j, identity);
        InsertedNew(j.entries, Pos(j.entries, identity.key), NewEntry(identity));
        assert r.value.0.journal == WithEntry(j, identity);
      }
    }
  }
}
