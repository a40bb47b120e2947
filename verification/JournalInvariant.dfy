/** What the journal keeps about its entries and about everything it has ever emitted. */
module JournalInvariant {
  import opened NetTypes
  import opened JournalModel

  // ---- reading the change stream ---------------------------------------------------

  /** What a consumer holds on screen; one-shot cues leave nothing to hold. */
  function ApplyChange(view: map<EventKey, Payload>, c: Change): map<EventKey, Payload> {
    match c
    case Create(event, _, _) => if event.delivery == OneShot then view else view[event.identity.key := event.payload]
    case Update(event) => if event.delivery == OneShot then view else view[event.identity.key := event.payload]
    case Cancel(key, _) => view - {key}
    case Reset(_, _) => map[]
    case _ => view
  }

  function Fold(history: seq<Change>): map<EventKey, Payload> {
    if history == [] then map[] else ApplyChange(Fold(history[..|history| - 1]), history[|history| - 1])
  }

  predicate CreatesOneShot(c: Change, key: EventKey) {
    c.Create? && c.event.delivery == OneShot && c.event.identity.key == key
  }

  function OneShotCreates(history: seq<Change>, key: EventKey): nat {
    if history == [] then 0
    else OneShotCreates(history[..|history| - 1], key) + (if CreatesOneShot(history[|history| - 1], key) then 1 else 0)
  }

  predicate Binds(c: Change) {
    c.Bind? || c.BindRetired?
  }

  /** The newest bound generation per index since the last scope reset. */
  function Generations(history: seq<Change>): map<nat, nat> {
    if history == [] then map[]
    else
      var earlier, c := Generations(history[..|history| - 1]), history[|history| - 1];
      if c.Reset? then map[]
      else if Binds(c) then earlier[c.entity.index := c.entity.generation]
      else earlier
  }

  /** Between resets each index is bound to strictly newer generations only. */
  predicate BindsIncrease(history: seq<Change>) {
    history != [] ==>
      var earlier, c := history[..|history| - 1], history[|history| - 1];
      && BindsIncrease(earlier)
      && (Binds(c) && c.entity.index in Generations(earlier) ==>
            Generations(earlier)[c.entity.index] < c.entity.generation)
  }

  lemma Extend(history: seq<Change>, c: Change)
    ensures Fold(history + [c]) == ApplyChange(Fold(history), c)
    ensures BindsIncrease(history + [c]) <==>
      BindsIncrease(history) && (Binds(c) && c.entity.index in Generations(history) ==>
        Generations(history)[c.entity.index] < c.entity.generation)
    ensures Generations(history + [c]) ==
      if c.Reset? then map[]
      else if Binds(c) then Generations(history)[c.entity.index := c.entity.generation]
      else Generations(history)
    ensures forall key ::
      (OneShotCreates(history + [c], key) == OneShotCreates(history, key) + (if CreatesOneShot(c, key) then 1 else 0))
  {
    var longer := history + [c];
    assert longer[..|longer| - 1] == history && longer[|longer| - 1] == c;
  }

  // ---- entries ------------------------------------------------------------------------

  ghost predicate ShownKey(entries: seq<Entry>, key: EventKey) {
    exists i :: 0 <= i < |entries| && KeyAt(entries, i) == key && Shown(entries[i])
  }

  /** The consumer's view is exactly the live, revocable entries with their current payloads. */
  ghost predicate Shows(view: map<EventKey, Payload>, entries: seq<Entry>) {
    && (forall i :: 0 <= i < |entries| && Shown(entries[i]) ==>
          KeyAt(entries, i) in view && entries[i].payload == Some(view[KeyAt(entries, i)]))
    && (forall key :: key in view ==> ShownKey(entries, key))
  }

  /** The fence of the entity an entry is bound to; a superseded entry is expired. */
  predicate BoundOk(bindings: map<nat, Binding>, e: Entry) {
    e.binding.Some? ==>
      var entity := e.binding.value;
      && e.decision == Accepted
      && entity.index in bindings
      && entity.generation <= bindings[entity.index].entity.generation
      && (entity.generation == bindings[entity.index].entity.generation ==>
        bindings[entity.index].key == e.identity.key)
      && (entity.generation < bindings[entity.index].entity.generation ==> e.phase == Expired)
  }

  predicate EntryOk(j: Journal, e: Entry) {
    && (e.decision == Rejected <==> e.phase == Refused)
    && (e.payload.Some? <==> e.phase == Live)
    && (e.phase == Live || e.phase == ReplayAbsent ==> e.lifetime.Some? && e.delivered)
    && (e.identity.key.action in j.rejected ==> e.phase != Live && e.decision != Accepted)
    && e.identity.key.action.connection == j.scope.connection
    && e.identity.key.action.stream == j.scope.stream
    && e.identity.key.action.command > j.retired
    && e.identity.originTick <= j.now
    && BoundOk(j.bindings, e)
  }

  /** The fenced event is retired or still holds the fenced entity. */
  ghost predicate Holds(j: Journal, b: Binding) {
    || b.key.action.command <= j.retired
    || exists i :: 0 <= i < |j.entries| && KeyAt(j.entries, i) == b.key && j.entries[i].binding == Some(b.entity)
  }

  ghost predicate FencesOk(j: Journal) {
    forall index :: index in j.bindings ==>
      && j.bindings[index].entity.index == index
      && j.bindings[index].entity.generation > 0
      && Holds(j, j.bindings[index])
  }

  /** No two entries hold the same entity and generation. */
  ghost predicate BindingsDistinct(entries: seq<Entry>) {
    forall i, k :: 0 <= i < k < |entries| && entries[i].binding.Some? ==> entries[i].binding != entries[k].binding
  }

  ghost predicate Structured(j: Journal) {
    && Sorted(j.entries)
    && (forall i :: 0 <= i < |j.entries| ==> EntryOk(j, j.entries[i]))
    && FencesOk(j)
    && BindingsDistinct(j.entries)
  }

  predicate SpentEntry(e: Entry, key: EventKey) {
    e.identity.key == key && e.delivered && e.lifetime.Some? && e.lifetime.value.delivery == OneShot
  }

  /** A one-shot that was played: its entry remembers it, or the key can never be valid again. */
  ghost predicate Spent(j: Journal, key: EventKey) {
    || (exists i :: 0 <= i < |j.entries| && SpentEntry(j.entries[i], key))
    || (JournalScope(key.action.connection, key.action.stream) == j.scope && key.action.command <= j.retired)
    || ScopeLess(JournalScope(key.action.connection, key.action.stream), j.scope)
  }

  ghost predicate OneShotsOk(j: Journal, history: seq<Change>) {
    forall key :: OneShotCreates(history, key) <= 1 && (OneShotCreates(history, key) == 1 ==> Spent(j, key))
  }

  ghost function FenceGenerations(bindings: map<nat, Binding>): map<nat, nat> {
    map index | index in bindings :: bindings[index].entity.generation
  }

  ghost predicate StreamOk(j: Journal, history: seq<Change>) {
    && Shows(Fold(history), j.entries)
    && OneShotsOk(j, history)
    && BindsIncrease(history)
    && Generations(history) == FenceGenerations(j.bindings)
  }

  ghost predicate Inv(j: Journal, history: seq<Change>) {
    Structured(j) && StreamOk(j, history)
  }

  // ---- how one entry may move -----------------------------------------------------------

  /** Terminal decisions, bindings, lifetimes and retirement are never undone. */
  predicate Kept(e: Entry, e': Entry) {
    && e'.identity == e.identity
    && (e.lifetime.Some? ==> e'.lifetime == e.lifetime)
    && (e.delivered ==> e'.delivered)
    && (e.binding.Some? ==> e'.binding == e.binding)
    && (e.decision != Unresolved ==> e'.decision == e.decision)
    && (e.phase == Expired ==> e'.phase == Expired || e'.phase == Refused)
    && (e.phase == Refused ==> e'.phase == Refused)
  }

  /** The emitted change, if any, is what the consumer needs to follow the entry. */
  predicate Explains(e: Entry, e': Entry, emitted: seq<Change>) {
    if emitted == [] then Shown(e) == Shown(e') && (Shown(e) ==> e'.payload == e.payload)
    else
      && |emitted| == 1
      && match emitted[0]
         case Confirm(key) => Shown(e) == Shown(e') && (Shown(e) ==> e'.payload == e.payload)
         case Cancel(key, _) => key == e.identity.key && !Shown(e')
         case Create(event, _, _) =>
           && event.identity.key == e.identity.key
           && e'.lifetime.Some? && e'.lifetime.value.delivery == event.delivery
           && (if event.delivery == OneShot then !e.delivered && e'.delivered && !Shown(e) && !Shown(e')
               else Shown(e') && e'.payload == Some(event.payload))
         case Update(event) =>
           && event.identity.key == e.identity.key
           && (if event.delivery == OneShot then !Shown(e) && !Shown(e')
               else Shown(e') && e'.payload == Some(event.payload))
         case _ => false
  }

  function Replaced(j: Journal, i: nat, e: Entry): Journal
    requires i < |j.entries|
  {
    j.(entries := j.entries[i := e])
  }

  lemma SortedKeys(entries: seq<Entry>, i: nat, k: nat)
    requires Sorted(entries) && i < |entries| && k < |entries| && KeyAt(entries, i) == KeyAt(entries, k)
    ensures i == k
  {
  }

  lemma ReplaceStructured(j: Journal, i: nat, e': Entry)
    requires Structured(j) && i < |j.entries|
    requires EntryOk(j, e') && e'.identity == j.entries[i].identity && e'.binding == j.entries[i].binding
    ensures Structured(Replaced(j, i, e'))
  {
    var after := Replaced(j, i, e');
    forall a, b | 0 <= a < b < |after.entries| ensures Less(KeyAt(after.entries, a), KeyAt(after.entries, b)) {
      assert KeyAt(after.entries, a) == KeyAt(j.entries, a) && KeyAt(after.entries, b) == KeyAt(j.entries, b);
    }
    forall k | 0 <= k < |after.entries| ensures EntryOk(after, after.entries[k]) {
      assert EntryOk(j, if k == i then e' else j.entries[k]);
    }
    forall index | index in after.bindings ensures Holds(after, after.bindings[index]) {
      assert Holds(j, j.bindings[index]);
      var b := j.bindings[index];
      if k :| 0 <= k < |j.entries| && KeyAt(j.entries, k) == b.key && j.entries[k].binding == Some(b.entity) {
        assert KeyAt(after.entries, k) == b.key && after.entries[k].binding == Some(b.entity);
      }
    }
  }

  lemma ReplaceShows(entries: seq<Entry>, i: nat, e': Entry, view: map<EventKey, Payload>, emitted: seq<Change>)
    requires Sorted(entries) && i < |entries| && Shows(view, entries)
    requires e'.identity == entries[i].identity && Explains(entries[i], e', emitted)
    ensures Shows(if emitted == [] then view else ApplyChange(view, emitted[0]), entries[i := e'])
  {
    var after := entries[i := e'];
    var seen := if emitted == [] then view else ApplyChange(view, emitted[0]);
    forall k | 0 <= k < |after| && Shown(after[k])
      ensures KeyAt(after, k) in seen && after[k].payload == Some(seen[KeyAt(after, k)])
    {
      assert KeyAt(after, k) == KeyAt(entries, k);
      if k != i {
        assert KeyAt(entries, k) != KeyAt(entries, i) by {
          if KeyAt(entries, k) == KeyAt(entries, i) {
            SortedKeys(entries, i, k);
          }
        }
      }
    }
    forall key | key in seen ensures ShownKey(after, key) {
      if key == entries[i].identity.key && Shown(e') {
        assert KeyAt(after, i) == key;
      } else {
        assert key in view;
        var k :| 0 <= k < |entries| && KeyAt(entries, k) == key && Shown(entries[k]);
        assert k != i ==> KeyAt(after, k) == key && Shown(after[k]);
      }
    }
  }

  /** An entry that has not been delivered was never played as a one-shot. */
  lemma NeverPlayed(j: Journal, history: seq<Change>, i: nat)
    requires Sorted(j.entries) && OneShotsOk(j, history)
    requires i < |j.entries| && EntryOk(j, j.entries[i]) && !j.entries[i].delivered
    ensures OneShotCreates(history, KeyAt(j.entries, i)) == 0
  {
    var key := KeyAt(j.entries, i);
    if OneShotCreates(history, key) == 1 {
      var k :| 0 <= k < |j.entries| && SpentEntry(j.entries[k], key);
      SortedKeys(j.entries, i, k);
    }
  }

  lemma ReplaceSpent(j: Journal, i: nat, e': Entry, key: EventKey)
    requires i < |j.entries| && Kept(j.entries[i], e') && Spent(j, key)
    ensures Spent(Replaced(j, i, e'), key)
  {
    var after := Replaced(j, i, e');
    if k :| 0 <= k < |j.entries| && SpentEntry(j.entries[k], key) {
      assert SpentEntry(after.entries[k], key);
    }
  }

  lemma ReplaceOneShots(j: Journal, i: nat, e': Entry, history: seq<Change>, emitted: seq<Change>)
    requires Sorted(j.entries) && OneShotsOk(j, history)
    requires i < |j.entries| && EntryOk(j, j.entries[i]) && Kept(j.entries[i], e')
    requires Explains(j.entries[i], e', emitted)
    ensures OneShotsOk(Replaced(j, i, e'), history + emitted)
  {
    var after := Replaced(j, i, e');
    if emitted != [] {
      Extend(history, emitted[0]);
      assert emitted == [emitted[0]];
    } else {
      assert history + emitted == history;
    }
    forall key
      ensures OneShotCreates(history + emitted, key) <= 1
      ensures OneShotCreates(history + emitted, key) == 1 ==> Spent(after, key)
    {
      if OneShotCreates(history, key) == 1 {
        ReplaceSpent(j, i, e', key);
      }
      if emitted != [] && CreatesOneShot(emitted[0], key) {
        NeverPlayed(j, history, i);
        assert SpentEntry(after.entries[i], key);
      }
    }
  }

  /** One entry moves, its binding untouched, and the stream says so: the invariant holds on. */
  lemma ReplaceKeeps(j: Journal, history: seq<Change>, i: nat, e': Entry, emitted: seq<Change>)
    requires Inv(j, history) && i < |j.entries|
    requires EntryOk(j, e') && Kept(j.entries[i], e') && e'.binding == j.entries[i].binding
    requires Explains(j.entries[i], e', emitted)
    ensures Inv(Replaced(j, i, e'), history + emitted)
  {
    ReplaceStructured(j, i, e');
    ReplaceShows(j.entries, i, e', Fold(history), emitted);
    ReplaceOneShots(j, i, e', history, emitted);
    if emitted != [] {
      Extend(history, emitted[0]);
      assert emitted == [emitted[0]];
    } else {
      assert history + emitted == history;
    }
  }

  // ---- the relation between an earlier and a later journal of one scope -----------------

  ghost predicate Carried(e: Entry, entries: seq<Entry>) {
    exists i :: 0 <= i < |entries| && Kept(e, entries[i])
  }

  /** Nothing decided is undone: entries persist until their command is retired, fences only rise. */
  ghost predicate Later(j: Journal, j': Journal) {
    && j'.scope == j.scope && j'.limits == j.limits
    && j.now <= j'.now && j.retired <= j'.retired
    && (forall i :: 0 <= i < |j.entries| && KeyAt(j.entries, i).action.command > j'.retired ==>
      Carried(j.entries[i], j'.entries))
    && (forall index :: index in j.bindings ==>
          index in j'.bindings && j.bindings[index].entity.generation <= j'.bindings[index].entity.generation)
    && (forall action :: action in j.rejected && action.command > j'.retired ==> action in j'.rejected)
  }

  lemma LaterTrans(a: Journal, b: Journal, c: Journal)
    requires Later(a, b) && Later(b, c)
    ensures Later(a, c)
  {
    forall i | 0 <= i < |a.entries| && KeyAt(a.entries, i).action.command > c.retired
      ensures Carried(a.entries[i], c.entries)
    {
      assert Carried(a.entries[i], b.entries);
      var k :| 0 <= k < |b.entries| && Kept(a.entries[i], b.entries[k]);
      assert KeyAt(b.entries, k) == KeyAt(a.entries, i);
      assert Carried(b.entries[k], c.entries);
      var l :| 0 <= l < |c.entries| && Kept(b.entries[k], c.entries[l]);
      assert Kept(a.entries[i], c.entries[l]);
    }
  }

  lemma LaterSame(j: Journal)
    ensures Later(j, j)
  {
    forall i | 0 <= i < |j.entries| ensures Carried(j.entries[i], j.entries) {
      assert Kept(j.entries[i], j.entries[i]);
    }
  }

  lemma ReplaceLater(j: Journal, i: nat, e': Entry)
    requires i < |j.entries| && Kept(j.entries[i], e')
    ensures Later(j, Replaced(j, i, e'))
  {
    var after := Replaced(j, i, e');
    forall k | 0 <= k < |j.entries| ensures Carried(j.entries[k], after.entries) {
      assert Kept(j.entries[k], after.entries[k]);
    }
  }
}
