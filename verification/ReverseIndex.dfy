/**
 A persistent reverse list: for every key the set of members registered under it.
 `members` is the forward relation (member to its keys); the index is never allowed
 to keep a key without members.
 */
module ReverseIndex {
  import opened Sums

  ghost predicate Mirrors<K(!new), E(!new)>(index: map<K, set<E>>, members: map<E, set<K>>) {
    && (forall k :: k in index ==> index[k] != {})
    && (forall k, e :: k in index && e in index[k] ==> e in members && k in members[e])
    && (forall e, k :: e in members && k in members[e] ==> k in index && e in index[k])
  }

  /** Everything some member is registered under. */
  ghost function Occupied<K(!new), E(!new)>(members: map<E, set<K>>): (keys: set<K>) {
    set e, k | e in members && k in members[e] :: k
  }

  /** The members registered under `k`, found by looking at all of them. */
  ghost function Holders<K, E>(members: map<E, set<K>>, k: K): (holders: set<E>) {
    set e | e in members && k in members[e]
  }

  /** The list stored under `k`, empty when there is none. */
  function Listed<K, E>(index: map<K, set<E>>, k: K): set<E> {
    if k in index then index[k] else {}
  }

  /** `index.entry(k).or_default().insert(e)`. */
  function Insert<K, E>(index: map<K, set<E>>, k: K, e: E): map<K, set<E>> {
    index[k := Listed(index, k) + {e}]
  }

  /** `remove_member`: drops `e` from the list of `k`, and the list when it empties. */
  function Drop<K, E>(index: map<K, set<E>>, k: K, e: E): map<K, set<E>> {
    if k !in index then index
    else if index[k] - {e} == {} then index - {k}
    else index[k := index[k] - {e}]
  }

  lemma InsertMirrors<K(!new), E(!new)>(index: map<K, set<E>>, members: map<E, set<K>>, k: K, e: E)
    requires Mirrors(index, members) && e in members
    ensures Mirrors(Insert(index, k, e), members[e := members[e] + {k}])
  {
    var after := Insert(index, k, e);
    assert e in after[k];
  }

  lemma DropMirrors<K(!new), E(!new)>(index: map<K, set<E>>, members: map<E, set<K>>, k: K, e: E)
    requires Mirrors(index, members) && e in members && k in members[e]
    ensures Mirrors(Drop(index, k, e), members[e := members[e] - {k}])
  {
    var after := Drop(index, k, e);
    var rest := members[e := members[e] - {k}];
    forall e', k' | e' in rest && k' in rest[e'] ensures k' in after && e' in after[k'] {
      assert e' in index[k'];
      if k' == k {
        assert e' in index[k] - {e};
      }
    }
    forall k', e' | k' in after && e' in after[k'] ensures e' in rest && k' in rest[e'] {
      assert e' in index[k'];
    }
  }

  /** A mirroring index answers every lookup as a scan of all members would. */
  lemma ListedIsHolders<K(!new), E(!new)>(index: map<K, set<E>>, members: map<E, set<K>>, k: K)
    requires Mirrors(index, members)
    ensures Listed(index, k) == Holders(members, k)
  {
    forall e ensures e in Listed(index, k) <==> e in Holders(members, k) {
    }
  }

  lemma KeysAreOccupied<K(!new), E(!new)>(index: map<K, set<E>>, members: map<E, set<K>>)
    requires Mirrors(index, members)
    ensures index.Keys == Occupied(members)
  {
    forall k ensures k in index.Keys <==> k in Occupied(members) {
      if k in index {
        var e :| e in index[k];
        assert k in members[e];
      }
    }
  }

  /** Only one index mirrors a given registration: nothing depends on its history. */
  lemma MirrorIsUnique<K(!new), E(!new)>(a: map<K, set<E>>, b: map<K, set<E>>, members: map<E, set<K>>)
    requires Mirrors(a, members) && Mirrors(b, members)
    ensures a == b
  {
    KeysAreOccupied(a, members);
    KeysAreOccupied(b, members);
    forall k | k in a ensures a[k] == b[k] {
      ListedIsHolders(a, members, k);
      ListedIsHolders(b, members, k);
    }
  }

  /** Keys held by `e` alone that it does not want again. */
  ghost function Freed<K(!new), E(!new)>(index: map<K, set<E>>, members: map<E, set<K>>, e: E, wanted: set<K>): set<K> {
    set k | k in index && e in members && k in members[e] && k !in wanted && |index[k]| == 1
  }

  /**
   The number of keys after re-registering one member can be predicted from the index
   as it stands: keys only the member held and no longer wants are freed, keys nobody
   held are added.
   */
  lemma PredictedKeys<K(!new), E(!new)>(index: map<K, set<E>>, members: map<E, set<K>>, e: E, wanted: set<K>)
    requires Mirrors(index, members)
    ensures |Occupied(members[e := wanted])| == |index| - |Freed(index, members, e, wanted)| + |wanted - index.Keys|
  {
    var freed := Freed(index, members, e, wanted);
    forall k ensures k in Occupied(members[e := wanted]) <==> k in (index.Keys - freed) + (wanted - index.Keys) {
      StillOccupied(index, members, e, wanted, k);
    }
    assert Occupied(members[e := wanted]) == (index.Keys - freed) + (wanted - index.Keys);
    ReplacedSize(index.Keys, freed, wanted - index.Keys);
  }

  lemma ReplacedSize<K>(keys: set<K>, freed: set<K>, added: set<K>)
    requires freed <= keys && keys !! added
    ensures |(keys - freed) + added| == |keys| - |freed| + |added|
  {
    assert keys == (keys - freed) + freed;
  }

  lemma StillOccupied<K(!new), E(!new)>(
    index: map<K, set<E>>, members: map<E, set<K>>, e: E, wanted: set<K>, k: K)
    requires Mirrors(index, members)
    ensures k in Occupied(members[e := wanted]) <==>
            (k in index && k !in Freed(index, members, e, wanted)) || k in wanted
  {
    var after := members[e := wanted];
    if k in wanted {
      assert k in after[e];
    } else if k !in index {
      assert k !in Occupied(after);
    } else if k in Freed(index, members, e, wanted) {
      if k in Occupied(after) {
        var other :| other in after && k in after[other];
        assert {e, other} <= index[k];
        SubsetSize({e, other}, index[k]);
      }
    } else {
      var holder :| holder in index[k];
      if holder == e {
        assert index[k] != {e};
        NotAlone(index[k], e);
        var other :| other in index[k] && other != e;
        assert k in after[other];
      } else {
        assert k in after[holder];
      }
    }
  }

  lemma NotAlone<E>(s: set<E>, e: E)
    requires e in s && s != {e}
    ensures exists other :: other in s && other != e
  {
    var rest := s - {e};
    assert s == rest + {e};
    assert rest != {};
    var other :| other in rest;
  }

  /** Registers `e` under every wanted key, one list at a time. */
  lemma InsertTurn<K(!new), E(!new)>(
    index: map<K, set<E>>, members: map<E, set<K>>, wanted: set<K>, rest: set<K>, k: K, e: E)
    requires Mirrors(index, members[e := wanted - rest]) && k in rest && rest <= wanted
    ensures Mirrors(Insert(index, k, e), members[e := wanted - (rest - {k})])
  {
    var before := members[e := wanted - rest];
    InsertMirrors(index, before, k, e);
    assert (wanted - rest) + {k} == wanted - (rest - {k});
    assert before[e := before[e] + {k}] == members[e := wanted - (rest - {k})];
  }

  method InsertAll<K(==, !new), E(==, !new)>(index: map<K, set<E>>, wanted: set<K>, e: E, ghost members: map<E, set<K>>)
    returns (after: map<K, set<E>>)
    requires Mirrors(index, members) && e !in members
    ensures Mirrors(after, members[e := wanted])
  {
    after := index;
    var rest := wanted;
    while rest != {}
      invariant rest <= wanted
      invariant Mirrors(after, members[e := wanted - rest])
      decreases |rest|
    {
      var k :| k in rest;
      InsertTurn(after, members, wanted, rest, k, e);
      after := Insert(after, k, e);
      rest := rest - {k};
    }
    assert wanted - {} == wanted;
  }

  /** Withdraws `e` from every list it is registered in. */
  method DropAll<K(==, !new), E(==, !new)>(index: map<K, set<E>>, held: set<K>, e: E, ghost members: map<E, set<K>>)
    returns (after: map<K, set<E>>)
    requires Mirrors(index, members) && e in members && members[e] == held
    ensures Mirrors(after, members - {e})
  {
    after := index;
    var rest := held;
    assert members[e := rest] == members;
    while rest != {}
      invariant Mirrors(after, members[e := rest])
      decreases |rest|
    {
      var k :| k in rest;
      DropMirrors(after, members[e := rest], k, e);
      after := Drop(after, k, e);
      assert members[e := rest][e := rest - {k}] == members[e := rest - {k}];
      rest := rest - {k};
    }
    EmptiedIsGone(after, members, e);
  }

  lemma EmptiedIsGone<K(!new), E(!new)>(index: map<K, set<E>>, members: map<E, set<K>>, e: E)
    requires Mirrors(index, members[e := {}])
    ensures Mirrors(index, members - {e})
  {
    var emptied := members[e := {}];
    forall k, e' | k in index && e' in index[k] ensures e' in members - {e} && k in (members - {e})[e'] {
      assert e' in emptied && k in emptied[e'];
    }
    forall e', k | e' in members - {e} && k in (members - {e})[e'] ensures k in index && e' in index[k] {
      assert k in emptied[e'];
    }
  }
}
