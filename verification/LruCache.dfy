/** The reference-counted LRU cache: items in use are not in the history list; an item whose
    last handle is released goes to the front of the list, and the back makes room for it. */
module LruCache {

  type Key = nat

  /** `listed` says that the record's list iterator is not the end iterator. */
  datatype Record = Record(refCounter: nat, listed: bool)

  function Without(list: seq<Key>, k: Key): (r: seq<Key>)
    ensures forall x :: x in r <==> x in list && x != k
    ensures |r| <= |list|
  {
    if list == [] then []
    else if list[0] == k then Without(list[1..], k)
    else [list[0]] + Without(list[1..], k)
  }

  /** Taking a key out of a list without repetition is cutting it out where it stands. */
  lemma {:induction false} WithoutCuts(list: seq<Key>, i: nat)
    requires i < |list| && forall j, k | 0 <= j < k < |list| :: list[j] != list[k]
    ensures Without(list, list[i]) == list[..i] + list[i + 1..]
    decreases |list|
  {
    if i == 0 {
      WithoutAbsent(list[1..], list[0]);
      assert list[..0] + list[1..] == list[1..];
    } else {
      WithoutCuts(list[1..], i - 1);
      assert list[..i] + list[i + 1..] == [list[0]] + (list[1..][..i - 1] + list[1..][i..]);
    }
  }

  lemma {:induction false} WithoutAbsent(list: seq<Key>, k: Key)
    requires k !in list
    ensures Without(list, k) == list
    decreases |list|
  {
    if list != [] {
      WithoutAbsent(list[1..], k);
    }
  }

  /** More recently released items come first. */
  ghost predicate ByRelease(list: seq<Key>, released: map<Key, nat>) {
    && (forall i | 0 <= i < |list| :: list[i] in released)
    && (forall i, j {:trigger list[i], list[j]} | 0 <= i < j < |list| :: released[list[i]] > released[list[j]])
  }

  /** Counts equal outstanding handles; an item is in the history, once, exactly when nobody
      holds it.  The keys in `limbo` are on their way into the history or out of it. */
  ghost predicate CacheOk(storage: map<Key, Record>, lru: seq<Key>, handles: multiset<Key>, released: map<Key, nat>,
                          clock: nat, limbo: set<Key>) {
    && (forall k | k in handles :: k in storage)
    && (forall k | k in storage :: storage[k].refCounter == handles[k] && (storage[k].listed <==> k in lru))
    && (forall k | k in lru :: k in storage && handles[k] == 0 && k !in limbo)
    && (forall k | k in storage && k !in handles && k !in limbo :: k in lru)
    && (forall k | k in limbo :: k in storage)
    && ByRelease(lru, released)
    && (forall k | k in released :: released[k] < clock)
  }

  /** `victim` was released before everything else in the list. */
  ghost predicate Oldest(list: seq<Key>, released: map<Key, nat>, victim: Key) {
    victim in released && forall x | x in list && x != victim :: x in released && released[x] > released[victim]
  }

  lemma Created(storage: map<Key, Record>, lru: seq<Key>, handles: multiset<Key>, released: map<Key, nat>, clock: nat, k: Key)
    requires CacheOk(storage, lru, handles, released, clock, {}) && k !in storage
    ensures CacheOk(storage[k := Record(0, false)], lru, handles, released, clock, {k})
  {
  }

  lemma {:induction false} Unlisted(storage: map<Key, Record>, lru: seq<Key>, handles: multiset<Key>, released: map<Key, nat>, clock: nat, i: nat)
    requires CacheOk(storage, lru, handles, released, clock, {}) && i < |lru|
    ensures lru[i] in storage && Without(lru, lru[i]) == lru[..i] + lru[i + 1..]
    ensures CacheOk(storage[lru[i] := storage[lru[i]].(listed := false)], lru[..i] + lru[i + 1..], handles, released, clock, {lru[i]})
  {
    hide Without;
    CutKeepsOrder(lru, released, i);
    WithoutCuts(lru, i);
    hide ByRelease;
    var cut := Without(lru, lru[i]);
    assert forall x :: x in cut <==> x in lru && x != lru[i];
  }

  lemma Acquired(storage: map<Key, Record>, lru: seq<Key>, handles: multiset<Key>, released: map<Key, nat>, clock: nat,
                 limbo: set<Key>, k: Key)
    requires CacheOk(storage, lru, handles, released, clock, limbo) && k in storage && limbo <= {k}
    requires k in limbo || k in handles
    ensures CacheOk(storage[k := storage[k].(refCounter := storage[k].refCounter + 1)], lru, handles + multiset{k}, released, clock, {})
  {
  }

  lemma Released(storage: map<Key, Record>, lru: seq<Key>, handles: multiset<Key>, released: map<Key, nat>, clock: nat, k: Key)
    requires CacheOk(storage, lru, handles, released, clock, {}) && k in handles
    ensures k in storage && storage[k].refCounter == handles[k]
    ensures CacheOk(storage[k := storage[k].(refCounter := storage[k].refCounter - 1)], lru, handles - multiset{k}, released, clock,
                    if handles[k] == 1 then {k} else {})
  {
  }

  lemma Evicted(storage: map<Key, Record>, lru: seq<Key>, handles: multiset<Key>, released: map<Key, nat>, clock: nat, limbo: set<Key>)
    requires CacheOk(storage, lru, handles, released, clock, limbo) && lru != []
    ensures var victim := lru[|lru| - 1];
            && victim !in limbo && victim in storage && handles[victim] == 0
            && CacheOk(storage - {victim}, lru[..|lru| - 1], handles, released, clock, limbo)
            && Oldest(lru, released, victim)
  {
    var n := |lru| - 1;
    CutKeepsOrder(lru, released, n);
    assert lru[..n] + lru[n + 1..] == lru[..n];
    forall x | x in lru
      ensures x in lru[..n] || x == lru[n]
    {
    }
  }

  lemma Shelved(storage: map<Key, Record>, lru: seq<Key>, handles: multiset<Key>, released: map<Key, nat>, clock: nat, k: Key)
    requires CacheOk(storage, lru, handles, released, clock, {k}) && k !in handles
    ensures k in storage && k !in lru
    ensures CacheOk(storage[k := storage[k].(listed := true)], [k] + lru, handles, released[k := clock], clock + 1, {})
  {
  }

  lemma CutKeepsOrder(list: seq<Key>, released: map<Key, nat>, i: nat)
    requires i < |list| && ByRelease(list, released)
    ensures ByRelease(list[..i] + list[i + 1..], released)
    ensures forall j, k | 0 <= j < k < |list| :: list[j] != list[k]
  {
  }

  class ConcurrentLruCache {
    const limit: nat
    var storage: map<Key, Record>
    var lru: seq<Key>
    ghost var handles: multiset<Key>       // handles given out and not yet released
    ghost var released: map<Key, nat>      // when each key was last released
    ghost var clock: nat

    ghost predicate Valid()
      reads this
    {
      limit >= 1 && |lru| <= limit && CacheOk(storage, lru, handles, released, clock, {})
    }

    constructor (limit: nat)
      requires limit >= 1
      ensures Valid() && this.limit == limit && storage == map[] && handles == multiset{}
    {
      this.limit := limit;
      storage, lru, handles, released, clock := map[], [], multiset{}, map[], 0;
    }

    /** A new handle to `k`: the item is created if absent, and leaves the history if there. */
    method RetrieveSerial(k: Key) returns (isNew: bool)
      requires Valid()
      modifies this
      ensures Valid() && handles == old(handles) + multiset{k}
      ensures isNew <==> k !in old(storage)
      ensures storage.Keys == old(storage).Keys + {k}
      ensures lru == Without(old(lru), k) && released == old(released)
    {
      hide CacheOk;
      hide Without;
      ListedIffInLru(storage, lru, handles, released, clock, k);
      ghost var limbo: set<Key> := {};
      isNew := k !in storage;
      if isNew {
        Created(storage, lru, handles, released, clock, k);
        WithoutAbsent(lru, k);
        limbo := {k};
        storage := storage[k := Record(0, false)];
      } else if storage[k].listed {
        Unlist(k);
        limbo := {k};
      } else {
        WithoutAbsent(lru, k);
      }
      assert storage.Keys == old(storage).Keys + {k};
      Acquired(storage, lru, handles, released, clock, limbo, k);
      storage := storage[k := storage[k].(refCounter := storage[k].refCounter + 1)];
      handles := handles + multiset{k};
    }

    /** Takes an item out of the history. */
    method Unlist(k: Key)
      requires limit >= 1 && |lru| <= limit && CacheOk(storage, lru, handles, released, clock, {}) && k in lru
      modifies this`lru, this`storage
      ensures |lru| <= limit && CacheOk(storage, lru, handles, released, clock, {k})
      ensures lru == Without(old(lru), k) && storage.Keys == old(storage).Keys
    {
      var i := Find(k);
      Unlisted(storage, lru, handles, released, clock, i);
      hide CacheOk;
      lru := lru[..i] + lru[i + 1..];
      storage := storage[k := storage[k].(listed := false)];
    }

    /** Where the record's iterator points. */
    method Find(k: Key) returns (i: nat)
      requires k in lru
      ensures i < |lru| && lru[i] == k
    {
      i := 0;
      while lru[i] != k
        invariant i < |lru| && k in lru[i..]
        decreases |lru| - i
      {
        i := i + 1;
      }
    }

    /** Releases a handle to `k`.  With the last one, `k` becomes the most recent item of the
        history; if that was full, the item released least recently is gone, and only that. */
    method SignalEndOfUsageSerial(k: Key)
      requires Valid() && k in handles
      modifies this
      ensures Valid() && handles == old(handles) - multiset{k}
      ensures old(handles)[k] > 1 ==> lru == old(lru) && storage.Keys == old(storage).Keys && released == old(released)
      ensures old(handles)[k] == 1 ==> released == old(released)[k := old(clock)]
      ensures old(handles)[k] == 1 && |old(lru)| < limit ==> lru == [k] + old(lru) && storage.Keys == old(storage).Keys
      ensures old(handles)[k] == 1 && |old(lru)| == limit ==>
        && lru == [k] + old(lru)[..limit - 1] && storage.Keys == old(storage).Keys - {old(lru)[limit - 1]}
        && old(lru)[limit - 1] != k && Oldest(old(lru), old(released), old(lru)[limit - 1])
    {
      Released(storage, lru, handles, released, clock, k);
      hide CacheOk;
      hide Oldest;
      storage := storage[k := storage[k].(refCounter := storage[k].refCounter - 1)];
      handles := handles - multiset{k};
      assert storage.Keys == old(storage).Keys;
      if storage[k].refCounter == 0 {
        if |lru| >= limit {
          EvictFor(k);
        }
        Shelve(k);
      }
    }

    method Shelve(k: Key)
      requires limit >= 1 && |lru| < limit && k !in handles && CacheOk(storage, lru, handles, released, clock, {k})
      modifies this`lru, this`storage, this`released, this`clock
      ensures Valid() && lru == [k] + old(lru) && storage.Keys == old(storage).Keys && released == old(released)[k := old(clock)]
    {
      Shelved(storage, lru, handles, released, clock, k);
      hide CacheOk;
      lru := [k] + lru;
      storage := storage[k := storage[k].(listed := true)];
      released := released[k := clock];
      clock := clock + 1;
    }

    /** The eviction loop: makes room for one more item. */
    method EvictFor(k: Key)
      requires limit >= 1 && |lru| == limit && CacheOk(storage, lru, handles, released, clock, {k})
      modifies this`lru, this`storage
      ensures CacheOk(storage, lru, handles, released, clock, {k})
      ensures lru == old(lru)[..limit - 1] && old(lru)[limit - 1] != k
      ensures storage.Keys == old(storage).Keys - {old(lru)[limit - 1]}
      ensures Oldest(old(lru), released, old(lru)[limit - 1])
    {
      hide CacheOk;
      hide Oldest;
      ghost var before, all := lru, storage;
      Evicted(storage, lru, handles, released, clock, {k});
      var toEvict := 1 + |lru| - limit;
      var i := 0;
      while i < toEvict
        invariant i <= toEvict == 1
        invariant lru == before[..|before| - i] && storage == if i == 0 then all else all - {before[limit - 1]}
      {
        var victim := lru[|lru| - 1];
        lru := lru[..|lru| - 1];
        storage := storage - {victim};
        i := i + 1;
      }
    }
  }

  lemma ListedIffInLru(storage: map<Key, Record>, lru: seq<Key>, handles: multiset<Key>, released: map<Key, nat>, clock: nat, k: Key)
    requires CacheOk(storage, lru, handles, released, clock, {})
    ensures k in storage ==> (storage[k].listed <==> k in lru) && (k in lru || k in handles)
    ensures k !in storage ==> k !in lru
  {
  }
}
