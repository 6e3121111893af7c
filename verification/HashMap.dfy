/** The hash table object: searching splits buckets on the way, inserting may append a
    segment, and other threads work on the table between the lock scopes of an operation.
    The whole-table rehash runs alone. */
module HashMap {
  import opened BucketChain
  import opened Common
  import opened HashTable

  class ConcurrentHashMap {
    var buckets: Table
    var mySize: nat
    ghost var contents: map<Key, int>

    ghost predicate Valid()
      reads this
    {
      TableOk(buckets) && Represents(buckets, contents) && LastUniform(buckets) && mySize == |contents|
    }

    constructor ()
      ensures Valid() && contents == map[]
    {
      buckets, mySize, contents := [Items([]), Items([])], 0, map[];
    }

    /** search_bucket: the position of the key in a bucket's list, or its length. */
    static method SearchBucket(key: Key, list: seq<Item>) returns (n: nat)
      ensures IsPosition(list, key, n)
    {
      n := 0;
      while n < |list| && list[n].key != key
        invariant n <= |list| && forall k | 0 <= k < n :: list[k].key != key
      {
        n := n + 1;
      }
    }

    // -------------------------------------------------------------- splitting on demand

    /** bucket_accessor::acquire: a bucket that waits is split off its parent first. */
    method Acquire(i: nat, ghost marked: set<nat>)
      requires i < |buckets| && Represents(Unmarked(buckets, marked), contents) && forall m | m in marked :: i < m
      requires forall m | m in marked :: m < |buckets| && buckets[m] == Items([])
      modifies this`buckets
      ensures Represents(Unmarked(buckets, marked), contents) && |buckets| == |old(buckets)|
      ensures i < |buckets| && buckets[i].Items? && Evolves(Unmarked(old(buckets), marked), Unmarked(buckets, marked))
      ensures forall m | m in marked :: m < |buckets| && buckets[m] == Items([])
      decreases i, 1
    {
      if buckets[i].RehashReq? {
        RehashBucket(i, marked);
      }
    }

    /** Marks the bucket rehashed, acquires its parent, which may split in turn, and takes over
        the items that the full mask of this bucket selects. */
    method RehashBucket(i: nat, ghost marked: set<nat>)
      requires i < |buckets| && buckets[i].RehashReq?
      requires Represents(Unmarked(buckets, marked), contents) && forall m | m in marked :: i < m
      requires forall m | m in marked :: m < |buckets| && buckets[m] == Items([])
      modifies this`buckets
      ensures Represents(Unmarked(buckets, marked), contents) && |buckets| == |old(buckets)|
      ensures i < |buckets| && buckets[i].Items? && Evolves(Unmarked(old(buckets), marked), Unmarked(buckets, marked))
      ensures forall m | m in marked :: m < |buckets| && buckets[m] == Items([])
      decreases i, 0
    {
      ghost var before := Unmarked(buckets, marked);
      assert before[i].RehashReq? && i >= 2;
      buckets := buckets[i := Items([])];
      assert Unmarked(buckets, marked + {i}) == before;
      var p := i - Top(i);
      Acquire(p, marked + {i});
      ghost var table := Unmarked(buckets, marked + {i});
      ghost var kept, moved := SplitInto(i, p);
      SplitKeeps(table, contents, i, kept, moved);
      assert Unmarked(buckets, marked) == Split(table, i, kept, moved);
      SplitEvolves(table, i, kept, moved);
      EvolvesTransitive(before, table, Unmarked(buckets, marked));
    }

    /** The loop of rehash_bucket: unlinks what the mask selects and puts it in the new bucket. */
    method SplitInto(i: nat, p: nat) returns (ghost kept: seq<Item>, ghost moved: seq<Item>)
      requires 2 <= i < |buckets| && p < i && buckets[i] == Items([]) && buckets[p].Items? && NoRepeat(buckets[p].list)
      modifies this`buckets
      ensures buckets == old(buckets)[p := Items(kept)][i := Items(moved)]
      ensures IsSplit(i, old(buckets)[p].list, kept, moved)
    {
      ghost var list := buckets[p].list;
      kept, moved := list, [];
      var k := 0;
      while k < |buckets[p].list|
        invariant buckets == old(buckets)[p := Items(kept)][i := Items(moved)] && k <= |kept|
        invariant Halves(i, list, kept, moved) && forall n | 0 <= n < k :: !Selected(i, kept[n])
        decreases |kept| - k
      {
        var x := buckets[p].list[k];
        if Masked(x.key.hash, 2 * Top(i)) == i {
          HalvesNext(i, list, kept, moved, k);
          kept, moved := kept[..k] + kept[k + 1..], [x] + moved;
          buckets := buckets[p := Items(buckets[p].list[..k] + buckets[p].list[k + 1..])];
          buckets := buckets[i := Items([x] + buckets[i].list)];
        } else {
          k := k + 1;
        }
      }
    }

    // -------------------------------------------------------------- operations

    /** What other threads do in between, while this one holds the lock of bucket `locked`, if
        any.  Callers may rely on no more than this: the map is some map, the table has evolved
        up to `limit` buckets, and the locked bucket is as it was, no child having been split
        off it.  `ChangesKeep` shows that of whatever changes others make under their own locks.
        When `quiet` is set, nobody else is there. */
    method Others(ghost locked: Option<nat>, ghost limit: nat, ghost quiet: bool)
      requires Valid() && |buckets| <= limit && (locked.Some? ==> locked.value < |buckets| && buckets[locked.value].Items?)
      modifies this
      ensures Valid() && |buckets| <= limit && Evolves(old(buckets), buckets)
      ensures KeepsLocked(old(buckets), buckets, locked)
      ensures quiet ==> contents == old(contents)
    {
    }

    /** One access to a bucket: acquires it, which may split it off its parent, and searches it.
        The bucket stays locked, so what was found stays true. */
    method Locate(key: Key, m: nat, ghost limit: nat, ghost quiet: bool) returns (i: nat, n: nat)
      requires Valid() && m < |buckets| <= limit && Power(m + 1)
      modifies this
      ensures Valid() && |buckets| <= limit && Evolves(old(buckets), buckets)
      ensures i == Masked(key.hash, m + 1) && i < |buckets| && buckets[i].Items? && IsPosition(buckets[i].list, key, n)
      ensures quiet ==> contents == old(contents)
    {
      Others(None, limit, quiet);
      ghost var b := buckets;
      i := Masked(key.hash, m + 1);
      assert Unmarked(buckets, {}) == buckets;
      Acquire(i, {});
      assert Unmarked(buckets, {}) == buckets;
      EvolvesTransitive(old(buckets), b, buckets);
      n := SearchBucket(key, buckets[i].list);
      ghost var c := buckets;
      Others(Some(i), limit, quiet);
      EvolvesTransitive(old(buckets), c, buckets);
    }

    /** Upgrading to a writer lock gives up the bucket for a moment when it is contended. */
    method Upgrade(i: nat, ghost limit: nat, ghost quiet: bool) returns (contended: bool)
      requires Valid() && |buckets| <= limit && i < |buckets| && buckets[i].Items?
      modifies this
      ensures Valid() && |buckets| <= limit && Evolves(old(buckets), buckets) && i < |buckets| && buckets[i].Items?
      ensures !contended ==> buckets == old(buckets) && contents == old(contents)
      ensures quiet ==> contents == old(contents)
    {
      contended := false;
      EvolvesSame(buckets);
      if * {
        contended := true;
        Others(None, limit, quiet);
      }
    }

    /** One lock scope of lookup: searches the bucket that the mask `m` selects, and finds the key,
        or shows that it is nowhere, or must be repeated: after a mask race, or when the lock of
        the item found takes too long to get, which happens at most `left` times. */
    method LookupScope(opInsert: bool, key: Key, m: nat, left: nat, ghost limit: nat, ghost quiet: bool)
        returns (restart: bool, i: nat, n: nat, mNow: nat, leftNow: nat)
      requires Valid() && 1 <= m < |buckets| <= limit && Power(m + 1) && ClosedFrom(buckets, m + 1)
      modifies this
      ensures Valid() && Evolves(old(buckets), buckets) && (quiet ==> contents == old(contents))
      ensures 1 <= mNow < |buckets| <= limit && Power(mNow + 1) && ClosedFrom(buckets, mNow + 1)
      ensures leftNow <= left && (restart ==> leftNow < left || mNow > m)
      ensures !restart ==> i < |buckets| && buckets[i].Items? && IsPosition(buckets[i].list, key, n)
      ensures !restart && n >= |buckets[i].list| ==> Home(buckets, key.hash) == i
    {
      hide Represents;
      hide Evolves;
      hide ClosedFrom;
      hide IsPosition;
      hide Masked;
      hide Power;
      hide Home;
      TableIsOk(buckets, contents);
      restart, mNow, leftNow := false, m, left;
      ghost var b := buckets;
      EvolvesSame(b);
      i, n := Locate(key, m, limit, quiet);
      EvolvesOn(b, b, buckets, m + 1);
      if opInsert && n >= |buckets[i].list| {
        ghost var c := buckets;
        n := UpgradeToInsert(key, i, n, limit, quiet);
        EvolvesOn(b, c, buckets, m + 1);
      }
      if n >= |buckets[i].list| {
        restart, mNow := CheckMaskRace(key, m);
      } else if left > 0 {
        if * {
          restart, leftNow := true, left - 1;
          ghost var c := buckets;
          Others(None, limit, quiet);
          EvolvesTransitive(b, c, buckets);
          TableIsOk(buckets, contents);
          WholeClosed(buckets);
          mNow := |buckets| - 1;
        }
      }
    }

    /** After a contended upgrade the bucket is searched again, locked for writing now. */
    method UpgradeToInsert(key: Key, i: nat, n0: nat, ghost limit: nat, ghost quiet: bool) returns (n: nat)
      requires Valid() && |buckets| <= limit && i < |buckets| && buckets[i].Items? && IsPosition(buckets[i].list, key, n0)
      modifies this
      ensures Valid() && |buckets| <= limit && Evolves(old(buckets), buckets) && (quiet ==> contents == old(contents))
      ensures i < |buckets| && buckets[i].Items? && IsPosition(buckets[i].list, key, n)
    {
      hide Represents;
      hide Evolves;
      hide ClosedFrom;
      hide IsPosition;
      n := n0;
      ghost var b := buckets;
      var contended := Upgrade(i, limit, quiet);
      if contended {
        n := SearchBucket(key, buckets[i].list);
        ghost var c := buckets;
        Others(Some(i), limit, quiet);
        EvolvesTransitive(b, c, buckets);
      }
    }

    /** Finds the key, or inserts it with the given value when `opInsert` is set.  The result
        says whether a find found it, or an insert inserted it.  Whatever others do meanwhile,
        the operation acts on the map as it is at one moment, `seen`; alone, it keeps the load below one.  Up to `waits` times the
        lock of an item found takes too long to get, and the operation starts again. */
    method Lookup(opInsert: bool, key: Key, value: int, waits: nat, ghost limit: nat, ghost quiet: bool)
        returns (r: bool, found: Option<int>, ghost seen: map<Key, int>)
      requires Valid() && |buckets| <= limit
      modifies this
      ensures Valid() && Evolves(old(buckets), buckets)
      ensures contents == if opInsert && key !in seen then seen[key := value] else seen
      ensures r <==> (opInsert <==> key !in seen)
      ensures found == if key in contents then Some(contents[key]) else None
      ensures quiet ==> seen == old(contents)
      ensures quiet && old(mySize + 1 < |buckets|) ==> mySize + 1 < |buckets|
    {
      hide Represents;
      hide Evolves;
      hide ClosedFrom;
      hide IsPosition;
      hide Power;
      hide Home;
      TableIsOk(buckets, contents);
      var m, left := |buckets| - 1, waits;
      EvolvesSame(buckets);
      WholeClosed(buckets);
      var restart, i: nat, n: nat := true, 0, 0;
      while restart
        invariant Valid() && Evolves(old(buckets), buckets) && (quiet ==> contents == old(contents))
        invariant 1 <= m < |buckets| <= limit && Power(m + 1) && ClosedFrom(buckets, m + 1)
        invariant !restart ==> i < |buckets| && buckets[i].Items? && IsPosition(buckets[i].list, key, n)
        invariant !restart && n >= |buckets[i].list| ==> Home(buckets, key.hash) == i
        decreases restart, left, limit - m
      {
        ghost var b := buckets;
        restart, i, n, m, left := LookupScope(opInsert, key, m, left, limit, quiet);
        EvolvesTransitive(old(buckets), b, buckets);
      }
      seen := contents;
      EvolvesLonger(old(buckets), buckets);
      if n < |buckets[i].list| {
        FoundAt(buckets, contents, key, i, n);
        return !opInsert, Some(buckets[i].list[n].value), seen;
      }
      AbsentAt(buckets, contents, key, i, n);
      if opInsert {
        ghost var b := buckets;
        InsertNewNode(key, value, i);
        EvolvesTransitive(old(buckets), b, buckets);
        return true, Some(value), seen;
      }
      return false, None, seen;
    }

    /** Reads the mask again.  Must a search of the bucket that the mask `m` selected be repeated?
        Exactly when the key's home is no longer where it is from that bucket. */
    method CheckMaskRace(key: Key, m: nat) returns (restart: bool, mNow: nat)
      requires Valid() && 1 <= m < |buckets| && Power(m + 1) && ClosedFrom(buckets, m + 1)
      ensures mNow + 1 == |buckets| && mNow >= m && (restart ==> mNow > m) && ClosedFrom(buckets, mNow + 1)
      ensures restart <==> Home(buckets, key.hash) != Climb(buckets, Masked(key.hash, m + 1))
    {
      mNow := |buckets| - 1;
      restart := false;
      if m != mNow {
        restart := CheckRehashingCollision(key, m, mNow);
      }
    }

    /** Adds an item to the key's home bucket; when the load asks for it, a segment is added. */
    method InsertNewNode(key: Key, value: int, i: nat)
      requires Valid() && key !in contents && i == Home(buckets, key.hash)
      modifies this
      ensures Valid() && contents == old(contents)[key := value] && Evolves(old(buckets), buckets)
      ensures |buckets| == if mySize < |old(buckets)| - 1 then |old(buckets)|
                           else if |old(buckets)| == 2 then 256 else 2 * |old(buckets)|
    {
      InsertKeeps(buckets, contents, key, value);
      contents := contents[key := value];
      mySize := mySize + 1;
      ghost var list := [Item(key, value)] + buckets[i].list;
      ListEvolves(buckets, i, list);
      buckets := buckets[i := Items([Item(key, value)] + buckets[i].list)];
      if mySize >= |buckets| - 1 {
        ghost var b := buckets;
        GrowthEvolves(buckets, NextSegment(|buckets|));
        EnableSegment(false);
        EvolvesTransitive(old(buckets), b, buckets);
      }
    }

    /** Appends the next segment, whose buckets wait, or are empty when the table is. */
    method EnableSegment(isInitial: bool)
      requires Valid() && (isInitial ==> contents == map[])
      modifies this`buckets
      ensures Valid() && buckets == Enabled(old(buckets), isInitial) && |buckets| > |old(buckets)|
      ensures |buckets| == if |old(buckets)| == 2 then 256 else 2 * |old(buckets)|
    {
      EnabledKeeps(buckets, contents, isInitial);
      EnabledOk(buckets, isInitial);
      var n := if |buckets| == EMBEDDED_BUCKETS then FIRST_BLOCK_BUCKETS - EMBEDDED_BUCKETS else |buckets|;
      buckets := buckets + if isInitial then Blanks(n) else Requests(n);
    }

    /** Takes the item at position `n` out of bucket `i`. */
    method Unlink(key: Key, i: nat, n: nat)
      requires Valid() && i < |buckets| && buckets[i].Items? && n < |buckets[i].list| && buckets[i].list[n].key == key
      modifies this
      ensures Valid() && key in old(contents) && contents == old(contents) - {key} && Evolves(old(buckets), buckets)
    {
      var list := buckets[i].list;
      FoundIn(buckets, contents, i, n);
      EraseKeeps(buckets, contents, key, n);
      OneFewer(contents, key);
      ListEvolves(buckets, i, list[..n] + list[n + 1..]);
      contents := contents - {key};
      buckets := buckets[i := Items(list[..n] + list[n + 1..])];
      mySize := mySize - 1;
    }

    /** A bucket that was given up for the upgrade may no longer be the key's home; if it is, it is
        searched again, now locked for writing. */
    method UpgradeAndSearch(key: Key, i: nat, n0: nat, m: nat, ghost limit: nat, ghost quiet: bool)
        returns (restart: bool, n: nat, mNow: nat)
      requires Valid() && 1 <= m < |buckets| <= limit && Power(m + 1) && ClosedFrom(buckets, m + 1)
      requires i == Masked(key.hash, m + 1) && buckets[i].Items?
      requires IsPosition(buckets[i].list, key, n0) && n0 < |buckets[i].list|
      modifies this
      ensures Valid() && Evolves(old(buckets), buckets) && (quiet ==> contents == old(contents))
      ensures m <= mNow < |buckets| <= limit && Power(mNow + 1) && ClosedFrom(buckets, mNow + 1) && (restart ==> mNow > m)
      ensures !restart ==> i < |buckets| && buckets[i].Items? && IsPosition(buckets[i].list, key, n)
      ensures !restart && n >= |buckets[i].list| ==> Home(buckets, key.hash) == i
    {
      hide Represents;
      hide Evolves;
      hide ClosedFrom;
      hide KeyIn;
      restart, n, mNow := false, n0, m;
      ghost var b := buckets;
      EvolvesSame(b);
      var contended := Upgrade(i, limit, quiet);
      EvolvesOn(b, b, buckets, m + 1);
      if contended {
        restart, mNow := CheckMaskRace(key, m);
        if !restart {
          ghost var c := buckets;
          Others(Some(i), limit, quiet);
          EvolvesOn(b, c, buckets, mNow + 1);
          n := SearchBucket(key, buckets[i].list);
          c := buckets;
          Others(Some(i), limit, quiet);
          EvolvesOn(b, c, buckets, mNow + 1);
        }
      }
    }

    /** One lock scope of erase: searches the bucket that the mask `m` selects, and finds the key,
        or shows that it is nowhere, or must be repeated with the mask that is current by then. */
    method EraseScope(key: Key, m: nat, ghost limit: nat, ghost quiet: bool)
        returns (restart: bool, i: nat, n: nat, mNow: nat)
      requires Valid() && 1 <= m < |buckets| <= limit && Power(m + 1) && ClosedFrom(buckets, m + 1)
      modifies this
      ensures Valid() && Evolves(old(buckets), buckets) && (quiet ==> contents == old(contents))
      ensures m <= mNow < |buckets| <= limit && Power(mNow + 1) && ClosedFrom(buckets, mNow + 1) && (restart ==> mNow > m)
      ensures !restart ==> i < |buckets| && buckets[i].Items? && IsPosition(buckets[i].list, key, n)
      ensures !restart && n >= |buckets[i].list| ==> Home(buckets, key.hash) == i
    {
      hide Represents;
      hide Evolves;
      hide ClosedFrom;
      hide IsPosition;
      hide Masked;
      hide Power;
      hide Home;
      ghost var b := buckets;
      EvolvesSame(b);
      restart, mNow := false, m;
      i, n := Locate(key, m, limit, quiet);
      EvolvesOn(b, b, buckets, m + 1);
      ghost var c := buckets;
      if n < |buckets[i].list| {
        restart, n, mNow := UpgradeAndSearch(key, i, n, m, limit, quiet);
        EvolvesTransitive(b, c, buckets);
      }
      if !restart && n >= |buckets[i].list| {
        restart, mNow := CheckMaskRace(key, mNow);
      }
    }

    /** Erases the key, and says whether it was there, at one moment of the operation. */
    method Erase(key: Key, ghost limit: nat, ghost quiet: bool) returns (r: bool, ghost seen: map<Key, int>)
      requires Valid() && |buckets| <= limit
      modifies this
      ensures Valid() && Evolves(old(buckets), buckets)
      ensures r == (key in seen) && contents == seen - {key}
      ensures quiet ==> seen == old(contents)
    {
      hide Represents;
      hide Evolves;
      hide ClosedFrom;
      hide IsPosition;
      hide Masked;
      hide Power;
      TableIsOk(buckets, contents);
      var m := |buckets| - 1;
      EvolvesSame(buckets);
      WholeClosed(buckets);
      var restart, i: nat, n: nat := true, 0, 0;
      while restart
        invariant Valid() && Evolves(old(buckets), buckets) && (quiet ==> contents == old(contents))
        invariant 1 <= m < |buckets| <= limit && Power(m + 1) && ClosedFrom(buckets, m + 1)
        invariant !restart ==> i < |buckets| && buckets[i].Items? && IsPosition(buckets[i].list, key, n)
        invariant !restart && n >= |buckets[i].list| ==> Home(buckets, key.hash) == i
        decreases restart, limit - m
      {
        ghost var b := buckets;
        restart, i, n, m := EraseScope(key, m, limit, quiet);
        EvolvesTransitive(old(buckets), b, buckets);
      }
      seen := contents;
      r := n < |buckets[i].list|;
      if r {
        ghost var b := buckets;
        FoundAt(buckets, contents, key, i, n);
        Unlink(key, i, n);
        EvolvesTransitive(old(buckets), b, buckets);
      } else {
        AbsentAt(buckets, contents, key, i, n);
        assert contents - {key} == contents;
      }
    }

    /** internal_equal_range never splits: it climbs to a rehashed bucket and searches there. */
    method EqualRange(key: Key) returns (found: Option<int>)
      requires Valid()
      ensures found == if key in contents then Some(contents[key]) else None
    {
      var i: nat := Masked(key.hash, |buckets|);
      while buckets[i].RehashReq?
        invariant i < |buckets| && Climb(buckets, i) == Home(buckets, key.hash)
        decreases i
      {
        assert i != 0 && i != 1;
        i := i - Top(i);
      }
      var n := SearchBucket(key, buckets[i].list);
      InHomeOrNowhere(buckets, contents, key);
      if n == |buckets[i].list| {
        return None;
      }
      assert Stores(buckets, i, buckets[i].list[n]);
      found := Some(buckets[i].list[n].value);
    }

    /** After the mask grew from `mOld` to `m`: must a failed search of bucket `h & mOld` be
        repeated?  Exactly when the home of the hash is not where the climb from there ends; so
        without a restart the search was conclusive. */
    method CheckRehashingCollision(key: Key, mOld: nat, m: nat) returns (restart: bool)
      requires Valid() && 1 <= mOld < m && m + 1 == |buckets| && Power(mOld + 1) && ClosedFrom(buckets, mOld + 1)
      ensures restart <==> Home(buckets, key.hash) != Climb(buckets, Masked(key.hash, mOld + 1))
    {
      hide HasBit;
      hide Represents;
      hide Masked;
      var h := key.hash;
      if Masked(h, mOld + 1) == Masked(h, m + 1) {
        return false;
      }
      var bit := mOld + 1;
      PowersApart(bit, |buckets|);
      while !HasBit(h, bit)
        invariant Power(bit) && mOld + 1 <= bit < |buckets| && Masked(h, bit) == Masked(h, mOld + 1)
        decreases |buckets| - bit
      {
        NextMask(h, bit);
        PowersApart(bit, |buckets|);
        bit := 2 * bit;
      }
      PowersApart(bit, |buckets|);
      NextMask(h, bit);
      ClosedAbove(buckets, mOld + 1, Masked(h, 2 * bit));
      NextOnWay(h, mOld + 1, bit, |buckets|);
      FirstWaitingDecides(buckets, Masked(h, 2 * bit), Masked(h, |buckets|));
      restart := !buckets[Masked(h, 2 * bit)].RehashReq?;
    }

    // -------------------------------------------------------------- rehashing everything

    /** Marks all buckets whose climb ends in `h`, level by level and recursively. */
    method MarkRehashedLevels(h: nat)
      requires TableOk(buckets) && h < |buckets| && buckets[h].Items?
      modifies this`buckets
      ensures |buckets| == |old(buckets)| && LevelsMarked(old(buckets), h, buckets)
      decreases |buckets| - h
    {
      hide PartMarked;
      hide LevelsMarked;
      hide InLevels;
      ghost var b := buckets;
      var p := FirstBit(h);
      LevelsBegin(b, h);
      while p < |buckets|
        invariant |buckets| == |b| && Power(p) && h < p && 2 <= p && PartMarked(b, h, p, buckets)
        decreases |b| - p
      {
        ghost var b1 := buckets;
        PowersApart(p, |buckets|);
        PartMarkedOk(b, h, p, b1);
        if buckets[h + p].RehashReq? {
          NotMarkedYet(b, h, p, b1);
          buckets := buckets[h + p := Items([])];
          MarkRehashedLevels(h + p);
          LevelMarked(b, h, p, b1, buckets);
        } else {
          LevelSkipped(b, h, p, b1);
        }
        p := 2 * p;
      }
      LevelsEnd(b, h, p, buckets);
    }

    /** Prepares enough segments for `size` buckets. */
    method Reserve(size: nat)
      requires Valid()
      modifies this`buckets
      ensures Valid() && buckets == Reserved(old(buckets), mySize == 0, size)
      ensures old(buckets) <= buckets && |buckets| >= size && (size <= |old(buckets)| ==> buckets == old(buckets))
      ensures size > |old(buckets)| ==> |buckets| < 2 * size || (|old(buckets)| == 2 && |buckets| == 256)
      ensures forall i | |old(buckets)| <= i < |buckets| :: buckets[i] == if mySize == 0 then Items([]) else RehashReq
    {
      if size == 0 {
        return;
      }
      var isInitial := mySize == 0;
      while size - 1 > |buckets| - 1
        invariant Valid() && Reserved(buckets, isInitial, size) == Reserved(old(buckets), isInitial, size)
        decreases size - |buckets|
      {
        EnableSegment(isInitial);
      }
    }

    /** The whole-table rehash: reserves, and then scans only the last segment.  It leaves nothing
        waiting exactly when every waiting bucket shares its home with one there; `RehashCovers`
        and `RehashCoversAsIs` say when that is so.  Then every item is in the bucket the full
        mask selects. */
    method Rehash(size: nat)
      requires Valid()
      modifies this`buckets
      ensures Valid() && |buckets| >= size && (size <= |old(buckets)| ==> |buckets| == |old(buckets)|)
      ensures size > |old(buckets)| ==> |buckets| < 2 * size || (|old(buckets)| == 2 && |buckets| == 256)
      ensures NothingWaits(buckets) <==> Covers(Reserved(old(buckets), mySize == 0, size))
      ensures NothingWaits(buckets) ==> forall i: nat, x | Stores(buckets, i, x) :: i == Masked(x.key.hash, |buckets|)
    {
      hide Represents;
      hide Moving;
      hide LevelsMarked;
      hide TableOk;
      hide RootsMarked;
      hide LastUniform;
      Reserve(size);
      TableIsOk(buckets, contents);
      ghost var b0, roots := buckets, {};
      RootsBegin(b0);
      var i := |buckets| / 2;
      while i < |buckets|
        invariant |buckets| / 2 <= i <= |buckets| == |b0| && TableOk(buckets) && Represents(buckets, contents)
        invariant RootsMarked(b0, buckets, roots) && roots == LastRoots(b0, i)
      {
        ghost var b := buckets;
        if buckets[i].RehashReq? {
          var h := FindRoot(i);
          MarkRehashedLevels(h);
          MovingBegins(b, h, buckets, contents);
          RootMarked(b0, b, roots, h, buckets);
          ghost var marked := buckets;
          MoveItems(h);
          RootsSame(b0, marked, roots + {h}, buckets);
          TableIsOk(buckets, contents);
        }
        RootsNext(b0, b, roots, i);
        roots := LastRoots(b0, i + 1);
        i := i + 1;
      }
      RootsEnd(b0, buckets);
      if NothingWaits(buckets) {
        forall n: nat, x | Stores(buckets, n, x)
          ensures n == Masked(x.key.hash, |buckets|)
        {
          AllInPlace(buckets, contents, n, x);
        }
      }
    }

    method FindRoot(i: nat) returns (h: nat)
      requires TableOk(buckets) && i < |buckets|
      ensures h < |buckets| && h == Climb(buckets, i)
    {
      h := i;
      while buckets[h].RehashReq?
        invariant h < |buckets| && Climb(buckets, h) == Climb(buckets, i)
        decreases h
      {
        assert h != 0 && h != 1;
        h := h - Top(h);
      }
    }

    /** Moves every item of bucket `h` that belongs elsewhere to the bucket of its full mask. */
    method MoveItems(h: nat)
      requires Moving(buckets, h, contents)
      modifies this`buckets
      ensures Represents(buckets, contents) && |buckets| == |old(buckets)|
      ensures forall n: nat {:trigger buckets[n]} | n < |buckets| :: buckets[n].Items? == old(buckets)[n].Items?
    {
      var k := 0;
      while k < |buckets[h].list|
        invariant |buckets| == |old(buckets)| && Moving(buckets, h, contents) && k <= |buckets[h].list|
        invariant forall n | 0 <= n < k :: Masked(buckets[h].list[n].key.hash, |buckets|) == h
        invariant forall n: nat {:trigger buckets[n]} | n < |buckets| :: buckets[n].Items? == old(buckets)[n].Items?
        decreases |buckets[h].list| - k
      {
        var x := buckets[h].list[k];
        var j := Masked(x.key.hash, |buckets|);
        if j != h {
          MoveKeeps(buckets, h, contents, k);
          ghost var b := buckets;
          buckets := buckets[h := Items(buckets[h].list[..k] + buckets[h].list[k + 1..])];
          buckets := buckets[j := Items([x] + buckets[j].list)];
          assert buckets == Moved(b, h, k, j);
        } else {
          k := k + 1;
        }
      }
      MovingEnds(buckets, h, contents);
    }
  }

  lemma TableIsOk(b: Table, contents: map<Key, int>)
    requires Represents(b, contents)
    ensures TableOk(b)
  {
  }

  /** An item met anywhere is in the map, and its bucket is its home. */
  lemma FoundIn(b: Table, contents: map<Key, int>, i: nat, n: nat)
    requires Represents(b, contents) && i < |b| && b[i].Items? && n < |b[i].list|
    ensures var x := b[i].list[n];
            x.key in contents && contents[x.key] == x.value && Home(b, x.key.hash) == i
  {
    assert Stores(b, i, b[i].list[n]);
  }

  lemma FoundAt(b: Table, contents: map<Key, int>, key: Key, i: nat, n: nat)
    requires Represents(b, contents) && i < |b| && b[i].Items? && IsPosition(b[i].list, key, n) && n < |b[i].list|
    ensures b[i].list[n].key == key && key in contents && contents[key] == b[i].list[n].value
  {
    FoundIn(b, contents, i, n);
  }

  lemma AbsentAt(b: Table, contents: map<Key, int>, key: Key, i: nat, n: nat)
    requires Represents(b, contents) && Home(b, key.hash) == i && IsPosition(b[i].list, key, n) && n >= |b[i].list|
    ensures key !in contents
  {
    InHomeOrNowhere(b, contents, key);
  }

  /** Above the whole table there is nothing to be closed. */
  lemma WholeClosed(b: Table)
    ensures ClosedFrom(b, |b|)
  {
  }

  lemma ClosedAbove(b: Table, n: nat, i: nat)
    requires ClosedFrom(b, n) && n <= i
    ensures ClosedFrom(b, i)
  {
  }

  lemma EvolvesLonger(b: Table, b': Table)
    requires Evolves(b, b')
    ensures |b| <= |b'|
  {
  }

  lemma EvolvesOn(b: Table, b1: Table, b2: Table, n: nat)
    requires Evolves(b, b1) && Evolves(b1, b2) && ClosedFrom(b1, n)
    ensures Evolves(b, b2) && ClosedFrom(b2, n)
  {
    EvolvesTransitive(b, b1, b2);
  }

  lemma EvolvesSame(b: Table)
    ensures Evolves(b, b)
  {
  }

  predicate IsPosition(list: seq<Item>, key: Key, n: nat) {
    n <= |list| && (n < |list| ==> list[n].key == key) && (n == |list| ==> !KeyIn(list, key))
  }

  /** The halves of a list part way through a split. */
  ghost predicate Halves(i: nat, list: seq<Item>, kept: seq<Item>, moved: seq<Item>)
    requires i >= 2
  {
    && (forall x {:trigger x in kept} | x in kept :: x in list)
    && (forall x {:trigger x in moved} | x in moved :: x in list && Selected(i, x))
    && (forall x {:trigger x in list} | x in list :: x in kept || x in moved)
    && NoRepeat(kept) && NoRepeat(moved)
    && forall x, y | x in kept && y in moved :: x.key != y.key
  }

  lemma HalvesNext(i: nat, list: seq<Item>, kept: seq<Item>, moved: seq<Item>, k: nat)
    requires i >= 2 && Halves(i, list, kept, moved) && k < |kept| && Selected(i, kept[k])
    ensures Halves(i, list, kept[..k] + kept[k + 1..], [kept[k]] + moved)
  {
    Without(kept, k);
    var fewer, more := kept[..k] + kept[k + 1..], [kept[k]] + moved;
    OneMore(moved, kept[k]);
    forall x | x in fewer
      ensures x in kept && x.key != kept[k].key
    {
      var n :| 0 <= n < |kept| && kept[n] == x;
      assert if n < k then kept[n].key != kept[k].key else kept[k].key != kept[n].key;
    }
    forall x | x in list
      ensures x in fewer || x in more
    {
      assert x in kept || x in moved;
    }
  }

  /** Putting an item with a new key in front. */
  lemma OneMore(list: seq<Item>, x: Item)
    requires NoRepeat(list) && forall y | y in list :: y.key != x.key
    ensures NoRepeat([x] + list) && forall y :: y in [x] + list <==> y == x || y in list
  {
    var more := [x] + list;
    forall m, n | 0 <= m < n < |more|
      ensures more[m].key != more[n].key
    {
      assert more[n] == list[n - 1] && more[n] in list;
      assert m > 0 ==> more[m] == list[m - 1];
    }
  }

  lemma OneFewer(m: map<Key, int>, key: Key)
    requires key in m
    ensures |m - {key}| == |m| - 1
  {
  }

  /** The table as it was before the buckets in `marked` were marked rehashed. */
  ghost function Unmarked(b: Table, marked: set<nat>): (r: Table)
    ensures |r| == |b| && forall i | 0 <= i < |b| :: r[i] == if i in marked then RehashReq else b[i]
  {
    seq(|b|, i requires 0 <= i < |b| => if i in marked then RehashReq else b[i])
  }
}
