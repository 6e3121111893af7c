/** The lazily split hash table.  Growing only appends buckets that ask to be rehashed; the
    items they should hold stay with the nearest ancestor bucket until someone looks. */
module HashTable {
  import opened BucketChain
  import opened Common

  /** A key carries its hash, since equal keys have equal hashes. */
  datatype Key = Key(hash: nat, id: nat)

  datatype Item = Item(key: Key, value: int)

  datatype Bucket = RehashReq | Items(list: seq<Item>)

  type Table = seq<Bucket>

  predicate Waiting(b: Table, i: nat) {
    i < |b| && b[i].RehashReq?
  }

  /** The two embedded buckets are always there. */
  predicate TableOk(b: Table) {
    Power(|b|) && |b| >= 2 && b[0].Items? && b[1].Items?
  }

  /** From index `n` on, a rehashed bucket's parent is rehashed.  So it is above any mask that
      was current, as long as buckets are added that wait and rehashed one by one. */
  predicate ClosedFrom(b: Table, n: nat) {
    forall i: nat {:trigger Parent(i)} | 2 <= i < |b| && n <= i && b[i].Items? :: b[Parent(i)].Items?
  }

  /** The nearest rehashed bucket on the way from `i` to the root. */
  function Climb(b: Table, i: nat): (r: nat)
    requires TableOk(b) && i < |b|
    ensures r <= i && b[r].Items?
    decreases i
  {
    if b[i].Items? then i else Climb(b, Parent(i))
  }

  /** The bucket an item of this hash sits in. */
  function Home(b: Table, hash: nat): (r: nat)
    requires TableOk(b)
    ensures r < |b| && b[r].Items?
  {
    Climb(b, Masked(hash, |b|))
  }

  predicate Stores(b: Table, i: nat, x: Item) {
    i < |b| && b[i].Items? && x in b[i].list
  }

  predicate NoRepeat(list: seq<Item>) {
    forall j, k {:trigger list[j], list[k]} | 0 <= j < k < |list| :: list[j].key != list[k].key
  }

  /** The table represents a finite map: every item sits in its home, and nothing is lost. */
  ghost predicate Represents(b: Table, contents: map<Key, int>) {
    && TableOk(b)
    && (forall i: nat, x {:trigger Stores(b, i, x)} | Stores(b, i, x) ::
          x.key in contents && contents[x.key] == x.value && Home(b, x.key.hash) == i)
    && (forall k {:trigger Home(b, k.hash)} | k in contents :: Stores(b, Home(b, k.hash), Item(k, contents[k])))
    && (forall i: nat {:trigger b[i]} | i < |b| && b[i].Items? :: NoRepeat(b[i].list))
  }

  // ---------------------------------------------------------------- the way to a home

  lemma {:induction false} ClimbIsOnWay(b: Table, i: nat)
    requires TableOk(b) && i < |b|
    ensures OnWay(Climb(b, i), i)
    decreases i
  {
    if b[i].RehashReq? {
      ClimbIsOnWay(b, Parent(i));
    }
  }

  /** From a bucket that waits, the climb goes on. */
  lemma {:induction false} ClimbThrough(b: Table, i: nat, j: nat)
    requires TableOk(b) && ClosedFrom(b, i) && j < |b| && OnWay(i, j) && Waiting(b, i)
    ensures Climb(b, j) == Climb(b, i) && Waiting(b, j)
    decreases j
  {
    if i != j {
      ClimbThrough(b, i, Parent(j));
    }
  }

  /** Marking a waiting bucket whose parent is rehashed makes it the home of what climbed past it. */
  lemma {:induction false} ClimbAfterMark(b: Table, i: nat, list: seq<Item>, j: nat)
    requires TableOk(b) && Waiting(b, i) && b[Parent(i)].Items? && j < |b|
    ensures TableOk(b[i := Items(list)])
    ensures Climb(b[i := Items(list)], j) == if OnWay(i, j) && Climb(b, j) < i then i else Climb(b, j)
    ensures OnWay(i, j) && Climb(b, j) < i ==> Climb(b, j) == Parent(i)
    decreases j
  {
    if b[j].RehashReq? && j != i {
      ClimbAfterMark(b, i, list, Parent(j));
    }
  }

  /** Contents of lists do not matter to the climb. */
  lemma {:induction false} ClimbIgnoresLists(b: Table, b': Table, j: nat)
    requires TableOk(b) && |b'| == |b| && j < |b|
    requires forall i: nat {:trigger b'[i]} | i < |b| :: b'[i].Items? == b[i].Items?
    ensures TableOk(b') && Climb(b', j) == Climb(b, j)
    decreases j
  {
    assert b'[0].Items? && b'[1].Items?;
    if b[j].RehashReq? {
      ClimbIgnoresLists(b, b', Parent(j));
    }
  }

  // ---------------------------------------------------------------- splitting a bucket

  /** The items of `list` that the full mask of bucket `i` selects. */
  predicate Selected(i: nat, x: Item)
    requires i >= 2
  {
    Masked(x.key.hash, 2 * Top(i)) == i
  }

  /** `kept` and `moved` are the two halves of a bucket's list. */
  ghost predicate IsSplit(i: nat, list: seq<Item>, kept: seq<Item>, moved: seq<Item>)
    requires i >= 2
  {
    && (forall x {:trigger x in kept} | x in kept :: x in list && !Selected(i, x))
    && (forall x {:trigger x in moved} | x in moved :: x in list && Selected(i, x))
    && (forall x {:trigger x in list} | x in list :: x in kept || x in moved)
    && NoRepeat(kept) && NoRepeat(moved)
  }

  function Split(b: Table, i: nat, kept: seq<Item>, moved: seq<Item>): Table
    requires 2 <= i < |b|
  {
    b[Parent(i) := Items(kept)][i := Items(moved)]
  }

  lemma {:induction false} HomeAfterSplit(b: Table, i: nat, kept: seq<Item>, moved: seq<Item>, hash: nat)
    requires TableOk(b) && i >= 2 && Waiting(b, i) && b[Parent(i)].Items?
    ensures TableOk(Split(b, i, kept, moved)) && Power(2 * Top(i))
    ensures Home(Split(b, i, kept, moved), hash) ==
            if Masked(hash, 2 * Top(i)) == i && Home(b, hash) == Parent(i) then i else Home(b, hash)
  {
    var j := Masked(hash, |b|);
    ClimbAfterMark(b, i, moved, j);
    ClimbIgnoresLists(b[i := Items(moved)], Split(b, i, kept, moved), j);
    OnWayOfHash(i, hash, |b|);
  }

  /** Splitting a bucket off its parent changes nothing about the map. */
  lemma SplitKeeps(b: Table, contents: map<Key, int>, i: nat, kept: seq<Item>, moved: seq<Item>)
    requires Represents(b, contents) && i >= 2 && Waiting(b, i) && b[Parent(i)].Items?
    requires IsSplit(i, b[Parent(i)].list, kept, moved)
    ensures Represents(Split(b, i, kept, moved), contents)
  {
    var b', p := Split(b, i, kept, moved), Parent(i);
    HomeAfterSplit(b, i, kept, moved, 0);
    forall j: nat, x | Stores(b', j, x)
      ensures x.key in contents && contents[x.key] == x.value && Home(b', x.key.hash) == j
    {
      HomeAfterSplit(b, i, kept, moved, x.key.hash);
      assert Stores(b, if j == i then p else j, x);
    }
    forall k | k in contents
      ensures Stores(b', Home(b', k.hash), Item(k, contents[k]))
    {
      HomeAfterSplit(b, i, kept, moved, k.hash);
      assert Stores(b, Home(b, k.hash), Item(k, contents[k]));
    }
  }

  // ---------------------------------------------------------------- growing

  function Requests(n: nat): (r: seq<Bucket>)
    ensures |r| == n && forall i | 0 <= i < n :: r[i] == RehashReq
  {
    if n == 0 then [] else Requests(n - 1) + [RehashReq]
  }

  lemma {:induction false} ClimbAfterGrowth(b: Table, n: nat, j: nat)
    requires TableOk(b) && Power(|b| + n) && j < |b| + n
    ensures TableOk(b + Requests(n)) && Climb(b + Requests(n), j) == Climb(b, Masked(j, |b|))
    decreases j
  {
    if j >= |b| {
      if Top(j) < |b| {
        PowersApart(Top(j), |b|);
      }
      MaskedParent(j, |b|);
      ClimbAfterGrowth(b, n, Parent(j));
    } else {
      assert (b + Requests(n))[j] == b[j];
      if b[j].RehashReq? {
        ClimbAfterGrowth(b, n, Parent(j));
      }
    }
  }

  /** A larger mask finds every item where the smaller one did. */
  lemma {:induction false} GrowthKeeps(b: Table, contents: map<Key, int>, n: nat)
    requires Represents(b, contents) && Power(|b| + n)
    ensures Represents(b + Requests(n), contents)
  {
    var b' := b + Requests(n);
    ClimbAfterGrowth(b, n, 0);
    forall hash: nat
      ensures Home(b', hash) == Home(b, hash)
    {
      ClimbAfterGrowth(b, n, Masked(hash, |b'|));
      MaskTwice(hash, |b|, |b'|);
    }
    forall j: nat, x | Stores(b', j, x)
      ensures Stores(b, j, x)
    {
    }
    forall k | k in contents
      ensures Stores(b', Home(b', k.hash), Item(k, contents[k]))
    {
      assert Stores(b, Home(b, k.hash), Item(k, contents[k]));
    }
  }

  // ---------------------------------------------------------------- what concurrent operations keep

  /** How the table may change while operations run side by side: buckets are added, and stay
      rehashed once they are; what was closed above an index stays so. */
  ghost predicate Evolves(b: Table, b': Table) {
    && |b| <= |b'|
    && (forall i: nat {:trigger b'[i]} | i < |b| && b[i].Items? :: b'[i].Items?)
    && (forall n: nat {:trigger ClosedFrom(b', n)} | ClosedFrom(b, n) :: ClosedFrom(b', n))
  }

  lemma EvolvesTransitive(b: Table, b1: Table, b2: Table)
    requires Evolves(b, b1) && Evolves(b1, b2)
    ensures Evolves(b, b2)
  {
    forall i: nat | i < |b| && b[i].Items?
      ensures b2[i].Items?
    {
      assert b1[i].Items?;
    }
    forall n: nat | ClosedFrom(b, n)
      ensures ClosedFrom(b2, n)
    {
      assert ClosedFrom(b1, n);
    }
  }

  lemma SplitEvolves(b: Table, i: nat, kept: seq<Item>, moved: seq<Item>)
    requires 2 <= i < |b| && b[Parent(i)].Items?
    ensures Evolves(b, Split(b, i, kept, moved))
  {
  }

  lemma {:induction false} GrowthEvolves(b: Table, n: nat)
    ensures Evolves(b, b + Requests(n))
  {
  }

  lemma ListEvolves(b: Table, i: nat, list: seq<Item>)
    requires i < |b| && b[i].Items?
    ensures Evolves(b, b[i := Items(list)])
  {
  }

  // ---------------------------------------------------------------- inserting and erasing

  lemma SameHomes(b: Table, i: nat, list: seq<Item>)
    requires TableOk(b) && i < |b| && b[i].Items?
    ensures TableOk(b[i := Items(list)])
    ensures forall hash: nat :: Home(b[i := Items(list)], hash) == Home(b, hash)
  {
    forall hash: nat
      ensures TableOk(b[i := Items(list)]) && Home(b[i := Items(list)], hash) == Home(b, hash)
    {
      ClimbIgnoresLists(b, b[i := Items(list)], Masked(hash, |b|));
    }
  }

  predicate KeyIn(list: seq<Item>, key: Key) {
    exists k :: 0 <= k < |list| && list[k].key == key
  }

  /** A key is in the map exactly when its home bucket has it. */
  lemma InHomeOrNowhere(b: Table, contents: map<Key, int>, key: Key)
    requires Represents(b, contents)
    ensures key in contents <==> KeyIn(b[Home(b, key.hash)].list, key)
  {
    var i := Home(b, key.hash);
    if key in contents {
      assert Stores(b, i, Item(key, contents[key]));
    }
    forall k | 0 <= k < |b[i].list| && b[i].list[k].key == key
      ensures key in contents
    {
      assert Stores(b, i, b[i].list[k]);
    }
  }

  lemma InsertKeeps(b: Table, contents: map<Key, int>, key: Key, value: int)
    requires Represents(b, contents) && key !in contents
    ensures var i := Home(b, key.hash);
            Represents(b[i := Items([Item(key, value)] + b[i].list)], contents[key := value])
  {
    var i := Home(b, key.hash);
    var list := [Item(key, value)] + b[i].list;
    var b' := b[i := Items(list)];
    SameHomes(b, i, list);
    InHomeOrNowhere(b, contents, key);
    forall j: nat, x | Stores(b', j, x)
      ensures (x == Item(key, value) && j == i) || Stores(b, j, x)
    {
    }
    forall k | k in contents[key := value]
      ensures Stores(b', Home(b', k.hash), Item(k, contents[key := value][k]))
    {
      assert k != key ==> Stores(b, Home(b, k.hash), Item(k, contents[k]));
    }
    forall j, k | 0 <= j < k < |list|
      ensures list[j].key != list[k].key
    {
      assert list[k] == b[i].list[k - 1];
      assert j > 0 ==> list[j] == b[i].list[j - 1];
    }
  }

  lemma EraseKeeps(b: Table, contents: map<Key, int>, key: Key, n: nat)
    requires Represents(b, contents) && n < |b[Home(b, key.hash)].list| && b[Home(b, key.hash)].list[n].key == key
    ensures var i := Home(b, key.hash);
            && key in contents
            && Represents(b[i := Items(b[i].list[..n] + b[i].list[n + 1..])], contents - {key})
  {
    var i := Home(b, key.hash);
    var before := b[i].list;
    var list := before[..n] + before[n + 1..];
    var b' := b[i := Items(list)];
    SameHomes(b, i, list);
    InHomeOrNowhere(b, contents, key);
    forall k | 0 <= k < |list|
      ensures list[k] == before[if k < n then k else k + 1] && list[k] in before && list[k].key != key
    {
    }
    forall j: nat, x | Stores(b', j, x)
      ensures Stores(b, j, x) && x.key != key
    {
      assert Stores(b, j, x);
    }
    forall k | k in contents - {key}
      ensures Stores(b', Home(b', k.hash), Item(k, (contents - {key})[k]))
    {
      assert Stores(b, Home(b, k.hash), Item(k, contents[k]));
      if Home(b, k.hash) == i { KeepsOthers(before, n, Item(k, contents[k])); }
    }
    assert NoRepeat(before);
  }

  lemma KeepsOthers(list: seq<Item>, n: nat, x: Item)
    requires n < |list| && x in list && list[n] != x
    ensures x in list[..n] + list[n + 1..]
  {
  }

  // ---------------------------------------------------------------- what others may do beside a locked bucket

  /** One change that an operation makes to the table while it holds the locks it needs. */
  datatype Change =
    | SplitOff(bucket: nat, kept: seq<Item>, moved: seq<Item>)
    | Grow
    | Insert(item: Item)
    | Delete(key: Key, at: nat)

  /** The change may happen, and the bucket `locked` is none of those it must lock. */
  ghost predicate MayChange(b: Table, contents: map<Key, int>, c: Change, locked: Option<nat>)
    requires TableOk(b)
  {
    match c
    case SplitOff(i, kept, moved) =>
      && i >= 2 && Waiting(b, i) && b[Parent(i)].Items? && IsSplit(i, b[Parent(i)].list, kept, moved)
      && locked != Some(i) && locked != Some(Parent(i))
    case Grow => true
    case Insert(x) => x.key !in contents && locked != Some(Home(b, x.key.hash))
    case Delete(key, n) =>
      var i := Home(b, key.hash);
      n < |b[i].list| && b[i].list[n].key == key && locked != Some(i)
  }

  ghost function Changed(b: Table, contents: map<Key, int>, c: Change, locked: Option<nat>): (Table, map<Key, int>)
    requires TableOk(b) && MayChange(b, contents, c, locked)
  {
    match c
    case SplitOff(i, kept, moved) => (Split(b, i, kept, moved), contents)
    case Grow => (Enabled(b, false), contents)
    case Insert(x) =>
      var i := Home(b, x.key.hash);
      (b[i := Items([x] + b[i].list)], contents[x.key := x.value])
    case Delete(key, n) =>
      var i := Home(b, key.hash);
      (b[i := Items(b[i].list[..n] + b[i].list[n + 1..])], contents - {key})
  }

  /** The locked bucket is as it was, and still the home of what it was the home of. */
  ghost predicate KeepsLocked(b: Table, b': Table, locked: Option<nat>)
    requires TableOk(b) && TableOk(b')
  {
    locked.Some? && locked.value < |b| ==>
      && locked.value < |b'| && b'[locked.value] == b[locked.value]
      && forall hash: nat {:trigger Home(b', hash)} | Home(b, hash) == locked.value :: Home(b', hash) == locked.value
  }

  lemma SplitKeepsLocked(b: Table, i: nat, kept: seq<Item>, moved: seq<Item>, locked: Option<nat>)
    requires TableOk(b) && i >= 2 && Waiting(b, i) && b[Parent(i)].Items? && locked != Some(i) && locked != Some(Parent(i))
    ensures TableOk(Split(b, i, kept, moved)) && KeepsLocked(b, Split(b, i, kept, moved), locked)
  {
    HomeAfterSplit(b, i, kept, moved, 0);
    forall hash: nat
      ensures Home(b, hash) != Parent(i) ==> Home(Split(b, i, kept, moved), hash) == Home(b, hash)
    {
      HomeAfterSplit(b, i, kept, moved, hash);
    }
  }

  lemma {:induction false} GrowthHomes(b: Table, n: nat, hash: nat)
    requires TableOk(b) && Power(|b| + n)
    ensures TableOk(b + Requests(n)) && Home(b + Requests(n), hash) == Home(b, hash)
  {
    ClimbAfterGrowth(b, n, Masked(hash, |b| + n));
    MaskTwice(hash, |b|, |b| + n);
  }

  lemma EnabledKeepsLocked(b: Table, locked: Option<nat>)
    requires TableOk(b)
    ensures TableOk(Enabled(b, false)) && KeepsLocked(b, Enabled(b, false), locked)
  {
    EnabledOk(b, false);
    forall hash: nat
      ensures Home(Enabled(b, false), hash) == Home(b, hash)
    {
      GrowthHomes(b, NextSegment(|b|), hash);
    }
  }

  /** Whatever change another operation makes without the lock of `locked`, the table represents
      a map, evolves, and keeps the locked bucket: this is what operations rely on. */
  lemma {:induction false} ChangeKeeps(b: Table, contents: map<Key, int>, c: Change, locked: Option<nat>)
    requires Represents(b, contents) && MayChange(b, contents, c, locked)
    ensures var (b', contents') := Changed(b, contents, c, locked);
            Represents(b', contents') && Evolves(b, b') && KeepsLocked(b, b', locked)
  {
    match c
    case SplitOff(i, kept, moved) =>
      SplitKeeps(b, contents, i, kept, moved);
      SplitEvolves(b, i, kept, moved);
      SplitKeepsLocked(b, i, kept, moved, locked);
    case Grow =>
      EnabledKeeps(b, contents, false);
      GrowthEvolves(b, NextSegment(|b|));
      EnabledKeepsLocked(b, locked);
    case Insert(x) =>
      var i := Home(b, x.key.hash);
      InsertKeeps(b, contents, x.key, x.value);
      ListEvolves(b, i, [x] + b[i].list);
      SameHomes(b, i, [x] + b[i].list);
    case Delete(key, n) =>
      var i := Home(b, key.hash);
      var list := b[i].list[..n] + b[i].list[n + 1..];
      EraseKeeps(b, contents, key, n);
      ListEvolves(b, i, list);
      SameHomes(b, i, list);
  }

  /** Any number of such changes leads from one table to the other. */
  ghost predicate Changes(b: Table, contents: map<Key, int>, cs: seq<Change>, locked: Option<nat>, b': Table, contents': map<Key, int>)
    requires TableOk(b)
    decreases |cs|
  {
    if cs == [] then b' == b && contents' == contents
    else
      && MayChange(b, contents, cs[0], locked)
      && var (b1, contents1) := Changed(b, contents, cs[0], locked);
         TableOk(b1) && Changes(b1, contents1, cs[1..], locked, b', contents')
  }

  lemma {:induction false} ChangesKeep(b: Table, contents: map<Key, int>, cs: seq<Change>, locked: Option<nat>, b': Table, contents': map<Key, int>)
    requires Represents(b, contents) && Changes(b, contents, cs, locked, b', contents')
    ensures Represents(b', contents') && Evolves(b, b') && KeepsLocked(b, b', locked)
    decreases |cs|
  {
    if cs != [] {
      var (b1, contents1) := Changed(b, contents, cs[0], locked);
      ChangeKeeps(b, contents, cs[0], locked);
      ChangesKeep(b1, contents1, cs[1..], locked, b', contents');
      EvolvesTransitive(b, b1, b');
      KeepsLockedTransitive(b, b1, b', locked);
    }
  }

  lemma KeepsLockedTransitive(b: Table, b1: Table, b2: Table, locked: Option<nat>)
    requires TableOk(b) && TableOk(b1) && TableOk(b2) && |b| <= |b1|
    requires KeepsLocked(b, b1, locked) && KeepsLocked(b1, b2, locked)
    ensures KeepsLocked(b, b2, locked)
  {
    if locked.Some? && locked.value < |b| {
      forall hash: nat | Home(b, hash) == locked.value
        ensures Home(b2, hash) == locked.value
      {
        assert Home(b1, hash) == locked.value;
      }
    }
  }

  // ---------------------------------------------------------------- a search that raced with growth

  /** `h & bit` for a single bit. */
  predicate HasBit(h: nat, bit: nat)
    requires Power(bit)
  {
    if bit == 1 then h % 2 == 1 else HasBit(h / 2, bit / 2)
  }

  lemma {:induction false} NextMask(h: nat, bit: nat)
    requires Power(bit)
    ensures Power(2 * bit) && Masked(h, 2 * bit) == Masked(h, bit) + if HasBit(h, bit) then bit else 0
    decreases bit
  {
    if bit > 1 {
      NextMask(h / 2, bit / 2);
      assert Masked(h, 2 * bit) == 2 * Masked(h / 2, bit) + h % 2;
      assert Masked(h, bit) == 2 * Masked(h / 2, bit / 2) + h % 2;
    }
  }

  lemma {:induction false} ClimbReaches(b: Table, i: nat, j: nat)
    requires TableOk(b) && j < |b| && OnWay(i, j) && b[i].Items?
    ensures Climb(b, j) >= i
    decreases j
  {
    if b[j].RehashReq? {
      ClimbReaches(b, i, Parent(j));
    }
  }

  /** A bucket on the way decides: while it waits, the climb ends where it does from its parent;
      once it is rehashed, it does not. */
  lemma {:induction false} FirstWaitingDecides(b: Table, i: nat, j: nat)
    requires TableOk(b) && ClosedFrom(b, i) && j < |b| && i >= 2 && OnWay(i, j)
    ensures Waiting(b, i) <==> Climb(b, j) == Climb(b, Parent(i))
  {
    if Waiting(b, i) {
      ClimbThrough(b, i, j);
    } else {
      ClimbReaches(b, i, j);
    }
  }

  /** The bucket that the next mask with a new bit selects is the child, on the hash's way, of
      the bucket that the narrow mask selects. */
  lemma {:induction false} NextOnWay(h: nat, narrow: nat, bit: nat, size: nat)
    requires Power(narrow) && 2 <= narrow && Power(size) && Power(bit) && narrow <= bit && 2 * bit <= size
    requires HasBit(h, bit) && Masked(h, bit) == Masked(h, narrow)
    ensures Power(2 * bit)
    ensures var i := Masked(h, 2 * bit);
            2 <= i < size && Parent(i) == Masked(h, narrow) && OnWay(i, Masked(h, size))
  {
    NextMask(h, bit);
    hide HasBit;
    var i := Masked(h, 2 * bit);
    TopUnique(i, bit);
    hide Masked;
    OnWayOfHash(i, h, size);
  }

  // ---------------------------------------------------------------- rehashing the whole table

  /** Every waiting bucket whose climb ends in `h` is marked rehashed and empty. */
  ghost predicate LevelsMarked(b: Table, h: nat, b': Table)
    requires TableOk(b)
  {
    && |b'| == |b|
    && forall i: nat {:trigger b'[i]} | i < |b| ::
         b'[i] == if b[i].RehashReq? && Climb(b, i) == h then Items([]) else b[i]
  }

  /** The child of `h` on the way from `i`. */
  function ChildOn(h: nat, i: nat): (c: nat)
    requires OnWay(h, i) && i != h
    ensures h < c <= i && c >= 2 && Parent(c) == h && OnWay(c, i)
    decreases i
  {
    if Parent(i) == h then i else ChildOn(h, Parent(i))
  }

  lemma {:induction false} OneChildOnWay(h: nat, c: nat, i: nat)
    requires c >= 2 && Parent(c) == h && OnWay(c, i)
    ensures OnWay(h, i) && i != h && ChildOn(h, i) == c
    decreases i
  {
    if i == c {
      assert OnWay(h, Parent(c));
    } else {
      OneChildOnWay(h, c, Parent(i));
    }
  }

  /** Waits, and the climb from it ends in `h`, having passed a child of `h` below `h + p`. */
  predicate InLevels(b: Table, h: nat, p: nat, i: nat)
    requires TableOk(b)
  {
    Waiting(b, i) && Climb(b, i) == h && OnWay(h, i) && i != h && ChildOn(h, i) < h + p
  }

  /** The levels below `p` have been marked. */
  ghost predicate PartMarked(b: Table, h: nat, p: nat, b': Table)
    requires TableOk(b)
  {
    && |b'| == |b|
    && forall i: nat {:trigger b'[i]} | i < |b| :: b'[i] == if InLevels(b, h, p, i) then Items([]) else b[i]
  }

  lemma PartMarkedOk(b: Table, h: nat, p: nat, b': Table)
    requires TableOk(b) && h < |b| && b[h].Items? && PartMarked(b, h, p, b')
    ensures TableOk(b') && b'[h].Items?
  {
    assert b'[h] == if InLevels(b, h, p, h) then Items([]) else b[h];
  }

  /** Children of `h` stand one topmost bit above it each. */
  lemma {:induction false} ChildLevels(h: nat, c: nat, p: nat)
    requires c >= 2 && Parent(c) == h && Power(p) && p > h
    ensures c < h + 2 * p <==> c < h + p || c == h + p
  {
    if p < Top(c) {
      PowersApart(p, Top(c));
    }
  }

  lemma FirstLevel(h: nat, c: nat)
    requires c >= 2 && Parent(c) == h
    ensures c >= h + FirstBit(h)
  {
    if h > 1 {
      PowersApart(Top(h), Top(c));
    }
  }

  function FirstBit(h: nat): (p: nat)
    ensures Power(p) && h < p && 2 <= p
  {
    if h <= 1 then 2 else 2 * Top(h)
  }

  lemma LevelsBegin(b: Table, h: nat)
    requires TableOk(b) && h < |b| && b[h].Items?
    ensures PartMarked(b, h, FirstBit(h), b)
  {
    var p := FirstBit(h);
    forall i: nat | i < |b|
      ensures !InLevels(b, h, p, i)
    {
      if OnWay(h, i) && i != h {
        FirstLevel(h, ChildOn(h, i));
      }
    }
  }

  lemma LevelsEnd(b: Table, h: nat, p: nat, b': Table)
    requires TableOk(b) && h < |b| && b[h].Items? && PartMarked(b, h, p, b') && p >= |b|
    ensures LevelsMarked(b, h, b')
  {
    forall i: nat | i < |b|
      ensures b'[i] == if b[i].RehashReq? && Climb(b, i) == h then Items([]) else b[i]
    {
      ClimbIsOnWay(b, i);
      assert b'[i] == if InLevels(b, h, p, i) then Items([]) else b[i];
    }
  }

  lemma LevelOf(h: nat, p: nat)
    requires Power(p) && h < p && 2 <= p
    ensures h + p >= 2 && Parent(h + p) == h && OnWay(h, h + p) && ChildOn(h, h + p) == h + p
  {
    TopUnique(h + p, p);
    assert OnWay(h, Parent(h + p));
  }

  /** The child of `h` at level `p` has not been touched before its turn. */
  lemma {:induction false} NotMarkedYet(b: Table, h: nat, p: nat, b': Table)
    requires TableOk(b) && Power(p) && h < p && 2 <= p && h + p < |b| && PartMarked(b, h, p, b')
    ensures h + p >= 2 && Parent(h + p) == h && b'[h + p] == b[h + p]
  {
    hide TableOk;
    LevelOf(h, p);
    assert !InLevels(b, h, p, h + p);
  }

  lemma {:induction false} SkippedAt(b: Table, h: nat, p: nat, i: nat)
    requires TableOk(b) && Power(p) && h < p && 2 <= p && h + p < |b| && i < |b|
    requires h + p >= 2 && Parent(h + p) == h && b[h + p].Items?
    ensures InLevels(b, h, 2 * p, i) == InLevels(b, h, p, i)
  {
    hide TableOk;
    if OnWay(h, i) && i != h {
      var c := ChildOn(h, i);
      ChildLevels(h, c, p);
      if c == h + p {
        ClimbReaches(b, c, i);
      }
    }
  }

  /** The bucket of level `p` does not wait: nothing is to be marked through it. */
  lemma {:induction false} LevelSkipped(b: Table, h: nat, p: nat, b': Table)
    requires TableOk(b) && Power(p) && h < p && 2 <= p && h + p < |b| && PartMarked(b, h, p, b')
    requires !Waiting(b', h + p)
    ensures PartMarked(b, h, 2 * p, b')
  {
    hide TableOk;
    hide InLevels;
    NotMarkedYet(b, h, p, b');
    forall i: nat | i < |b|
      ensures b'[i] == if InLevels(b, h, 2 * p, i) then Items([]) else b[i]
    {
      SkippedAt(b, h, p, i);
    }
  }

  /** Which buckets level `p` adds to those to be marked. */
  lemma {:induction false} AddedAt(b: Table, h: nat, p: nat, i: nat)
    requires TableOk(b) && Power(p) && h < p && 2 <= p && h + p < |b| && i < |b| && b[h].Items?
    requires h + p >= 2 && Parent(h + p) == h && Waiting(b, h + p)
    ensures OnWay(h + p, i) ==> !InLevels(b, h, p, i)
    ensures InLevels(b, h, 2 * p, i) <==>
            InLevels(b, h, p, i) || (OnWay(h + p, i) && Waiting(b, i) && Climb(b, i) < h + p)
  {
    hide TableOk;
    var c := h + p;
    if OnWay(c, i) {
      OneChildOnWay(h, c, i);
      ClimbAfterMark(b, c, [], i);
    } else if OnWay(h, i) && i != h {
      ChildLevels(h, ChildOn(h, i), p);
    }
  }

  /** Tables that agree from `c` upwards agree on which climbs pass `c`. */
  lemma {:induction false} ClimbsPastAlike(b: Table, b': Table, c: nat, i: nat)
    requires TableOk(b) && TableOk(b') && |b'| == |b| && i < |b| && OnWay(c, i) && Waiting(b, c) && Waiting(b', c)
    requires forall k: nat {:trigger b'[k]} | k < |b| && OnWay(c, k) :: b'[k] == b[k]
    ensures Climb(b, i) < c <==> Climb(b', i) < c
    decreases i
  {
    if i != c && b[i].RehashReq? {
      ClimbsPastAlike(b, b', c, Parent(i));
    }
  }

  /** The bucket of level `p` is marked, and then the levels above it. */
  lemma {:induction false} LevelMarked(b: Table, h: nat, p: nat, b1: Table, b2: Table)
    requires TableOk(b) && Power(p) && h < p && 2 <= p && h + p < |b| && b[h].Items? && PartMarked(b, h, p, b1)
    requires TableOk(b1) && b1[h].Items? && Waiting(b1, h + p) && TableOk(b1[h + p := Items([])])
    requires LevelsMarked(b1[h + p := Items([])], h + p, b2)
    ensures PartMarked(b, h, 2 * p, b2)
  {
    hide TableOk;
    hide InLevels;
    var c := h + p;
    NotMarkedYet(b, h, p, b1);
    var m := b1[c := Items([])];
    forall k: nat | k < |b| && OnWay(c, k)
      ensures b1[k] == b[k]
    {
      AddedAt(b, h, p, k);
      assert b1[k] == if InLevels(b, h, p, k) then Items([]) else b[k];
    }
    forall i: nat | i < |b|
      ensures b2[i] == if InLevels(b, h, 2 * p, i) then Items([]) else b[i]
    {
      AddedAt(b, h, p, i);
      ClimbAfterMark(b1, c, [], i);
      if OnWay(c, i) { ClimbsPastAlike(b, b1, c, i); }
      assert b2[i] == if m[i].RehashReq? && Climb(m, i) == c then Items([]) else m[i];
      assert b1[i] == if InLevels(b, h, p, i) then Items([]) else b[i];
    }
  }

  lemma {:induction false} ClimbAfterLevels(b: Table, h: nat, b': Table, j: nat)
    requires TableOk(b) && LevelsMarked(b, h, b') && j < |b|
    ensures TableOk(b')
    ensures Climb(b', j) == if Climb(b, j) == h then j else Climb(b, j)
    decreases j
  {
    assert b'[0].Items? && b'[1].Items?;
    assert b'[j] == if b[j].RehashReq? && Climb(b, j) == h then Items([]) else b[j];
    if b[j].RehashReq? && Climb(b, j) != h {
      ClimbAfterLevels(b, h, b', Parent(j));
    }
  }

  lemma {:induction false} HomesAfterLevels(b: Table, h: nat, b': Table, hash: nat)
    requires TableOk(b) && LevelsMarked(b, h, b')
    ensures TableOk(b') && |b'| == |b|
    ensures Home(b', hash) == if Home(b, hash) == h then Masked(hash, |b|) else Home(b, hash)
  {
    ClimbAfterLevels(b, h, b', Masked(hash, |b|));
  }

  /** The table while the items of bucket `h`, whose levels have been marked, move to where
      the full mask puts them: an item is at home, or still in bucket `h`. */
  ghost predicate Moving(b: Table, h: nat, contents: map<Key, int>) {
    && TableOk(b) && h < |b| && b[h].Items?
    && (forall i: nat, x {:trigger Stores(b, i, x)} | Stores(b, i, x) ::
          && x.key in contents && contents[x.key] == x.value
          && Home(b, x.key.hash) == if i == h then Masked(x.key.hash, |b|) else i)
    && (forall key {:trigger Home(b, key.hash)} | key in contents ::
          Stores(b, Home(b, key.hash), Item(key, contents[key])) || Stores(b, h, Item(key, contents[key])))
    && (forall i: nat {:trigger b[i]} | i < |b| && b[i].Items? :: NoRepeat(b[i].list))
    && (forall i: nat, x, y {:trigger Stores(b, i, x), Stores(b, h, y)} | i != h && Stores(b, i, x) && Stores(b, h, y) ::
          x.key != y.key)
  }

  lemma StoresUnchanged(b: Table, h: nat, b': Table, i: nat, x: Item)
    requires TableOk(b) && LevelsMarked(b, h, b')
    ensures Stores(b', i, x) <==> Stores(b, i, x)
  {
  }

  lemma MovingBegins(b: Table, h: nat, b': Table, contents: map<Key, int>)
    requires Represents(b, contents) && h < |b| && b[h].Items? && LevelsMarked(b, h, b')
    ensures Moving(b', h, contents)
  {
    HomesAfterLevels(b, h, b', 0);
    forall i: nat, x
      ensures Stores(b', i, x) <==> Stores(b, i, x)
    {
      StoresUnchanged(b, h, b', i, x);
    }
    forall i: nat, x | Stores(b', i, x)
      ensures x.key in contents && contents[x.key] == x.value
      ensures Home(b', x.key.hash) == if i == h then Masked(x.key.hash, |b'|) else i
    {
      assert Stores(b, i, x);
      HomesAfterLevels(b, h, b', x.key.hash);
    }
    forall key | key in contents
      ensures Stores(b', Home(b', key.hash), Item(key, contents[key])) || Stores(b', h, Item(key, contents[key]))
    {
      assert Stores(b, Home(b, key.hash), Item(key, contents[key]));
      HomesAfterLevels(b, h, b', key.hash);
    }
    forall i: nat | i < |b'| && b'[i].Items?
      ensures NoRepeat(b'[i].list)
    {
      assert b'[i] == if b[i].RehashReq? && Climb(b, i) == h then Items([]) else b[i];
    }
    forall i: nat, x, y | i != h && Stores(b', i, x) && Stores(b', h, y)
      ensures x.key != y.key
    {
      assert Stores(b, i, x) && Stores(b, h, y);
    }
  }

  lemma {:induction false} MovingEnds(b: Table, h: nat, contents: map<Key, int>)
    requires Moving(b, h, contents)
    requires forall n | 0 <= n < |b[h].list| :: Masked(b[h].list[n].key.hash, |b|) == h
    ensures Represents(b, contents)
  {
  }

  /** Item `k` of bucket `h` moves to bucket `j`. */
  function Moved(b: Table, h: nat, k: nat, j: nat): Table
    requires h < |b| && b[h].Items? && k < |b[h].list| && j < |b| && b[j].Items?
  {
    b[h := Items(b[h].list[..k] + b[h].list[k + 1..])][j := Items([b[h].list[k]] + b[j].list)]
  }

  lemma Without(list: seq<Item>, k: nat)
    requires k < |list| && NoRepeat(list)
    ensures NoRepeat(list[..k] + list[k + 1..])
    ensures forall x :: x in list[..k] + list[k + 1..] <==> x in list && x != list[k]
  {
  }

  lemma MovedStores(b: Table, h: nat, contents: map<Key, int>, k: nat, j: nat)
    requires Moving(b, h, contents) && k < |b[h].list| && j < |b| && b[j].Items? && j != h
    ensures forall i: nat, x ::
              Stores(Moved(b, h, k, j), i, x) <==>
                (i == j && x == b[h].list[k]) || (Stores(b, i, x) && !(i == h && x == b[h].list[k]))
  {
  }

  lemma {:induction false} MoveKeeps(b: Table, h: nat, contents: map<Key, int>, k: nat)
    requires Moving(b, h, contents) && k < |b[h].list| && Masked(b[h].list[k].key.hash, |b|) != h
    ensures var j := Masked(b[h].list[k].key.hash, |b|);
            b[j].Items? && Moving(Moved(b, h, k, j), h, contents)
  {
    var x := b[h].list[k];
    var j := Masked(x.key.hash, |b|);
    assert Stores(b, h, x);
    var b' := Moved(b, h, k, j);
    MovedStores(b, h, contents, k, j);
    forall hash: nat
      ensures TableOk(b') && Home(b', hash) == Home(b, hash)
    {
      ClimbIgnoresLists(b, b', Masked(hash, |b|));
    }
    forall key | key in contents
      ensures Stores(b', Home(b', key.hash), Item(key, contents[key])) || Stores(b', h, Item(key, contents[key]))
    {
      assert Stores(b, Home(b, key.hash), Item(key, contents[key])) || Stores(b, h, Item(key, contents[key]));
    }
    MovedNoRepeat(b, h, contents, k, j);
  }

  lemma MovedNoRepeat(b: Table, h: nat, contents: map<Key, int>, k: nat, j: nat)
    requires Moving(b, h, contents) && k < |b[h].list| && j < |b| && b[j].Items? && j != h
    ensures forall i: nat {:trigger Moved(b, h, k, j)[i]} | i < |b| && Moved(b, h, k, j)[i].Items? ::
              NoRepeat(Moved(b, h, k, j)[i].list)
  {
    var x := b[h].list[k];
    assert Stores(b, h, x);
    Without(b[h].list, k);
    var list := [x] + b[j].list;
    forall m, n | 0 <= m < n < |list|
      ensures list[m].key != list[n].key
    {
      assert list[n] == b[j].list[n - 1] && Stores(b, j, list[n]);
      assert m > 0 ==> list[m] == b[j].list[m - 1];
    }
  }

  // ---------------------------------------------------------------- reserving

  const EMBEDDED_BUCKETS: nat := 2
  const FIRST_BLOCK_BUCKETS: nat := 256   // one shifted by first_block, which is 8

  /** How many buckets the next segment has. */
  function NextSegment(size: nat): nat {
    if size == EMBEDDED_BUCKETS then FIRST_BLOCK_BUCKETS - EMBEDDED_BUCKETS else size
  }

  function Blanks(n: nat): (r: seq<Bucket>)
    ensures |r| == n && forall i | 0 <= i < n :: r[i] == Items([])
  {
    if n == 0 then [] else Blanks(n - 1) + [Items([])]
  }

  /** The table with one more segment; a table without items gets one already rehashed. */
  function Enabled(b: Table, isInitial: bool): Table {
    b + if isInitial then Blanks(NextSegment(|b|)) else Requests(NextSegment(|b|))
  }

  /** The table with segments added until it has `size` buckets, and no more.  The first one fills
      it up to 256, every further one doubles it. */
  function Reserved(b: Table, isInitial: bool, size: nat): (r: Table)
    requires TableOk(b)
    ensures TableOk(r) && b <= r && |r| >= size && (size <= |b| ==> r == b)
    ensures size > |b| ==> |r| < 2 * size || (|b| == 2 && |r| == 256)
    ensures forall i | |b| <= i < |r| :: r[i] == if isInitial then Items([]) else RehashReq
    decreases size - |b|
  {
    if size <= |b| then b else EnabledOk(b, isInitial); Reserved(Enabled(b, isInitial), isInitial, size)
  }

  lemma EnabledOk(b: Table, isInitial: bool)
    requires TableOk(b)
    ensures TableOk(Enabled(b, isInitial)) && |Enabled(b, isInitial)| > |b|
  {
    assert Power(256);
  }

  /** A new segment, of either kind, changes nothing about the map. */
  lemma EnabledKeeps(b: Table, contents: map<Key, int>, isInitial: bool)
    requires Represents(b, contents) && (isInitial ==> contents == map[])
    ensures Represents(Enabled(b, isInitial), contents)
  {
    EnabledOk(b, isInitial);
    if !isInitial {
      GrowthKeeps(b, contents, NextSegment(|b|));
    } else {
      var b' := Enabled(b, isInitial);
      forall i: nat, x
        ensures !Stores(b', i, x)
      {
        assert !Stores(b, i, x);
      }
    }
  }

  // ---------------------------------------------------------------- when nothing waits

  /** The homes of the waiting buckets of the last segment, up to index `n`. */
  ghost function LastRoots(b: Table, n: nat): set<nat>
    requires TableOk(b) && n <= |b|
  {
    set j: nat | |b| / 2 <= j < n && Waiting(b, j) :: Climb(b, j)
  }

  /** Every waiting bucket shares its home with a waiting bucket of the last segment. */
  ghost predicate Covers(b: Table)
    requires TableOk(b)
  {
    forall i: nat {:trigger Waiting(b, i)} | Waiting(b, i) :: Climb(b, i) in LastRoots(b, |b|)
  }

  lemma {:induction false} CoversWhenClosed(b: Table)
    requires TableOk(b) && ClosedFrom(b, |b| / 2)
    ensures Covers(b)
  {
    forall i: nat | Waiting(b, i)
      ensures Climb(b, i) in LastRoots(b, |b|)
    {
      if i < |b| / 2 {
        var j := i + |b| / 2;
        TopUnique(j, |b| / 2);
        assert Parent(j) == i && Waiting(b, j);
      }
    }
  }

  predicate NothingWaits(b: Table) {
    forall i: nat {:trigger b[i]} | i < |b| :: b[i].Items?
  }

  predicate LastBlank(b: Table) {
    forall i: nat {:trigger b[i]} | |b| / 2 <= i < |b| :: b[i].Items?
  }

  /** The last segment was added to a table with items, and has been rehashed bucket by bucket
      since, or all of it is rehashed. */
  predicate LastUniform(b: Table) {
    ClosedFrom(b, |b| / 2) || LastBlank(b)
  }

  lemma {:induction false} CoversWhenBlank(b: Table)
    requires TableOk(b) && LastBlank(b)
    ensures Covers(b) <==> NothingWaits(b)
  {
    assert LastRoots(b, |b|) == {};
    if i: nat :| i < |b| && !b[i].Items? {
      assert Waiting(b, i);
    }
  }

  /** Buckets added to a table with items, or to one that stays as it is, leave the last segment closed. */
  lemma {:induction false} ReservedClosed(b: Table, size: nat)
    requires TableOk(b) && size > |b|
    ensures ClosedFrom(Reserved(b, false, size), |Reserved(b, false, size)| / 2)
    decreases size - |b|
  {
    EnabledOk(b, false);
    if size > |Enabled(b, false)| {
      ReservedClosed(Enabled(b, false), size);
    }
  }

  /** Buckets added to a table without items never wait, so the scan of the last segment finds nothing. */
  lemma {:induction false} ReservedBlank(b: Table, size: nat)
    requires TableOk(b) && size > |b|
    ensures var r := Reserved(b, true, size);
            && |r| > |b| && LastBlank(r)
            && forall i: nat :: Waiting(r, i) <==> Waiting(b, i)
    decreases size - |b|
  {
    EnabledOk(b, true);
    var b' := Enabled(b, true);
    assert forall i: nat :: Waiting(b', i) <==> Waiting(b, i);
    if size > |b'| {
      ReservedBlank(b', size);
    }
  }

  /** The whole-table rehash leaves nothing waiting after a table with items has grown; after
      one without items has grown, exactly when nothing was waiting before. */
  lemma {:induction false} RehashCovers(b: Table, size: nat)
    requires TableOk(b) && size > |b|
    ensures Covers(Reserved(b, false, size))
    ensures Covers(Reserved(b, true, size)) <==> NothingWaits(b)
  {
    ReservedClosed(b, size);
    CoversWhenClosed(Reserved(b, false, size));
    ReservedBlank(b, size);
    var r := Reserved(b, true, size);
    CoversWhenBlank(r);
    assert NothingWaits(r) <==> NothingWaits(b) by {
      if i: nat :| i < |b| && !b[i].Items? { assert Waiting(b, i) && Waiting(r, i); }
      if i: nat :| i < |r| && !r[i].Items? { assert Waiting(r, i) && Waiting(b, i); }
    }
  }

  /** Without growth it leaves nothing waiting exactly when nothing was waiting before or the
      last segment was added to a table with items. */
  lemma {:induction false} RehashCoversAsIs(b: Table, isInitial: bool, size: nat)
    requires TableOk(b) && LastUniform(b) && size <= |b|
    ensures Covers(Reserved(b, isInitial, size)) <==> NothingWaits(b) || ClosedFrom(b, |b| / 2)
  {
    if ClosedFrom(b, |b| / 2) {
      CoversWhenClosed(b);
    } else {
      CoversWhenBlank(b);
    }
  }

  lemma OneInserted(x: Item)
    requires x.key.hash == 0
    ensures var b0 := [Items([]), Items([])];
            Represents(b0, map[]) && Home(b0, 0) == 0 && Represents(b0[0 := Items([x])], map[x.key := x.value])
  {
    var b0: Table := [Items([]), Items([])];
    assert Represents(b0, map[]);
    InsertKeeps(b0, map[], x.key, x.value);
    assert [x] + b0[0].list == [x] && map[][x.key := x.value] == map[x.key := x.value];
  }

  /** A run that ends so: an item of hash 0 is inserted into a new table, for which a segment is
      added, and is erased again; both find bucket 0 as its home.  Then `rehash(512)` passes
      over the waiting buckets. */
  lemma RehashPassesOver(x: Item)
    requires x.key.hash == 0
    ensures var b0 := [Items([]), Items([])];
            var b1 := Enabled(b0[0 := Items([x])], false);
            var b2 := b1[0 := Items([])];
            && Represents(b0, map[]) && Represents(b1, map[x.key := x.value]) && Represents(b2, map[])
            && Home(b0, 0) == Home(b1, 0) == 0 && b1[Masked(0, |b1|)].Items?
            && Waiting(b2, 2) && !Covers(Reserved(b2, true, 512))
  {
    hide Represents;
    hide Reserved;
    hide Covers;
    hide Masked;
    var b0: Table := [Items([]), Items([])];
    OneInserted(x);
    var b := b0[0 := Items([x])];
    EnabledOk(b, false);
    EnabledKeeps(b, map[x.key := x.value], false);
    var b1 := Enabled(b, false);
    MaskedZero(|b1|);
    assert b1[0] == Items([x]);
    EraseKeeps(b1, map[x.key := x.value], x.key, 0);
    assert [x][..0] + [x][1..] == [] && map[x.key := x.value] - {x.key} == map[];
    var b2 := b1[0 := Items([])];
    assert b2[2] == RehashReq;
    RehashCovers(b2, 512);
  }

  lemma {:induction false} MaskedZero(size: nat)
    requires Power(size)
    ensures Masked(0, size) == 0
    decreases size
  {
    if size > 1 {
      MaskedZero(size / 2);
    }
  }

  /** Buckets whose homes in the table `b0` are in `roots` have been marked. */
  ghost predicate RootsMarked(b0: Table, b: Table, roots: set<nat>)
    requires TableOk(b0)
  {
    && |b| == |b0|
    && forall i: nat {:trigger b[i]} | i < |b| :: b[i].Items? <==> b0[i].Items? || Climb(b0, i) in roots
  }

  lemma RootsBegin(b0: Table)
    requires TableOk(b0)
    ensures RootsMarked(b0, b0, {}) && LastRoots(b0, |b0| / 2) == {}
  {
  }

  lemma RootsSame(b0: Table, b: Table, roots: set<nat>, b': Table)
    requires TableOk(b0) && RootsMarked(b0, b, roots) && |b'| == |b|
    requires forall n: nat {:trigger b'[n]} | n < |b| :: b'[n].Items? == b[n].Items?
    ensures RootsMarked(b0, b', roots)
  {
    forall i: nat | i < |b|
      ensures b'[i].Items? <==> b0[i].Items? || Climb(b0, i) in roots
    {
      assert b[i].Items? <==> b0[i].Items? || Climb(b0, i) in roots;
    }
  }

  /** What the scan does at `i`: a bucket that still waits adds its home to the roots. */
  lemma RootsNext(b0: Table, b: Table, roots: set<nat>, i: nat)
    requires TableOk(b0) && TableOk(b) && RootsMarked(b0, b, roots) && |b0| / 2 <= i < |b0| && roots == LastRoots(b0, i)
    ensures LastRoots(b0, i + 1) == if b[i].RehashReq? then roots + {Climb(b, i)} else roots
  {
    assert b[i].Items? <==> b0[i].Items? || Climb(b0, i) in roots;
    assert LastRoots(b0, i + 1) == if Waiting(b0, i) then roots + {Climb(b0, i)} else roots;
    if b[i].RehashReq? {
      ClimbUnmarked(b0, b, roots, i);
    }
  }

  /** The scan leaves nothing waiting exactly when it has met all homes. */
  lemma RootsEnd(b0: Table, b: Table)
    requires TableOk(b0) && RootsMarked(b0, b, LastRoots(b0, |b0|))
    ensures (NothingWaits(b) <==> Covers(b0)) && LastUniform(b)
  {
    forall j: nat | |b| / 2 <= j < |b|
      ensures b[j].Items?
    {
      assert b[j].Items? <==> b0[j].Items? || Climb(b0, j) in LastRoots(b0, |b0|);
      assert Waiting(b0, j) ==> Climb(b0, j) in LastRoots(b0, |b0|);
    }
    if Covers(b0) {
      forall i: nat | i < |b|
        ensures b[i].Items?
      {
        assert Waiting(b0, i) ==> Climb(b0, i) in LastRoots(b0, |b0|);
      }
    } else {
      var i: nat :| Waiting(b0, i) && Climb(b0, i) !in LastRoots(b0, |b0|);
      assert b[i].RehashReq?;
    }
  }

  /** What still waits climbs as it did. */
  lemma {:induction false} ClimbUnmarked(b0: Table, b: Table, roots: set<nat>, i: nat)
    requires TableOk(b0) && TableOk(b) && RootsMarked(b0, b, roots) && Waiting(b, i)
    ensures Waiting(b0, i) && Climb(b, i) == Climb(b0, i)
    decreases i
  {
    if b[Parent(i)].RehashReq? {
      ClimbUnmarked(b0, b, roots, Parent(i));
    }
  }

  /** Marking the levels of one more home adds it to the roots. */
  lemma RootMarked(b0: Table, b: Table, roots: set<nat>, h: nat, b': Table)
    requires TableOk(b0) && TableOk(b) && RootsMarked(b0, b, roots) && LevelsMarked(b, h, b')
    ensures RootsMarked(b0, b', roots + {h})
  {
    forall i: nat | i < |b|
      ensures b'[i].Items? <==> b0[i].Items? || Climb(b0, i) in roots + {h}
    {
      assert b'[i] == if b[i].RehashReq? && Climb(b, i) == h then Items([]) else b[i];
      if b[i].RehashReq? { ClimbUnmarked(b0, b, roots, i); }
    }
  }

  /** With no bucket waiting, every item sits where the full mask puts it. */
  lemma {:induction false} AllInPlace(b: Table, contents: map<Key, int>, i: nat, x: Item)
    requires Represents(b, contents) && NothingWaits(b) && Stores(b, i, x)
    ensures i == Masked(x.key.hash, |b|)
  {
  }
}
