/** Locksets as 64-bit masks: a lock's id is a word with one clear bit, and a lockset is
    the conjunction of the ids of the locks held.  All bits set means that no lock is held. */
module Lockset {
  import opened Common

  // ---------------------------------------------------------------- 64-bit words

  /** A size_t: the bitwise operators are written out on the number, bit by bit. */
  type Word = n: nat | n < 0x1_0000_0000_0000_0000

  const ZERO: Word := 0
  const NO_LOCKS: Word := 0xffff_ffff_ffff_ffff

  predicate BitSet(n: nat, k: nat)
    decreases k
  {
    if k == 0 then n % 2 == 1 else BitSet(n / 2, k - 1)
  }

  function BitAnd(a: nat, b: nat): (r: nat)
    ensures r <= a
  {
    if a == 0 then 0 else 2 * BitAnd(a / 2, b / 2) + (if a % 2 == 1 && b % 2 == 1 then 1 else 0)
  }

  /** Complement of the low `w` bits. */
  function BitNot(a: nat, w: nat): (r: nat)
    ensures r < Pow2(w)
    decreases w, a
  {
    if w == 0 then 0 else 2 * BitNot(a / 2, w - 1) + (1 - a % 2)
  }

  lemma {:induction false} AndBits(a: nat, b: nat, k: nat)
    ensures BitSet(BitAnd(a, b), k) <==> BitSet(a, k) && BitSet(b, k)
    decreases k
  {
    if a == 0 {
      NoBitsInZero(k);
    } else if k > 0 {
      AndBits(a / 2, b / 2, k - 1);
      assert BitAnd(a, b) / 2 == BitAnd(a / 2, b / 2);
    }
  }

  lemma {:induction false} NoBitsInZero(k: nat)
    ensures !BitSet(0, k)
    decreases k
  {
    if k > 0 {
      NoBitsInZero(k - 1);
    }
  }

  lemma {:induction false} NotBits(a: nat, w: nat, k: nat)
    requires k < w
    ensures BitSet(BitNot(a, w), k) <==> !BitSet(a, k)
    decreases k
  {
    assert BitNot(a, w) / 2 == BitNot(a / 2, w - 1);
    if k > 0 {
      NotBits(a / 2, w - 1, k - 1);
    }
  }

  lemma {:induction false} PowerBits(j: nat, k: nat)
    ensures BitSet(Pow2(j), k) <==> j == k
    decreases j
  {
    if j == 0 && k > 0 {
      NoBitsInZero(k - 1);
    } else if j > 0 && k > 0 {
      PowerBits(j - 1, k - 1);
      assert Pow2(j) / 2 == Pow2(j - 1);
    }
  }

  /** A number of `w` bits is determined by them. */
  lemma {:induction false} BitsDetermine(a: nat, b: nat, w: nat)
    requires a < Pow2(w) && b < Pow2(w)
    requires forall k | 0 <= k < w :: BitSet(a, k) == BitSet(b, k)
    ensures a == b
    decreases w
  {
    if w > 0 {
      assert BitSet(a, 0) == BitSet(b, 0);
      forall k | 0 <= k < w - 1
        ensures BitSet(a / 2, k) == BitSet(b / 2, k)
      {
        assert BitSet(a, k + 1) == BitSet(b, k + 1);
      }
      BitsDetermine(a / 2, b / 2, w - 1);
    }
  }

  lemma PowerBy8(k: nat)
    ensures Pow2(k + 8) == 256 * Pow2(k)
  {
    assert Pow2(k + 4) == 16 * Pow2(k) by {
      assert Pow2(k + 2) == 4 * Pow2(k);
    }
    assert Pow2(k + 8) == 16 * Pow2(k + 4) by {
      assert Pow2(k + 6) == 4 * Pow2(k + 4);
    }
  }

  lemma WordWidth()
    ensures Pow2(64) == 0x1_0000_0000_0000_0000
  {
    PowerBy8(0);
    PowerBy8(8);
    PowerBy8(16);
    PowerBy8(24);
    PowerBy8(32);
    PowerBy8(40);
    PowerBy8(48);
    PowerBy8(56);
  }

  lemma {:induction false} AllOnes(n: nat, w: nat, k: nat)
    requires n == Pow2(w) - 1 && k < w
    ensures BitSet(n, k)
    decreases w
  {
    assert n % 2 == 1 && n / 2 == Pow2(w - 1) - 1;
    if k > 0 {
      AllOnes(n / 2, w - 1, k - 1);
    }
  }

  lemma {:induction false} PowerGrows(j: nat, k: nat)
    requires j < k
    ensures Pow2(j) < Pow2(k)
    decreases k
  {
    if j < k - 1 {
      PowerGrows(j, k - 1);
    }
  }

  function And(a: Word, b: Word): Word {
    BitAnd(a, b)
  }

  function Not(a: Word): Word {
    WordWidth();
    BitNot(a, 64)
  }

  /** a | b, as ~(~a & ~b) */
  function Or(a: Word, b: Word): Word {
    Not(And(Not(a), Not(b)))
  }

  /** 1 << k */
  function Bit(k: nat): Word
    requires k < 64
  {
    WordWidth();
    PowerGrows(k, 64);
    Pow2(k)
  }

  lemma {:induction false} WordBits(a: Word, b: Word, k: nat)
    requires k < 64
    ensures BitSet(And(a, b), k) <==> BitSet(a, k) && BitSet(b, k)
    ensures BitSet(Not(a), k) <==> !BitSet(a, k)
    ensures BitSet(Or(a, b), k) <==> BitSet(a, k) || BitSet(b, k)
  {
    AndBits(a, b, k);
    NotBits(a, 64, k);
    NotBits(b, 64, k);
    AndBits(Not(a), Not(b), k);
    NotBits(And(Not(a), Not(b)), 64, k);
  }

  // ---------------------------------------------------------------- masks as sets of locks

  /** The numbers of the locks that a mask says are held: its clear bits. */
  function HeldIn(m: Word): set<nat> {
    set k: nat | k < 64 && !BitSet(m, k)
  }

  /** No lock is held in both. */
  predicate Disjoint(a: Word, b: Word) {
    HeldIn(a) !! HeldIn(b)
  }

  lemma DisjointSymmetric(a: Word, b: Word)
    ensures Disjoint(a, b) == Disjoint(b, a)
  {
  }

  lemma SameBitsSameWord(a: Word, b: Word)
    requires forall k: nat | k < 64 :: BitSet(a, k) == BitSet(b, k)
    ensures a == b
  {
    WordWidth();
    BitsDetermine(a, b, 64);
  }

  /** The test of the race check, (~a & ~b) == 0, decides whether the locksets are disjoint. */
  lemma BitTestDecides(a: Word, b: Word)
    ensures And(Not(a), Not(b)) == ZERO <==> Disjoint(a, b)
  {
    var w := And(Not(a), Not(b));
    forall k: nat | k < 64
      ensures BitSet(w, k) <==> k in HeldIn(a) && k in HeldIn(b)
      ensures !BitSet(ZERO, k)
    {
      WordBits(Not(a), Not(b), k);
      WordBits(a, b, k);
      WordBits(b, a, k);
      NoBitsInZero(k);
    }
    if Disjoint(a, b) {
      SameBitsSameWord(w, ZERO);
    } else {
      var k :| k in HeldIn(a) && k in HeldIn(b);
      assert BitSet(w, k) != BitSet(ZERO, k);
    }
  }

  /** The id of lock number `k`: every bit but one. */
  function IdOf(k: nat): Word
    requires k < 64
  {
    Not(Bit(k))
  }

  lemma {:induction false} IdBits(m: Word, k: nat, j: nat)
    requires k < 64 && j < 64
    ensures BitSet(IdOf(k), j) <==> j != k
    ensures BitSet(And(m, IdOf(k)), j) <==> BitSet(m, j) && j != k
    ensures BitSet(Or(m, Not(IdOf(k))), j) <==> BitSet(m, j) || j == k
  {
    PowerBits(k, j);
    WordBits(Bit(k), m, j);
    WordBits(m, IdOf(k), j);
    WordBits(IdOf(k), m, j);
    WordBits(m, Not(IdOf(k)), j);
  }

  lemma AcquireAddsLock(m: Word, k: nat)
    requires k < 64
    ensures HeldIn(And(m, IdOf(k))) == HeldIn(m) + {k}
  {
    var n := And(m, IdOf(k));
    forall j: nat | j < 64
      ensures j in HeldIn(n) <==> j in HeldIn(m) || j == k
    {
      IdBits(m, k, j);
    }
  }

  lemma ReleaseRemovesLock(m: Word, k: nat)
    requires k < 64
    ensures HeldIn(Or(m, Not(IdOf(k)))) == HeldIn(m) - {k}
  {
    var n := Or(m, Not(IdOf(k)));
    forall j: nat | j < 64
      ensures j in HeldIn(n) <==> j in HeldIn(m) && j != k
    {
      IdBits(m, k, j);
    }
  }

  lemma NoLocksHeld()
    ensures HeldIn(NO_LOCKS) == {}
  {
    WordWidth();
    forall k: nat | k < 64
      ensures BitSet(NO_LOCKS, k)
    {
      AllOnes(NO_LOCKS, 64, k);
    }
  }

  /** Locksets with the same locks are the same mask, so comparing masks compares locksets. */
  lemma MaskDeterminedByLocks(a: Word, b: Word)
    requires HeldIn(a) == HeldIn(b)
    ensures a == b
  {
    forall k: nat | k < 64
      ensures BitSet(a, k) == BitSet(b, k)
    {
      assert k in HeldIn(a) <==> k in HeldIn(b);
    }
    SameBitsSameWord(a, b);
  }

  /** A mask collides with the empty-entry value 0 exactly when all 64 locks are held. */
  lemma MaskZeroIffAllHeld(m: Word)
    ensures m == ZERO <==> |HeldIn(m)| == 64
  {
    var all := Below(64);
    if |HeldIn(m)| == 64 {
      SubsetOfEqualSize(HeldIn(m), all);
      forall k: nat | k < 64
        ensures BitSet(m, k) == BitSet(ZERO, k)
      {
        NoBitsInZero(k);
        assert k in all;
      }
      SameBitsSameWord(m, ZERO);
    }
    if m == ZERO {
      forall k: nat | k < 64
        ensures k in HeldIn(m)
      {
        NoBitsInZero(k);
      }
      assert HeldIn(m) == all;
    }
  }

  /** Only locks numbered below `n` are held. */
  ghost predicate Within(m: Word, n: nat) {
    forall k | k in HeldIn(m) :: k < n
  }

  /** With at most 63 locks numbered no mask is the empty-entry value. */
  lemma WithinNotZero(m: Word, n: nat)
    requires Within(m, n) && n <= 63
    ensures m != ZERO
  {
    NoBitsInZero(63);
    assert m == ZERO ==> 63 in HeldIn(m);
  }

  lemma {:induction false} SubsetOfEqualSize(a: set<nat>, b: set<nat>)
    requires a <= b && |a| == |b|
    ensures a == b
  {
    if a != {} {
      var x :| x in a;
      SubsetOfEqualSize(a - {x}, b - {x});
    }
  }

  // ---------------------------------------------------------------- lock ids

  /** The map from lock addresses to ids, shared by all threads. */
  class LockRegistry {
    var ticker: nat
    var ids: map<nat, Word>
    ghost var number: map<nat, nat>   // the bit each address owns

    ghost predicate Valid()
      reads this
    {
      && ticker <= 64
      && ids.Keys == number.Keys
      && (forall a | a in number :: number[a] < ticker && ids[a] == IdOf(number[a]))
      && (forall a, b | a in number && b in number && number[a] == number[b] :: a == b)
    }

    constructor ()
      ensures Valid() && ids == map[] && ticker == 0
    {
      ticker, ids, number := 0, map[], map[];
    }

    /** One id per address: known addresses keep theirs, a new one takes the next bit. */
    method GetLockId(lockHeld: nat) returns (id: Word)
      requires Valid() && (lockHeld !in ids ==> ticker < 64)
      modifies this
      ensures Valid() && lockHeld in number && number[lockHeld] < ticker <= 64 && id == IdOf(number[lockHeld])
      ensures lockHeld in old(ids) ==> number == old(number) && ticker == old(ticker) && ids == old(ids)
      ensures lockHeld !in old(ids) ==>
        number == old(number)[lockHeld := old(ticker)] && ticker == old(ticker) + 1 && ids == old(ids)[lockHeld := id]
    {
      if lockHeld !in ids {
        id := Not(Bit(ticker));
        number := number[lockHeld := ticker];
        ticker := ticker + 1;
        ids := ids[lockHeld := id];
      } else {
        id := ids[lockHeld];
      }
    }
  }

  /** Two addresses never share a lock id. */
  lemma IdsInjective(r: LockRegistry, a: nat, b: nat)
    requires r.Valid() && a in r.ids && b in r.ids && r.ids[a] == r.ids[b]
    ensures a == b
  {
    var j, k := r.number[a], r.number[b];
    IdBits(ZERO, j, j);
    IdBits(ZERO, k, j);
  }

  // ---------------------------------------------------------------- the lockset of one task

  lemma WithinMore(m: Word, m': Word, n: nat, n': nat, k: nat)
    requires Within(m, n) && HeldIn(m') == HeldIn(m) + {k} && k < n' && n <= n'
    ensures Within(m', n') && (n' <= 63 ==> m' != ZERO)
  {
    hide HeldIn;
    assert Within(m', n');
    if n' <= 63 { WithinNotZero(m', n'); }
  }

  ghost function Elements(held: seq<nat>): set<nat> {
    set k | k in held
  }

  lemma ElementsMore(held: seq<nat>, k: nat)
    ensures Elements(held + [k]) == Elements(held) + {k}
  {
  }

  lemma ElementsLess(held: seq<nat>)
    requires held != []
    ensures var n := |held| - 1;
            Elements(held) - {held[n]} == Elements(held[..n]) <==> held[n] !in held[..n]
  {
    var n := |held| - 1;
    assert held == held[..n] + [held[n]];
    assert held[n] in held[..n] <==> held[n] in Elements(held[..n]);
  }

  class LocksetData {
    var lockset: Word
    var locks: seq<Word>
    ghost var held: seq<nat>   // the lock numbers on the stack, oldest first

    ghost predicate Valid()
      reads this
    {
      |locks| == |held| && forall i | 0 <= i < |held| :: held[i] < 64 && locks[i] == IdOf(held[i])
    }

    /** The mask shows exactly the locks on the stack. */
    ghost predicate Exact()
      reads this
    {
      HeldIn(lockset) == Elements(held)
    }

    constructor ()
      ensures Valid() && Exact() && held == [] && lockset == NO_LOCKS && Within(lockset, 0)
    {
      lockset, locks, held := NO_LOCKS, [], [];
      new;
      NoLocksHeld();
    }

    /** Takes a lock, which may be held already. */
    method AddLockToLockset(reg: LockRegistry, lockHeld: nat)
      requires Valid() && reg.Valid() && (lockHeld !in reg.ids ==> reg.ticker < 64)
      modifies this, reg
      ensures Valid() && reg.Valid() && lockHeld in reg.number && Keeps(old(reg.number), reg.number)
      ensures held == old(held) + [reg.number[lockHeld]]
      ensures HeldIn(lockset) == HeldIn(old(lockset)) + {reg.number[lockHeld]}
      ensures old(Exact()) ==> Exact()
      ensures old(Within(lockset, reg.ticker)) ==> Within(lockset, reg.ticker) && (reg.ticker <= 63 ==> lockset != ZERO)
    {
      hide HeldIn;
      hide IdOf;
      hide And;
      hide Keeps;
      hide Within;
      hide Elements;
      KeepsMore(reg.number, reg.number, lockHeld, reg.ticker);
      ghost var before, ticker := lockset, reg.ticker;
      var lockId := reg.GetLockId(lockHeld);
      ElementsMore(held, reg.number[lockHeld]);
      locks := locks + [lockId];
      AcquireAddsLock(lockset, reg.number[lockHeld]);
      lockset := And(lockset, lockId);
      held := held + [reg.number[lockHeld]];
      if Within(before, ticker) {
        WithinMore(before, lockset, ticker, reg.ticker, reg.number[lockHeld]);
      }
    }

    /** Releases the lock taken last.  The mask stays exact unless that lock is still held
        from an earlier time: then the mask no longer shows it. */
    method RemoveLockFromLockset()
      requires Valid() && locks != []
      modifies this
      ensures Valid() && held == old(held)[..|old(held)| - 1]
      ensures HeldIn(lockset) == HeldIn(old(lockset)) - {old(held)[|old(held)| - 1]}
      ensures old(Exact()) ==> (Exact() <==> old(held)[|old(held)| - 1] !in held)
    {
      hide HeldIn;
      hide IdOf;
      hide Or;
      hide Elements;
      ElementsLess(held);
      var n := |locks| - 1;
      var lockId := locks[n];
      ReleaseRemovesLock(lockset, held[n]);
      lockset := Or(lockset, Not(lockId));
      locks := locks[..n];
      held := held[..n];
    }
  }

  /** A lock taken twice and released once is still held, and the mask does not show it. */
  method TakenTwice() returns (d: LocksetData)
    ensures fresh(d) && d.Valid() && |d.held| == 1 && HeldIn(d.lockset) == {}
  {
    hide HeldIn;
    NoLocksHeld();
    var reg := new LockRegistry();
    d := new LocksetData();
    d.AddLockToLockset(reg, 7);
    d.AddLockToLockset(reg, 7);
    d.RemoveLockFromLockset();
  }

  // ---------------------------------------------------------------- the lockset of one access

  ghost function NumbersOf(number: map<nat, nat>, s: seq<nat>): set<nat> {
    set a | a in s && a in number :: number[a]
  }

  /** Numbers are never taken back. */
  ghost predicate Keeps(number: map<nat, nat>, number': map<nat, nat>) {
    forall a | a in number :: a in number' && number'[a] == number[a]
  }

  lemma KeepsMore(number: map<nat, nat>, number': map<nat, nat>, a: nat, k: nat)
    requires Keeps(number, number')
    ensures Keeps(number', number') && (a !in number' ==> Keeps(number, number'[a := k]) && Keeps(number', number'[a := k]))
  {
  }

  lemma NumbersOfStable(number: map<nat, nat>, number': map<nat, nat>, s: seq<nat>)
    requires Keeps(number, number') && forall a | a in s :: a in number
    ensures NumbersOf(number', s) == NumbersOf(number, s)
  {
  }

  lemma NumbersOfNext(number: map<nat, nat>, number': map<nat, nat>, s: seq<nat>, a: nat)
    requires Keeps(number, number') && (forall b | b in s :: b in number) && a in number'
    ensures NumbersOf(number', s + [a]) == NumbersOf(number, s) + {number'[a]}
  {
    NumbersOfStable(number, number', s);
    assert forall b :: b in s + [a] <==> b in s || b == a;
  }

  /** The addresses of a list that have no number yet. */
  ghost function Unnumbered(number: map<nat, nat>, s: seq<nat>): set<nat> {
    set a | a in s && a !in number
  }

  /** If a list fits, there is a number for its first address, and room for the rest. */
  lemma RoomForNext(number: map<nat, nat>, ticker: nat, a: nat, rest: seq<nat>)
    requires ticker + |Unnumbered(number, [a] + rest)| <= 64
    ensures a in number ==> ticker + |Unnumbered(number, rest)| <= 64
    ensures a !in number ==> ticker < 64 && ticker + 1 + |Unnumbered(number[a := ticker], rest)| <= 64
  {
    var s := [a] + rest;
    assert forall b :: b in s <==> b == a || b in rest;
    if a !in number {
      assert a in Unnumbered(number, s);
      assert Unnumbered(number[a := ticker], rest) == Unnumbered(number, s) - {a};
    } else {
      assert Unnumbered(number, rest) == Unnumbered(number, s);
    }
  }

  /** Part way through a list, the rest of which still fits. */
  ghost predicate Numbering(reg: LockRegistry, number: map<nat, nat>, done: seq<nat>, rest: seq<nat>)
    reads reg
  {
    && reg.Valid() && Keeps(number, reg.number) && (forall a | a in done :: a in reg.number)
    && reg.ticker + |Unnumbered(reg.number, rest)| <= 64
  }

  /** The next address of a list gets its number, old or new. */
  method NextId(reg: LockRegistry, ghost number: map<nat, nat>, ghost done: seq<nat>, lock: nat, ghost rest: seq<nat>)
      returns (id: Word)
    requires Numbering(reg, number, done, [lock] + rest)
    modifies reg
    ensures Numbering(reg, number, done + [lock], rest) && Keeps(old(reg.number), reg.number)
    ensures lock in reg.number && reg.number[lock] < 64 && id == IdOf(reg.number[lock]) && reg.ticker >= old(reg.ticker)
    ensures NumbersOf(reg.number, done + [lock]) == NumbersOf(old(reg.number), done) + {reg.number[lock]}
  {
    ghost var before := reg.number;
    RoomForNext(before, reg.ticker, lock, rest);
    KeepsMore(number, before, lock, reg.ticker);
    assert reg.ids.Keys == before.Keys;
    hide Unnumbered;
    hide IdOf;
    hide NumbersOf;
    hide Keeps;
    hide LockRegistry.Valid;
    id := reg.GetLockId(lock);
    NumbersOfNext(before, reg.number, done, lock);
  }

  lemma TakeNext(s: seq<nat>, i: nat, rest: seq<nat>)
    requires i < |s|
    ensures s[i..] + rest == [s[i]] + (s[i + 1..] + rest) && s[..i + 1] == s[..i] + [s[i]]
  {
  }

  method AcquireAll(reg: LockRegistry, start: Word, locksAcq: seq<nat>, ghost rest: seq<nat>) returns (m: Word)
    requires Numbering(reg, reg.number, [], locksAcq + rest)
    modifies reg
    ensures Numbering(reg, old(reg.number), locksAcq, rest) && reg.ticker >= old(reg.ticker)
    ensures HeldIn(m) == HeldIn(start) + NumbersOf(reg.number, locksAcq)
  {
    ghost var number := reg.number;
    hide HeldIn;
    hide IdOf;
    hide And;
    hide Or;
    hide Not;
    hide Unnumbered;
    hide Keeps;
    hide Numbering;
    assert locksAcq[..0] == [] && locksAcq[0..] == locksAcq;
    assert NumbersOf(reg.number, []) == {};
    hide NumbersOf;
    m := start;
    for i := 0 to |locksAcq|
      invariant Numbering(reg, number, locksAcq[..i], locksAcq[i..] + rest) && reg.ticker >= old(reg.ticker)
      invariant HeldIn(m) == HeldIn(start) + NumbersOf(reg.number, locksAcq[..i])
    {
      TakeNext(locksAcq, i, rest);
      var id := NextId(reg, number, locksAcq[..i], locksAcq[i], locksAcq[i + 1..] + rest);
      AcquireAddsLock(m, reg.number[locksAcq[i]]);
      m := And(m, id);
    }
    assert locksAcq[..|locksAcq|] == locksAcq && locksAcq[|locksAcq|..] + rest == rest;
  }

  method ReleaseAll(reg: LockRegistry, start: Word, locksRel: seq<nat>, ghost rest: seq<nat>) returns (m: Word)
    requires Numbering(reg, reg.number, [], locksRel + rest)
    modifies reg
    ensures Numbering(reg, old(reg.number), locksRel, rest) && reg.ticker >= old(reg.ticker)
    ensures HeldIn(m) == HeldIn(start) - NumbersOf(reg.number, locksRel)
  {
    ghost var number := reg.number;
    hide HeldIn;
    hide IdOf;
    hide And;
    hide Or;
    hide Not;
    hide Unnumbered;
    hide Keeps;
    hide Numbering;
    assert locksRel[..0] == [] && locksRel[0..] == locksRel;
    assert NumbersOf(reg.number, []) == {};
    hide NumbersOf;
    m := start;
    for i := 0 to |locksRel|
      invariant Numbering(reg, number, locksRel[..i], locksRel[i..] + rest) && reg.ticker >= old(reg.ticker)
      invariant HeldIn(m) == HeldIn(start) - NumbersOf(reg.number, locksRel[..i])
    {
      TakeNext(locksRel, i, rest);
      var id := NextId(reg, number, locksRel[..i], locksRel[i], locksRel[i + 1..] + rest);
      ReleaseRemovesLock(m, reg.number[locksRel[i]]);
      m := Or(m, Not(id));
    }
    assert locksRel[..|locksRel|] == locksRel && locksRel[|locksRel|..] + rest == rest;
  }

  /** What the mask of the access may show, all of it numbered. */
  lemma AdjustedWithin(reg: LockRegistry, ticker: nat, start: Word, m: Word, acquired: seq<nat>)
    requires reg.Valid() && Within(start, ticker) && ticker <= reg.ticker
    requires HeldIn(m) <= HeldIn(start) + NumbersOf(reg.number, acquired)
    ensures Within(m, reg.ticker) && (reg.ticker <= 63 ==> m != ZERO)
  {
    assert Within(m, reg.ticker);
    if reg.ticker <= 63 { WithinNotZero(m, reg.ticker); }
  }

  /** The lockset of one access: locks acquired around it are added, then released ones
      removed.  Locks not seen before are numbered, as long as there are numbers. */
  method AdjustLockset(reg: LockRegistry, start: Word, locksAcq: seq<nat>, locksRel: seq<nat>) returns (m: Word)
    requires reg.Valid() && reg.ticker + |Unnumbered(reg.number, locksAcq + locksRel)| <= 64
    modifies reg
    ensures reg.Valid() && Keeps(old(reg.number), reg.number)
    ensures forall a | a in locksAcq + locksRel :: a in reg.number
    ensures HeldIn(m) == HeldIn(start) + NumbersOf(reg.number, locksAcq) - NumbersOf(reg.number, locksRel)
    ensures old(Within(start, reg.ticker)) ==> Within(m, reg.ticker) && (reg.ticker <= 63 ==> m != ZERO)
  {
    hide HeldIn;
    hide Within;
    ghost var ticker := reg.ticker;
    m := AcquireAll(reg, start, locksAcq, locksRel);
    ghost var number := reg.number;
    assert locksRel == locksRel + [];
    m := ReleaseAll(reg, m, locksRel, []);
    NumbersOfStable(number, reg.number, locksAcq);
    if Within(start, ticker) {
      AdjustedWithin(reg, ticker, start, m, locksAcq);
    }
  }
}
