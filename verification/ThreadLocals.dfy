/** The growing probe tables behind enumerable_thread_specific, as a step machine: every
    step reads or writes shared memory once.  A thread looks for its own key from the newest
    array to the oldest; it inserts the key into the newest one if it was not found there. */
module ThreadLocals {

  import opened Common

  /** A slot that has been claimed holds its thread's key; the pointer is stored afterwards. */
  datatype Slot = Empty | Held(owner: nat, ptr: nat)

  datatype Arr = Arr(lg: nat, next: Ref, slots: seq<Slot>)

  datatype Pc =
    | Idle         // outside table_lookup
    | ReadRoot     // reads my_root and starts at the newest array
    | Probe        // looks at one slot of `arr`
    | CheckRoot    // found its key: is `arr` still the root?
    | Create       // found nothing: makes the thread's object
    | Bump         // increments my_count
    | CheckSize    // reads my_root, and allocates a larger array if needed
    | Publish      // tries to swap the new array in as the root
    | ReadTop      // reads my_root to insert there
    | Place        // looks for an empty slot
    | Claim        // tries to swap its key into the slot
    | Store        // stores the pointer into the slot it has claimed

  /** A thread's locals.  `ticket` is the count it drew (0 before), `first` the first pointer
      it ever created (0 before), `result` what its last lookup returned. */
  datatype Thread = Thread(pc: Pc, hash: nat, arr: nat, d: nat, found: nat, grown: nat, seen: Ref,
                           ticket: nat, first: nat, result: nat)

  datatype State = State(arrays: seq<Arr>, root: Ref, count: nat, nextPtr: nat, threads: seq<Thread>)

  /** How far an array of this size may be filled. */
  function Room(lg: nat): nat {
    if lg == 0 then 0 else Pow2(lg - 1)
  }

  function HighBits(h: nat, drop: nat): nat {
    if drop == 0 then h else HighBits(h / 2, drop - 1)
  }

  /** The slot where probing starts: the upper bits of the hash. */
  function Start(h: nat, lg: nat): (i: nat)
    ensures i < Pow2(lg)
  {
    HighBits(h, if lg < 64 then 64 - lg else 0) % Pow2(lg)
  }

  /** A hash of 64 bits starts at its upper `lg` bits. */
  lemma {:induction false} StartIsUpperBits(h: nat, lg: nat)
    requires lg <= 64 && h < Pow2(64)
    ensures Scaled(Pow2(64 - lg), Start(h, lg)) <= h < Scaled(Pow2(64 - lg), Start(h, lg) + 1)
  {
    hide Pow2;
    hide Scaled;
    HighBitsOf(h, 64 - lg);
    PowersMultiply(64 - lg, lg);
    ScaledApart(Pow2(64 - lg), Pow2(lg), HighBits(h, 64 - lg));
    SmallRemainder(HighBits(h, 64 - lg), Pow2(lg));
  }

  lemma SmallRemainder(x: nat, d: nat)
    requires x < d
    ensures x % d == x
  {
  }

  lemma {:induction false} HighBitsOf(h: nat, drop: nat)
    ensures Scaled(Pow2(drop), HighBits(h, drop)) <= h < Scaled(Pow2(drop), HighBits(h, drop) + 1)
    decreases drop
  {
    if drop > 0 {
      hide Scaled;
      HighBitsOf(h / 2, drop - 1);
      ScaledTwice(Pow2(drop - 1), HighBits(h / 2, drop - 1));
      ScaledTwice(Pow2(drop - 1), HighBits(h / 2, drop - 1) + 1);
    }
  }

  lemma {:induction false} PowersMultiply(a: nat, b: nat)
    ensures Scaled(Pow2(a), Pow2(b)) == Pow2(a + b)
    decreases a
  {
    if a > 0 {
      PowersMultiply(a - 1, b);
      ScaledTwice(Pow2(a - 1), Pow2(b));
    }
  }

  /** The slot `d` places further on, around the end. */
  function At(h: nat, lg: nat, d: nat): (i: nat)
    requires d < Pow2(lg)
    ensures i < Pow2(lg)
  {
    var i := Start(h, lg) + d;
    if i < Pow2(lg) then i else i - Pow2(lg)
  }

  /** The smallest size, from `lg` up, with room for `c` keys. */
  function Fit(lg: nat, c: nat): (r: nat)
    ensures r >= lg && r >= 1 && c <= Room(r)
    decreases c - Room(lg)
  {
    if lg >= 1 && c <= Room(lg) then lg else RoomGrows(lg); Fit(lg + 1, c)
  }

  lemma RoomGrows(lg: nat)
    ensures Room(lg + 1) > Room(lg)
  {
  }

  function NewArray(lg: nat): Arr {
    Arr(lg, Null, seq(Pow2(lg), _ => Empty))
  }

  function Put(s: State, t: nat, th: Thread): State
    requires t < |s.threads|
  {
    s.(threads := s.threads[t := th])
  }

  predicate AtSlot(s: State, th: Thread) {
    && th.arr < |s.arrays| && th.d < Pow2(s.arrays[th.arr].lg)
    && |s.arrays[th.arr].slots| == Pow2(s.arrays[th.arr].lg)
  }

  /** The slot a thread is looking at. */
  function Index(s: State, th: Thread): (i: nat)
    requires AtSlot(s, th)
    ensures i < |s.arrays[th.arr].slots|
  {
    At(th.hash, s.arrays[th.arr].lg, th.d)
  }

  function Write(s: State, a: nat, i: nat, x: Slot): State
    requires a < |s.arrays| && i < |s.arrays[a].slots|
  {
    s.(arrays := s.arrays[a := s.arrays[a].(slots := s.arrays[a].slots[i := x])])
  }

  /** One step of thread `t`.  The guards on indices always hold, as the invariant shows. */
  function Step(s: State, t: nat): State
    requires t < |s.threads|
  {
    var th := s.threads[t];
    match th.pc
    case Idle => Put(s, t, th.(pc := ReadRoot))
    case ReadRoot =>
      if s.root == Null then Put(s, t, th.(pc := Create)) else Put(s, t, th.(pc := Probe, arr := s.root.index, d := 0))
    case Probe =>
      if !AtSlot(s, th) then s
      else (
        var a := s.arrays[th.arr];
        match a.slots[Index(s, th)]
        case Empty =>
          if a.next == Null then Put(s, t, th.(pc := Create)) else Put(s, t, th.(arr := a.next.index, d := 0))
        case Held(u, p) =>
          if u == t then Put(s, t, th.(pc := CheckRoot, found := p)) else Put(s, t, th.(d := th.d + 1)))
    case CheckRoot =>
      if s.root == To(th.arr) then Put(s, t, th.(pc := Idle, result := th.found)) else Put(s, t, th.(pc := ReadTop))
    case Create =>
      Put(s.(nextPtr := s.nextPtr + 1), t,
          th.(pc := Bump, found := s.nextPtr, first := if th.first == 0 then s.nextPtr else th.first))
    case Bump => Put(s.(count := s.count + 1), t, th.(pc := CheckSize, ticket := s.count + 1))
    case CheckSize =>
      if s.root.To? && s.root.index < |s.arrays| && th.ticket <= Room(s.arrays[s.root.index].lg) then
        Put(s, t, th.(pc := ReadTop))
      else
        var from := if s.root.To? && s.root.index < |s.arrays| then s.arrays[s.root.index].lg else 2;
        Put(s.(arrays := s.arrays + [NewArray(Fit(from, th.ticket))]), t,
            th.(pc := Publish, grown := |s.arrays|, seen := s.root))
    case Publish =>
      if th.grown >= |s.arrays| then s
      else (
        var s1 := s.(arrays := s.arrays[th.grown := s.arrays[th.grown].(next := th.seen)]);
        if s.root == th.seen then Put(s1.(root := To(th.grown)), t, th.(pc := ReadTop))
        else if s.root.To? && s.root.index < |s.arrays| && s.arrays[s.root.index].lg < s.arrays[th.grown].lg then
          Put(s1, t, th.(seen := s.root))
        else Put(s1, t, th.(pc := ReadTop)))
    case ReadTop =>
      if s.root == Null then s else Put(s, t, th.(pc := Place, arr := s.root.index, d := 0))
    case Place =>
      if !AtSlot(s, th) then s
      else if s.arrays[th.arr].slots[Index(s, th)].Empty? then Put(s, t, th.(pc := Claim))
      else Put(s, t, th.(d := th.d + 1))
    case Claim =>
      if !AtSlot(s, th) then s
      else if s.arrays[th.arr].slots[Index(s, th)].Empty? then
        Put(Write(s, th.arr, Index(s, th), Held(t, 0)), t, th.(pc := Store))
      else Put(s, t, th.(pc := Place, d := th.d + 1))
    case Store =>
      if !AtSlot(s, th) then s
      else Put(Write(s, th.arr, Index(s, th), Held(t, th.found)), t, th.(pc := Idle, result := th.found))
  }

  predicate Initial(s: State) {
    && s.arrays == [] && s.root == Null && s.count == 0 && s.nextPtr >= 1
    && forall t | 0 <= t < |s.threads| ::
         s.threads[t].pc == Idle && s.threads[t].ticket == s.threads[t].first == s.threads[t].result == 0
  }

  predicate Schedule(s: State, schedule: seq<nat>) {
    forall k | 0 <= k < |schedule| :: schedule[k] < |s.threads|
  }

  function Run(s: State, schedule: seq<nat>): State
    requires Schedule(s, schedule)
    ensures |Run(s, schedule).threads| == |s.threads|
    decreases |schedule|
  {
    if schedule == [] then s else Step(Run(s, schedule[..|schedule| - 1]), schedule[|schedule| - 1])
  }

  // ---------------------------------------------------------------- the invariant

  /** The published arrays, newest first: sizes strictly decrease along the links. */
  ghost predicate ChainOk(s: State, chain: seq<nat>) {
    && s.root == Head(chain)
    && (forall k: nat {:trigger chain[k]} | k < |chain| ::
          chain[k] < |s.arrays| && s.arrays[chain[k]].next == NextIn(chain, k))
    && (forall j: nat, k: nat {:trigger chain[j], chain[k]} | j < k < |chain| ::
          s.arrays[chain[j]].lg > s.arrays[chain[k]].lg)
  }

  predicate Holds(s: State, a: nat, i: nat, t: nat) {
    a < |s.arrays| && i < |s.arrays[a].slots| && s.arrays[a].slots[i].Held? && s.arrays[a].slots[i].owner == t
  }

  ghost predicate Has(s: State, t: nat) {
    exists a: nat, i: nat :: Holds(s, a, i, t)
  }

  predicate Full(s: State, a: nat, h: nat, e: nat) {
    && a < |s.arrays| && |s.arrays[a].slots| == Pow2(s.arrays[a].lg) && e < Pow2(s.arrays[a].lg)
    && s.arrays[a].slots[At(h, s.arrays[a].lg, e)].Held?
  }

  /** Everything the probe sequence of hash `h` visits before place `d` is taken. */
  ghost predicate Visited(s: State, a: nat, h: nat, d: nat) {
    forall e: nat {:trigger Full(s, a, h, e)} | e < d :: Full(s, a, h, e)
  }

  /** A key sits where its own probe sequence finds it, in an array with room for its ticket. */
  ghost predicate HeldOk(s: State, chain: seq<nat>, a: nat, i: nat, t: nat)
    requires Holds(s, a, i, t)
  {
    && t < |s.threads| && a in chain
    && 1 <= s.threads[t].ticket <= Room(s.arrays[a].lg)
    && (exists d: nat {:trigger Visited(s, a, s.threads[t].hash, d)} ::
          d < Pow2(s.arrays[a].lg) && i == At(s.threads[t].hash, s.arrays[a].lg, d) && Visited(s, a, s.threads[t].hash, d))
    && (s.arrays[a].slots[i].ptr == s.threads[t].first || StoringAt(s, a, i, t))
  }

  predicate StoringAt(s: State, a: nat, i: nat, t: nat) {
    && t < |s.threads| && s.threads[t].pc.Store? && s.threads[t].arr == a
    && AtSlot(s, s.threads[t]) && Index(s, s.threads[t]) == i
  }

  ghost predicate ArraysOk(s: State, chain: seq<nat>) {
    && (forall a: nat {:trigger s.arrays[a]} | a < |s.arrays| ::
          s.arrays[a].lg >= 1 && |s.arrays[a].slots| == Pow2(s.arrays[a].lg))
    && (forall a: nat, i: nat, t: nat {:trigger Holds(s, a, i, t)} | Holds(s, a, i, t) :: HeldOk(s, chain, a, i, t))
    && (forall a: nat, i: nat, j: nat, t: nat {:trigger Holds(s, a, i, t), Holds(s, a, j, t)} |
          Holds(s, a, i, t) && Holds(s, a, j, t) :: i == j)
  }

  ghost predicate TicketsOk(s: State) {
    && s.nextPtr >= 1
    && (forall t: nat {:trigger s.threads[t]} | t < |s.threads| ::
          && s.threads[t].ticket <= s.count && s.threads[t].first < s.nextPtr
          && (s.threads[t].ticket > 0 ==> s.threads[t].first != 0))
    && (forall t: nat, u: nat {:trigger s.threads[t], s.threads[u]} | t < u < |s.threads| ::
          && (s.threads[t].ticket > 0 ==> s.threads[t].ticket != s.threads[u].ticket)
          && (s.threads[t].first > 0 ==> s.threads[t].first != s.threads[u].first))
  }

  /** No array larger than `a` holds the thread's key. */
  ghost predicate NoneAbove(s: State, a: nat, t: nat) {
    a < |s.arrays| && forall b: nat, i: nat {:trigger Holds(s, b, i, t)} | Holds(s, b, i, t) :: s.arrays[b].lg <= s.arrays[a].lg
  }

  ghost predicate NotIn(s: State, a: nat, t: nat) {
    forall i: nat {:trigger Holds(s, a, i, t)} :: !Holds(s, a, i, t)
  }

  predicate Inserting(pc: Pc) {
    pc.CheckSize? || pc.Publish? || pc.ReadTop? || pc.Place? || pc.Claim? || pc.Store?
  }

  ghost predicate ThreadOk(s: State, chain: seq<nat>, t: nat)
    requires t < |s.threads|
  {
    var th := s.threads[t];
    && (th.pc.Idle? || th.pc.ReadRoot? || th.pc.Probe? || th.pc.CheckRoot? ==> (th.first != 0 ==> Has(s, t)))
    && (th.pc.Idle? ==> th.result == 0 || th.result == th.first)
    && (th.result != 0 ==> th.result == th.first)
    && (th.first != 0 <==> th.ticket > 0 || th.pc.Bump?)
    && (th.pc.Probe? ==>
          th.arr in chain && NoneAbove(s, th.arr, t) && Visited(s, th.arr, th.hash, th.d) && Passed(s, th.arr, t, th.d))
    && (th.pc.CheckRoot? ==> th.arr in chain && NoneAbove(s, th.arr, t) && !NotIn(s, th.arr, t) && th.found == th.first)
    && (th.pc.Create? ==> th.first == 0)
    && (th.pc.Bump? ==> th.found == th.first && th.ticket == 0)
    && (Inserting(th.pc) ==> th.found == th.first && th.ticket > 0)
    && (th.pc.CheckSize? || th.pc.Publish? ==> !Has(s, t))
    && (th.pc.Publish? ==>
          && th.grown < |s.arrays| && th.grown !in chain && th.ticket <= Room(s.arrays[th.grown].lg)
          && (th.seen.To? ==> th.seen.index in chain && th.seen.index < |s.arrays| && s.arrays[th.seen.index].lg < s.arrays[th.grown].lg))
    && (th.pc.ReadTop? ==>
          && s.root.To? && s.root.index < |s.arrays| && th.ticket <= Room(s.arrays[s.root.index].lg)
          && forall b: nat, i: nat {:trigger Holds(s, b, i, t)} | Holds(s, b, i, t) :: s.arrays[b].lg < s.arrays[s.root.index].lg)
    && (th.pc.Place? || th.pc.Claim? ==>
          && th.arr in chain && th.arr < |s.arrays| && th.ticket <= Room(s.arrays[th.arr].lg) && NotIn(s, th.arr, t)
          && Visited(s, th.arr, th.hash, th.d))
    && (th.pc.Store? ==> AtSlot(s, th) && th.arr in chain && Holds(s, th.arr, Index(s, th), t))
  }

  /** The places probed so far do not hold the thread's own key. */
  ghost predicate Passed(s: State, a: nat, t: nat, d: nat)
    requires t < |s.threads|
  {
    forall e: nat {:trigger Full(s, a, s.threads[t].hash, e)} | e < d && Full(s, a, s.threads[t].hash, e) ::
      !Holds(s, a, At(s.threads[t].hash, s.arrays[a].lg, e), t)
  }

  /** Arrays that are not published yet belong to one thread each. */
  ghost predicate PrivateOk(s: State) {
    forall t: nat, u: nat {:trigger s.threads[t], s.threads[u]} | t < u < |s.threads| && s.threads[t].pc.Publish? && s.threads[u].pc.Publish? ::
      s.threads[t].grown != s.threads[u].grown
  }

  ghost predicate Inv(s: State, chain: seq<nat>) {
    && ChainOk(s, chain) && ArraysOk(s, chain) && TicketsOk(s) && PrivateOk(s)
    && forall t: nat {:trigger ThreadOk(s, chain, t)} | t < |s.threads| :: ThreadOk(s, chain, t)
  }

  // ---------------------------------------------------------------- what a step leaves alone

  /** Slots once claimed stay claimed; only thread `t` may write its own. */
  ghost predicate SlotsKept(s: State, s': State, t: nat) {
    && |s.arrays| <= |s'.arrays|
    && (forall a: nat {:trigger s'.arrays[a]} | a < |s.arrays| ::
          s'.arrays[a].lg == s.arrays[a].lg && |s'.arrays[a].slots| == |s.arrays[a].slots|)
    && (forall a: nat, i: nat, u: nat {:trigger Holds(s', a, i, u)} {:trigger Holds(s, a, i, u)} | Holds(s, a, i, u) :: Holds(s', a, i, u))
    && (forall a: nat, i: nat, u: nat {:trigger Holds(s', a, i, u)} | Holds(s', a, i, u) && u != t ::
          Holds(s, a, i, u) && s'.arrays[a].slots[i] == s.arrays[a].slots[i])
  }

  /** Other threads do not change, published arrays stay published, and the root only grows. */
  ghost predicate Kept(s: State, s': State, chain: seq<nat>, chain': seq<nat>, t: nat) {
    && SlotsKept(s, s', t)
    && t < |s.threads| && |s'.threads| == |s.threads| && s'.threads[t].hash == s.threads[t].hash
    && (forall u: nat {:trigger s'.threads[u]} | u < |s.threads| && u != t :: s'.threads[u] == s.threads[u])
    && (forall a: nat {:trigger a in chain'} | a in chain :: a in chain')
    && (forall u: nat {:trigger s.threads[u]} | u < |s.threads| && u != t && s.threads[u].pc.Publish? && s.threads[u].grown !in chain ::
          s.threads[u].grown !in chain')
    && (s.root.To? && s.root.index < |s.arrays| ==>
          s'.root.To? && s'.root.index < |s'.arrays| && s'.arrays[s'.root.index].lg >= s.arrays[s.root.index].lg)
  }

  lemma FullStays(s: State, s': State, t: nat, a: nat, h: nat, e: nat)
    requires SlotsKept(s, s', t) && Full(s, a, h, e)
    ensures Full(s', a, h, e)
  {
    var i := At(h, s.arrays[a].lg, e);
    assert Holds(s, a, i, s.arrays[a].slots[i].owner);
    assert s'.arrays[a].lg == s.arrays[a].lg;
  }

  lemma VisitedStays(s: State, s': State, t: nat, a: nat, h: nat, d: nat)
    requires SlotsKept(s, s', t) && Visited(s, a, h, d)
    ensures Visited(s', a, h, d)
  {
    forall e: nat | e < d
      ensures Full(s', a, h, e)
    {
      FullStays(s, s', t, a, h, e);
    }
  }

  /** A key of another thread is still where its probe sequence finds it. */
  lemma OtherHeld(s: State, s': State, chain: seq<nat>, chain': seq<nat>, t: nat, a: nat, i: nat, u: nat)
    requires Kept(s, s', chain, chain', t) && u != t && Holds(s, a, i, u) && Holds(s', a, i, u)
    requires HeldOk(s, chain, a, i, u)
    ensures HeldOk(s', chain', a, i, u)
  {
    var h, lg := s.threads[u].hash, s.arrays[a].lg;
    assert s'.arrays[a].lg == lg && s'.threads[u] == s.threads[u];
    var d: nat :| d < Pow2(lg) && i == At(h, lg, d) && Visited(s, a, h, d);
    VisitedStays(s, s', t, a, h, d);
    if s.threads[u].pc.Store? && s.threads[u].arr < |s.arrays| {
      assert s'.arrays[s.threads[u].arr].lg == s.arrays[s.threads[u].arr].lg;
    }
  }

  lemma OtherHas(s: State, s': State, t: nat, u: nat)
    requires SlotsKept(s, s', t) && u != t
    ensures Has(s, u) <==> Has(s', u)
  {
  }

  lemma OtherNotIn(s: State, s': State, t: nat, a: nat, u: nat)
    requires SlotsKept(s, s', t) && u != t
    ensures NotIn(s, a, u) <==> NotIn(s', a, u)
  {
  }

  lemma OtherNoneAbove(s: State, s': State, t: nat, a: nat, u: nat)
    requires SlotsKept(s, s', t) && u != t && NoneAbove(s, a, u)
    ensures NoneAbove(s', a, u)
  {
  }

  lemma OtherPassed(s: State, s': State, chain: seq<nat>, chain': seq<nat>, t: nat, a: nat, u: nat, d: nat)
    requires Kept(s, s', chain, chain', t) && u != t && u < |s.threads|
    requires Visited(s, a, s.threads[u].hash, d) && Passed(s, a, u, d)
    ensures Passed(s', a, u, d)
  {
    var h := s.threads[u].hash;
    assert s'.threads[u] == s.threads[u];
    forall e: nat | e < d && Full(s', a, h, e)
      ensures !Holds(s', a, At(h, s'.arrays[a].lg, e), u)
    {
      assert Full(s, a, h, e);
      assert s'.arrays[a].lg == s.arrays[a].lg;
    }
  }

  lemma OtherReadTop(s: State, s': State, chain: seq<nat>, chain': seq<nat>, t: nat, u: nat)
    requires Kept(s, s', chain, chain', t) && u != t && u < |s.threads| && s.threads[u].pc.ReadTop? && ThreadOk(s, chain, u)
    ensures ThreadOk(s', chain', u)
  {
    var r, r' := s.root.index, s'.root.index;
    assert s'.threads[u] == s.threads[u];
    RoomMonotone(s.arrays[r].lg, s'.arrays[r'].lg);
    forall b: nat, i: nat | Holds(s', b, i, u)
      ensures s'.arrays[b].lg < s'.arrays[r'].lg
    {
      assert Holds(s, b, i, u) && s'.arrays[b].lg == s.arrays[b].lg;
    }
  }

  lemma {:induction false} RoomMonotone(a: nat, b: nat)
    requires a <= b
    ensures Room(a) <= Room(b)
    decreases b
  {
    if a < b {
      RoomMonotone(a, b - 1);
      RoomGrows(b - 1);
    }
  }

  /** What holds of a thread keeps holding while another one steps. */
  lemma OtherThread(s: State, s': State, chain: seq<nat>, chain': seq<nat>, t: nat, u: nat)
    requires Kept(s, s', chain, chain', t) && u != t && u < |s.threads| && ThreadOk(s, chain, u)
    requires forall a: nat {:trigger s.arrays[a]} | a in chain :: a < |s.arrays|
    ensures ThreadOk(s', chain', u)
  {
    var th := s.threads[u];
    assert s'.threads[u] == th;
    OtherHas(s, s', t, u);
    if th.pc.ReadTop? {
      OtherReadTop(s, s', chain, chain', t, u);
    } else if th.pc.Probe? {
      OtherNoneAbove(s, s', t, th.arr, u);
      VisitedStays(s, s', t, th.arr, th.hash, th.d);
      OtherPassed(s, s', chain, chain', t, th.arr, u, th.d);
    } else if th.pc.CheckRoot? {
      OtherNoneAbove(s, s', t, th.arr, u);
      OtherNotIn(s, s', t, th.arr, u);
    } else if th.pc.Place? || th.pc.Claim? {
      OtherNotIn(s, s', t, th.arr, u);
      VisitedStays(s, s', t, th.arr, th.hash, th.d);
      assert s'.arrays[th.arr].lg == s.arrays[th.arr].lg;
    } else if th.pc.Store? {
      assert s'.arrays[th.arr].lg == s.arrays[th.arr].lg;
    } else if th.pc.Publish? {
      assert s'.arrays[th.grown].lg == s.arrays[th.grown].lg;
      if th.seen.To? {
        assert th.seen.index in chain';
        assert s'.arrays[th.seen.index].lg == s.arrays[th.seen.index].lg;
      }
    }
  }

  // ---------------------------------------------------------------- putting a step together

  /** The keys of thread `t` itself are where they should be. */
  ghost predicate OwnHeld(s: State, chain: seq<nat>, t: nat) {
    && (forall a: nat, i: nat {:trigger Holds(s, a, i, t)} | Holds(s, a, i, t) :: HeldOk(s, chain, a, i, t))
    && (forall a: nat, i: nat, j: nat {:trigger Holds(s, a, i, t), Holds(s, a, j, t)} |
          Holds(s, a, i, t) && Holds(s, a, j, t) :: i == j)
  }

  ghost predicate SizesOk(s: State) {
    forall a: nat {:trigger s.arrays[a]} | a < |s.arrays| ::
      s.arrays[a].lg >= 1 && |s.arrays[a].slots| == Pow2(s.arrays[a].lg)
  }

  lemma ArraysStay(s: State, s': State, chain: seq<nat>, chain': seq<nat>, t: nat)
    requires ArraysOk(s, chain) && Kept(s, s', chain, chain', t) && OwnHeld(s', chain', t) && SizesOk(s')
    ensures ArraysOk(s', chain')
  {
    hide HeldOk;
    forall a: nat, i: nat, u: nat | Holds(s', a, i, u)
      ensures HeldOk(s', chain', a, i, u)
    {
      if u != t {
        assert Holds(s, a, i, u);
        OtherHeld(s, s', chain, chain', t, a, i, u);
      }
    }
    forall a: nat, i: nat, j: nat, u: nat | Holds(s', a, i, u) && Holds(s', a, j, u)
      ensures i == j
    {
      if u != t {
        assert Holds(s, a, i, u) && Holds(s, a, j, u);
      }
    }
  }

  lemma Assembled(s: State, s': State, chain: seq<nat>, chain': seq<nat>, t: nat)
    requires Inv(s, chain) && Kept(s, s', chain, chain', t) && OwnHeld(s', chain', t) && SizesOk(s')
    requires ChainOk(s', chain') && TicketsOk(s') && PrivateOk(s') && ThreadOk(s', chain', t)
    ensures Inv(s', chain')
  {
    ArraysStay(s, s', chain, chain', t);
    ChainInside(s, chain);
    forall u: nat | u < |s'.threads|
      ensures ThreadOk(s', chain', u)
    {
      if u != t {
        assert ThreadOk(s, chain, u);
        OtherThread(s, s', chain, chain', t, u);
      }
    }
  }

  lemma ChainInside(s: State, chain: seq<nat>)
    requires ChainOk(s, chain)
    ensures forall a: nat {:trigger a in chain} {:trigger s.arrays[a]} | a in chain :: a < |s.arrays|
  {
  }

  // ---------------------------------------------------------------- steps that write no slot

  /** The step changes only locals of thread `t`, or a counter. */
  predicate Local(s: State, s': State, t: nat) {
    && t < |s.threads| && s'.arrays == s.arrays && s'.root == s.root
    && |s'.threads| == |s.threads| && s'.threads == s.threads[t := s'.threads[t]]
    && s'.threads[t].hash == s.threads[t].hash
  }

  lemma LocalKept(s: State, s': State, chain: seq<nat>, t: nat)
    requires Inv(s, chain) && Local(s, s', t) && !s.threads[t].pc.Store?
    requires Has(s, t) ==> s'.threads[t].ticket == s.threads[t].ticket && s'.threads[t].first == s.threads[t].first
    ensures Kept(s, s', chain, chain, t) && ChainOk(s', chain) && OwnHeld(s', chain, t) && SizesOk(s')
  {
    forall a: nat, i: nat, u: nat
      ensures Holds(s', a, i, u) == Holds(s, a, i, u)
    {
    }
    forall a: nat, i: nat | Holds(s', a, i, t)
      ensures HeldOk(s', chain, a, i, t)
    {
      assert Holds(s, a, i, t) && Has(s, t) && HeldOk(s, chain, a, i, t);
      var h := s.threads[t].hash;
      var d: nat :| d < Pow2(s.arrays[a].lg) && i == At(h, s.arrays[a].lg, d) && Visited(s, a, h, d);
      VisitedStays(s, s', t, a, h, d);
    }
    forall a: nat, i: nat, j: nat | Holds(s', a, i, t) && Holds(s', a, j, t)
      ensures i == j
    {
      assert Holds(s, a, i, t) && Holds(s, a, j, t);
    }
  }

  /** What a step may do to tickets and pointers, if it draws none. */
  lemma TicketsStay(s: State, s': State, t: nat)
    requires TicketsOk(s) && t < |s.threads| && |s'.threads| == |s.threads|
    requires s'.threads == s.threads[t := s'.threads[t]] && s'.count == s.count && s'.nextPtr == s.nextPtr
    requires s'.threads[t].ticket == s.threads[t].ticket && s'.threads[t].first == s.threads[t].first
    ensures TicketsOk(s')
  {
  }

  lemma PrivateStays(s: State, s': State, t: nat)
    requires PrivateOk(s) && t < |s.threads| && |s'.threads| == |s.threads| && s'.threads == s.threads[t := s'.threads[t]]
    requires s'.threads[t].pc.Publish? ==> s.threads[t].pc.Publish? && s'.threads[t].grown == s.threads[t].grown
    ensures PrivateOk(s')
  {
  }

  // ---------------------------------------------------------------- looking for the key

  /** A published array holds the key only where the probe sequence meets it. */
  lemma EmptyMeansAbsent(s: State, chain: seq<nat>, a: nat, t: nat, d: nat)
    requires ArraysOk(s, chain) && t < |s.threads| && a < |s.arrays| && d < Pow2(s.arrays[a].lg)
    requires s.arrays[a].slots[At(s.threads[t].hash, s.arrays[a].lg, d)].Empty?
    requires Passed(s, a, t, d)
    ensures NotIn(s, a, t)
  {
    var h, lg := s.threads[t].hash, s.arrays[a].lg;
    forall i: nat
      ensures !Holds(s, a, i, t)
    {
      if Holds(s, a, i, t) {
        assert HeldOk(s, chain, a, i, t);
        var d': nat :| d' < Pow2(lg) && i == At(h, lg, d') && Visited(s, a, h, d');
        assert d < d' ==> Full(s, a, h, d);
        assert Full(s, a, h, d');
      }
    }
  }

  /** Arrays in the chain are ordered by size. */
  lemma NextDown(s: State, chain: seq<nat>, a: nat, t: nat)
    requires ChainOk(s, chain) && ArraysOk(s, chain) && a in chain && NoneAbove(s, a, t) && NotIn(s, a, t)
    ensures a < |s.arrays|
    ensures s.arrays[a].next == Null ==> !Has(s, t)
    ensures s.arrays[a].next.To? ==> s.arrays[a].next.index in chain && NoneAbove(s, s.arrays[a].next.index, t)
  {
  }

  /** The root is the largest array. */
  lemma RootIsLargest(s: State, chain: seq<nat>, a: nat)
    requires ChainOk(s, chain) && a in chain
    ensures s.root.To? && s.root.index in chain && s.root.index < |s.arrays| && a < |s.arrays|
    ensures s.arrays[a].lg <= s.arrays[s.root.index].lg
    ensures s.root != To(a) ==> s.arrays[a].lg < s.arrays[s.root.index].lg
  {
  }

  // ---------------------------------------------------------------- each step

  /** Everything but the thread's own condition, for a step that changes only locals. */
  lemma LocalStep(s: State, s': State, chain: seq<nat>, t: nat)
    requires Inv(s, chain) && Local(s, s', t) && !s.threads[t].pc.Store? && s'.count == s.count && s'.nextPtr == s.nextPtr
    requires s'.threads[t].ticket == s.threads[t].ticket && s'.threads[t].first == s.threads[t].first
    requires s'.threads[t].pc.Publish? ==> s.threads[t].pc.Publish? && s'.threads[t].grown == s.threads[t].grown
    requires ThreadOk(s', chain, t)
    ensures Inv(s', chain)
  {
    LocalKept(s, s', chain, t);
    TicketsStay(s, s', t);
    PrivateStays(s, s', t);
    Assembled(s, s', chain, chain, t);
  }

  lemma SameHas(s: State, s': State, t: nat)
    requires s'.arrays == s.arrays
    ensures Has(s', t) <==> Has(s, t)
    ensures forall a: nat :: NotIn(s', a, t) <==> NotIn(s, a, t)
    ensures forall a: nat :: NoneAbove(s', a, t) <==> NoneAbove(s, a, t)
  {
    forall a: nat, i: nat
      ensures Holds(s', a, i, t) == Holds(s, a, i, t)
    {
    }
    if Has(s, t) {
      var a: nat, i: nat :| Holds(s, a, i, t);
      assert Holds(s', a, i, t);
    }
    if Has(s', t) {
      var a: nat, i: nat :| Holds(s', a, i, t);
      assert Holds(s, a, i, t);
    }
    forall a: nat
      ensures NotIn(s', a, t) <==> NotIn(s, a, t)
      ensures NoneAbove(s', a, t) <==> NoneAbove(s, a, t)
    {
    }
  }

  lemma IdleStep(s: State, chain: seq<nat>, t: nat)
    requires Inv(s, chain) && t < |s.threads| && s.threads[t].pc.Idle?
    ensures Inv(Step(s, t), chain)
  {
    assert ThreadOk(s, chain, t);
    SameHas(s, Step(s, t), t);
    LocalStep(s, Step(s, t), chain, t);
  }

  lemma ReadRootStep(s: State, chain: seq<nat>, t: nat)
    requires Inv(s, chain) && t < |s.threads| && s.threads[t].pc.ReadRoot?
    ensures Inv(Step(s, t), chain)
  {
    var s' := Step(s, t);
    assert ThreadOk(s, chain, t);
    SameHas(s, s', t);
    if s.root == Null {
      forall a: nat, i: nat
        ensures !Holds(s, a, i, t)
      {
        assert Holds(s, a, i, t) ==> HeldOk(s, chain, a, i, t);
      }
    } else {
      RootIsLargest(s, chain, chain[0]);
      forall b: nat, i: nat | Holds(s, b, i, t)
        ensures s.arrays[b].lg <= s.arrays[s.root.index].lg
      {
        assert HeldOk(s, chain, b, i, t);
        RootIsLargest(s, chain, b);
      }
    }
    LocalStep(s, s', chain, t);
  }

  lemma ProbeEmpty(s: State, chain: seq<nat>, t: nat)
    requires Inv(s, chain) && t < |s.threads| && s.threads[t].pc.Probe? && AtSlot(s, s.threads[t])
    requires s.arrays[s.threads[t].arr].slots[Index(s, s.threads[t])].Empty?
    ensures Inv(Step(s, t), chain)
  {
    var s', th := Step(s, t), s.threads[t];
    assert ThreadOk(s, chain, t);
    EmptyMeansAbsent(s, chain, th.arr, t, th.d);
    NextDown(s, chain, th.arr, t);
    SameHas(s, s', t);
    LocalStep(s, s', chain, t);
  }

  lemma ProbeTaken(s: State, chain: seq<nat>, t: nat)
    requires Inv(s, chain) && t < |s.threads| && s.threads[t].pc.Probe? && AtSlot(s, s.threads[t])
    requires s.arrays[s.threads[t].arr].slots[Index(s, s.threads[t])].Held?
    ensures Inv(Step(s, t), chain)
  {
    hide ChainOk;
    hide TicketsOk;
    hide PrivateOk;
    var s', th := Step(s, t), s.threads[t];
    assert ThreadOk(s, chain, t);
    SameHas(s, s', t);
    var a, h, i := th.arr, th.hash, Index(s, th);
    assert Full(s, a, h, th.d);
    if s.arrays[a].slots[i].owner == t {
      assert Holds(s, a, i, t) && HeldOk(s, chain, a, i, t);
    } else {
      forall e: nat | e < th.d + 1
        ensures Full(s', a, h, e) && !Holds(s', a, At(h, s'.arrays[a].lg, e), t)
      {
        assert Full(s, a, h, e);
      }
    }
    LocalStep(s, s', chain, t);
  }

  lemma CheckRootStep(s: State, chain: seq<nat>, t: nat)
    requires Inv(s, chain) && t < |s.threads| && s.threads[t].pc.CheckRoot?
    ensures Inv(Step(s, t), chain)
  {
    var s', th := Step(s, t), s.threads[t];
    assert ThreadOk(s, chain, t);
    SameHas(s, s', t);
    RootIsLargest(s, chain, th.arr);
    var i: nat :| Holds(s, th.arr, i, t);
    assert HeldOk(s, chain, th.arr, i, t);
    RoomMonotone(s.arrays[th.arr].lg, s.arrays[s.root.index].lg);
    forall b: nat, j: nat | Holds(s', b, j, t)
      ensures s.arrays[b].lg <= s.arrays[th.arr].lg
    {
      assert Holds(s, b, j, t);
    }
    LocalStep(s, s', chain, t);
  }

  lemma CreateStep(s: State, chain: seq<nat>, t: nat)
    requires Inv(s, chain) && t < |s.threads| && s.threads[t].pc.Create?
    ensures Inv(Step(s, t), chain)
  {
    var s' := Step(s, t);
    assert ThreadOk(s, chain, t);
    NoTicketNoKey(s, chain, t);
    SameHas(s, s', t);
    LocalKept(s, s', chain, t);
    PrivateStays(s, s', t);
    Assembled(s, s', chain, chain, t);
  }

  lemma NoTicketNoKey(s: State, chain: seq<nat>, t: nat)
    requires ArraysOk(s, chain) && t < |s.threads| && s.threads[t].ticket == 0
    ensures !Has(s, t)
  {
  }

  lemma BumpStep(s: State, chain: seq<nat>, t: nat)
    requires Inv(s, chain) && t < |s.threads| && s.threads[t].pc.Bump?
    ensures Inv(Step(s, t), chain)
  {
    var s' := Step(s, t);
    assert ThreadOk(s, chain, t);
    NoTicketNoKey(s, chain, t);
    SameHas(s, s', t);
    LocalKept(s, s', chain, t);
    PrivateStays(s, s', t);
    Assembled(s, s', chain, chain, t);
  }

  lemma ReadTopStep(s: State, chain: seq<nat>, t: nat)
    requires Inv(s, chain) && t < |s.threads| && s.threads[t].pc.ReadTop?
    ensures Inv(Step(s, t), chain)
  {
    var s' := Step(s, t);
    assert ThreadOk(s, chain, t);
    SameHas(s, s', t);
    RootIsLargest(s, chain, chain[0]);
    forall i: nat
      ensures !Holds(s, s.root.index, i, t)
    {
    }
    LocalStep(s, s', chain, t);
  }

  lemma StillPlacing(s: State, s': State, chain: seq<nat>, t: nat)
    requires t < |s.threads| && (s.threads[t].pc.Place? || s.threads[t].pc.Claim?) && ThreadOk(s, chain, t) && Local(s, s', t)
    requires s'.threads[t] == s.threads[t].(pc := s'.threads[t].pc, d := s'.threads[t].d)
    requires s'.threads[t].pc.Place? || s'.threads[t].pc.Claim?
    requires Visited(s', s.threads[t].arr, s.threads[t].hash, s'.threads[t].d)
    ensures ThreadOk(s', chain, t)
  {
    hide Visited;
    SameHas(s, s', t);
  }

  lemma VisitedNext(s: State, s': State, th: Thread)
    requires s'.arrays == s.arrays && AtSlot(s, th) && Visited(s, th.arr, th.hash, th.d)
    ensures Visited(s', th.arr, th.hash, th.d)
    ensures s.arrays[th.arr].slots[Index(s, th)].Held? ==> Visited(s', th.arr, th.hash, th.d + 1)
  {
    forall e: nat | e < th.d
      ensures Full(s', th.arr, th.hash, e)
    {
      assert Full(s, th.arr, th.hash, e);
    }
  }

  /** Place, and Claim when the slot has been taken by another thread in between. */
  lemma PlaceStep(s: State, chain: seq<nat>, t: nat)
    requires Inv(s, chain) && t < |s.threads| && AtSlot(s, s.threads[t])
    requires s.threads[t].pc.Place? || (s.threads[t].pc.Claim? && s.arrays[s.threads[t].arr].slots[Index(s, s.threads[t])].Held?)
    ensures Inv(Step(s, t), chain)
  {
    var s', th := Step(s, t), s.threads[t];
    assert ThreadOk(s, chain, t);
    VisitedNext(s, s', th);
    StillPlacing(s, s', chain, t);
    hide ThreadOk;
    hide Inv;
    LocalStep(s, s', chain, t);
  }

  // ---------------------------------------------------------------- growing

  lemma AllocateSlots(s: State, a: Arr, t: nat)
    requires t < |s.threads| && forall i: nat | i < |a.slots| :: a.slots[i] == Empty
    ensures SlotsKept(s, s.(arrays := s.arrays + [a]), t)
    ensures forall b: nat, i: nat, u: nat :: Holds(s.(arrays := s.arrays + [a]), b, i, u) <==> Holds(s, b, i, u)
  {
  }

  /** Keys are where they were when a step has written no slot. */
  lemma OwnHeldStays(s: State, s': State, chain: seq<nat>, chain': seq<nat>, t: nat)
    requires ArraysOk(s, chain) && SlotsKept(s, s', t) && t < |s.threads| && t < |s'.threads| && !s.threads[t].pc.Store?
    requires forall a: nat {:trigger a in chain'} | a in chain :: a in chain'
    requires forall a: nat, i: nat | Holds(s', a, i, t) :: Holds(s, a, i, t) && s'.arrays[a].slots[i] == s.arrays[a].slots[i]
    requires s'.threads[t].hash == s.threads[t].hash
    requires s'.threads[t].ticket == s.threads[t].ticket && s'.threads[t].first == s.threads[t].first
    ensures OwnHeld(s', chain', t)
  {
    forall a: nat, i: nat | Holds(s', a, i, t)
      ensures HeldOk(s', chain', a, i, t)
    {
      assert HeldOk(s, chain, a, i, t) && s'.arrays[a].lg == s.arrays[a].lg;
      var h := s.threads[t].hash;
      var d: nat :| d < Pow2(s.arrays[a].lg) && i == At(h, s.arrays[a].lg, d) && Visited(s, a, h, d);
      VisitedStays(s, s', t, a, h, d);
    }
    forall a: nat, i: nat, j: nat | Holds(s', a, i, t) && Holds(s', a, j, t)
      ensures i == j
    {
      assert Holds(s, a, i, t) && Holds(s, a, j, t);
    }
  }

  lemma CheckSizeStep(s: State, chain: seq<nat>, t: nat)
    requires Inv(s, chain) && t < |s.threads| && s.threads[t].pc.CheckSize?
    ensures Inv(Step(s, t), chain)
  {
    var s', th := Step(s, t), s.threads[t];
    assert ThreadOk(s, chain, t);
    if chain != [] { RootIsLargest(s, chain, chain[0]); }
    if s'.arrays == s.arrays {
      SameHas(s, s', t);
      LocalStep(s, s', chain, t);
    } else {
      AllocateSlots(s, s'.arrays[|s.arrays|], t);
      AllocateKept(s, s', chain, t);
      forall a: nat, i: nat
        ensures Holds(s', a, i, t) <==> Holds(s, a, i, t)
      {
      }
      OwnHeldStays(s, s', chain, chain, t);
      TicketsStay(s, s', t);
      AllocatePrivate(s, s', chain, t);
      assert !Has(s', t) by {
        forall a: nat, i: nat
          ensures !Holds(s', a, i, t)
        {
        }
      }
      Assembled(s, s', chain, chain, t);
    }
  }

  lemma AllocateKept(s: State, s': State, chain: seq<nat>, t: nat)
    requires Inv(s, chain) && t < |s.threads| && |s'.threads| == |s.threads| && s'.threads == s.threads[t := s'.threads[t]]
    requires s'.threads[t].hash == s.threads[t].hash && s'.root == s.root
    requires |s'.arrays| == |s.arrays| + 1 && s'.arrays[..|s.arrays|] == s.arrays
    requires s'.arrays[|s.arrays|].lg >= 1 && |s'.arrays[|s.arrays|].slots| == Pow2(s'.arrays[|s.arrays|].lg)
    requires SlotsKept(s, s', t)
    ensures Kept(s, s', chain, chain, t) && ChainOk(s', chain) && SizesOk(s')
  {
    hide ThreadOk;
    hide HeldOk;
    hide TicketsOk;
    hide PrivateOk;
    hide SlotsKept;
    forall a: nat | a < |s.arrays|
      ensures s'.arrays[a] == s.arrays[a]
    {
      assert s'.arrays[..|s.arrays|][a] == s.arrays[a];
    }
  }

  lemma AllocatePrivate(s: State, s': State, chain: seq<nat>, t: nat)
    requires Inv(s, chain) && t < |s.threads| && |s'.threads| == |s.threads| && s'.threads == s.threads[t := s'.threads[t]]
    requires s'.threads[t].pc.Publish? && s'.threads[t].grown == |s.arrays|
    ensures PrivateOk(s')
  {
    forall u: nat | u < |s.threads| && s.threads[u].pc.Publish?
      ensures s.threads[u].grown < |s.arrays|
    {
      assert ThreadOk(s, chain, u);
    }
  }

  lemma LinkSlots(s: State, s': State, t: nat, g: nat, next: Ref)
    requires t < |s.threads| && g < |s.arrays| && s'.arrays == s.arrays[g := s.arrays[g].(next := next)]
    ensures SlotsKept(s, s', t) && (SizesOk(s) ==> SizesOk(s'))
    ensures forall a: nat, i: nat, u: nat {:trigger Holds(s', a, i, u)} :: Holds(s', a, i, u) <==> Holds(s, a, i, u)
    ensures forall a: nat {:trigger s'.arrays[a]} | a < |s.arrays| ::
              s'.arrays[a].slots == s.arrays[a].slots && s'.arrays[a].lg == s.arrays[a].lg
  {
  }

  /** Linking a private array and, perhaps, making it the root. */
  lemma PublishKept(s: State, s': State, chain: seq<nat>, chain': seq<nat>, t: nat)
    requires ChainOk(s, chain) && PrivateOk(s) && t < |s.threads| && s.threads[t].pc.Publish? && ThreadOk(s, chain, t)
    requires SlotsKept(s, s', t) && |s'.threads| == |s.threads| && s'.threads == s.threads[t := s'.threads[t]]
    requires s'.threads[t].hash == s.threads[t].hash
    requires s'.root == if s.root == s.threads[t].seen then To(s.threads[t].grown) else s.root
    requires chain' == if s.root == s.threads[t].seen then [s.threads[t].grown] + chain else chain
    ensures Kept(s, s', chain, chain', t)
  {
    var g, seen := s.threads[t].grown, s.threads[t].seen;
    assert g < |s.arrays| && (seen.To? ==> seen.index < |s.arrays| && s.arrays[seen.index].lg < s.arrays[g].lg);
    assert |s.arrays| <= |s'.arrays| && forall a: nat | a < |s.arrays| :: s'.arrays[a].lg == s.arrays[a].lg;
    hide ThreadOk;
    hide ChainOk;
    hide SlotsKept;
    forall u: nat | u < |s.threads| && u != t && s.threads[u].pc.Publish? && s.threads[u].grown !in chain
      ensures s.threads[u].grown !in chain'
    {
      assert if u < t then s.threads[u].grown != s.threads[t].grown else s.threads[t].grown != s.threads[u].grown;
    }
  }

  lemma Prepended(s: State, s': State, chain: seq<nat>, g: nat)
    requires ChainOk(s, chain) && |s'.arrays| == |s.arrays| && g < |s.arrays| && s'.root == To(g)
    requires forall k: nat {:trigger chain[k]} | k < |chain| :: chain[k] < |s.arrays| && s'.arrays[chain[k]] == s.arrays[chain[k]]
    requires s'.arrays[g].next == Head(chain) && (chain != [] ==> s'.arrays[g].lg > s.arrays[chain[0]].lg)
    ensures ChainOk(s', [g] + chain)
  {
  }

  lemma Unaffected(s: State, s': State, chain: seq<nat>)
    requires ChainOk(s, chain) && |s'.arrays| == |s.arrays| && s'.root == s.root
    requires forall k: nat {:trigger chain[k]} | k < |chain| :: chain[k] < |s.arrays| && s'.arrays[chain[k]] == s.arrays[chain[k]]
    ensures ChainOk(s', chain)
  {
  }

  lemma PublishChain(s: State, s': State, chain: seq<nat>, chain': seq<nat>, t: nat)
    requires ChainOk(s, chain) && t < |s.threads| && s.threads[t].pc.Publish? && ThreadOk(s, chain, t)
    requires s'.arrays == s.arrays[s.threads[t].grown := s.arrays[s.threads[t].grown].(next := s.threads[t].seen)]
    requires s'.root == if s.root == s.threads[t].seen then To(s.threads[t].grown) else s.root
    requires chain' == if s.root == s.threads[t].seen then [s.threads[t].grown] + chain else chain
    ensures ChainOk(s', chain')
  {
    var g, seen := s.threads[t].grown, s.threads[t].seen;
    assert g < |s.arrays| && g !in chain;
    assert seen.To? ==> seen.index < |s.arrays| && s.arrays[seen.index].lg < s.arrays[g].lg;
    assert s.root == seen ==> seen == Head(chain);
    ChainInside(s, chain);
    hide ThreadOk;
    hide ChainOk;
    forall k: nat | k < |chain|
      ensures chain[k] < |s.arrays| && s'.arrays[chain[k]] == s.arrays[chain[k]]
    {
      assert chain[k] in chain;
    }
    assert s'.arrays[g].lg == s.arrays[g].lg && s'.arrays[g].next == seen;
    if s.root == seen {
      Prepended(s, s', chain, g);
    } else {
      Unaffected(s, s', chain);
    }
  }

  lemma PublishStep(s: State, chain: seq<nat>, t: nat) returns (chain': seq<nat>)
    requires Inv(s, chain) && t < |s.threads| && s.threads[t].pc.Publish?
    ensures Inv(Step(s, t), chain')
  {
    var s', th := Step(s, t), s.threads[t];
    assert ThreadOk(s, chain, t);
    chain' := if s.root == th.seen then [th.grown] + chain else chain;
    if chain != [] { RootIsLargest(s, chain, chain[0]); }
    LinkSlots(s, s', t, th.grown, th.seen);
    PublishKept(s, s', chain, chain', t);
    PublishChain(s, s', chain, chain', t);
    forall a: nat, i: nat
      ensures !Holds(s', a, i, t)
    {
    }
    OwnHeldStays(s, s', chain, chain', t);
    TicketsStay(s, s', t);
    PrivateStays(s, s', t);
    PublishedOk(s, chain, t, chain');
    Assembled(s, s', chain, chain', t);
  }

  lemma PublishedOk(s: State, chain: seq<nat>, t: nat, chain': seq<nat>)
    requires Inv(s, chain) && t < |s.threads| && s.threads[t].pc.Publish?
    requires chain' == if s.root == s.threads[t].seen then [s.threads[t].grown] + chain else chain
    requires forall a: nat, i: nat :: !Holds(Step(s, t), a, i, t)
    ensures ThreadOk(Step(s, t), chain', t)
  {
    var s', th := Step(s, t), s.threads[t];
    assert ThreadOk(s, chain, t);
    if chain != [] {
      RootIsLargest(s, chain, chain[0]);
      RoomMonotone(s.arrays[th.grown].lg, if s.arrays[s.root.index].lg >= s.arrays[th.grown].lg then s.arrays[s.root.index].lg else s.arrays[th.grown].lg);
    }
    assert !Has(s', t);
  }

  // ---------------------------------------------------------------- inserting

  lemma WriteKept(s: State, s': State, chain: seq<nat>, t: nat, i: nat, x: Slot)
    requires Inv(s, chain) && t < |s.threads| && AtSlot(s, s.threads[t]) && i == Index(s, s.threads[t]) && x.Held? && x.owner == t
    requires s.arrays[s.threads[t].arr].slots[i].Held? ==> s.arrays[s.threads[t].arr].slots[i].owner == t
    requires |s'.threads| == |s.threads| && s' == Put(Write(s, s.threads[t].arr, i, x), t, s'.threads[t])
    requires s'.threads[t].hash == s.threads[t].hash
    ensures Kept(s, s', chain, chain, t) && ChainOk(s', chain) && SizesOk(s')
    ensures forall a: nat, j: nat {:trigger Holds(s', a, j, t)} ::
              Holds(s', a, j, t) <==> Holds(s, a, j, t) || (a == s.threads[t].arr && j == i)
    ensures s'.arrays == s.arrays[s.threads[t].arr := s.arrays[s.threads[t].arr].(slots := s.arrays[s.threads[t].arr].slots[i := x])]
  {
    forall a: nat, j: nat, u: nat
      ensures Holds(s', a, j, u) <==> if a == s.threads[t].arr && j == i then u == t else Holds(s, a, j, u)
    {
    }
    forall a: nat, j: nat, u: nat | Holds(s, a, j, u)
      ensures Holds(s', a, j, u)
    {
    }
  }

  lemma ClaimStep(s: State, chain: seq<nat>, t: nat)
    requires Inv(s, chain) && t < |s.threads| && s.threads[t].pc.Claim? && AtSlot(s, s.threads[t])
    requires s.arrays[s.threads[t].arr].slots[Index(s, s.threads[t])].Empty?
    ensures Inv(Step(s, t), chain)
  {
    var s', th := Step(s, t), s.threads[t];
    var i := Index(s, th);
    assert ThreadOk(s, chain, t);
    WriteKept(s, s', chain, t, i, Held(t, 0));
    forall a: nat, j: nat | Holds(s', a, j, t)
      ensures HeldOk(s', chain, a, j, t)
    {
      if a == th.arr && j == i {
        VisitedStays(s, s', t, a, th.hash, th.d);
      } else {
        HeldStays(s, s', chain, t, a, j);
      }
    }
    forall a: nat, j: nat, k: nat | Holds(s', a, j, t) && Holds(s', a, k, t)
      ensures j == k
    {
      assert a == th.arr ==> !Holds(s, a, j, t) && !Holds(s, a, k, t);
    }
    TicketsStay(s, s', t);
    PrivateStays(s, s', t);
    assert Holds(s', th.arr, i, t);
    Assembled(s, s', chain, chain, t);
  }

  /** A key of the thread in another array is not affected by its writing this one. */
  lemma HeldStays(s: State, s': State, chain: seq<nat>, t: nat, a: nat, j: nat)
    requires Inv(s, chain) && t < |s.threads| && Holds(s, a, j, t) && Holds(s', a, j, t)
    requires SlotsKept(s, s', t) && |s'.threads| == |s.threads| && s'.threads[t].hash == s.threads[t].hash
    requires s'.threads[t].ticket == s.threads[t].ticket && s'.threads[t].first == s.threads[t].first
    requires s'.arrays[a].slots[j] == s.arrays[a].slots[j] && !StoringAt(s, a, j, t)
    ensures HeldOk(s', chain, a, j, t)
  {
    assert HeldOk(s, chain, a, j, t) && s'.arrays[a].lg == s.arrays[a].lg;
    var h := s.threads[t].hash;
    var d: nat :| d < Pow2(s.arrays[a].lg) && j == At(h, s.arrays[a].lg, d) && Visited(s, a, h, d);
    VisitedStays(s, s', t, a, h, d);
  }

  lemma StoreStep(s: State, chain: seq<nat>, t: nat)
    requires Inv(s, chain) && t < |s.threads| && s.threads[t].pc.Store?
    ensures Inv(Step(s, t), chain)
  {
    var s', th := Step(s, t), s.threads[t];
    assert ThreadOk(s, chain, t);
    var i := Index(s, th);
    WriteKept(s, s', chain, t, i, Held(t, th.found));
    forall a: nat, j: nat | Holds(s', a, j, t)
      ensures HeldOk(s', chain, a, j, t)
    {
      assert Holds(s, a, j, t);
      if a == th.arr && j == i {
        StoredOk(s, s', chain, t);
      } else {
        HeldStays(s, s', chain, t, a, j);
      }
    }
    forall a: nat, j: nat, k: nat | Holds(s', a, j, t) && Holds(s', a, k, t)
      ensures j == k
    {
      assert Holds(s, a, j, t) && Holds(s, a, k, t);
    }
    TicketsStay(s, s', t);
    PrivateStays(s, s', t);
    assert Holds(s', th.arr, i, t);
    Assembled(s, s', chain, chain, t);
  }

  lemma StoredOk(s: State, s': State, chain: seq<nat>, t: nat)
    requires Inv(s, chain) && t < |s.threads| && s.threads[t].pc.Store? && AtSlot(s, s.threads[t]) && s' == Step(s, t)
    requires SlotsKept(s, s', t) && Holds(s', s.threads[t].arr, Index(s, s.threads[t]), t)
    ensures HeldOk(s', chain, s.threads[t].arr, Index(s, s.threads[t]), t)
  {
    var th := s.threads[t];
    var a, i, h := th.arr, Index(s, th), th.hash;
    assert ThreadOk(s, chain, t);
    assert HeldOk(s, chain, a, i, t);
    var d: nat :| d < Pow2(s.arrays[a].lg) && i == At(h, s.arrays[a].lg, d) && Visited(s, a, h, d);
    VisitedStays(s, s', t, a, h, d);
  }

  // ---------------------------------------------------------------- room to probe

  /** Pigeons: distinct positive numbers up to `m` are at most `m` many. */
  lemma {:induction false} Pigeonhole(xs: set<nat>, f: map<nat, nat>, m: nat)
    requires forall x | x in xs :: x in f && 1 <= f[x] <= m
    requires forall x, y | x in xs && y in xs && f[x] == f[y] :: x == y
    ensures |xs| <= m
    decreases m
  {
    if m == 0 {
      assert xs == {};
    } else if x :| x in xs && f[x] == m {
      Pigeonhole(xs - {x}, f, m - 1);
    } else {
      Pigeonhole(xs, f, m - 1);
    }
  }

  /** The tickets of two different keys in one array differ. */
  lemma TicketsApart(s: State, chain: seq<nat>, a: nat, i: nat, j: nat, t: nat, u: nat)
    requires ArraysOk(s, chain) && TicketsOk(s) && Holds(s, a, i, t) && Holds(s, a, j, u)
    ensures t < |s.threads| && u < |s.threads| && 1 <= s.threads[t].ticket <= Room(s.arrays[a].lg)
    ensures s.threads[t].ticket == s.threads[u].ticket ==> i == j
  {
  }

  function Owner(s: State, a: nat, i: nat): nat {
    if a < |s.arrays| && i < |s.arrays[a].slots| && s.arrays[a].slots[i].Held? then s.arrays[a].slots[i].owner else 0
  }

  function Ticket(s: State, t: nat): nat {
    if t < |s.threads| then s.threads[t].ticket else 0
  }

  function Occupied(s: State, a: nat): set<nat>
    requires a < |s.arrays|
  {
    set i: nat | i < |s.arrays[a].slots| && s.arrays[a].slots[i].Held?
  }

  /** Every published array is at most half full. */
  lemma HalfFull(s: State, chain: seq<nat>, a: nat)
    requires Inv(s, chain) && a < |s.arrays|
    ensures 2 * |Occupied(s, a)| <= |s.arrays[a].slots|
  {
    var f := map i: nat | i in Occupied(s, a) :: Ticket(s, Owner(s, a, i));
    forall i, j | i in Occupied(s, a) && j in Occupied(s, a)
      ensures 1 <= f[i] <= Room(s.arrays[a].lg) && (f[i] == f[j] ==> i == j)
    {
      assert Holds(s, a, i, Owner(s, a, i)) && Holds(s, a, j, Owner(s, a, j));
      TicketsApart(s, chain, a, i, j, Owner(s, a, i), Owner(s, a, j));
    }
    Pigeonhole(Occupied(s, a), f, Room(s.arrays[a].lg));
  }

  /** A probe never passes more than half of the slots: it ends. */
  lemma ProbeEnds(s: State, chain: seq<nat>, a: nat, h: nat, d: nat)
    requires Inv(s, chain) && a < |s.arrays| && Visited(s, a, h, d)
    ensures d <= Room(s.arrays[a].lg) < Pow2(s.arrays[a].lg)
  {
    var lg := s.arrays[a].lg;
    assert lg >= 1;
    var f := map e: nat | e in Below(d) :: if e < Pow2(lg) then Ticket(s, Owner(s, a, At(h, lg, e))) else 0;
    forall e, e' | e in Below(d) && e' in Below(d)
      ensures 1 <= f[e] <= Room(lg) && (f[e] == f[e'] ==> e == e')
    {
      assert Full(s, a, h, e) && Full(s, a, h, e');
      var i, j := At(h, lg, e), At(h, lg, e');
      assert Holds(s, a, i, Owner(s, a, i)) && Holds(s, a, j, Owner(s, a, j));
      TicketsApart(s, chain, a, i, j, Owner(s, a, i), Owner(s, a, j));
    }
    Pigeonhole(Below(d), f, Room(lg));
  }

  // ---------------------------------------------------------------- every run

  lemma SlotInReach(s: State, chain: seq<nat>, t: nat)
    requires Inv(s, chain) && t < |s.threads| && (s.threads[t].pc.Probe? || s.threads[t].pc.Place? || s.threads[t].pc.Claim?)
    ensures AtSlot(s, s.threads[t])
  {
    assert ThreadOk(s, chain, t);
    ChainInside(s, chain);
    var a := s.threads[t].arr;
    assert a in chain && |s.arrays[a].slots| == Pow2(s.arrays[a].lg);
    ProbeEnds(s, chain, a, s.threads[t].hash, s.threads[t].d);
  }

  lemma StepKeeps(s: State, chain: seq<nat>, t: nat) returns (chain': seq<nat>)
    requires Inv(s, chain) && t < |s.threads|
    ensures Inv(Step(s, t), chain')
  {
    chain' := chain;
    hide Inv;
    hide Step;
    match s.threads[t].pc {
      case Idle => IdleStep(s, chain, t);
      case ReadRoot => ReadRootStep(s, chain, t);
      case Probe =>
        SlotInReach(s, chain, t);
        if s.arrays[s.threads[t].arr].slots[Index(s, s.threads[t])].Empty? {
          ProbeEmpty(s, chain, t);
        } else {
          ProbeTaken(s, chain, t);
        }
      case CheckRoot => CheckRootStep(s, chain, t);
      case Create => CreateStep(s, chain, t);
      case Bump => BumpStep(s, chain, t);
      case CheckSize => CheckSizeStep(s, chain, t);
      case Publish => chain' := PublishStep(s, chain, t);
      case ReadTop => ReadTopStep(s, chain, t);
      case Place =>
        SlotInReach(s, chain, t);
        PlaceStep(s, chain, t);
      case Claim =>
        SlotInReach(s, chain, t);
        if s.arrays[s.threads[t].arr].slots[Index(s, s.threads[t])].Empty? {
          ClaimStep(s, chain, t);
        } else {
          PlaceStep(s, chain, t);
        }
      case Store => StoreStep(s, chain, t);
    }
  }

  lemma InitialOk(s: State)
    requires Initial(s)
    ensures Inv(s, [])
  {
  }

  lemma {:induction false} RunKeeps(s: State, schedule: seq<nat>) returns (chain: seq<nat>)
    requires Initial(s) && Schedule(s, schedule)
    ensures Inv(Run(s, schedule), chain)
    decreases |schedule|
  {
    if schedule == [] {
      InitialOk(s);
      chain := [];
    } else {
      var n := |schedule| - 1;
      hide Inv;
      hide Step;
      chain := RunKeeps(s, schedule[..n]);
      chain := StepKeeps(Run(s, schedule[..n]), chain, schedule[n]);
    }
  }

  lemma FirstsApart(s: State, t: nat, u: nat)
    requires TicketsOk(s) && t < |s.threads| && u < |s.threads|
    ensures s.threads[t].first != 0 && s.threads[t].first == s.threads[u].first ==> t == u
  {
    if t != u {
      assert if t < u then s.threads[t].first > 0 ==> s.threads[t].first != s.threads[u].first
             else s.threads[u].first > 0 ==> s.threads[u].first != s.threads[t].first;
    }
  }

  lemma ReturnsFirst(s: State, chain: seq<nat>, t: nat)
    requires Inv(s, chain) && t < |s.threads|
    ensures s.threads[t].result != 0 ==> s.threads[t].result == s.threads[t].first
    ensures s.threads[t].pc.CheckRoot? || s.threads[t].pc.Store? ==> s.threads[t].found == s.threads[t].first != 0
  {
    assert ThreadOk(s, chain, t);
    if s.threads[t].pc.CheckRoot? {
      assert !NotIn(s, s.threads[t].arr, t);
      var i: nat :| Holds(s, s.threads[t].arr, i, t);
      assert HeldOk(s, chain, s.threads[t].arr, i, t);
    }
  }

  /** A lookup returns from two places, with what it has found. */
  lemma ReturnsFound(s: State, t: nat)
    requires t < |s.threads| && !s.threads[t].pc.Idle? && Step(s, t).threads[t].pc.Idle?
    ensures s.threads[t].pc.CheckRoot? || s.threads[t].pc.Store?
    ensures Step(s, t).threads[t].result == s.threads[t].found && Step(s, t).threads[t].first == s.threads[t].first
  {
  }

  /** In every interleaving each lookup of a thread returns the first pointer the thread
      created, which is not null, and no two threads get the same one. */
  lemma {:induction false} OwnFirstPointer(s: State, schedule: seq<nat>, t: nat, u: nat)
    requires Initial(s) && Schedule(s, schedule) && t < |s.threads| && u < |s.threads|
    ensures var r := Run(s, schedule);
            && (!r.threads[t].pc.Idle? && Step(r, t).threads[t].pc.Idle? ==>
                  Step(r, t).threads[t].result == Step(r, t).threads[t].first != 0)
            && (r.threads[t].result != 0 ==> r.threads[t].result == r.threads[t].first)
            && (r.threads[t].first != 0 && r.threads[t].first == r.threads[u].first ==> t == u)
  {
    var r := Run(s, schedule);
    var chain := RunKeeps(s, schedule);
    assert TicketsOk(r);
    hide Inv;
    hide Step;
    hide TicketsOk;
    ReturnsFirst(r, chain, t);
    if !r.threads[t].pc.Idle? && Step(r, t).threads[t].pc.Idle? {
      ReturnsFound(r, t);
    }
    FirstsApart(r, t, u);
  }

  /** A thread creates at most one object: it comes to Create only if it never has. */
  lemma {:induction false} CreatesOnce(s: State, schedule: seq<nat>, t: nat)
    requires Initial(s) && Schedule(s, schedule) && t < |s.threads|
    ensures var r := Run(s, schedule);
            && (r.threads[t].pc.Create? ==> r.threads[t].first == 0)
            && (r.threads[t].first != 0 ==> Step(r, t).threads[t].first == r.threads[t].first)
  {
    var chain := RunKeeps(s, schedule);
    assert ThreadOk(Run(s, schedule), chain, t);
  }

  /** A step that changes the root makes it larger. */
  lemma {:induction false} RootsGrow(s: State, schedule: seq<nat>, t: nat)
    requires Initial(s) && Schedule(s, schedule) && t < |s.threads|
    ensures var r := Run(s, schedule);
            var r' := Step(r, t);
            r'.root != r.root ==>
              && r'.root.To? && r'.root.index < |r.arrays|
              && (r.root.To? ==> r.root.index < |r.arrays| && r.arrays[r'.root.index].lg > r.arrays[r.root.index].lg)
  {
    var r := Run(s, schedule);
    var chain := RunKeeps(s, schedule);
    assert ThreadOk(r, chain, t);
  }

  /** In every reachable state every array is at most half full, and a thread that probes one
      has passed at most half of its slots. */
  lemma {:induction false} AlwaysHalfEmpty(s: State, schedule: seq<nat>, a: nat, t: nat)
    requires Initial(s) && Schedule(s, schedule) && a < |Run(s, schedule).arrays| && t < |s.threads|
    ensures var r := Run(s, schedule);
            && 2 * |Occupied(r, a)| <= |r.arrays[a].slots|
            && (r.threads[t].pc.Probe? || r.threads[t].pc.Place? || r.threads[t].pc.Claim? ==>
                  AtSlot(r, r.threads[t]) && 2 * r.threads[t].d <= |r.arrays[r.threads[t].arr].slots|)
  {
    var r := Run(s, schedule);
    var chain := RunKeeps(s, schedule);
    HalfFull(r, chain, a);
    if r.threads[t].pc.Probe? || r.threads[t].pc.Place? || r.threads[t].pc.Claim? {
      SlotInReach(r, chain, t);
      assert ThreadOk(r, chain, t);
      ProbeEnds(r, chain, r.threads[t].arr, r.threads[t].hash, r.threads[t].d);
    }
  }

  /** The counts drawn by different threads are distinct, and a thread's is at most half the
      size of the array it inserts into, and of any array its key sits in. */
  lemma {:induction false} TicketsFit(s: State, schedule: seq<nat>, t: nat, u: nat)
    requires Initial(s) && Schedule(s, schedule) && t < |s.threads| && u < |s.threads|
    ensures var r := Run(s, schedule);
            && (t != u && r.threads[t].ticket > 0 ==> r.threads[t].ticket != r.threads[u].ticket)
            && (r.threads[t].pc.ReadTop? ==> Fits(r, t, if r.root.To? then r.root.index else |r.arrays|))
            && (r.threads[t].pc.Place? || r.threads[t].pc.Claim? || r.threads[t].pc.Store? ==> Fits(r, t, r.threads[t].arr))
            && (forall a: nat, i: nat {:trigger Holds(r, a, i, t)} | Holds(r, a, i, t) :: Fits(r, t, a))
  {
    var r := Run(s, schedule);
    var chain := RunKeeps(s, schedule);
    assert ThreadOk(r, chain, t);
    forall a: nat, i: nat | Holds(r, a, i, t)
      ensures Fits(r, t, a)
    {
      assert HeldOk(r, chain, a, i, t);
    }
    if t != u {
      assert if t < u then r.threads[t].ticket > 0 ==> r.threads[t].ticket != r.threads[u].ticket
             else r.threads[u].ticket > 0 ==> r.threads[u].ticket != r.threads[t].ticket;
    }
  }

  /** The thread has drawn a count, and it is at most half the size of array `a`. */
  predicate Fits(s: State, t: nat, a: nat) {
    t < |s.threads| && a < |s.arrays| && 1 <= s.threads[t].ticket && 2 * s.threads[t].ticket <= |s.arrays[a].slots|
  }
}
