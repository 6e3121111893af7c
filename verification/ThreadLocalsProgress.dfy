/** Progress of the probe tables.  A lookup is wait-free: whatever the other threads do meanwhile,
    it returns after a number of its own steps that is linear in the number of threads, and
    leaves the thread's key in an array no smaller than the root was when it began. */
module ThreadLocalsProgress {

  import opened Common
  import opened ThreadLocals

  // ---------------------------------------------------------------- how large arrays become

  /** The threads that have drawn a count. */
  function Drawn(s: State): set<nat> {
    set t: nat | t < |s.threads| && s.threads[t].ticket > 0
  }

  /** The counts drawn are as many as the threads that drew one, and arrays are no larger than
      four times the number of threads asks for. */
  ghost predicate Sized(s: State) {
    && s.count == |Drawn(s)|
    && forall a: nat {:trigger s.arrays[a]} | a < |s.arrays| ::
         2 <= s.arrays[a].lg && Pow2(s.arrays[a].lg) <= 4 * |s.threads|
  }

  lemma DrawnInside(s: State)
    ensures |Drawn(s)| <= |s.threads|
  {
    SubsetSmaller(Drawn(s), Below(|s.threads|));
  }

  /** The size chosen is the smallest with room. */
  lemma {:induction false} FitIsSmallest(lg: nat, c: nat)
    requires lg >= 1
    ensures Fit(lg, c) > lg ==> Room(Fit(lg, c) - 1) < c
    decreases c - Room(lg)
  {
    if c > Room(lg) {
      RoomGrows(lg);
      FitIsSmallest(lg + 1, c);
    }
  }

  lemma {:induction false} FitsThreads(lg: nat, c: nat, n: nat)
    requires lg >= 2 && Pow2(lg) <= 4 * n && c <= n
    ensures Pow2(Fit(lg, c)) <= 4 * n
  {
    FitIsSmallest(lg, c);
    var r := Fit(lg, c);
    assert Pow2(r) == 2 * Pow2(r - 1) == 4 * Pow2(r - 2);
  }

  /** A step adds at most one array, and leaves the sizes of the others. */
  lemma ArraysAdded(s: State, t: nat)
    requires t < |s.threads|
    ensures var s' := Step(s, t);
            && |s.arrays| <= |s'.arrays| <= |s.arrays| + 1 && |s'.threads| == |s.threads|
            && (forall a: nat {:trigger s'.arrays[a]} | a < |s.arrays| :: s'.arrays[a].lg == s.arrays[a].lg)
            && (forall u: nat {:trigger s'.threads[u]} | u < |s.threads| && u != t :: s'.threads[u] == s.threads[u])
            && (|s'.arrays| > |s.arrays| ==> s.threads[t].pc.CheckSize?)
  {
  }

  lemma BumpsOnce(s: State, chain: seq<nat>, t: nat)
    requires Inv(s, chain) && t < |s.threads|
    ensures s.threads[t].ticket <= s.count && (s.threads[t].pc.Bump? ==> s.threads[t].ticket == 0)
  {
    assert ThreadOk(s, chain, t);
  }

  lemma TicketAfter(s: State, t: nat)
    requires t < |s.threads|
    ensures Step(s, t).count == s.count + if s.threads[t].pc.Bump? then 1 else 0
    ensures Step(s, t).threads[t].ticket == if s.threads[t].pc.Bump? then s.count + 1 else s.threads[t].ticket
  {
  }

  lemma CountDrawn(s: State, chain: seq<nat>, t: nat)
    requires Inv(s, chain) && t < |s.threads| && s.count == |Drawn(s)|
    ensures Step(s, t).count == |Drawn(Step(s, t))|
  {
    hide Inv;
    hide Step;
    var s' := Step(s, t);
    ArraysAdded(s, t);
    BumpsOnce(s, chain, t);
    TicketAfter(s, t);
    if s.threads[t].pc.Bump? {
      assert t !in Drawn(s) && Drawn(s') == Drawn(s) + {t};
    } else {
      assert Drawn(s') == Drawn(s);
    }
  }

  /** What a step allocates. */
  lemma AddedArray(s: State, t: nat)
    requires t < |s.threads| && |Step(s, t).arrays| > |s.arrays|
    ensures Step(s, t).arrays[|s.arrays|].lg ==
            Fit(if s.root.To? && s.root.index < |s.arrays| then s.arrays[s.root.index].lg else 2, s.threads[t].ticket)
  {
  }

  lemma SizedStep(s: State, chain: seq<nat>, t: nat)
    requires Inv(s, chain) && Sized(s) && t < |s.threads|
    ensures Sized(Step(s, t))
  {
    hide Inv;
    hide Step;
    var s' := Step(s, t);
    CountDrawn(s, chain, t);
    ArraysAdded(s, t);
    DrawnInside(s);
    BumpsOnce(s, chain, t);
    forall a: nat | a < |s'.arrays|
      ensures 2 <= s'.arrays[a].lg && Pow2(s'.arrays[a].lg) <= 4 * |s'.threads|
    {
      if a < |s.arrays| {
        assert s'.arrays[a].lg == s.arrays[a].lg;
      } else {
        var from := if s.root.To? && s.root.index < |s.arrays| then s.arrays[s.root.index].lg else 2;
        assert Pow2(2) == 4;
        FitsThreads(from, s.threads[t].ticket, |s.threads|);
        AddedArray(s, t);
      }
    }
  }

  lemma {:induction false} RunSized(s: State, schedule: seq<nat>) returns (chain: seq<nat>)
    requires Initial(s) && Schedule(s, schedule)
    ensures Inv(Run(s, schedule), chain) && Sized(Run(s, schedule))
    decreases |schedule|
  {
    hide Inv;
    hide Step;
    if schedule == [] {
      InitialOk(s);
      chain := [];
      assert Drawn(s) == {};
    } else {
      var n := |schedule| - 1;
      chain := RunSized(s, schedule[..n]);
      SizedStep(Run(s, schedule[..n]), chain, schedule[n]);
      chain := StepKeeps(Run(s, schedule[..n]), chain, schedule[n]);
    }
  }

  /** Every array has at most four slots a thread. */
  lemma {:induction false} ArraysSmall(s: State, schedule: seq<nat>, a: nat)
    requires Initial(s) && Schedule(s, schedule) && a < |Run(s, schedule).arrays|
    ensures |Run(s, schedule).arrays[a].slots| <= 4 * |s.threads|
  {
    var chain := RunSized(s, schedule);
    assert Run(s, schedule).arrays[a].lg >= 2;
  }

  // ---------------------------------------------------------------- what a lookup has before it

  function Less(a: nat, b: nat): nat {
    if a > b then a - b else 0
  }

  function Size(s: State, a: nat): nat {
    if a < |s.arrays| then Pow2(s.arrays[a].lg) else 0
  }

  function Lg(s: State, r: Ref): nat {
    if r.To? && r.index < |s.arrays| then s.arrays[r.index].lg else 0
  }

  /** A bound on the steps that thread `t` has before it in this lookup. */
  function Rank(s: State, t: nat): nat
    requires t < |s.threads|
  {
    var th, m := s.threads[t], 4 * |s.threads|;
    match th.pc
    case Idle => 0
    case ReadRoot => 10 + 5 * m
    case Probe => 9 + 3 * m + Less(2 * Size(s, th.arr), th.d)
    case CheckRoot => 8 + 3 * m
    case Create => 8 + 3 * m
    case Bump => 7 + 3 * m
    case CheckSize => 6 + 3 * m
    case Publish => 5 + 2 * m + Less(m, Lg(s, th.seen))
    case ReadTop => 4 + 2 * m
    case Place => 3 + 2 * Less(m, th.d)
    case Claim => 2 + 2 * Less(m, th.d)
    case Store => 1
  }

  lemma {:induction false} SizeMonotone(a: nat, b: nat)
    requires a <= b
    ensures Pow2(a) <= Pow2(b) && b < Pow2(b)
    decreases b
  {
    if b > 0 {
      SizeMonotone(if a < b then a else b - 1, b - 1);
    }
  }

  /** One step of a search: it is over, or goes one place further in the same array, or on to the
      next array, which is smaller.  The searches for an empty slot likewise. */
  lemma {:induction false} LoopsAdvance(s: State, schedule: seq<nat>, t: nat)
    requires Initial(s) && Schedule(s, schedule) && t < |s.threads|
    ensures var r := Run(s, schedule);
            var th, th' := r.threads[t], Step(r, t).threads[t];
            && (th.pc.Probe? ==>
                  || th'.pc.CheckRoot? || th'.pc.Create?
                  || (th'.pc.Probe? && th'.arr == th.arr && th'.d == th.d + 1)
                  || (th'.pc.Probe? && th'.d == 0 && Size(r, th'.arr) < Size(r, th.arr) && r.arrays[th.arr].next == To(th'.arr)))
            && (th.pc.Place? ==> th'.arr == th.arr && if th'.pc.Claim? then th'.d == th.d else th'.pc.Place? && th'.d == th.d + 1)
            && (th.pc.Claim? ==> th'.arr == th.arr && if th'.pc.Store? then th'.d == th.d else th'.pc.Place? && th'.d == th.d + 1)
  {
    var chain := RunKeeps(s, schedule);
    var r := Run(s, schedule);
    if r.threads[t].pc.Probe? || r.threads[t].pc.Place? || r.threads[t].pc.Claim? {
      SlotInReach(r, chain, t);
      if r.threads[t].pc.Probe? {
        NextSmaller(r, chain, t);
      }
    }
  }

  lemma NextSmaller(s: State, chain: seq<nat>, t: nat)
    requires Inv(s, chain) && t < |s.threads| && s.threads[t].pc.Probe?
    ensures var a := s.threads[t].arr;
            && a < |s.arrays|
            && (s.arrays[a].next.To? ==>
                  s.arrays[a].next.index < |s.arrays| && 2 * Size(s, s.arrays[a].next.index) <= Size(s, a))
  {
    assert ThreadOk(s, chain, t);
    ChainInside(s, chain);
    var a := s.threads[t].arr;
    var k: nat :| k < |chain| && chain[k] == a;
    if s.arrays[a].next.To? {
      assert chain[k + 1] in chain;
      var b := s.arrays[a].next.index;
      assert s.arrays[a].lg > s.arrays[b].lg;
      SizeMonotone(s.arrays[b].lg, s.arrays[a].lg - 1);
    }
  }

  lemma PassedHalf(s: State, chain: seq<nat>, t: nat)
    requires Inv(s, chain) && Sized(s) && t < |s.threads|
    requires s.threads[t].pc.Probe? || s.threads[t].pc.Place? || s.threads[t].pc.Claim?
    ensures var th := s.threads[t];
            AtSlot(s, th) && 2 * th.d <= Size(s, th.arr) <= 4 * |s.threads|
  {
    var th := s.threads[t];
    SlotInReach(s, chain, t);
    assert ThreadOk(s, chain, t);
    ProbeEnds(s, chain, th.arr, th.hash, th.d);
    assert s.arrays[th.arr].lg >= 2;
  }

  lemma ProbeRanks(s: State, chain: seq<nat>, t: nat)
    requires Inv(s, chain) && Sized(s) && t < |s.threads| && s.threads[t].pc.Probe?
    ensures Rank(Step(s, t), t) < Rank(s, t)
  {
    hide Inv;
    hide Sized;
    PassedHalf(s, chain, t);
    NextSmaller(s, chain, t);
  }

  lemma PlaceRanks(s: State, chain: seq<nat>, t: nat)
    requires Inv(s, chain) && Sized(s) && t < |s.threads| && (s.threads[t].pc.Place? || s.threads[t].pc.Claim?)
    ensures Rank(Step(s, t), t) < Rank(s, t)
  {
    hide Inv;
    hide Sized;
    PassedHalf(s, chain, t);
  }

  /** When a thread comes to publish its array and the root is not the one it has seen, the root
      has grown. */
  lemma RootHasGrown(s: State, chain: seq<nat>, t: nat)
    requires Inv(s, chain) && Sized(s) && t < |s.threads| && s.threads[t].pc.Publish?
    ensures s.threads[t].grown < |s.arrays|
    ensures s.root != s.threads[t].seen && s.root.To? ==> Lg(s, s.threads[t].seen) < Lg(s, s.root) <= 4 * |s.threads|
  {
    var th := s.threads[t];
    assert ThreadOk(s, chain, t);
    if s.root != th.seen && s.root.To? {
      RootIsLargest(s, chain, chain[0]);
      assert s.arrays[s.root.index].lg >= 2;
      SizeMonotone(0, Lg(s, s.root));
      if th.seen.To? {
        RootIsLargest(s, chain, th.seen.index);
      }
    }
  }

  lemma PublishRanks(s: State, chain: seq<nat>, t: nat)
    requires Inv(s, chain) && Sized(s) && t < |s.threads| && s.threads[t].pc.Publish?
    ensures Rank(Step(s, t), t) < Rank(s, t)
  {
    hide Inv;
    hide Sized;
    RootHasGrown(s, chain, t);
  }

  lemma RootInside(s: State, chain: seq<nat>, t: nat)
    requires Inv(s, chain) && Sized(s) && t < |s.threads|
    ensures s.root.To? ==> Size(s, s.root.index) <= 4 * |s.threads|
    ensures s.threads[t].pc.ReadTop? ==> s.root.To?
    ensures s.threads[t].pc.Store? ==> AtSlot(s, s.threads[t])
  {
    assert ThreadOk(s, chain, t);
    if s.root.To? {
      assert chain != [] && chain[0] == s.root.index;
      assert s.arrays[s.root.index].lg >= 2;
    }
  }

  /** The steps outside the loops. */
  lemma StraightRanks(s: State, t: nat)
    requires t < |s.threads| && s.root.To? ==> Size(s, s.root.index) <= 4 * |s.threads|
    requires t < |s.threads|
    requires match s.threads[t].pc
             case Idle => false
             case Probe => false
             case Publish => false
             case Place => false
             case Claim => false
             case ReadTop => s.root.To?
             case Store => AtSlot(s, s.threads[t])
             case _ => true
    ensures Rank(Step(s, t), t) < Rank(s, t)
  {
  }

  /** Every step of a thread that is inside brings it nearer to its return. */
  lemma OwnStepRanks(s: State, chain: seq<nat>, t: nat)
    requires Inv(s, chain) && Sized(s) && t < |s.threads| && !s.threads[t].pc.Idle?
    ensures Rank(Step(s, t), t) < Rank(s, t)
  {
    hide Inv;
    hide Sized;
    hide Rank;
    hide Step;
    match s.threads[t].pc {
      case Probe => ProbeRanks(s, chain, t);
      case Place => PlaceRanks(s, chain, t);
      case Claim => PlaceRanks(s, chain, t);
      case Publish => PublishRanks(s, chain, t);
      case _ =>
        RootInside(s, chain, t);
        StraightRanks(s, t);
    }
  }

  /** Steps of others leave it where it is. */
  lemma OtherStepRanks(s: State, chain: seq<nat>, t: nat, u: nat)
    requires Inv(s, chain) && t < |s.threads| && u < |s.threads| && u != t
    ensures Rank(Step(s, u), t) == Rank(s, t)
  {
    hide Inv;
    hide Step;
    LooksInside(s, chain, t);
    ArraysAdded(s, u);
    var s', th := Step(s, u), s.threads[t];
    assert s'.threads[t] == th;
    assert th.pc.Probe? ==> Size(s', th.arr) == Size(s, th.arr);
    assert th.pc.Publish? ==> Lg(s', th.seen) == Lg(s, th.seen);
  }

  lemma LooksInside(s: State, chain: seq<nat>, t: nat)
    requires Inv(s, chain) && t < |s.threads|
    ensures s.threads[t].pc.Probe? ==> s.threads[t].arr < |s.arrays|
    ensures s.threads[t].pc.Publish? && s.threads[t].seen.To? ==> s.threads[t].seen.index < |s.arrays|
  {
    assert ThreadOk(s, chain, t);
    ChainInside(s, chain);
  }

  lemma RankBound(s: State, t: nat)
    requires Sized(s) && t < |s.threads|
    ensures Rank(s, t) <= 20 * |s.threads| + 10
  {
    var th := s.threads[t];
    assert th.arr < |s.arrays| ==> s.arrays[th.arr].lg >= 2;
  }

  // ---------------------------------------------------------------- a lookup returns

  /** How often the thread steps in `cont`. */
  function Own(cont: seq<nat>, t: nat): (n: nat)
    ensures n <= |cont|
  {
    if cont == [] then 0 else Own(cont[..|cont| - 1], t) + if cont[|cont| - 1] == t then 1 else 0
  }

  /** The thread is inside table_lookup before every step of `cont`. */
  predicate Inside(s: State, cont: seq<nat>, t: nat)
    requires Schedule(s, cont) && t < |s.threads|
    decreases |cont|
  {
    cont == [] || (Inside(s, cont[..|cont| - 1], t) && !Run(s, cont[..|cont| - 1]).threads[t].pc.Idle?)
  }

  lemma {:induction false} RankFalls(s: State, chain: seq<nat>, cont: seq<nat>, t: nat) returns (chain': seq<nat>)
    requires Inv(s, chain) && Sized(s) && t < |s.threads| && Schedule(s, cont) && Inside(s, cont, t)
    ensures Inv(Run(s, cont), chain') && Sized(Run(s, cont))
    ensures Rank(Run(s, cont), t) + Own(cont, t) <= Rank(s, t)
    decreases |cont|
  {
    hide Inv;
    hide Sized;
    hide Step;
    hide Rank;
    chain' := chain;
    if cont != [] {
      var n := |cont| - 1;
      var r, u := Run(s, cont[..n]), cont[n];
      chain' := RankFalls(s, chain, cont[..n], t);
      if u == t {
        OwnStepRanks(r, chain', t);
      } else {
        OtherStepRanks(r, chain', t, u);
      }
      SizedStep(r, chain', u);
      chain' := StepKeeps(r, chain', u);
    }
  }

  /** A thread that is inside is outside for the first time after at most this many of its own steps. */
  lemma {:induction false} ComesOut(s: State, chain: seq<nat>, cont: seq<nat>, t: nat) returns (k: nat)
    requires Inv(s, chain) && Sized(s) && t < |s.threads| && !s.threads[t].pc.Idle? && Schedule(s, cont)
    requires Own(cont, t) >= Rank(s, t)
    ensures 1 <= k <= |cont| && Inside(s, cont[..k], t) && Own(cont[..k], t) <= Rank(s, t)
    ensures Run(s, cont[..k]).threads[t].pc.Idle?
  {
    hide Inv;
    hide Sized;
    hide Step;
    k := 0;
    while k < |cont| && !Run(s, cont[..k]).threads[t].pc.Idle?
      invariant k <= |cont| && Inside(s, cont[..k], t)
      decreases |cont| - k
    {
      k := k + 1;
      assert cont[..k][..k - 1] == cont[..k - 1];
    }
    var chain' := RankFalls(s, chain, cont[..k], t);
    if !Run(s, cont[..k]).threads[t].pc.Idle? {
      assert cont[..k] == cont;
    }
  }

  // ---------------------------------------------------------------- where the key is then

  /** The root is at least of size `lg`, and so is the array the thread inserts into. */
  predicate Aims(s: State, t: nat, lg: nat)
    requires t < |s.threads|
  {
    && lg <= Lg(s, s.root)
    && (s.threads[t].pc.Place? || s.threads[t].pc.Claim? || s.threads[t].pc.Store? ==>
          s.threads[t].arr < |s.arrays| && lg <= s.arrays[s.threads[t].arr].lg)
  }

  /** The thread's first pointer is stored beside its key in an array at least of size `lg`. */
  ghost predicate Stored(s: State, t: nat, lg: nat)
    requires t < |s.threads|
  {
    exists a: nat, i: nat {:trigger Holds(s, a, i, t)} ::
      Holds(s, a, i, t) && s.arrays[a].slots[i].ptr == s.threads[t].first != 0 && lg <= s.arrays[a].lg
  }

  lemma RootLgGrows(s: State, chain: seq<nat>, u: nat)
    requires Inv(s, chain) && u < |s.threads|
    ensures Lg(s, s.root) <= Lg(Step(s, u), Step(s, u).root) && (s.root.To? ==> s.root.index < |s.arrays|)
  {
    assert ThreadOk(s, chain, u);
    if chain != [] {
      RootIsLargest(s, chain, chain[0]);
    }
    ArraysAdded(s, u);
  }

  lemma AimsStep(s: State, chain: seq<nat>, t: nat, u: nat, lg: nat)
    requires Inv(s, chain) && t < |s.threads| && u < |s.threads| && !s.threads[t].pc.Idle? && Aims(s, t, lg)
    ensures Aims(Step(s, u), t, lg)
  {
    hide Inv;
    hide Step;
    RootLgGrows(s, chain, u);
    ArraysAdded(s, u);
    if u == t {
      OwnAim(s, t);
    }
  }

  /** A thread begins to insert into the root, and goes on in the same array. */
  lemma OwnAim(s: State, t: nat)
    requires t < |s.threads| && !s.threads[t].pc.Idle?
    ensures var th, th' := s.threads[t], Step(s, t).threads[t];
            th'.pc.Place? || th'.pc.Claim? || th'.pc.Store? ==>
              if th.pc.ReadTop? then s.root == To(th'.arr) else (th.pc.Place? || th.pc.Claim? || th.pc.Store?) && th'.arr == th.arr
  {
  }

  lemma {:induction false} AimsOn(s: State, chain: seq<nat>, cont: seq<nat>, t: nat, lg: nat) returns (chain': seq<nat>)
    requires Inv(s, chain) && t < |s.threads| && Schedule(s, cont) && Inside(s, cont, t) && Aims(s, t, lg)
    ensures Inv(Run(s, cont), chain') && Aims(Run(s, cont), t, lg)
    decreases |cont|
  {
    hide Inv;
    hide Step;
    hide Aims;
    chain' := chain;
    if cont != [] {
      var n := |cont| - 1;
      chain' := AimsOn(s, chain, cont[..n], t, lg);
      AimsStep(Run(s, cont[..n]), chain', t, cont[n], lg);
      chain' := StepKeeps(Run(s, cont[..n]), chain', cont[n]);
    }
  }

  lemma KeyAtEnd(s: State, chain: seq<nat>, t: nat)
    requires Inv(s, chain) && t < |s.threads| && (s.threads[t].pc.CheckRoot? || s.threads[t].pc.Store?)
    ensures var th := s.threads[t];
            && th.arr < |s.arrays| && th.found == th.first != 0
            && (th.pc.CheckRoot? ==> exists i: nat :: Holds(s, th.arr, i, t) && s.arrays[th.arr].slots[i].ptr == th.first)
            && (th.pc.Store? ==> AtSlot(s, th))
  {
    var th := s.threads[t];
    assert ThreadOk(s, chain, t);
    if th.pc.CheckRoot? {
      var i: nat :| Holds(s, th.arr, i, t);
      assert HeldOk(s, chain, th.arr, i, t);
    }
  }

  /** The step with which a lookup returns leaves the key stored. */
  lemma ReturnsStored(s: State, chain: seq<nat>, t: nat, lg: nat)
    requires Inv(s, chain) && t < |s.threads| && Aims(s, t, lg)
    requires !s.threads[t].pc.Idle? && Step(s, t).threads[t].pc.Idle?
    ensures Stored(Step(s, t), t, lg) && Step(s, t).threads[t].result == Step(s, t).threads[t].first
  {
    hide Inv;
    var s', th := Step(s, t), s.threads[t];
    KeyAtEnd(s, chain, t);
    if th.pc.CheckRoot? {
      var i: nat :| Holds(s, th.arr, i, t) && s.arrays[th.arr].slots[i].ptr == th.first;
      assert Holds(s', th.arr, i, t);
    } else {
      assert Holds(s', th.arr, Index(s, th), t);
    }
  }

  /** A lookup returns, whatever other threads do meanwhile, after at most 20 steps of its own for
      each thread, and 10.  Then its result is the thread's first pointer, which is stored in an
      array at least as large as the root was when the lookup began. */
  lemma {:induction false} LookupReturns(s: State, schedule: seq<nat>, cont: seq<nat>, t: nat) returns (k: nat)
    requires Initial(s) && Schedule(s, schedule) && Schedule(s, cont) && t < |s.threads|
    requires Run(s, schedule).threads[t].pc.ReadRoot? && Own(cont, t) >= 20 * |s.threads| + 10
    ensures 1 <= k <= |cont| && Own(cont[..k], t) <= 20 * |s.threads| + 10
    ensures var r := Run(s, schedule);
            var r' := Run(r, cont[..k]);
            && Inside(r, cont[..k], t) && r'.threads[t].pc.Idle?
            && r'.threads[t].result == r'.threads[t].first && Stored(r', t, Lg(r, r.root))
  {
    hide Inv;
    hide Sized;
    hide Step;
    hide Rank;
    var r := Run(s, schedule);
    var chain := RunSized(s, schedule);
    RankBound(r, t);
    k := ComesOut(r, chain, cont, t);
    var last := cont[..k][..k - 1];
    var chain' := AimsOn(r, chain, last, t, Lg(r, r.root));
    LastIsOwn(Run(r, last), cont[k - 1], t);
    ReturnsStored(Run(r, last), chain', t, Lg(r, r.root));
  }

  /** Only its own step takes a thread out. */
  lemma LastIsOwn(s: State, u: nat, t: nat)
    requires u < |s.threads| && t < |s.threads| && !s.threads[t].pc.Idle? && Step(s, u).threads[t].pc.Idle?
    ensures u == t
  {
    ArraysAdded(s, u);
  }

  /** Wherever a thread is inside, it comes out after that many steps of its own. */
  lemma {:induction false} EveryLookupReturns(s: State, schedule: seq<nat>, cont: seq<nat>, t: nat) returns (k: nat)
    requires Initial(s) && Schedule(s, schedule) && Schedule(s, cont) && t < |s.threads|
    requires !Run(s, schedule).threads[t].pc.Idle? && Own(cont, t) >= 20 * |s.threads| + 10
    ensures 1 <= k <= |cont| && Own(cont[..k], t) <= 20 * |s.threads| + 10
    ensures Run(Run(s, schedule), cont[..k]).threads[t].pc.Idle?
  {
    hide Inv;
    hide Sized;
    hide Rank;
    var chain := RunSized(s, schedule);
    RankBound(Run(s, schedule), t);
    k := ComesOut(Run(s, schedule), chain, cont, t);
  }
}
