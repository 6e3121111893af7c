/** The bounded access history of one address.  For each lockset it keeps at most two
    writers and two readers and forgets all others; this module proves that forgetting
    loses no race and invents none. */
module History {
  import opened Common
  import opened Dpst
  import opened LcaHash
  import opened Lockset

  datatype AccessType = READ | WRITE

  datatype Access = Access(step: nat, kind: AccessType, lockset: Word)

  /** One history entry; an unused slot is null (0). */
  datatype AddressData = AddressData(lockset: Word, w1: nat, w2: nat, r1: nat, r2: nat)

  datatype Violation = Violation(step: nat, kind: AccessType, priorStep: nat, priorKind: AccessType)

  /** The history of an address: one entry per lockset seen, and the violation found, if any. */
  datatype State = State(entries: seq<AddressData>, violation: Option<Violation>)

  // ---------------------------------------------------------------- the race check

  /** Is the slot occupied by a step parallel to `s`? */
  ghost predicate Races(t: Tree, s: nat, slot: nat)
    requires Rooted(t)
  {
    slot != 0 && IsStep(t, s) && IsStep(t, slot) && Parallel(t, s, slot)
  }

  ghost function RaceWith(t: Tree, a: Access, e: AddressData): Option<Violation>
    requires Rooted(t)
  {
    if !Disjoint(a.lockset, e.lockset) then None
    else if Races(t, a.step, e.w1) then Some(Violation(a.step, a.kind, e.w1, WRITE))
    else if Races(t, a.step, e.w2) then Some(Violation(a.step, a.kind, e.w2, WRITE))
    else if a.kind == WRITE && Races(t, a.step, e.r1) then Some(Violation(a.step, a.kind, e.r1, READ))
    else if a.kind == WRITE && Races(t, a.step, e.r2) then Some(Violation(a.step, a.kind, e.r2, READ))
    else None
  }

  ghost function FindRace(t: Tree, a: Access, entries: seq<AddressData>): Option<Violation>
    requires Rooted(t)
  {
    if entries == [] then None
    else if RaceWith(t, a, entries[0]).Some? then RaceWith(t, a, entries[0])
    else FindRace(t, a, entries[1..])
  }

  // ---------------------------------------------------------------- the update

  /** The two slots kept after a further step `s` accessed under the same lockset. */
  ghost function UpdatePair(t: Tree, x1: nat, x2: nat, s: nat): (nat, nat)
    requires Rooted(t)
  {
    var par1, par2 := Races(t, s, x1), Races(t, s, x2);
    if (x1 == 0 && x2 == 0) || (x1 == 0 && !par2) || (x2 == 0 && !par1) || (!par1 && !par2) then (s, 0)
    else if par1 && par2 then
      if t[Lca(t, x1, s)].depth < t[Lca(t, x1, x2)].depth then (s, x2) else (x1, x2)
    else if x2 == 0 && par1 then (x1, s)
    else (x1, x2)
  }

  ghost function UpdateEntry(t: Tree, e: AddressData, a: Access): AddressData
    requires Rooted(t)
  {
    if a.kind == WRITE then
      var (w1, w2) := UpdatePair(t, e.w1, e.w2, a.step);
      e.(w1 := w1, w2 := w2)
    else
      var (r1, r2) := UpdatePair(t, e.r1, e.r2, a.step);
      e.(r1 := r1, r2 := r2)
  }

  function FreshEntry(a: Access): AddressData {
    if a.kind == READ then AddressData(a.lockset, 0, 0, a.step, 0) else AddressData(a.lockset, a.step, 0, 0, 0)
  }

  ghost function Record(t: Tree, entries: seq<AddressData>, a: Access): seq<AddressData>
    requires Rooted(t)
  {
    if entries == [] then [FreshEntry(a)]
    else if entries[0].lockset == a.lockset then [UpdateEntry(t, entries[0], a)] + entries[1..]
    else [entries[0]] + Record(t, entries[1..], a)
  }

  /** One access: nothing once a violation is known; else the check, else the update. */
  ghost function Process(t: Tree, s: State, a: Access): State
    requires Rooted(t)
  {
    if s.violation.Some? then s
    else if FindRace(t, a, s.entries).Some? then State(s.entries, FindRace(t, a, s.entries))
    else State(Record(t, s.entries, a), None)
  }

  lemma {:induction false} FindRaceSome(t: Tree, a: Access, entries: seq<AddressData>, i: nat)
    requires Rooted(t) && i < |entries| && RaceWith(t, a, entries[i]).Some?
    ensures FindRace(t, a, entries).Some?
  {
    if i > 0 {
      FindRaceSome(t, a, entries[1..], i - 1);
    }
  }

  lemma {:induction false} FindRaceWhere(t: Tree, a: Access, entries: seq<AddressData>) returns (i: nat)
    requires Rooted(t) && FindRace(t, a, entries).Some?
    ensures i < |entries| && FindRace(t, a, entries) == RaceWith(t, a, entries[i])
  {
    if RaceWith(t, a, entries[0]).Some? {
      i := 0;
    } else {
      var j := FindRaceWhere(t, a, entries[1..]);
      i := j + 1;
    }
  }

  ghost predicate OnePerLockset(entries: seq<AddressData>) {
    forall i, j | 0 <= i < j < |entries| :: entries[i].lockset != entries[j].lockset
  }

  /** With one entry per lockset, recording updates the entry of that lockset or appends one. */
  lemma {:induction false} RecordAt(t: Tree, entries: seq<AddressData>, a: Access, i: nat)
    requires Rooted(t) && i <= |entries|
    requires forall j | 0 <= j < i :: entries[j].lockset != a.lockset
    requires i < |entries| ==> entries[i].lockset == a.lockset
    ensures Record(t, entries, a) ==
            if i < |entries| then entries[i := UpdateEntry(t, entries[i], a)] else entries + [FreshEntry(a)]
    decreases i
  {
    if i > 0 {
      forall j | 0 <= j < i - 1
        ensures entries[1..][j].lockset != a.lockset
      {
        assert entries[1..][j] == entries[j + 1];
      }
      RecordAt(t, entries[1..], a, i - 1);
    }
  }

  // ---------------------------------------------------------------- steps that are resumed

  /** `f` lies under a later sibling `r` of `u`, and no child of their parent up to `r` is an
      ASYNC.  This is how a step stands to a root task that was run from it: the program may
      go on in `u` after everything under `r`, although `u` precedes `f`. */
  ghost predicate ResumesAt(t: Tree, u: nat, r: nat, f: nat)
    requires Rooted(t) && IsNode(t, f)
  {
    && Siblings(t, u, r) && u < r && IsAncestor(t, r, f)
    && forall c: nat {:trigger Siblings(t, c, r)} | Siblings(t, c, r) && c <= r :: t[c].kind != Async
  }

  /** Step `u` may access after step `f`: it does not precede it, unless it is resumed after it. */
  ghost predicate MayFollow(t: Tree, f: nat, u: nat)
    requires Rooted(t) && IsNode(t, f) && IsNode(t, u)
  {
    Precedes(t, u, f) ==> exists r: nat :: ResumesAt(t, u, r, f)
  }

  /** Once `b` is resumed after `x`, nothing happens any more under the root task that `x` belongs to. */
  ghost predicate Closed(t: Tree, x: nat, b: nat, u: nat)
    requires Rooted(t) && IsNode(t, x) && IsNode(t, u)
  {
    forall r: nat {:trigger ResumesAt(t, b, r, x)} | ResumesAt(t, b, r, x) :: !IsAncestor(t, r, u)
  }

  lemma {:induction false} ChildrenOrdered(t: Tree, u: nat, r: nat, f: nat, c: nat, d: nat, a: nat, b: nat)
    requires WellFormed(t) && IsNode(t, f) && ResumesAt(t, u, r, f) && IsNode(t, a) && IsNode(t, b)
    requires Siblings(t, c, r) && Siblings(t, d, r) && c != d && c <= r
    requires IsAncestor(t, c, a) && IsAncestor(t, d, b)
    ensures !Parallel(t, a, b)
    ensures c < d ==> Precedes(t, a, b)
  {
    assert Siblings(t, c, d) && Siblings(t, d, c);
    if c < d {
      assert Splits(t, c, d, a, b);
    } else {
      assert Splits(t, d, c, b, a);
    }
  }

  /** Within the parent of a resumed step, everything is ordered with what is under `r`, or is under `r`. */
  lemma {:induction false} OrderedWithRoot(t: Tree, u: nat, r: nat, f: nat, z: nat)
    requires WellFormed(t) && IsStep(t, f) && IsStep(t, z) && ResumesAt(t, u, r, f)
    requires IsAncestor(t, t[r].parent, z) && !IsAncestor(t, r, z)
    ensures !Parallel(t, f, z)
  {
    assert NodeOk(t, r);
    ChildrenOrdered(t, u, r, f, r, ChildToward(t, t[r].parent, z), f, z);
  }

  /** Within its parent a resumed step is ordered with everything. */
  lemma {:induction false} OrderedWithResumed(t: Tree, u: nat, r: nat, f: nat, z: nat)
    requires WellFormed(t) && IsStep(t, u) && IsStep(t, f) && IsStep(t, z) && ResumesAt(t, u, r, f)
    requires IsAncestor(t, t[r].parent, z)
    ensures !Parallel(t, u, z)
  {
    assert NodeOk(t, r);
    var c := ChildToward(t, t[r].parent, z);
    if c == u {
      StepHasNoDescendants(t, u, z);
    } else {
      ChildrenOrdered(t, u, r, f, u, c, u, z);
    }
  }

  lemma {:induction false} UnderParent(t: Tree, u: nat, r: nat, f: nat)
    requires Rooted(t) && IsNode(t, f) && ResumesAt(t, u, r, f)
    ensures IsAncestor(t, t[r].parent, f) && IsAncestor(t, t[r].parent, u)
  {
    AncestorTransitive(t, t[r].parent, r, f);
  }

  /** What is parallel to a resumed step is parallel to what it is resumed after. */
  lemma {:induction false} ResumedSameRelation(t: Tree, u: nat, f: nat, z: nat)
    requires WellFormed(t) && IsStep(t, u) && IsStep(t, f) && IsStep(t, z)
    requires Precedes(t, u, f) && MayFollow(t, f, u) && Parallel(t, u, z)
    ensures Parallel(t, f, z)
  {
    var r: nat :| ResumesAt(t, u, r, f);
    UnderParent(t, u, r, f);
    if IsAncestor(t, t[r].parent, z) {
      OrderedWithResumed(t, u, r, f, z);
    } else {
      OutsideSameRelation(t, t[r].parent, u, f, z);
    }
  }

  /** Growing the tree changes neither. */
  lemma ResumesStable(t: Tree, u: Tree, b: nat, r: nat, x: nat)
    requires Rooted(t) && Rooted(u) && Extends(t, u) && IsNode(t, x)
    ensures ResumesAt(t, b, r, x) == ResumesAt(u, b, r, x)
  {
    AncestorStable(t, u, r, x);
    if r <= x {
      forall c: nat | c <= r
        ensures Siblings(t, c, r) == Siblings(u, c, r)
        ensures Siblings(t, c, r) ==> t[c].kind == u[c].kind
      {
        assert SameStructure(t[r], u[r]) && SameStructure(t[c], u[c]);
      }
    }
  }

  lemma MayFollowStable(t: Tree, u: Tree, f: nat, b: nat)
    requires Rooted(t) && Rooted(u) && Extends(t, u) && IsNode(t, f) && IsNode(t, b)
    ensures MayFollow(t, f, b) == MayFollow(u, f, b)
  {
    PrecedesStable(t, u, b, f);
    forall r: nat
      ensures ResumesAt(t, b, r, f) == ResumesAt(u, b, r, f)
    {
      ResumesStable(t, u, b, r, f);
    }
  }

  lemma ClosedStable(t: Tree, u: Tree, x: nat, b: nat, z: nat)
    requires Rooted(t) && Rooted(u) && Extends(t, u) && IsNode(t, x) && IsNode(t, z)
    ensures Closed(t, x, b, z) == Closed(u, x, b, z)
  {
    forall r: nat
      ensures ResumesAt(t, b, r, x) == ResumesAt(u, b, r, x)
      ensures IsAncestor(t, r, z) == IsAncestor(u, r, z)
    {
      ResumesStable(t, u, b, r, x);
      AncestorStable(t, u, r, z);
    }
  }

  // ---------------------------------------------------------------- the geometry of two slots

  /** `x` and `y` stand in for a step `s` that lies below their meeting point: whatever is
      parallel to `s` and may follow them is parallel to `x` or to `y`. */
  lemma {:induction false} PairStandsIn(t: Tree, x: nat, y: nat, s: nat, u: nat)
    requires WellFormed(t) && IsStep(t, x) && IsStep(t, y) && IsStep(t, s) && IsStep(t, u)
    requires Parallel(t, x, y) && IsAncestor(t, Lca(t, x, y), s)
    requires MayFollow(t, x, u) && MayFollow(t, y, u) && Parallel(t, u, s)
    ensures Parallel(t, u, x) || Parallel(t, u, y)
  {
    var l := Lca(t, x, y);
    if Precedes(t, u, x) {
      ResumedPairStandsIn(t, x, y, s, u);
    } else if Precedes(t, u, y) {
      ParallelSymmetric(t, x, y);
      LcaSymmetric(t, x, y);
      ResumedPairStandsIn(t, y, x, s, u);
    } else if IsAncestor(t, l, u) {
      InsideParallelToOne(t, x, y, u);
    } else {
      OutsideSameRelation(t, l, s, x, u);
      ParallelSymmetric(t, s, u);
      ParallelSymmetric(t, x, u);
    }
  }

  lemma {:induction false} ResumedPairStandsIn(t: Tree, x: nat, y: nat, s: nat, u: nat)
    requires WellFormed(t) && IsStep(t, x) && IsStep(t, y) && IsStep(t, s) && IsStep(t, u)
    requires Parallel(t, x, y) && IsAncestor(t, Lca(t, x, y), s)
    requires Precedes(t, u, x) && MayFollow(t, x, u) && Parallel(t, u, s)
    ensures Parallel(t, u, y)
  {
    var r: nat :| ResumesAt(t, u, r, x);
    UnderParent(t, u, r, x);
    if !IsAncestor(t, t[r].parent, y) {
      OutsideSameRelation(t, t[r].parent, u, x, y);
    } else if IsAncestor(t, r, y) {
      LcaIsLowest(t, x, y, r);
      AncestorTransitive(t, r, Lca(t, x, y), s);
      OrderedWithResumed(t, u, r, x, s) by { AncestorTransitive(t, t[r].parent, r, s); }
    } else {
      OrderedWithRoot(t, u, r, x, y);
    }
  }

  /** A step that is parallel to exactly one of two parallel steps lies below their meeting point. */
  lemma {:induction false} ParallelToOneIsInside(t: Tree, x: nat, y: nat, s: nat)
    requires Rooted(t) && IsNode(t, x) && IsNode(t, y) && IsNode(t, s)
    requires Parallel(t, x, s) != Parallel(t, y, s)
    ensures IsAncestor(t, Lca(t, x, y), s)
  {
    if !IsAncestor(t, Lca(t, x, y), s) {
      OutsideSameRelation(t, Lca(t, x, y), x, y, s);
    }
  }

  /** The depth test of the update decides whether `s` lies below the meeting point of the slots. */
  lemma {:induction false} DepthTest(t: Tree, x: nat, y: nat, s: nat)
    requires WellFormed(t) && IsNode(t, x) && IsNode(t, y) && IsNode(t, s)
    ensures t[Lca(t, x, s)].depth < t[Lca(t, x, y)].depth <==> !IsAncestor(t, Lca(t, x, y), s)
  {
    var l, m := Lca(t, x, y), Lca(t, x, s);
    if IsAncestor(t, l, s) {
      LcaIsLowest(t, x, s, l);
      AncestorDepth(t, l, m);
    } else if t[m].depth >= t[l].depth {
      AncestorsByDepth(t, l, m, x);
      AncestorTransitive(t, l, m, s);
    }
  }

  /** When `s` lies outside, `x` lies below the meeting point of `s` and `y`. */
  lemma {:induction false} ReplacedIsInside(t: Tree, x: nat, y: nat, s: nat)
    requires WellFormed(t) && IsNode(t, x) && IsNode(t, y) && IsNode(t, s)
    requires !IsAncestor(t, Lca(t, x, y), s)
    ensures IsAncestor(t, Lca(t, s, y), x)
  {
    var l, m := Lca(t, x, y), Lca(t, s, y);
    if l <= m {
      AncestorsComparable(t, l, m, y);
      AncestorTransitive(t, l, m, s);
    } else {
      AncestorsComparable(t, m, l, y);
      AncestorTransitive(t, m, l, x);
    }
  }

  /** A step ordered with `s` may be forgotten in favour of `s`. */
  lemma {:induction false} LaterStandsIn(t: Tree, x: nat, s: nat, u: nat)
    requires WellFormed(t) && IsStep(t, x) && IsStep(t, s) && IsStep(t, u)
    requires !Parallel(t, s, x) && MayFollow(t, x, s) && MayFollow(t, s, u) && Closed(t, x, s, u)
    requires Parallel(t, u, x)
    ensures Parallel(t, u, s)
  {
    if Precedes(t, s, x) {
      var r: nat :| ResumesAt(t, s, r, x);
      UnderParent(t, s, r, x);
      if IsAncestor(t, t[r].parent, u) {
        OrderedWithRoot(t, s, r, x, u);
      } else {
        OutsideSameRelation(t, t[r].parent, s, x, u);
      }
    } else if s != x {
      if Precedes(t, u, s) {
        ResumedSameRelation(t, u, s, x);
      } else if Precedes(t, s, u) {
        PrecedesTransitive(t, x, s, u);
      }
    }
  }

  // ---------------------------------------------------------------- coverage

  /** A step in which an access may come next: it may follow every access made so far, and
      nothing it belongs to has been closed. */
  ghost predicate Later(t: Tree, accs: seq<Access>, u: nat)
    requires Rooted(t)
  {
    && IsStep(t, u)
    && (forall k | 0 <= k < |accs| :: IsStep(t, accs[k].step))
    && (forall k {:trigger MayFollow(t, accs[k].step, u)} | 0 <= k < |accs| :: MayFollow(t, accs[k].step, u))
    && (forall j, k {:trigger Closed(t, accs[j].step, accs[k].step, u)} | 0 <= j < k < |accs| ::
          Closed(t, accs[j].step, accs[k].step, u))
  }

  /** The kept slots stand in for `f`: any later step parallel to `f` is parallel to a slot. */
  ghost predicate Covers(t: Tree, accs: seq<Access>, x1: nat, x2: nat, f: nat)
    requires Rooted(t)
  {
    forall u | Later(t, accs, u) && IsStep(t, f) && Parallel(t, u, f) :: Races(t, u, x1) || Races(t, u, x2)
  }

  /** A slot is null or holds a step that made an access of the given kind and lockset. */
  ghost predicate SlotOk(t: Tree, accs: seq<Access>, slot: nat, kind: AccessType, lockset: Word)
    requires Rooted(t)
  {
    slot == 0 || (IsStep(t, slot) && Access(slot, kind, lockset) in accs)
  }

  ghost predicate PairOk(t: Tree, accs: seq<Access>, x1: nat, x2: nat, kind: AccessType, lockset: Word)
    requires Rooted(t)
  {
    && SlotOk(t, accs, x1, kind, lockset) && SlotOk(t, accs, x2, kind, lockset)
    && (x2 != 0 ==> x1 != 0 && Parallel(t, x1, x2))
  }

  ghost predicate EntryOk(t: Tree, accs: seq<Access>, e: AddressData)
    requires Rooted(t)
  {
    PairOk(t, accs, e.w1, e.w2, WRITE, e.lockset) && PairOk(t, accs, e.r1, e.r2, READ, e.lockset)
  }

  ghost predicate Covered(t: Tree, accs: seq<Access>, entries: seq<AddressData>, a: Access)
    requires Rooted(t)
  {
    exists i :: 0 <= i < |entries| && EntryCovers(t, accs, entries[i], a)
  }

  ghost predicate EntryCovers(t: Tree, accs: seq<Access>, e: AddressData, a: Access)
    requires Rooted(t)
  {
    && e.lockset == a.lockset
    && if a.kind == WRITE then Covers(t, accs, e.w1, e.w2, a.step) else Covers(t, accs, e.r1, e.r2, a.step)
  }

  ghost predicate Invariant(t: Tree, accs: seq<Access>, entries: seq<AddressData>)
    requires Rooted(t)
  {
    && (forall k | 0 <= k < |accs| :: IsStep(t, accs[k].step))
    && OnePerLockset(entries)
    && (forall i | 0 <= i < |entries| :: EntryOk(t, accs, entries[i]))
    && (forall k | 0 <= k < |accs| :: Covered(t, accs, entries, accs[k]))
  }

  /** The slots after the update stand in for the new step and for every step the old slots held. */
  lemma UpdateStandsIn(t: Tree, accs: seq<Access>, x1: nat, x2: nat, kind: AccessType, a: Access, u: nat)
    requires WellFormed(t) && PairOk(t, accs, x1, x2, kind, a.lockset) && Later(t, accs, a.step)
    requires Later(t, accs + [a], u)
    requires Races(t, u, x1) || Races(t, u, x2) || Races(t, u, a.step)
    ensures var (y1, y2) := UpdatePair(t, x1, x2, a.step);
            Races(t, u, y1) || Races(t, u, y2)
  {
    var s := a.step;
    SlotBefore(t, accs, x1, kind, a, u);
    SlotBefore(t, accs, x2, kind, a, u);
    LaterNext(t, accs, a, u);
    if x1 != 0 { ParallelSymmetric(t, s, x1); }
    if x2 != 0 { ParallelSymmetric(t, s, x2); }
    hide WellFormed;
    hide Later;
    hide PairOk;
    hide MayFollow;
    hide Closed;
    hide Parallel;
    SlotsStandIn(t, x1, x2, s, u);
  }

  lemma SlotsStandIn(t: Tree, x1: nat, x2: nat, s: nat, u: nat)
    requires WellFormed(t) && IsStep(t, s) && IsStep(t, u) && MayFollow(t, s, u)
    requires SlotFits(t, x1, s, u) && SlotFits(t, x2, s, u) && (x2 != 0 ==> x1 != 0 && Parallel(t, x1, x2))
    requires Races(t, u, x1) || Races(t, u, x2) || Races(t, u, s)
    ensures var (y1, y2) := UpdatePair(t, x1, x2, s);
            Races(t, u, y1) || Races(t, u, y2)
  {
    assert Rooted(t);
    hide WellFormed;
    hide MayFollow;
    hide Closed;
    var par1, par2 := Races(t, s, x1), Races(t, s, x2);
    if !par1 && !par2 {
      if Races(t, u, x1) { LaterStandsIn(t, x1, s, u); }
      if Races(t, u, x2) { LaterStandsIn(t, x2, s, u); }
    } else if x2 != 0 {
      if par1 && par2 {
        DepthTest(t, x1, x2, s);
        if IsAncestor(t, Lca(t, x1, x2), s) {
          if Races(t, u, s) { PairStandsIn(t, x1, x2, s, u); }
        } else {
          ReplacedIsInside(t, x1, x2, s);
          if Races(t, u, x1) { PairStandsIn(t, s, x2, x1, u); }
        }
      } else {
        ParallelSymmetric(t, x1, s);
        ParallelSymmetric(t, x2, s);
        ParallelToOneIsInside(t, x1, x2, s);
        if Races(t, u, s) { PairStandsIn(t, x1, x2, s, u); }
      }
    }
  }

  /** How a slot stands to the access `s` that comes now and to one, in `u`, that comes later. */
  ghost predicate SlotFits(t: Tree, slot: nat, s: nat, u: nat)
    requires Rooted(t) && IsStep(t, s) && IsStep(t, u)
  {
    slot == 0 || (IsStep(t, slot) && MayFollow(t, slot, s) && MayFollow(t, slot, u) && Closed(t, slot, s, u))
  }

  lemma SlotBefore(t: Tree, accs: seq<Access>, slot: nat, kind: AccessType, a: Access, u: nat)
    requires Rooted(t) && SlotOk(t, accs, slot, kind, a.lockset) && Later(t, accs, a.step) && Later(t, accs + [a], u)
    ensures SlotFits(t, slot, a.step, u)
  {
    if slot != 0 {
      var k :| 0 <= k < |accs| && accs[k] == Access(slot, kind, a.lockset);
      var next, n := accs + [a], |accs|;
      assert next[k] == accs[k] && next[n] == a;
      assert MayFollow(t, accs[k].step, a.step);
      assert MayFollow(t, next[k].step, u) && Closed(t, next[k].step, next[n].step, u);
    }
  }

  /** What may come after one more access may come now, and may follow it. */
  lemma LaterNext(t: Tree, accs: seq<Access>, a: Access, u: nat)
    requires Rooted(t) && Later(t, accs + [a], u)
    ensures Later(t, accs, u) && IsStep(t, a.step) && MayFollow(t, a.step, u)
  {
    var next, n := accs + [a], |accs|;
    assert next[n] == a && MayFollow(t, next[n].step, u);
    forall k | 0 <= k < n
      ensures IsStep(t, accs[k].step) && MayFollow(t, accs[k].step, u)
    {
      assert next[k] == accs[k] && MayFollow(t, next[k].step, u);
    }
    forall j, k | 0 <= j < k < n
      ensures Closed(t, accs[j].step, accs[k].step, u)
    {
      assert next[j] == accs[j] && next[k] == accs[k] && Closed(t, next[j].step, next[k].step, u);
    }
  }

  /** Whatever the old slots covered, and the new step itself, the new slots cover. */
  lemma UpdateCovers(t: Tree, accs: seq<Access>, x1: nat, x2: nat, kind: AccessType, a: Access, f: nat)
    requires WellFormed(t) && PairOk(t, accs, x1, x2, kind, a.lockset) && Later(t, accs, a.step)
    requires Covers(t, accs, x1, x2, f) || f == a.step
    ensures var (y1, y2) := UpdatePair(t, x1, x2, a.step);
            Covers(t, accs + [a], y1, y2, f)
  {
    var (y1, y2) := UpdatePair(t, x1, x2, a.step);
    forall u | Later(t, accs + [a], u) && IsStep(t, f) && Parallel(t, u, f)
      ensures Races(t, u, y1) || Races(t, u, y2)
    {
      LaterNext(t, accs, a, u);
      UpdateStandsIn(t, accs, x1, x2, kind, a, u);
    }
  }

  lemma UpdatePairOk(t: Tree, accs: seq<Access>, x1: nat, x2: nat, kind: AccessType, a: Access)
    requires WellFormed(t) && PairOk(t, accs, x1, x2, kind, a.lockset) && IsStep(t, a.step) && a.kind == kind
    ensures var (y1, y2) := UpdatePair(t, x1, x2, a.step);
            PairOk(t, accs + [a], y1, y2, kind, a.lockset)
  {
  }

  lemma CoversNext(t: Tree, accs: seq<Access>, a: Access, x1: nat, x2: nat, f: nat)
    requires Rooted(t) && IsStep(t, a.step) && Covers(t, accs, x1, x2, f)
    ensures Covers(t, accs + [a], x1, x2, f)
  {
    forall u | Later(t, accs + [a], u) && IsStep(t, f) && Parallel(t, u, f)
      ensures Races(t, u, x1) || Races(t, u, x2)
    {
      LaterNext(t, accs, a, u);
    }
  }

  // ---------------------------------------------------------------- the invariant of the history

  lemma EntryOkNext(t: Tree, accs: seq<Access>, a: Access, e: AddressData)
    requires Rooted(t) && EntryOk(t, accs, e)
    ensures EntryOk(t, accs + [a], e)
  {
  }

  lemma EntryCoversNext(t: Tree, accs: seq<Access>, a: Access, e: AddressData, b: Access)
    requires Rooted(t) && IsStep(t, a.step) && EntryCovers(t, accs, e, b)
    ensures EntryCovers(t, accs + [a], e, b)
  {
    if b.kind == WRITE {
      CoversNext(t, accs, a, e.w1, e.w2, b.step);
    } else {
      CoversNext(t, accs, a, e.r1, e.r2, b.step);
    }
  }

  lemma UpdatedEntryOk(t: Tree, accs: seq<Access>, e: AddressData, a: Access)
    requires WellFormed(t) && EntryOk(t, accs, e) && Later(t, accs, a.step) && e.lockset == a.lockset
    ensures EntryOk(t, accs + [a], UpdateEntry(t, e, a))
  {
    EntryOkNext(t, accs, a, e);
    if a.kind == WRITE {
      UpdatePairOk(t, accs, e.w1, e.w2, WRITE, a);
    } else {
      UpdatePairOk(t, accs, e.r1, e.r2, READ, a);
    }
  }

  lemma UpdatedEntryCovers(t: Tree, accs: seq<Access>, e: AddressData, a: Access, b: Access)
    requires WellFormed(t) && EntryOk(t, accs, e) && Later(t, accs, a.step) && e.lockset == a.lockset
    requires EntryCovers(t, accs, e, b) || b == a
    ensures EntryCovers(t, accs + [a], UpdateEntry(t, e, a), b)
  {
    if b != a { EntryCoversNext(t, accs, a, e, b); }
    if a.kind == b.kind {
      if a.kind == WRITE {
        UpdateCovers(t, accs, e.w1, e.w2, WRITE, a, b.step);
      } else {
        UpdateCovers(t, accs, e.r1, e.r2, READ, a, b.step);
      }
    }
  }

  lemma FreshEntryCovers(t: Tree, accs: seq<Access>, a: Access)
    requires Rooted(t) && IsStep(t, a.step)
    ensures EntryOk(t, accs + [a], FreshEntry(a)) && EntryCovers(t, accs + [a], FreshEntry(a), a)
  {
  }

  lemma FindLockset(entries: seq<AddressData>, lockset: Word) returns (i: nat)
    ensures i <= |entries| && (forall j | 0 <= j < i :: entries[j].lockset != lockset)
    ensures i < |entries| ==> entries[i].lockset == lockset
  {
    i := 0;
    while i < |entries| && entries[i].lockset != lockset
      invariant i <= |entries| && forall j | 0 <= j < i :: entries[j].lockset != lockset
    {
      i := i + 1;
    }
  }

  /** Every access made so far stays covered when the entry at `i` is updated or appended. */
  lemma RecordCovers(t: Tree, accs: seq<Access>, entries: seq<AddressData>, a: Access, i: nat, next: seq<AddressData>, k: nat)
    requires WellFormed(t) && Invariant(t, accs, entries) && Later(t, accs, a.step) && k <= |accs| && i <= |entries|
    requires i < |entries| ==> entries[i].lockset == a.lockset
    requires next == if i < |entries| then entries[i := UpdateEntry(t, entries[i], a)] else entries + [FreshEntry(a)]
    ensures Covered(t, accs + [a], next, (accs + [a])[k])
  {
    assert Rooted(t);
    hide WellFormed;
    hide EntryOk;
    hide EntryCovers;
    hide UpdateEntry;
    if k == |accs| {
      if i < |entries| {
        UpdatedEntryCovers(t, accs, entries[i], a, a);
      } else {
        FreshEntryCovers(t, accs, a);
      }
      assert EntryCovers(t, accs + [a], next[i], a);
    } else {
      var b := accs[k];
      assert Covered(t, accs, entries, b);
      var j :| 0 <= j < |entries| && EntryCovers(t, accs, entries[j], b);
      if j == i {
        UpdatedEntryCovers(t, accs, entries[i], a, b);
      } else {
        EntryCoversNext(t, accs, a, entries[j], b);
      }
      assert EntryCovers(t, accs + [a], next[j], b);
    }
  }

  lemma RecordEntriesOk(t: Tree, accs: seq<Access>, entries: seq<AddressData>, a: Access, i: nat, next: seq<AddressData>, j: nat)
    requires WellFormed(t) && Later(t, accs, a.step) && i <= |entries| && j < |next|
    requires forall k {:trigger entries[k]} | 0 <= k < |entries| :: EntryOk(t, accs, entries[k])
    requires i < |entries| ==> entries[i].lockset == a.lockset
    requires next == if i < |entries| then entries[i := UpdateEntry(t, entries[i], a)] else entries + [FreshEntry(a)]
    ensures EntryOk(t, accs + [a], next[j])
  {
    assert Rooted(t);
    hide WellFormed;
    hide EntryOk;
    hide UpdateEntry;
    if j != i {
      EntryOkNext(t, accs, a, entries[j]);
    } else if i < |entries| {
      UpdatedEntryOk(t, accs, entries[i], a);
    } else {
      assert IsStep(t, a.step) by { hide EntryOk; }
      FreshEntryCovers(t, accs, a);
    }
  }

  lemma {:induction false} RecordKeepsInvariant(t: Tree, accs: seq<Access>, entries: seq<AddressData>, a: Access)
    requires WellFormed(t) && Invariant(t, accs, entries) && Later(t, accs, a.step)
    ensures Invariant(t, accs + [a], Record(t, entries, a))
  {
    assert Rooted(t);
    var i := FindLockset(entries, a.lockset);
    RecordAt(t, entries, a, i);
    var next := Record(t, entries, a);
    assert IsStep(t, a.step);
    assert OnePerLockset(next);
    hide *;
    RecordInvariant(t, accs, entries, a, i, next);
  }

  lemma RecordInvariant(t: Tree, accs: seq<Access>, entries: seq<AddressData>, a: Access, i: nat, next: seq<AddressData>)
    requires WellFormed(t) && Invariant(t, accs, entries) && Later(t, accs, a.step) && i <= |entries|
    requires i < |entries| ==> entries[i].lockset == a.lockset
    requires next == if i < |entries| then entries[i := UpdateEntry(t, entries[i], a)] else entries + [FreshEntry(a)]
    requires IsStep(t, a.step) && OnePerLockset(next)
    ensures Invariant(t, accs + [a], next)
  {
    assert Rooted(t);
    hide WellFormed;
    hide EntryOk;
    hide Covered;
    hide UpdateEntry;
    hide Later;
    hide OnePerLockset;
    forall j | 0 <= j < |next|
      ensures EntryOk(t, accs + [a], next[j])
    {
      RecordEntriesOk(t, accs, entries, a, i, next, j);
    }
    forall k | 0 <= k < |accs + [a]|
      ensures Covered(t, accs + [a], next, (accs + [a])[k])
    {
      RecordCovers(t, accs, entries, a, i, next, k);
    }
  }

  // ---------------------------------------------------------------- no race is lost, none invented

  ghost predicate Conflict(t: Tree, a: Access, b: Access)
    requires Rooted(t)
  {
    && IsStep(t, a.step) && IsStep(t, b.step) && Parallel(t, a.step, b.step)
    && Disjoint(a.lockset, b.lockset)
    && (a.kind == WRITE || b.kind == WRITE)
  }

  /** If some earlier access conflicts with `a`, the check of the bounded history finds a race. */
  lemma {:induction false} CheckComplete(t: Tree, accs: seq<Access>, entries: seq<AddressData>, a: Access, k: nat)
    requires Rooted(t) && Invariant(t, accs, entries) && Later(t, accs, a.step)
    requires k < |accs| && Conflict(t, accs[k], a)
    ensures FindRace(t, a, entries).Some?
  {
    assert Covered(t, accs, entries, accs[k]);
    var i :| 0 <= i < |entries| && EntryCovers(t, accs, entries[i], accs[k]);
    ParallelSymmetric(t, accs[k].step, a.step);
    DisjointSymmetric(accs[k].lockset, a.lockset);
    FindRaceSome(t, a, entries, i);
  }

  /** The violation names the current access and an earlier conflicting one. */
  ghost predicate Names(v: Violation, prior: Access, a: Access) {
    v == Violation(a.step, a.kind, prior.step, prior.kind)
  }

  lemma CheckSound(t: Tree, accs: seq<Access>, entries: seq<AddressData>, a: Access) returns (k: nat)
    requires Rooted(t) && Invariant(t, accs, entries) && IsStep(t, a.step) && FindRace(t, a, entries).Some?
    ensures k < |accs| && Conflict(t, accs[k], a) && Names(FindRace(t, a, entries).value, accs[k], a)
  {
    var i := FindRaceWhere(t, a, entries);
    var v := FindRace(t, a, entries).value;
    var prior := Access(v.priorStep, v.priorKind, entries[i].lockset);
    assert EntryOk(t, accs, entries[i]);
    assert prior in accs;
    k :| 0 <= k < |accs| && accs[k] == prior;
    ParallelSymmetric(t, prior.step, a.step);
    DisjointSymmetric(prior.lockset, a.lockset);
  }

  // ---------------------------------------------------------------- whole access sequences

  ghost function RunAll(t: Tree, accs: seq<Access>): State
    requires Rooted(t)
  {
    if accs == [] then State([], None)
    else Process(t, RunAll(t, accs[..|accs| - 1]), accs[|accs| - 1])
  }

  /** The accesses happen in an order that a run of the program can produce: a step accesses
      after one it precedes only when it is resumed after it, and then everything under the
      root task it has waited for is over. */
  ghost predicate KeepsOrder(t: Tree, accs: seq<Access>)
    requires Rooted(t)
  {
    && (forall k | 0 <= k < |accs| :: IsStep(t, accs[k].step))
    && (forall i, j {:trigger MayFollow(t, accs[i].step, accs[j].step)} | 0 <= i < j < |accs| ::
          MayFollow(t, accs[i].step, accs[j].step))
    && (forall i, j, k {:trigger Closed(t, accs[i].step, accs[j].step, accs[k].step)} | 0 <= i < j < k < |accs| ::
          Closed(t, accs[i].step, accs[j].step, accs[k].step))
  }

  /** A prefix keeps the order, and the next access may come. */
  lemma KeepsOrderPrefix(t: Tree, accs: seq<Access>, n: nat)
    requires Rooted(t) && KeepsOrder(t, accs) && n < |accs|
    ensures KeepsOrder(t, accs[..n]) && Later(t, accs[..n], accs[n].step)
  {
    var pre := accs[..n];
    forall i, j | 0 <= i < j < n
      ensures MayFollow(t, pre[i].step, pre[j].step) && Closed(t, pre[i].step, pre[j].step, accs[n].step)
    {
      assert MayFollow(t, accs[i].step, accs[j].step) && Closed(t, accs[i].step, accs[j].step, accs[n].step);
    }
    forall i, j, k | 0 <= i < j < k < n
      ensures Closed(t, pre[i].step, pre[j].step, pre[k].step)
    {
      assert Closed(t, accs[i].step, accs[j].step, accs[k].step);
    }
    forall k | 0 <= k < n
      ensures MayFollow(t, pre[k].step, accs[n].step)
    {
      assert MayFollow(t, accs[k].step, accs[n].step);
    }
  }

  ghost predicate ConflictAt(t: Tree, accs: seq<Access>, i: nat, j: nat)
    requires Rooted(t)
  {
    i < j < |accs| && Conflict(t, accs[i], accs[j])
  }

  ghost predicate HasRace(t: Tree, accs: seq<Access>)
    requires Rooted(t)
  {
    exists i: nat, j: nat :: ConflictAt(t, accs, i, j)
  }

  ghost predicate ViolationReal(t: Tree, accs: seq<Access>, v: Violation)
    requires Rooted(t)
  {
    exists i: nat, j: nat :: ConflictAt(t, accs, i, j) && Names(v, accs[i], accs[j])
  }

  /** What a state of the detector says about the accesses processed so far. */
  ghost predicate Exact(t: Tree, accs: seq<Access>, s: State)
    requires Rooted(t)
  {
    match s.violation
    case Some(v) => ViolationReal(t, accs, v)
    case None => Invariant(t, accs, s.entries) && !HasRace(t, accs)
  }

  lemma ViolationStaysReal(t: Tree, accs: seq<Access>, a: Access, v: Violation)
    requires Rooted(t) && ViolationReal(t, accs, v)
    ensures ViolationReal(t, accs + [a], v)
  {
    var i: nat, j: nat :| ConflictAt(t, accs, i, j) && Names(v, accs[i], accs[j]);
    assert ConflictAt(t, accs + [a], i, j);
  }

  lemma {:induction false} NoNewRace(t: Tree, accs: seq<Access>, entries: seq<AddressData>, a: Access)
    requires Rooted(t) && Invariant(t, accs, entries) && Later(t, accs, a.step)
    requires !HasRace(t, accs) && FindRace(t, a, entries).None?
    ensures !HasRace(t, accs + [a])
  {
    forall i: nat, j: nat
      ensures !ConflictAt(t, accs + [a], i, j)
    {
      if i < j < |accs| {
        assert !ConflictAt(t, accs, i, j);
      } else if i < j == |accs| && Conflict(t, accs[i], a) {
        CheckComplete(t, accs, entries, a, i);
      }
    }
  }

  lemma ProcessKeepsExact(t: Tree, accs: seq<Access>, s: State, a: Access)
    requires WellFormed(t) && Exact(t, accs, s) && Later(t, accs, a.step)
    ensures Exact(t, accs + [a], Process(t, s, a))
  {
    if s.violation.Some? {
      ViolationStaysReal(t, accs, a, s.violation.value);
    } else if FindRace(t, a, s.entries).Some? {
      var k := CheckSound(t, accs, s.entries, a);
      assert ConflictAt(t, accs + [a], k, |accs|);
    } else {
      RecordKeepsInvariant(t, accs, s.entries, a);
      NoNewRace(t, accs, s.entries, a);
    }
  }

  lemma {:induction false} ExactNext(t: Tree, accs: seq<Access>, n: nat)
    requires Rooted(t) && WellFormed(t) && KeepsOrder(t, accs) && |accs| == n + 1
    requires Exact(t, accs[..n], RunAll(t, accs[..n]))
    ensures Exact(t, accs, RunAll(t, accs))
  {
    hide WellFormed;
    hide Exact;
    hide Process;
    hide KeepsOrder;
    hide Later;
    KeepsOrderPrefix(t, accs, n);
    ProcessKeepsExact(t, accs[..n], RunAll(t, accs[..n]), accs[n]);
    assert accs[..n] + [accs[n]] == accs;
  }

  lemma {:induction false} RunAllExact(t: Tree, accs: seq<Access>)
    requires Rooted(t) && WellFormed(t) && KeepsOrder(t, accs)
    ensures Exact(t, accs, RunAll(t, accs))
    decreases |accs|
  {
    hide WellFormed;
    if accs != [] {
      var n := |accs| - 1;
      hide Exact;
      hide RunAll;
      hide KeepsOrder;
      hide Later;
      KeepsOrderPrefix(t, accs, n);
      RunAllExact(t, accs[..n]);
      ExactNext(t, accs, n);
    }
  }

  /** The detector is exact: after any access sequence that a run of the program can produce it
      has recorded a violation if and only if two of the accesses race, and the violation
      it recorded is one of those races. */
  lemma {:induction false} DetectorExact(t: Tree, accs: seq<Access>)
    requires WellFormed(t) && KeepsOrder(t, accs)
    ensures RunAll(t, accs).violation.Some? <==> HasRace(t, accs)
    ensures RunAll(t, accs).violation.Some? ==> ViolationReal(t, accs, RunAll(t, accs).violation.value)
  {
    RunAllExact(t, accs);
    if RunAll(t, accs).violation.Some? {
      var i: nat, j: nat :| ConflictAt(t, accs, i, j) && Names(RunAll(t, accs).violation.value, accs[i], accs[j]);
    }
  }

  /** A violation is there as soon as the second access of a racing pair has been processed. */
  lemma {:induction false} DetectedInTime(t: Tree, accs: seq<Access>, i: nat, j: nat)
    requires WellFormed(t) && KeepsOrder(t, accs) && ConflictAt(t, accs, i, j)
    ensures RunAll(t, accs[..j + 1]).violation.Some?
  {
    var upTo := accs[..j + 1];
    if j + 1 < |accs| {
      KeepsOrderPrefix(t, accs, j + 1);
    } else {
      assert upTo == accs;
    }
    assert ConflictAt(t, upTo, i, j);
    DetectorExact(t, upTo);
  }
}
