/** The race detector object for one address: three fixed entries, an overflow list and
    the map of violations.  `RecordMem` is proved to carry out the access step of module
    History, whatever mix of fixed and overflow entries the history currently uses. */
module RaceDetector {
  import opened Common
  import opened Dpst
  import opened LcaHash
  import opened Lockset
  import opened Capture
  import opened TaskGraph
  import opened History

  const NUM_FIXED_ENTRIES: nat := 3

  const EMPTY_ENTRY: AddressData := AddressData(ZERO, 0, 0, 0, 0)

  /** The occupied fixed entries: they fill from the left. */
  function Taken(fixed: seq<AddressData>): (r: seq<AddressData>)
    ensures r <= fixed
    ensures |r| < |fixed| ==> fixed[|r|].lockset == ZERO
    ensures forall i | 0 <= i < |r| :: r[i].lockset != ZERO
  {
    if fixed == [] || fixed[0].lockset == ZERO then [] else [fixed[0]] + Taken(fixed[1..])
  }

  predicate RestUnused(fixed: seq<AddressData>) {
    forall i | |Taken(fixed)| <= i < |fixed| :: fixed[i] == EMPTY_ENTRY
  }

  /** The occupied entries are a prefix, and nothing after them is in use. */
  ghost predicate IsTaken(fixed: seq<AddressData>, taken: seq<AddressData>) {
    && taken <= fixed
    && (forall i | 0 <= i < |taken| :: taken[i].lockset != ZERO)
    && (forall i | |taken| <= i < |fixed| :: fixed[i].lockset == ZERO)
  }

  function Entries(fixed: seq<AddressData>, overflow: seq<AddressData>): seq<AddressData> {
    Taken(fixed) + overflow
  }

  predicate SlotKnown(t: Tree, slot: nat) {
    slot == 0 || IsStep(t, slot)
  }

  predicate SlotsKnown(t: Tree, e: AddressData) {
    SlotKnown(t, e.w1) && SlotKnown(t, e.w2) && SlotKnown(t, e.r1) && SlotKnown(t, e.r2)
  }

  ghost predicate AllKnown(t: Tree, entries: seq<AddressData>) {
    forall i {:trigger SlotsKnown(t, entries[i])} | 0 <= i < |entries| :: SlotsKnown(t, entries[i])
  }

  /** Fixed entries fill left to right, the overflow list is used only when all of them are
      taken, every lockset has one entry, and unused entries hold no step. */
  ghost predicate LayoutOk(t: Tree, fixed: seq<AddressData>, overflow: seq<AddressData>) {
    && |fixed| == NUM_FIXED_ENTRIES
    && RestUnused(fixed)
    && (overflow != [] ==> |Taken(fixed)| == |fixed|)
    && OnePerLockset(Entries(fixed, overflow))
    && AllKnown(t, Entries(fixed, overflow))
  }

  // ---------------------------------------------------------------- the access step on a growing tree

  lemma RacesStable(t: Tree, u: Tree, s: nat, slot: nat)
    requires Rooted(t) && Rooted(u) && Extends(t, u) && IsStep(t, s) && SlotKnown(t, slot)
    ensures Races(t, s, slot) == Races(u, s, slot)
  {
    assert SameStructure(t[s], u[s]);
    if slot != 0 {
      assert SameStructure(t[slot], u[slot]);
      RelationsStable(t, u, s, slot);
    }
  }

  lemma RaceWithStable(t: Tree, u: Tree, a: Access, e: AddressData)
    requires Rooted(t) && Rooted(u) && Extends(t, u) && IsStep(t, a.step) && SlotsKnown(t, e)
    ensures RaceWith(t, a, e) == RaceWith(u, a, e)
  {
    RacesStable(t, u, a.step, e.w1);
    RacesStable(t, u, a.step, e.w2);
    RacesStable(t, u, a.step, e.r1);
    RacesStable(t, u, a.step, e.r2);
  }

  lemma UpdatePairStable(t: Tree, u: Tree, x1: nat, x2: nat, s: nat)
    requires Rooted(t) && Rooted(u) && Extends(t, u) && IsStep(t, s) && SlotKnown(t, x1) && SlotKnown(t, x2)
    ensures UpdatePair(t, x1, x2, s) == UpdatePair(u, x1, x2, s)
    ensures SlotKnown(t, UpdatePair(t, x1, x2, s).0) && SlotKnown(t, UpdatePair(t, x1, x2, s).1)
  {
    RacesStable(t, u, s, x1);
    RacesStable(t, u, s, x2);
    if x1 != 0 && x2 != 0 {
      LcaStable(t, u, x1, s);
      LcaStable(t, u, x1, x2);
      assert SameStructure(t[Lca(t, x1, s)], u[Lca(t, x1, s)]);
      assert SameStructure(t[Lca(t, x1, x2)], u[Lca(t, x1, x2)]);
    }
  }

  lemma UpdateEntryStable(t: Tree, u: Tree, e: AddressData, a: Access)
    requires Rooted(t) && Rooted(u) && Extends(t, u) && IsStep(t, a.step) && SlotsKnown(t, e)
    ensures UpdateEntry(t, e, a) == UpdateEntry(u, e, a) && SlotsKnown(t, UpdateEntry(t, e, a))
  {
    UpdatePairStable(t, u, e.w1, e.w2, a.step);
    UpdatePairStable(t, u, e.r1, e.r2, a.step);
  }

  lemma {:induction false} ChecksStable(t: Tree, u: Tree, entries: seq<AddressData>, a: Access)
    requires Rooted(t) && Rooted(u) && Extends(t, u) && IsStep(t, a.step) && AllKnown(t, entries)
    ensures FindRace(t, a, entries) == FindRace(u, a, entries)
    ensures Record(t, entries, a) == Record(u, entries, a) && AllKnown(t, Record(t, entries, a))
    decreases |entries|
  {
    if entries != [] {
      RaceWithStable(t, u, a, entries[0]);
      UpdateEntryStable(t, u, entries[0], a);
      ChecksStable(t, u, entries[1..], a);
    }
  }

  /** One access as it happens: with the tree as it stands at that moment. */
  datatype Moment = Moment(tree: Tree, access: Access)

  ghost predicate Observed(ms: seq<Moment>) {
    && (forall k | 0 <= k < |ms| :: WellFormed(ms[k].tree) && IsStep(ms[k].tree, ms[k].access.step))
    && (forall i, j | 0 <= i < j < |ms| :: Extends(ms[i].tree, ms[j].tree))
  }

  function Accesses(ms: seq<Moment>): (r: seq<Access>)
    ensures |r| == |ms| && forall k | 0 <= k < |r| :: r[k] == ms[k].access
  {
    if ms == [] then [] else Accesses(ms[..|ms| - 1]) + [ms[|ms| - 1].access]
  }

  /** Each access is processed with the tree of its own moment. */
  ghost function RunMoments(ms: seq<Moment>): State
    requires Observed(ms)
  {
    if ms == [] then State([], None)
    else Process(ms[|ms| - 1].tree, RunMoments(ms[..|ms| - 1]), ms[|ms| - 1].access)
  }

  lemma ObservedPrefix(ms: seq<Moment>, n: nat)
    requires Observed(ms) && n <= |ms|
    ensures Observed(ms[..n])
  {
  }

  /** Judging every access with the final tree gives the same state. */
  lemma {:induction false} GrowthDoesNotMatter(ms: seq<Moment>, t: Tree, u: Tree)
    requires Observed(ms) && Rooted(t) && Rooted(u) && Extends(t, u)
    requires forall k | 0 <= k < |ms| :: Extends(ms[k].tree, t)
    ensures RunMoments(ms) == RunAll(u, Accesses(ms)) && AllKnown(t, RunMoments(ms).entries)
    decreases |ms|
  {
    if ms != [] {
      var n := |ms| - 1;
      var m, a := ms[n].tree, ms[n].access;
      ObservedPrefix(ms, n);
      ExtendsTransitive(m, t, u);
      GrowthDoesNotMatter(ms[..n], m, u);
      ChecksStable(m, u, RunMoments(ms[..n]).entries, a);
      KnownLater(m, t, RunMoments(ms).entries);
      assert Accesses(ms)[..n] == Accesses(ms[..n]);
    }
  }

  lemma KnownLater(t: Tree, u: Tree, entries: seq<AddressData>)
    requires Extends(t, u) && AllKnown(t, entries)
    ensures AllKnown(u, entries)
  {
    forall i | 0 <= i < |entries|
      ensures SlotsKnown(u, entries[i])
    {
      assert SlotsKnown(t, entries[i]);
      assert forall x: nat | IsStep(t, x) :: SameStructure(t[x], u[x]);
    }
  }

  /** Entries that are valid stay so when the tree grows. */
  lemma LayoutLater(t: Tree, u: Tree, fixed: seq<AddressData>, overflow: seq<AddressData>)
    requires Extends(t, u) && LayoutOk(t, fixed, overflow)
    ensures LayoutOk(u, fixed, overflow)
  {
    KnownLater(t, u, Entries(fixed, overflow));
  }

  /** Exactness while the program is still running: with the tree growing between accesses,
      a violation is recorded exactly when two accesses race in the final tree. */
  lemma {:induction false} DetectorExactWhileGrowing(ms: seq<Moment>, u: Tree)
    requires Observed(ms) && WellFormed(u) && (forall k | 0 <= k < |ms| :: Extends(ms[k].tree, u))
    requires KeepsOrder(u, Accesses(ms))
    ensures RunMoments(ms).violation.Some? <==> HasRace(u, Accesses(ms))
    ensures RunMoments(ms).violation.Some? ==> ViolationReal(u, Accesses(ms), RunMoments(ms).violation.value)
  {
    GrowthDoesNotMatter(ms, u, u);
    DetectorExact(u, Accesses(ms));
  }

  // ---------------------------------------------------------------- lists of entries

  lemma {:induction false} FindRaceConcat(t: Tree, a: Access, x: seq<AddressData>, y: seq<AddressData>)
    requires Rooted(t)
    ensures FindRace(t, a, x + y) == if FindRace(t, a, x).Some? then FindRace(t, a, x) else FindRace(t, a, y)
    decreases |x|
  {
    if x == [] {
      assert x + y == y;
    } else {
      assert (x + y)[1..] == x[1..] + y;
      FindRaceConcat(t, a, x[1..], y);
    }
  }

  /** The outcomes of checking a list of entries, in order. */
  ghost predicate Outcomes(t: Tree, a: Access, es: seq<AddressData>, out: seq<Option<Violation>>)
    requires Rooted(t)
  {
    |out| == |es| && forall j {:trigger RaceWith(t, a, es[j])} | 0 <= j < |es| :: out[j] == RaceWith(t, a, es[j])
  }

  ghost function OutcomesOf(t: Tree, a: Access, es: seq<AddressData>): (out: seq<Option<Violation>>)
    requires Rooted(t)
    ensures Outcomes(t, a, es, out)
  {
    if es == [] then [] else [RaceWith(t, a, es[0])] + OutcomesOf(t, a, es[1..])
  }

  function FirstSome(out: seq<Option<Violation>>): Option<Violation> {
    if out == [] then None else if out[0].Some? then out[0] else FirstSome(out[1..])
  }

  /** The search result is the first outcome that is a race. */
  lemma {:induction false} FindRaceIsFirst(t: Tree, a: Access, es: seq<AddressData>)
    requires Rooted(t)
    ensures FindRace(t, a, es) == FirstSome(OutcomesOf(t, a, es))
  {
    if es != [] {
      FindRaceIsFirst(t, a, es[1..]);
    }
  }

  lemma {:induction false} FirstSomeAt(out: seq<Option<Violation>>, i: nat)
    requires i <= |out| && forall j | 0 <= j < i :: out[j].None?
    ensures i == |out| ==> FirstSome(out).None?
    ensures i < |out| && out[i].Some? ==> FirstSome(out) == out[i]
    decreases i
  {
    if i > 0 {
      FirstSomeAt(out[1..], i - 1);
    }
  }

  lemma {:induction false} TakenUpTo(fixed: seq<AddressData>, n: nat)
    requires n <= |fixed| && (forall i | 0 <= i < n :: fixed[i].lockset != ZERO)
    requires n < |fixed| ==> fixed[n].lockset == ZERO
    ensures Taken(fixed) == fixed[..n]
    decreases n
  {
  }

  // ---------------------------------------------------------------- the object

  class RaceDetector {
    const graph: AFTaskGraph
    const addr: nat
    const fEntries: array<AddressData>
    var accessList: seq<AddressData>
    var allViolations: map<nat, Violation>

    ghost predicate Valid()
      reads this, fEntries, graph, graph.cache, graph.cache.table
    {
      && graph.Valid() && TasksConnected(graph.nodes)
      && fEntries as object != graph.cache.table
      && LayoutOk(graph.nodes, fEntries[..], accessList)
    }

    ghost function View(): State
      reads this, fEntries
    {
      State(Entries(fEntries[..], accessList), if addr in allViolations then Some(allViolations[addr]) else None)
    }

    constructor (graph: AFTaskGraph, addr: nat)
      requires graph.Valid() && TasksConnected(graph.nodes)
      ensures Valid() && View() == State([], None) && this.graph == graph && this.addr == addr
      ensures fresh(fEntries) && allViolations == map[]
    {
      this.graph, this.addr := graph, addr;
      fEntries := new AddressData[NUM_FIXED_ENTRIES](_ => EMPTY_ENTRY);
      accessList, allViolations := [], map[];
      new;
      TakenUpTo(fEntries[..], 0);
    }

    /** What the queries need of the graph; they change only its cache. */
    ghost predicate Ready()
      reads graph, graph.cache, graph.cache.table
    {
      graph.Valid() && TasksConnected(graph.nodes)
    }

    method IsParallelSlot(thread: nat, taskId: nat, slot: nat) returns (r: bool)
      requires Ready() && graph.Running(thread, taskId) && SlotKnown(graph.nodes, slot)
      modifies graph.cache.table
      ensures Ready() && r == Races(graph.nodes, graph.CurStep(thread), slot)
    {
      r := false;
      if slot != 0 {
        r := graph.AreParallel(taskId, slot, thread);
      }
    }

    /** Checks one entry: writers always, readers only against a write. */
    method CheckEntry(thread: nat, taskId: nat, a: Access, e: AddressData) returns (v: Option<Violation>)
      requires Ready() && graph.Running(thread, taskId) && SlotsKnown(graph.nodes, e)
      requires a.step == graph.CurStep(thread)
      modifies graph.cache.table
      ensures Ready() && v == RaceWith(graph.nodes, a, e)
    {
      v := None;
      BitTestDecides(a.lockset, e.lockset);
      if And(Not(a.lockset), Not(e.lockset)) == ZERO {
        var par := IsParallelSlot(thread, taskId, e.w1);
        if par { return Some(Violation(a.step, a.kind, e.w1, WRITE)); }
        par := IsParallelSlot(thread, taskId, e.w2);
        if par { return Some(Violation(a.step, a.kind, e.w2, WRITE)); }
        if a.kind == WRITE {
          par := IsParallelSlot(thread, taskId, e.r1);
          if par { return Some(Violation(a.step, a.kind, e.r1, READ)); }
          par := IsParallelSlot(thread, taskId, e.r2);
          if par { return Some(Violation(a.step, a.kind, e.r2, READ)); }
        }
      }
    }

    /** The slot replacement by LCA depths. */
    method ReplaceSlots(thread: nat, taskId: nat, x1: nat, x2: nat, s: nat) returns (y1: nat, y2: nat)
      requires Ready() && graph.Running(thread, taskId) && s == graph.CurStep(thread)
      requires SlotKnown(graph.nodes, x1) && SlotKnown(graph.nodes, x2)
      modifies graph.cache.table
      ensures Ready() && (y1, y2) == UpdatePair(graph.nodes, x1, x2, s)
    {
      y1, y2 := x1, x2;
      var par1 := IsParallelSlot(thread, taskId, x1);
      var par2 := IsParallelSlot(thread, taskId, x2);
      if (x1 == 0 && x2 == 0) || (x1 == 0 && !par2) || (x2 == 0 && !par1) || (!par1 && !par2) {
        y1 := s;
        y2 := 0;
      } else if par1 && par2 {
        var lca12 := graph.LCA(x1, x2);
        var lca1s := graph.LCA(x1, s);
        if graph.nodes[lca1s].depth < graph.nodes[lca12].depth {
          y1 := s;
        }
      } else if x2 == 0 && par1 {
        y2 := s;
      }
    }

    method UpdateSlots(thread: nat, taskId: nat, e: AddressData, a: Access) returns (e': AddressData)
      requires Ready() && graph.Running(thread, taskId) && a.step == graph.CurStep(thread) && SlotsKnown(graph.nodes, e)
      modifies graph.cache.table
      ensures Ready() && e' == UpdateEntry(graph.nodes, e, a)
    {
      if a.kind == WRITE {
        var w1, w2 := ReplaceSlots(thread, taskId, e.w1, e.w2, a.step);
        e' := e.(w1 := w1, w2 := w2);
      } else {
        var r1, r2 := ReplaceSlots(thread, taskId, e.r1, e.r2, a.step);
        e' := e.(r1 := r1, r2 := r2);
      }
    }

    /** Scans the fixed entries up to the first unused one; `at` is the entry of the same
        lockset, else the first unused entry, else -1. */
    method ScanFixed(thread: nat, taskId: nat, a: Access, ghost taken: seq<AddressData>) returns (v: Option<Violation>, at: int)
      requires Ready() && graph.Running(thread, taskId) && a.step == graph.CurStep(thread)
      requires fEntries.Length == NUM_FIXED_ENTRIES && fEntries as object != graph.cache.table
      requires IsTaken(fEntries[..], taken) && AllKnown(graph.nodes, taken)
      modifies graph.cache.table
      ensures Ready() && v == FindRace(graph.nodes, a, taken)
      ensures v.None? ==> FoundAt(taken, a.lockset, at) && at < fEntries.Length
      ensures v.None? && at == -1 ==> |taken| == fEntries.Length
    {
      assert Rooted(graph.nodes);
      hide WellFormed;
      hide TasksConnected;
      hide Coherent;
      hide RaceWith;
      hide SlotsKnown;
      hide Scanned;
      hide Outcomes;
      hide FoundAt;
      v, at := None, -1;
      ghost var f := fEntries[..];
      ghost var out := OutcomesOf(graph.nodes, a, taken);
      FindRaceIsFirst(graph.nodes, a, taken);
      ScanBegins(out, taken, a.lockset);
      var i: nat := 0;
      while i < NUM_FIXED_ENTRIES
        invariant Ready() && i <= NUM_FIXED_ENTRIES && v.None? && fEntries[..] == f
        invariant Scanned(out, taken, a.lockset, i, at) && (at == -1 ==> i <= |taken|)
      {
        var entry := fEntries[i];
        assert entry == f[i];
        if at == -1 && entry.lockset == ZERO {
          at := i;
          break;
        }
        if entry.lockset != ZERO {
          assert i < |taken| && entry == taken[i] && SlotsKnown(graph.nodes, taken[i]);
          v := CheckEntry(thread, taskId, a, entry);
          OutcomeAt(graph.nodes, a, taken, out, i);
          if v.Some? {
            ScanFinds(out, taken, a.lockset, i, at);
            return;
          }
          ScanNext(out, taken, a.lockset, i, at);
          if a.lockset == entry.lockset {
            at := i;
          }
        } else {
          ScanPast(out, taken, a.lockset, i, at);
        }
        i := i + 1;
      }
      ScanEnds(out, taken, a.lockset, i, at);
    }

    /** Scans the overflow list; `at` is the entry of the same lockset, else -1. */
    method ScanOverflow(thread: nat, taskId: nat, a: Access) returns (v: Option<Violation>, at: int)
      requires Ready() && graph.Running(thread, taskId) && a.step == graph.CurStep(thread)
      requires AllKnown(graph.nodes, accessList)
      modifies graph.cache.table
      ensures Ready() && v == FindRace(graph.nodes, a, accessList)
      ensures v.None? ==> FoundAt(accessList, a.lockset, at) && at < |accessList|
    {
      assert Rooted(graph.nodes);
      hide WellFormed;
      hide TasksConnected;
      hide Coherent;
      v, at := None, -1;
      var list := accessList;
      ghost var out := OutcomesOf(graph.nodes, a, list);
      FindRaceIsFirst(graph.nodes, a, list);
      for i := 0 to |list|
        invariant Ready() && v.None? && Scanned(out, list, a.lockset, i, at)
      {
        assert SlotsKnown(graph.nodes, list[i]);
        v := CheckEntry(thread, taskId, a, list[i]);
        if v.Some? {
          ScanFinds(out, list, a.lockset, i, at);
          return;
        }
        ScanNext(out, list, a.lockset, i, at);
        if a.lockset == list[i].lockset {
          at := i;
        }
      }
      ScanEnds(out, list, a.lockset, |list|, at);
    }

    /** What a fixed entry becomes: an unused one is taken, one in use is updated. */
    method NextEntry(thread: nat, taskId: nat, entry: AddressData, a: Access) returns (e: AddressData)
      requires Ready() && graph.Running(thread, taskId) && a.step == graph.CurStep(thread)
      requires if entry.lockset == ZERO then entry == EMPTY_ENTRY else SlotsKnown(graph.nodes, entry)
      modifies graph.cache.table
      ensures Ready() && e == if entry.lockset == ZERO then FreshEntry(a) else UpdateEntry(graph.nodes, entry, a)
    {
      if entry.lockset == ZERO {
        e := if a.kind == READ then entry.(lockset := a.lockset, r1 := a.step)
             else entry.(lockset := a.lockset, w1 := a.step);
      } else {
        e := UpdateSlots(thread, taskId, entry, a);
      }
    }

    /** Writes the access among the fixed entries: updates the entry, or takes an unused one.
        With the mask 0 the entry it takes still counts as unused: the access is forgotten. */
    method StoreFixed(thread: nat, taskId: nat, a: Access, at: nat)
      requires Valid() && graph.Running(thread, taskId) && a.step == graph.CurStep(thread)
      requires at < fEntries.Length && at <= |Taken(fEntries[..])|
      requires IsPlace(graph.nodes, Entries(fEntries[..], accessList), a, at)
      requires at == |Taken(fEntries[..])| ==> accessList == []
      modifies fEntries, graph.cache.table
      ensures Ready() && (a.lockset != ZERO ==> Valid())
      ensures Entries(fEntries[..], accessList) ==
              if a.lockset == ZERO then old(Entries(fEntries[..], accessList))
              else Record(graph.nodes, old(Entries(fEntries[..], accessList)), a)
    {
      hide LayoutOk;
      hide Record;
      hide UpdateEntry;
      hide Coherent;
      hide TasksConnected;
      hide IsPlace;
      hide Entries;
      hide Taken;
      hide SlotsKnown;
      hide WellFormed;
      FixedPlace(graph.nodes, fEntries[..], accessList, a, at);
      var e := NextEntry(thread, taskId, fEntries[at], a);
      fEntries[at] := e;
      assert fEntries[..] == old(fEntries[..])[at := e];
    }

    /** Writes the access into the overflow list: updates the entry, or pushes a new one. */
    method StoreOverflow(thread: nat, taskId: nat, a: Access, at: nat)
      requires Valid() && graph.Running(thread, taskId) && a.step == graph.CurStep(thread)
      requires |Taken(fEntries[..])| == fEntries.Length && at <= |accessList|
      requires IsPlace(graph.nodes, Entries(fEntries[..], accessList), a, |Taken(fEntries[..])| + at)
      modifies this`accessList, graph.cache.table
      ensures Valid()
      ensures Entries(fEntries[..], accessList) == Record(graph.nodes, old(Entries(fEntries[..], accessList)), a)
    {
      hide LayoutOk;
      hide Record;
      hide UpdateEntry;
      hide Coherent;
      hide TasksConnected;
      hide IsPlace;
      hide Entries;
      hide Taken;
      hide SlotsKnown;
      hide WellFormed;
      OverflowPlace(graph.nodes, fEntries[..], accessList, a, at);
      if at == |accessList| {
        accessList := accessList + [FreshEntry(a)];
      } else {
        var e := UpdateSlots(thread, taskId, accessList[at], a);
        accessList := accessList[at := e];
      }
    }

    /** Records an access that raced with nothing, where the scans found its place. */
    method Store(thread: nat, taskId: nat, a: Access, at: int, listAt: int)
      requires Valid() && graph.Running(thread, taskId) && a.step == graph.CurStep(thread)
      requires FoundAt(Taken(fEntries[..]), a.lockset, at) && at < fEntries.Length
      requires at == -1 ==> |Taken(fEntries[..])| == fEntries.Length
      requires FoundAt(accessList, a.lockset, listAt) && listAt < |accessList|
      modifies this`accessList, fEntries, graph.cache.table
      ensures Ready() && (a.lockset != ZERO || at == -1 ==> Valid())
      ensures Entries(fEntries[..], accessList) ==
              if a.lockset == ZERO && at != -1 then old(Entries(fEntries[..], accessList))
              else Record(graph.nodes, old(Entries(fEntries[..], accessList)), a)
    {
      hide IsPlace;
      hide LayoutOk;
      hide Record;
      hide Coherent;
      hide TasksConnected;
      hide Taken;
      hide SlotsKnown;
      hide FoundAt;
      StorePlace(graph.nodes, fEntries[..], accessList, a, at, listAt);
      if at != -1 {
        StoreFixed(thread, taskId, a, at);
      } else if listAt == -1 {
        StoreOverflow(thread, taskId, a, |accessList|);
      } else {
        StoreOverflow(thread, taskId, a, listAt);
      }
    }

    /** Accesses of task 0, of a thread without a task, and of an address with a known
        violation are ignored. */
    predicate Ignored(thread: nat)
      requires thread < |graph.tids|
      reads this, graph
    {
      graph.tids[thread] == [] || Top(graph.tids[thread]) == 0 || addr in allViolations
    }

    /** An access that the history cannot keep: its mask is 0, it races with nothing, and a
        fixed entry is unused. */
    ghost predicate Lost(a: Access)
      requires Rooted(graph.nodes)
      reads this, fEntries, graph
    {
      && a.lockset == ZERO && FindRace(graph.nodes, a, Entries(fEntries[..], accessList)).None?
      && |Taken(fEntries[..])| < fEntries.Length
    }

    method RecordMem(thread: nat, lockset: Word, kind: AccessType)
      requires Valid() && thread < |graph.tids|
      requires !Ignored(thread) ==> graph.Running(thread, Top(graph.tids[thread]))
      modifies this, fEntries, graph.cache.table
      ensures old(Ignored(thread)) ==> Valid() && View() == old(View()) && allViolations == old(allViolations)
      ensures !old(Ignored(thread)) ==>
              var a := Access(graph.CurStep(thread), kind, lockset);
              if old(Lost(a)) then View() == old(View()) && View() != Process(graph.nodes, old(View()), a)
              else Valid() && View() == Process(graph.nodes, old(View()), a)
      ensures forall other | other != addr :: (other in allViolations <==> other in old(allViolations))
      ensures forall other | other != addr && other in allViolations :: allViolations[other] == old(allViolations)[other]
    {
      if graph.tids[thread] == [] || Top(graph.tids[thread]) == 0 || addr in allViolations {
        return;
      }
      var taskId := Top(graph.tids[thread]);
      var a := Access(graph.CurStep(thread), kind, lockset);
      ghost var taken := Taken(fEntries[..]);
      PartsKnown(graph.nodes, taken, accessList);
      FindRaceConcat(graph.nodes, a, taken, accessList);
      var v, at := ScanFixed(thread, taskId, a, taken);
      if v.Some? {
        allViolations := allViolations[addr := v.value];
        return;
      }
      var w, listAt := ScanOverflow(thread, taskId, a);
      if w.Some? {
        allViolations := allViolations[addr := w.value];
        return;
      }
      if at != -1 && lockset == ZERO { LostAt(graph.nodes, fEntries[..], accessList, a, at); }
      Store(thread, taskId, a, at, listAt);
    }
  }

  /** The scan has got to `i`: no race so far, and `at` is the last entry of the lockset, if any. */
  ghost predicate Scanned(out: seq<Option<Violation>>, taken: seq<AddressData>, lockset: Word, i: nat, at: int) {
    && |out| == |taken| && (forall j | 0 <= j < i && j < |taken| :: out[j].None?)
    && (at == -1 ==> i <= |taken| && forall j | 0 <= j < i :: taken[j].lockset != lockset)
    && (at != -1 ==> 0 <= at < |taken| && taken[at].lockset == lockset)
  }

  lemma ScanBegins(out: seq<Option<Violation>>, taken: seq<AddressData>, lockset: Word)
    requires |out| == |taken|
    ensures Scanned(out, taken, lockset, 0, -1)
  {
  }

  lemma OutcomeAt(t: Tree, a: Access, es: seq<AddressData>, out: seq<Option<Violation>>, i: nat)
    requires Rooted(t) && Outcomes(t, a, es, out) && i < |es|
    ensures |out| == |es| && out[i] == RaceWith(t, a, es[i])
  {
  }

  lemma ScanNext(out: seq<Option<Violation>>, taken: seq<AddressData>, lockset: Word, i: nat, at: int)
    requires Scanned(out, taken, lockset, i, at) && i < |taken| == |out| && out[i].None?
    ensures Scanned(out, taken, lockset, i + 1, if taken[i].lockset == lockset then i else at)
  {
  }

  lemma ScanPast(out: seq<Option<Violation>>, taken: seq<AddressData>, lockset: Word, i: nat, at: int)
    requires Scanned(out, taken, lockset, i, at) && i >= |taken| && at != -1
    ensures Scanned(out, taken, lockset, i + 1, at)
  {
  }

  lemma {:induction false} ScanFinds(out: seq<Option<Violation>>, taken: seq<AddressData>, lockset: Word, i: nat, at: int)
    requires Scanned(out, taken, lockset, i, at) && i < |taken| == |out| && out[i].Some?
    ensures FirstSome(out) == out[i]
  {
    FirstSomeAt(out, i);
  }

  /** The scan is over: at the end of the entries, or at the first unused one, `at`. */
  lemma {:induction false} ScanEnds(out: seq<Option<Violation>>, taken: seq<AddressData>, lockset: Word, i: nat, at: int)
    requires Scanned(out, taken, lockset, i, at) || (at == i == |taken| && Scanned(out, taken, lockset, i, -1))
    requires i >= |taken|
    ensures FirstSome(out).None? && FoundAt(taken, lockset, at)
    ensures at == -1 ==> i == |taken|
  {
    FirstSomeAt(out, |taken|);
  }

  /** The outcome of a scan: the index of the lockset's entry, else an index past the taken entries or -1. */
  ghost predicate FoundAt(es: seq<AddressData>, lockset: Word, at: int) {
    && -1 <= at <= |es|
    && (0 <= at < |es| ==> es[at].lockset == lockset)
    && (at == -1 || at == |es| ==> forall j | 0 <= j < |es| :: es[j].lockset != lockset)
  }

  lemma PartsKnown(t: Tree, taken: seq<AddressData>, overflow: seq<AddressData>)
    requires AllKnown(t, taken + overflow)
    ensures AllKnown(t, taken) && AllKnown(t, overflow)
  {
    forall i | 0 <= i < |taken|
      ensures SlotsKnown(t, taken[i])
    {
      assert SlotsKnown(t, (taken + overflow)[i]);
    }
    forall i | 0 <= i < |overflow|
      ensures SlotsKnown(t, overflow[i])
    {
      assert SlotsKnown(t, (taken + overflow)[|taken| + i]);
    }
  }

  /** The access is to be recorded at `i`: the entry of its lockset, or the end. */
  ghost predicate IsPlace(t: Tree, es: seq<AddressData>, a: Access, i: nat) {
    && Rooted(t) && i <= |es|
    && (i < |es| ==> es[i].lockset == a.lockset && SlotsKnown(t, UpdateEntry(t, es[i], a)))
    && (forall j | 0 <= j < |es| && j != i :: es[j].lockset != a.lockset)
    && Record(t, es, a) == if i < |es| then es[i := UpdateEntry(t, es[i], a)] else es + [FreshEntry(a)]
  }

  /** Where the two scans find the entry that recording must write. */
  lemma WhereRecorded(t: Tree, taken: seq<AddressData>, overflow: seq<AddressData>, a: Access, at: int, listAt: int)
    requires Rooted(t) && OnePerLockset(taken + overflow) && AllKnown(t, taken + overflow) && IsStep(t, a.step)
    requires FoundAt(taken, a.lockset, at) && FoundAt(overflow, a.lockset, listAt) && listAt < |overflow|
    requires at == |taken| ==> overflow == []
    ensures IsPlace(t, taken + overflow, a,
                    if at != -1 then at else if listAt != -1 then |taken| + listAt else |taken + overflow|)
  {
    var es := taken + overflow;
    var i := if at != -1 then at else if listAt != -1 then |taken| + listAt else |es|;
    if i < |es| {
      UpdateEntryStable(t, t, es[i], a);
    }
    forall j | 0 <= j < |es| && j != i
      ensures es[j].lockset != a.lockset
    {
      if i == |es| {
        assert j < |taken| ==> es[j] == taken[j];
        assert j >= |taken| ==> es[j] == overflow[j - |taken|];
      }
    }
    RecordAt(t, es, a, i);
  }

  /** The place that the scans found, among the fixed entries or in the overflow list. */
  lemma {:induction false} StorePlace(t: Tree, fixed: seq<AddressData>, overflow: seq<AddressData>, a: Access, at: int, listAt: int)
    requires Rooted(t) && LayoutOk(t, fixed, overflow) && IsStep(t, a.step)
    requires FoundAt(Taken(fixed), a.lockset, at) && at < |fixed| && (at == -1 ==> |Taken(fixed)| == |fixed|)
    requires FoundAt(overflow, a.lockset, listAt) && listAt < |overflow|
    ensures at != -1 ==> 0 <= at <= |Taken(fixed)| && IsPlace(t, Entries(fixed, overflow), a, at)
    ensures at != -1 && at == |Taken(fixed)| ==> overflow == []
    ensures -1 <= listAt
    ensures at == -1 ==>
              IsPlace(t, Entries(fixed, overflow), a, |Taken(fixed)| + if listAt == -1 then |overflow| else listAt)
  {
    WhereRecorded(t, Taken(fixed), overflow, a, at, listAt);
  }

  /** An access with the mask 0 for which an unused entry was found would have added an entry. */
  lemma {:induction false} LostAt(t: Tree, fixed: seq<AddressData>, overflow: seq<AddressData>, a: Access, at: int)
    requires Rooted(t) && LayoutOk(t, fixed, overflow) && a.lockset == ZERO
    requires FoundAt(Taken(fixed), ZERO, at) && 0 <= at < |fixed|
    ensures |Taken(fixed)| < |fixed| && Record(t, Entries(fixed, overflow), a) != Entries(fixed, overflow)
  {
    RecordAdds(t, Entries(fixed, overflow), a);
  }

  /** The list with entry `i` replaced, or extended when `i` is its length. */
  function Written(es: seq<AddressData>, i: nat, e: AddressData): seq<AddressData>
    requires i <= |es|
  {
    if i < |es| then es[i := e] else es + [e]
  }

  lemma WrittenOk(t: Tree, es: seq<AddressData>, i: nat, e: AddressData)
    requires i <= |es| && OnePerLockset(es) && AllKnown(t, es) && SlotsKnown(t, e)
    requires forall j | 0 <= j < |es| && j != i :: es[j].lockset != e.lockset
    ensures OnePerLockset(Written(es, i, e)) && AllKnown(t, Written(es, i, e))
  {
  }

  /** Writing into the fixed part: in place, or into the first unused entry. */
  lemma InFixed(t: Tree, fixed: seq<AddressData>, overflow: seq<AddressData>, at: nat, e: AddressData)
    requires LayoutOk(t, fixed, overflow) && at < |fixed| && at <= |Taken(fixed)| && e.lockset != ZERO && SlotsKnown(t, e)
    requires forall j | 0 <= j < |Entries(fixed, overflow)| && j != at :: Entries(fixed, overflow)[j].lockset != e.lockset
    ensures LayoutOk(t, fixed[at := e], overflow)
    ensures Entries(fixed[at := e], overflow) == Written(Entries(fixed, overflow), at, e)
  {
    var n := |Taken(fixed)|;
    TakenWritten(fixed, at, e);
    WrittenOk(t, Entries(fixed, overflow), at, e);
    assert at == n ==> overflow == [];
    assert Entries(fixed[at := e], overflow) == Written(Entries(fixed, overflow), at, e);
  }

  /** What writing the access at its place among the fixed entries does. */
  lemma FixedPlace(t: Tree, fixed: seq<AddressData>, overflow: seq<AddressData>, a: Access, at: nat)
    requires LayoutOk(t, fixed, overflow) && at < |fixed| && at <= |Taken(fixed)| && IsStep(t, a.step)
    requires IsPlace(t, Entries(fixed, overflow), a, at) && (at == |Taken(fixed)| ==> overflow == [])
    ensures fixed[at].lockset == ZERO <==> at == |Taken(fixed)|
    ensures fixed[at].lockset == ZERO ==> fixed[at] == EMPTY_ENTRY
    ensures fixed[at].lockset != ZERO ==> SlotsKnown(t, fixed[at])
    ensures var e := if fixed[at].lockset == ZERO then FreshEntry(a) else UpdateEntry(t, fixed[at], a);
            && (a.lockset != ZERO ==> LayoutOk(t, fixed[at := e], overflow))
            && Entries(fixed[at := e], overflow) ==
               if a.lockset == ZERO then Entries(fixed, overflow) else Record(t, Entries(fixed, overflow), a)
  {
    var es, n := Entries(fixed, overflow), |Taken(fixed)|;
    var e := if at < n then UpdateEntry(t, fixed[at], a) else FreshEntry(a);
    if at < n { assert es[at] == fixed[at] && SlotsKnown(t, es[at]); }
    if a.lockset != ZERO {
      InFixed(t, fixed, overflow, at, e);
    } else {
      TakenUpTo(fixed[at := e], n);
    }
  }

  /** Recording an access under a lockset that has no entry adds one. */
  lemma {:induction false} RecordAdds(t: Tree, es: seq<AddressData>, a: Access)
    requires Rooted(t) && forall j | 0 <= j < |es| :: es[j].lockset != a.lockset
    ensures Record(t, es, a) != es
  {
    RecordAt(t, es, a, |es|);
  }

  /** What writing the access at its place in the overflow list does. */
  lemma {:induction false} OverflowPlace(t: Tree, fixed: seq<AddressData>, overflow: seq<AddressData>, a: Access, at: nat)
    requires LayoutOk(t, fixed, overflow) && |Taken(fixed)| == |fixed| && at <= |overflow| && IsStep(t, a.step)
    requires IsPlace(t, Entries(fixed, overflow), a, |Taken(fixed)| + at)
    ensures at < |overflow| ==> SlotsKnown(t, overflow[at])
    ensures var e := if at < |overflow| then UpdateEntry(t, overflow[at], a) else FreshEntry(a);
            && LayoutOk(t, fixed, Written(overflow, at, e))
            && Entries(fixed, Written(overflow, at, e)) == Record(t, Entries(fixed, overflow), a)
  {
    var es, k := Entries(fixed, overflow), |Taken(fixed)| + at;
    var e := if at < |overflow| then UpdateEntry(t, overflow[at], a) else FreshEntry(a);
    if at < |overflow| { assert es[k] == overflow[at] && SlotsKnown(t, es[k]); }
    InOverflow(t, fixed, overflow, at, e);
  }

  lemma {:induction false} TakenWritten(fixed: seq<AddressData>, at: nat, e: AddressData)
    requires at < |fixed| && at <= |Taken(fixed)| && e.lockset != ZERO
    requires forall i | |Taken(fixed)| <= i < |fixed| :: fixed[i].lockset == ZERO
    ensures Taken(fixed[at := e]) == Written(Taken(fixed), at, e)
  {
    var n := |Taken(fixed)|;
    TakenUpTo(fixed[at := e], if at < n then n else n + 1);
  }

  /** Writing into the overflow list: in place, or at its end. */
  lemma {:induction false} InOverflow(t: Tree, fixed: seq<AddressData>, overflow: seq<AddressData>, at: nat, e: AddressData)
    requires LayoutOk(t, fixed, overflow) && at <= |overflow| && |Taken(fixed)| == |fixed|
    requires SlotsKnown(t, e)
    requires forall j | 0 <= j < |Entries(fixed, overflow)| && j != |fixed| + at :: Entries(fixed, overflow)[j].lockset != e.lockset
    ensures LayoutOk(t, fixed, Written(overflow, at, e))
    ensures Entries(fixed, Written(overflow, at, e)) == Written(Entries(fixed, overflow), |fixed| + at, e)
  {
    WrittenOk(t, Entries(fixed, overflow), |fixed| + at, e);
    assert Entries(fixed, Written(overflow, at, e)) == Written(Entries(fixed, overflow), |fixed| + at, e);
  }
}
