/** The whole detector: the fork-join program runs, the tracer builds its tree, and the
    accesses to one address are checked against the bounded history.  A violation is
    recorded exactly when two conflicting accesses are unordered by the program. */
module EndToEnd {
  import opened Dpst
  import opened Capture
  import opened Ahead
  import opened ForkJoin
  import opened Program
  import opened Scopes
  import opened Resuming
  import opened Lockset
  import opened RaceDetector
  import H = History
  import StackDiscipline

  /** What happens in a run: an action of the program, or an access to the address. */
  datatype Happening =
    | Act(action: Action)
    | Touch(thread: nat, kind: H.AccessType, lockset: Word)

  /** A task may touch memory whenever it runs.  No mask is 0, see module Lockset. */
  predicate MayTouch(sys: System, thread: nat, lockset: Word) {
    && thread < |sys.running| && sys.running[thread] != []
    && Working(sys.program.tasks, Actor(sys, thread)) && lockset != ZERO
  }

  /** The access the detector sees: it takes the step from the top of the node stack, and
      disregards task 0. */
  function Seen(sys: System, thread: nat, kind: H.AccessType, lockset: Word): seq<Moment> {
    if Actor(sys, thread) == 0 then []
    else if thread < |sys.graph.cur| && sys.graph.cur[thread] != []
            && IsNode(sys.graph.nodes, Top(sys.graph.cur[thread])) then
      [Moment(sys.graph.nodes, H.Access(sys.graph.nodes[Top(sys.graph.cur[thread])].curStep, kind, lockset))]
    else []
  }

  ghost predicate Happens(h: System, before: seq<Moment>, happening: Happening, sys: System, ms: seq<Moment>) {
    match happening
    case Act(a) => May(h, a) && sys == Do(h, a) && ms == before
    case Touch(th, k, ls) => MayTouch(h, th, ls) && sys == h && ms == before + Seen(h, th, k, ls)
  }

  ghost predicate Runs(hs: seq<Happening>, sys: System, ms: seq<Moment>)
    decreases |hs|
  {
    if hs == [] then sys == Begin() && ms == []
    else
      var n := |hs| - 1;
      exists h: System, before: seq<Moment> :: Runs(hs[..n], h, before) && Happens(h, before, hs[n], sys, ms)
  }

  // ---------------------------------------------------------------- what holds in every run

  ghost predicate RunOk(sys: System) {
    && SystemOk(sys) && ScopesSealed(sys.program) && AllRootsLater(sys.program)
    && TasksConnected(sys.graph.nodes) && StepsLatest(sys.graph.nodes) && StepsBegun(sys.graph.nodes)
  }

  lemma BeginRunOk()
    ensures RunOk(Begin())
  {
    BeginOk();
    BeginSealed();
    BeginTracks();
  }

  /** Task identifiers being fresh, each task's nodes stay one region of the tree. */
  lemma TracedKeepsConnected(g: Graph, tasks: set<nat>, a: Action)
    requires Rooted(g.nodes) && TasksConnected(g.nodes) && TracerReady(g, a)
    requires forall n | 0 <= n < |g.nodes| :: g.nodes[n].taskId in tasks
    requires a.Spawn? || a.RunRoot? ==> a.task !in tasks
    ensures Rooted(Traced(g, a).nodes) && TasksConnected(Traced(g, a).nodes)
  {
    if TracerEvent(a) != [] {
      ApplyKeepsTasksConnected(g, TracerEvent(a)[0]);
    }
  }

  lemma TracedKeepsSteps(g: Graph, a: Action)
    requires Rooted(g.nodes) && StepsLatest(g.nodes) && StepsBegun(g.nodes) && TracerReady(g, a)
    ensures Rooted(Traced(g, a).nodes) && StepsLatest(Traced(g, a).nodes) && StepsBegun(Traced(g, a).nodes)
  {
    if TracerEvent(a) != [] {
      ApplyKeepsSteps(g, TracerEvent(a)[0]);
    }
  }

  lemma NodesBelongToTasks(s: State)
    requires ProgramOk(s)
    ensures forall n | 0 <= n < |s.tree| :: s.tree[n].taskId in s.tasks.Keys
  {
  }

  lemma DoKeepsRunOk(sys: System, a: Action)
    requires RunOk(sys) && May(sys, a)
    ensures RunOk(Do(sys, a)) && StaySealed(sys.program, Do(sys, a).program)
  {
    TracerFollows(sys, a);
    NodesBelongToTasks(sys.program);
    assert a.Spawn? || a.RunRoot? ==> a.task !in sys.program.tasks.Keys;
    DoSeals(sys, a);
    var tasks := SomeTracked(sys);
    DoTracks(sys, a, tasks);
    var nodes := Do(sys, a).graph.nodes;
    assert nodes == Traced(sys.graph, a).nodes;
    hide SystemOk;
    assert Rooted(sys.graph.nodes);
    hide May;
    hide Do;
    TracedKeepsConnected(sys.graph, sys.program.tasks.Keys, a);
    TracedKeepsSteps(sys.graph, a);
  }

  /** In every reached state the tracer agrees with the program, the condition behind the
      task-id shortcut holds, and nothing works in a scope that has been left. */
  lemma {:induction false} ReachedIsRunOk(actions: seq<Action>, sys: System)
    requires Program.Reaches(actions, sys)
    ensures RunOk(sys)
    decreases |actions|
  {
    if actions == [] {
      BeginRunOk();
    } else {
      var n := |actions| - 1;
      var h :| Program.Reaches(actions[..n], h) && May(h, actions[n]) && sys == Do(h, actions[n]);
      ReachedIsRunOk(actions[..n], h);
      DoKeepsRunOk(h, actions[n]);
    }
  }

  /** The detector takes an access to be in the step the task is in; what its queries assume
      of the thread's stacks holds. */
  lemma SeesCurrentStep(sys: System, th: nat, kind: H.AccessType, lockset: Word)
    requires SystemOk(sys) && MayTouch(sys, th, lockset) && Actor(sys, th) != 0
    ensures var u := Actor(sys, th);
            && RunsTask(sys.graph, th, u) && sys.graph.tids[th] != [] && Top(sys.graph.tids[th]) == u
            && var b := sys.graph.nodes[Top(sys.graph.cur[th])].curStep;
            && sys.program.tasks[u].now == {b}
            && Seen(sys, th, kind, lockset) == [Moment(sys.graph.nodes, H.Access(b, kind, lockset))]
  {
    OwnerOnTop(sys, th, Actor(sys, th));
    assert CurStepOk(sys.graph.nodes, OwnerOf(sys.program.places[Actor(sys, th)]));
  }

  // ---------------------------------------------------------------- what the current step precedes

  /** The acting task's current step, and the node it was begun under. */
  predicate InStep(sys: System, th: nat, o: nat, b: nat) {
    var u := Actor(sys, th);
    && th < |sys.running| && sys.running[th] != [] && u in sys.program.places
    && o == OwnerOf(sys.program.places[u]) && IsNode(sys.graph.nodes, o) && b == sys.graph.nodes[o].curStep
    && IsStep(sys.graph.nodes, b)
  }

  lemma ActsInStep(sys: System, th: nat, lockset: Word) returns (o: nat, b: nat)
    requires SystemOk(sys) && MayTouch(sys, th, lockset) && Actor(sys, th) != 0
    ensures InStep(sys, th, o, b) && b == sys.graph.nodes[Top(sys.graph.cur[th])].curStep
    ensures sys.graph.nodes[b].parent == o
  {
    OwnerOnTop(sys, th, Actor(sys, th));
    SeesCurrentStep(sys, th, H.READ, lockset);
    o := OwnerOf(sys.program.places[Actor(sys, th)]);
    b := sys.graph.nodes[o].curStep;
    assert CurStepOk(sys.graph.nodes, o);
  }

  /** What hangs after the current step under the same node is a root task that is over. */
  lemma AfterCurrentStep(sys: System, th: nat, lockset: Word, o: nat, b: nat, r: nat)
    requires RunOk(sys) && MayTouch(sys, th, lockset) && Actor(sys, th) != 0 && InStep(sys, th, o, b)
    requires Siblings(sys.graph.nodes, b, r) && b < r
    ensures sys.graph.nodes[r].kind == Finish && sys.graph.nodes[r].spRootAndWait && Sealed(sys.program, r)
    ensures forall c: nat | Siblings(sys.graph.nodes, c, r) :: sys.graph.nodes[c].kind != Async
  {
    var t, u := sys.graph.nodes, Actor(sys, th);
    OwnerOnTop(sys, th, u);
    assert CurStepOk(t, o) && NodeOk(t, r);
    assert t[b].seqNum < t[r].seqNum;
    assert o == sys.program.places[u].base && sys.program.places[u].root == 0;
    forall c: nat | Siblings(t, c, r)
      ensures t[c].kind != Async && Sealed(sys.program, c)
    {
      assert ClosedChild(sys.program, u, c);
    }
    assert Siblings(t, r, r) && RootsLater(sys.program, u);
  }

  /** `y` lies under the FINISH of a root task that was run from step `b` and is over. */
  ghost predicate UnderDoneRoot(sys: System, b: nat, y: nat) {
    && Rooted(sys.graph.nodes) && IsStep(sys.graph.nodes, y)
    && exists r: nat :: H.ResumesAt(sys.graph.nodes, b, r, y) && IsDoneRoot(sys, r)
  }

  ghost predicate IsDoneRoot(sys: System, r: nat) {
    && 2 <= r < |sys.graph.nodes| && sys.graph.nodes[r].kind == Finish && sys.graph.nodes[r].spRootAndWait
    && Sealed(sys.program, r)
  }

  /** What the current step precedes lies under root tasks that its task has waited for. */
  lemma PrecedesOnlyRoots(sys: System, th: nat, lockset: Word, o: nat, b: nat, y: nat)
    requires RunOk(sys) && MayTouch(sys, th, lockset) && Actor(sys, th) != 0 && InStep(sys, th, o, b)
    requires IsStep(sys.graph.nodes, y) && sys.graph.nodes[b].parent == o
    ensures Precedes(sys.graph.nodes, b, y) <==> UnderDoneRoot(sys, b, y)
    ensures H.MayFollow(sys.graph.nodes, y, b)
  {
    var t, u := sys.graph.nodes, Actor(sys, th);
    OwnerOnTop(sys, th, u);
    assert NothingAfter(sys.program, u);
    assert !Precedes(t, o, y) && WellFormed(t);
    hide SystemOk;
    hide WellFormed;
    hide MayTouch;
    if Precedes(t, b, y) {
      BesideOrAbove(t, b, y);
      var d: nat :| Splits(t, b, d, b, y);
      assert Siblings(t, d, b);
      AfterCurrentStep(sys, th, lockset, o, b, d);
      assert H.ResumesAt(t, b, d, y) && IsDoneRoot(sys, d);
    }
    if UnderDoneRoot(sys, b, y) {
      var r: nat :| H.ResumesAt(t, b, r, y);
      assert Splits(t, b, r, b, y);
    }
  }

  ghost predicate StepAfter(t: Tree, b: nat, y: nat) {
    Rooted(t) && IsStep(t, b) && IsStep(t, y) && Precedes(t, b, y)
  }

  /** The current step precedes a step that exists exactly when it is not the last under its node. */
  lemma LatestPrecedesNone(sys: System, th: nat, lockset: Word)
    requires RunOk(sys) && MayTouch(sys, th, lockset) && Actor(sys, th) != 0
    ensures sys.graph.cur[th] != [] && IsNode(sys.graph.nodes, Top(sys.graph.cur[th]))
    ensures Placed(sys.program, Actor(sys, th))
    ensures (exists y: nat :: StepAfter(sys.graph.nodes, sys.graph.nodes[Top(sys.graph.cur[th])].curStep, y))
            <==> !InLatest(sys.program, Actor(sys, th))
  {
    var t, u := sys.graph.nodes, Actor(sys, th);
    OwnerOnTop(sys, th, u);
    var o, b := ActsInStep(sys, th, lockset);
    assert NodeOk(t, b) && NothingAfter(sys.program, u);
    if t[b].seqNum + 1 == t[o].numChildren {
      forall y: nat | StepAfter(t, b, y)
        ensures false
      {
        LastChildPrecedes(t, b, y);
      }
    } else {
      assert HasChildAt(t, o, t[b].seqNum + 1);
      var d: nat :| IsChildAt(t, o, t[b].seqNum + 1, d);
      var y := if t[d].kind == Step then d else t[d].curStep;
      assert CurStepOk(t, d);
      assert Splits(t, b, d, b, y);
      assert StepAfter(t, b, y);
    }
  }

  /** An access inverts the order of the tree, that is, is made in a step that precedes one
      that exists, exactly when its task has run a root task and neither spawned nor waited
      since, which `Resumed` tells from the actions of the program. */
  lemma {:induction false} InvertsExactly(actions: seq<Action>, sys: System, th: nat, lockset: Word)
    requires Program.Reaches(actions, sys) && MayTouch(sys, th, lockset) && Actor(sys, th) != 0
    ensures th < |sys.graph.cur| && sys.graph.cur[th] != [] && IsNode(sys.graph.nodes, Top(sys.graph.cur[th]))
    ensures (exists y: nat :: StepAfter(sys.graph.nodes, sys.graph.nodes[Top(sys.graph.cur[th])].curStep, y))
            <==> Actor(sys, th) in Resumed(actions)
  {
    ReachedIsRunOk(actions, sys);
    ReachedTracks(actions, sys);
    LatestPrecedesNone(sys, th, lockset);
    OwnerOnTop(sys, th, Actor(sys, th));
  }

  // ---------------------------------------------------------------- runs keep the order

  predicate AllSteps(t: Tree, accs: seq<H.Access>) {
    forall k {:trigger accs[k]} | 0 <= k < |accs| :: IsStep(t, accs[k].step)
  }

  /** Whenever a step was resumed after another, the root task in between is over. */
  ghost predicate RootsOver(s: State, accs: seq<H.Access>)
    requires Rooted(s.tree) && AllSteps(s.tree, accs)
  {
    forall i, j, r: nat {:trigger H.ResumesAt(s.tree, accs[j].step, r, accs[i].step)}
      | 0 <= i < j < |accs| && H.ResumesAt(s.tree, accs[j].step, r, accs[i].step) ::
      s.tree[r].kind != Step && Sealed(s, r)
  }

  /** The accesses seen so far were made in steps of the current tree, in an order that runs
      of the program can produce. */
  ghost predicate Orderly(s: State, ms: seq<Moment>) {
    && WellFormed(s.tree) && Observed(ms)
    && (forall k {:trigger ms[k]} | 0 <= k < |ms| :: Extends(ms[k].tree, s.tree))
    && H.KeepsOrder(s.tree, Accesses(ms)) && RootsOver(s, Accesses(ms))
  }

  lemma OrderStable(t: Tree, u: Tree, accs: seq<H.Access>)
    requires Rooted(t) && Rooted(u) && Extends(t, u) && H.KeepsOrder(t, accs)
    ensures H.KeepsOrder(u, accs)
  {
    forall k | 0 <= k < |accs|
      ensures IsStep(u, accs[k].step)
    {
      assert SameStructure(t[accs[k].step], u[accs[k].step]);
    }
    forall i, j | 0 <= i < j < |accs|
      ensures H.MayFollow(u, accs[i].step, accs[j].step)
    {
      assert H.MayFollow(t, accs[i].step, accs[j].step);
      H.MayFollowStable(t, u, accs[i].step, accs[j].step);
    }
    forall i, j, k | 0 <= i < j < k < |accs|
      ensures H.Closed(u, accs[i].step, accs[j].step, accs[k].step)
    {
      assert H.Closed(t, accs[i].step, accs[j].step, accs[k].step);
      H.ClosedStable(t, u, accs[i].step, accs[j].step, accs[k].step);
    }
  }

  lemma RootsStayOver(s: State, s': State, accs: seq<H.Access>)
    requires Rooted(s.tree) && Rooted(s'.tree) && StaySealed(s, s')
    requires AllSteps(s.tree, accs) && AllSteps(s'.tree, accs) && RootsOver(s, accs)
    ensures RootsOver(s', accs)
  {
    var t, u := s.tree, s'.tree;
    forall i, j, r: nat | 0 <= i < j < |accs| && H.ResumesAt(u, accs[j].step, r, accs[i].step)
      ensures u[r].kind != Step && Sealed(s', r)
    {
      H.ResumesStable(t, u, accs[j].step, r, accs[i].step);
      assert SameStructure(t[r], u[r]) && Sealed(s, r);
    }
  }

  lemma OrderlyLater(s: State, s': State, ms: seq<Moment>)
    requires Orderly(s, ms) && WellFormed(s'.tree) && StaySealed(s, s')
    ensures Orderly(s', ms)
  {
    OrderStable(s.tree, s'.tree, Accesses(ms));
    RootsStayOver(s, s', Accesses(ms));
    forall k | 0 <= k < |ms|
      ensures Extends(ms[k].tree, s'.tree)
    {
      ExtendsTransitive(ms[k].tree, s.tree, s'.tree);
    }
  }

  /** How step `b` must stand to the accesses made so far for the next one to be made in it. */
  ghost predicate MayContinue(s: State, accs: seq<H.Access>, b: nat)
    requires Rooted(s.tree) && AllSteps(s.tree, accs)
  {
    && IsStep(s.tree, b)
    && (forall r: nat {:trigger Sealed(s, r)} | r < |s.tree| && s.tree[r].kind != Step && Sealed(s, r) ::
          !IsAncestor(s.tree, r, b))
    && (forall k {:trigger accs[k]} | 0 <= k < |accs| :: H.MayFollow(s.tree, accs[k].step, b))
    && (forall k, r: nat {:trigger H.ResumesAt(s.tree, b, r, accs[k].step)}
          | 0 <= k < |accs| && H.ResumesAt(s.tree, b, r, accs[k].step) :: s.tree[r].kind != Step && Sealed(s, r))
  }

  lemma OrderNext(s: State, accs: seq<H.Access>, a: H.Access)
    requires WellFormed(s.tree) && H.KeepsOrder(s.tree, accs) && RootsOver(s, accs) && MayContinue(s, accs, a.step)
    ensures H.KeepsOrder(s.tree, accs + [a]) && RootsOver(s, accs + [a])
  {
    var t, next, n := s.tree, accs + [a], |accs|;
    forall i, j | 0 <= i < j < |next|
      ensures H.MayFollow(t, next[i].step, next[j].step)
    {
      assert next[i] == accs[i];
      if j < n { assert H.MayFollow(t, accs[i].step, accs[j].step); }
    }
    forall i, j, k | 0 <= i < j < k < |next|
      ensures H.Closed(t, next[i].step, next[j].step, next[k].step)
    {
      assert next[i] == accs[i] && next[j] == accs[j];
      if k < n { assert H.Closed(t, accs[i].step, accs[j].step, accs[k].step); }
    }
    forall i, j, r: nat | 0 <= i < j < |next| && H.ResumesAt(t, next[j].step, r, next[i].step)
      ensures t[r].kind != Step && Sealed(s, r)
    {
      assert next[i] == accs[i];
    }
  }

  lemma {:induction false} ObservedNext(t: Tree, ms: seq<Moment>, m: Moment)
    requires WellFormed(t) && Observed(ms) && m.tree == t && IsStep(t, m.access.step)
    requires forall k {:trigger ms[k]} | 0 <= k < |ms| :: Extends(ms[k].tree, t)
    ensures Observed(ms + [m]) && Accesses(ms + [m]) == Accesses(ms) + [m.access]
    ensures forall k {:trigger (ms + [m])[k]} | 0 <= k < |ms + [m]| :: Extends((ms + [m])[k].tree, t)
  {
    var next := ms + [m];
    assert Extends(t, t) && next[..|ms|] == ms;
    forall k | 0 <= k < |next|
      ensures Extends(next[k].tree, t) && WellFormed(next[k].tree) && IsStep(next[k].tree, next[k].access.step)
    {
      assert k < |ms| ==> next[k] == ms[k];
    }
    forall i, j | 0 <= i < j < |next|
      ensures Extends(next[i].tree, next[j].tree)
    {
      assert next[i] == ms[i];
      assert j < |ms| ==> next[j] == ms[j];
    }
  }

  /** The acting task may go on in its current step, root tasks or not. */
  lemma MayGoOn(sys: System, th: nat, lockset: Word, accs: seq<H.Access>, b: nat)
    requires RunOk(sys) && MayTouch(sys, th, lockset) && Actor(sys, th) != 0
    requires sys.graph.cur[th] != [] && IsNode(sys.graph.nodes, Top(sys.graph.cur[th]))
    requires b == sys.graph.nodes[Top(sys.graph.cur[th])].curStep
    requires AllSteps(sys.program.tree, accs)
    ensures MayContinue(sys.program, accs, b)
  {
    var t, u := sys.graph.nodes, Actor(sys, th);
    OwnerOnTop(sys, th, u);
    var o, c := ActsInStep(sys, th, lockset);
    forall r: nat | r < |t| && t[r].kind != Step && Sealed(sys.program, r)
      ensures !IsAncestor(t, r, b)
    {
      assert !StandsUnder(sys.program, r, u);
    }
    forall k | 0 <= k < |accs|
      ensures H.MayFollow(t, accs[k].step, b)
    {
      PrecedesOnlyRoots(sys, th, lockset, o, b, accs[k].step);
    }
    forall k, r: nat | 0 <= k < |accs| && H.ResumesAt(t, b, r, accs[k].step)
      ensures t[r].kind != Step && Sealed(sys.program, r)
    {
      AfterCurrentStep(sys, th, lockset, o, b, r);
    }
  }

  lemma {:induction false} RunsAreOrderly(hs: seq<Happening>, sys: System, ms: seq<Moment>)
    requires Runs(hs, sys, ms)
    ensures RunOk(sys) && Orderly(sys.program, ms)
    decreases |hs|
  {
    if hs == [] {
      BeginRunOk();
    } else {
      var n := |hs| - 1;
      var h: System, before: seq<Moment> :| Runs(hs[..n], h, before) && Happens(h, before, hs[n], sys, ms);
      RunsAreOrderly(hs[..n], h, before);
      match hs[n]
      case Act(a) => ActOrderly(h, a, before);
      case Touch(th, k, ls) => TouchOrderly(h, th, k, ls, before);
    }
  }

  lemma ActOrderly(h: System, a: Action, ms: seq<Moment>)
    requires RunOk(h) && May(h, a) && Orderly(h.program, ms)
    ensures RunOk(Do(h, a)) && Orderly(Do(h, a).program, ms)
  {
    DoKeepsRunOk(h, a);
    OrderlyLater(h.program, Do(h, a).program, ms);
  }

  lemma TouchOrderly(h: System, th: nat, kind: H.AccessType, lockset: Word, ms: seq<Moment>)
    requires RunOk(h) && MayTouch(h, th, lockset) && Orderly(h.program, ms)
    ensures Orderly(h.program, ms + Seen(h, th, kind, lockset))
  {
    if Actor(h, th) == 0 {
      assert ms + Seen(h, th, kind, lockset) == ms;
    } else {
      SeesCurrentStep(h, th, kind, lockset);
      OwnerOnTop(h, th, Actor(h, th));
      var m := Seen(h, th, kind, lockset)[0];
      MayGoOn(h, th, lockset, Accesses(ms), m.access.step);
      ObservedNext(h.graph.nodes, ms, m);
      OrderNext(h.program, Accesses(ms), m.access);
    }
  }

  // ---------------------------------------------------------------- the detector is exact

  /** The program itself has a race: two accesses in steps it leaves unordered, one of them a
      write, with no lock in common. */
  ghost predicate ProgramRace(past: map<nat, set<nat>>, ms: seq<Moment>, i: nat, j: nat) {
    && i < j < |ms|
    && var a, b := ms[i].access, ms[j].access;
       && a.step in past && b.step in past && a.step != b.step
       && a.step !in past[b.step] && b.step !in past[a.step]
       && (a.kind == H.WRITE || b.kind == H.WRITE)
       && HeldIn(a.lockset) !! HeldIn(b.lockset)
  }

  lemma {:induction false} RaceIsConflict(sys: System, ms: seq<Moment>, i: nat, j: nat)
    requires SystemOk(sys) && Orderly(sys.program, ms)
    ensures ProgramRace(sys.program.past, ms, i, j) <==> H.ConflictAt(sys.graph.nodes, Accesses(ms), i, j)
  {
    if i < j < |ms| {
      var a, b := ms[i].access, ms[j].access;
      assert Accesses(ms)[i] == a && Accesses(ms)[j] == b;
      assert IsStep(sys.graph.nodes, a.step) && IsStep(sys.graph.nodes, b.step);
      assert PastOk(sys.program, a.step) && PastOk(sys.program, b.step);
    }
  }

  /** For every run, whatever the interleaving: the detector has recorded a violation exactly
      when the program has a race among the accesses made so far. */
  lemma {:induction false} DetectsExactlyTheRaces(hs: seq<Happening>, sys: System, ms: seq<Moment>)
    requires Runs(hs, sys, ms)
    ensures Observed(ms)
    ensures RunMoments(ms).violation.Some? <==> exists i: nat, j: nat :: ProgramRace(sys.program.past, ms, i, j)
  {
    RunsAreOrderly(hs, sys, ms);
    DetectorExactWhileGrowing(ms, sys.graph.nodes);
    var t, accs := sys.graph.nodes, Accesses(ms);
    if H.HasRace(t, accs) {
      var i: nat, j: nat :| H.ConflictAt(t, accs, i, j);
      RaceIsConflict(sys, ms, i, j);
    }
    forall i: nat, j: nat | ProgramRace(sys.program.past, ms, i, j)
      ensures H.HasRace(t, accs)
    {
      RaceIsConflict(sys, ms, i, j);
    }
  }

  lemma ReportNamesConflict(t: Tree, accs: seq<H.Access>, v: H.Violation) returns (i: nat, j: nat)
    requires Rooted(t) && H.ViolationReal(t, accs, v)
    ensures H.ConflictAt(t, accs, i, j) && H.Names(v, accs[i], accs[j])
  {
    i, j :| H.ConflictAt(t, accs, i, j) && H.Names(v, accs[i], accs[j]);
  }

  /** What is reported happened: both steps made the accesses named, and the program left them unordered. */
  lemma ReportsRealRaces(hs: seq<Happening>, sys: System, ms: seq<Moment>) returns (i: nat, j: nat)
    requires Runs(hs, sys, ms) && Observed(ms) && RunMoments(ms).violation.Some?
    ensures ProgramRace(sys.program.past, ms, i, j)
    ensures H.Names(RunMoments(ms).violation.value, ms[i].access, ms[j].access)
  {
    RunsAreOrderly(hs, sys, ms);
    DetectorExactWhileGrowing(ms, sys.graph.nodes);
    i, j := ReportNamesConflict(sys.graph.nodes, Accesses(ms), RunMoments(ms).violation.value);
    RaceIsConflict(sys, ms, i, j);
  }

  // ---------------------------------------------------------------- a run that inverts the tree's order

  function Acts(actions: seq<Action>): (r: seq<Happening>)
    ensures |r| == |actions| && forall i | 0 <= i < |r| :: r[i] == Act(actions[i])
  {
    seq(|actions|, i requires 0 <= i < |actions| => Act(actions[i]))
  }

  lemma {:induction false} ReachedRuns(actions: seq<Action>, sys: System)
    requires Program.Reaches(actions, sys)
    ensures Runs(Acts(actions), sys, [])
    decreases |actions|
  {
    hide May;
    hide Do;
    hide Begin;
    if actions == [] {
      assert Acts(actions) == [];
    } else {
      var n := |actions| - 1;
      var h :| Program.Reaches(actions[..n], h) && May(h, actions[n]) && sys == Do(h, actions[n]);
      ReachedRuns(actions[..n], h);
      assert Happens(h, [], Act(actions[n]), sys, []);
      hide Happens;
      hide Program.Reaches;
      hide Runs;
      NextHappens(Acts(actions[..n]), h, [], Act(actions[n]), sys, []);
      assert Acts(actions) == Acts(actions[..n]) + [Act(actions[n])];
    }
  }

  lemma {:induction false} NextHappens(hs: seq<Happening>, h: System, before: seq<Moment>, happening: Happening, sys: System, ms: seq<Moment>)
    requires Runs(hs, h, before) && Happens(h, before, happening, sys, ms)
    ensures Runs(hs + [happening], sys, ms)
  {
    hide Happens;
    var next, n := hs + [happening], |hs|;
    assert next[..n] == hs && next[n] == happening;
    assert Runs(next[..n], h, before) && Happens(h, before, next[n], sys, ms);
  }

  /** Task `u`, in step `b`, is blocked on root task `c`, which is in step `x`. */
  predicate RunsRoot(s: State, u: nat, c: nat, b: nat, x: nat) {
    && u != c && u in s.tasks && c in s.tasks && s.tasks[u].now == {b} && s.tasks[c].now == {x}
    && x in s.past && b in s.past[x] && s.tasks[u].blocked && !s.tasks[u].done && s.tasks[u].team == {c}
  }

  lemma RootRuns(sys: System, th: nat, u: nat, c: nat) returns (b: nat, x: nat)
    requires SystemOk(sys) && Acting(sys, th, u) && u != 0 && c !in sys.program.tasks
    requires Working(sys.program.tasks, u) && sys.program.tasks[u].team == {}
    ensures May(sys, RunRoot(th, c)) && Do(sys, RunRoot(th, c)).running == sys.running && c != 0
    ensures var next := Do(sys, RunRoot(th, c));
            && c in next.ready && RunsRoot(next.program, u, c, b, x) && Working(next.program.tasks, c)
  {
    GuardsAgree(sys, RunRoot(th, c));
    SeesCurrentStep(sys, th, H.READ, NO_LOCKS);
    b := sys.graph.nodes[Top(sys.graph.cur[th])].curStep;
    x := |sys.program.tree| + 1;
  }

  lemma RootEnds(sys: System, th: nat, u: nat, c: nat, b: nat, x: nat)
    requires SystemOk(sys) && RunsRoot(sys.program, u, c, b, x) && Working(sys.program.tasks, c) && c != 0
    requires Acting(sys, th, c) && |sys.running[th]| > 1 && Acting(sys.(running := sys.running[th := Pop(sys.running[th])]), th, u)
    ensures May(sys, End(th)) && Acting(Do(sys, End(th)), th, u)
    ensures RunsRoot(Do(sys, End(th)).program, u, c, b, x) && Do(sys, End(th)).program.tasks[c].done
  {
    GuardsAgree(sys, End(th));
  }

  lemma RootOver(sys: System, th: nat, u: nat, c: nat, b: nat, x: nat)
    requires SystemOk(sys) && RunsRoot(sys.program, u, c, b, x) && sys.program.tasks[c].done && Acting(sys, th, u)
    ensures May(sys, RootDone(th)) && Do(sys, RootDone(th)).running == sys.running
    ensures var p := Do(sys, RootDone(th)).program;
            Working(p.tasks, u) && p.tasks[u].now == {b} && x in p.past && b in p.past[x]
  {
    GuardsAgree(sys, RootDone(th));
  }

  lemma TouchedIn(hs: seq<Happening>, sys: System, ms: seq<Moment>, th: nat, b: nat) returns (m: Moment)
    requires Runs(hs, sys, ms) && SystemOk(sys) && MayTouch(sys, th, NO_LOCKS) && Actor(sys, th) != 0
    requires sys.program.tasks[Actor(sys, th)].now == {b}
    ensures m.access.step == b && Runs(hs + [Touch(th, H.WRITE, NO_LOCKS)], sys, ms + [m])
  {
    SeesCurrentStep(sys, th, H.WRITE, NO_LOCKS);
    m := Seen(sys, th, H.WRITE, NO_LOCKS)[0];
    assert m.access.step in {b};
    NextHappens(hs, sys, ms, Touch(th, H.WRITE, NO_LOCKS), sys, ms + [m]);
  }

  /** The end of `ms` inverts the order of the tree: the last access was made in a step that
      precedes the step of the one before. */
  ghost predicate EndsInverted(sys: System, ms: seq<Moment>) {
    |ms| >= 2 && StepAfter(sys.graph.nodes, ms[|ms| - 1].access.step, ms[|ms| - 2].access.step)
  }

  /** Whoever runs a root task that writes, and then writes itself, inverts the order. */
  lemma RootInverts(hs: seq<Happening>, sys: System, ms: seq<Moment>, th: nat, u: nat, c: nat)
      returns (hs': seq<Happening>, sys': System, ms': seq<Moment>)
    requires Runs(hs, sys, ms) && Acting(sys, th, u) && u != 0 && th < NUM_THREADS && c !in sys.program.tasks
    requires Working(sys.program.tasks, u) && sys.program.tasks[u].team == {}
    ensures Runs(hs', sys', ms') && EndsInverted(sys', ms')
  {
    hide Do;
    hide May;
    hide Runs;
    hide SystemOk;
    RunsAreOrderly(hs, sys, ms);
    var b, x := RootRuns(sys, th, u, c);
    hs', sys', ms' := Acted(hs, sys, ms, RunRoot(th, c));
    StackDiscipline.ReadyActs(sys', th, c);
    hs', sys', ms' := Acted(hs', sys', ms', Start(th, c));
    var m := TouchedIn(hs', sys', ms', th, x);
    hs', ms' := hs' + [Touch(th, H.WRITE, NO_LOCKS)], ms' + [m];
    RootEnds(sys', th, u, c, b, x);
    hs', sys', ms' := Acted(hs', sys', ms', End(th));
    RootOver(sys', th, u, c, b, x);
    hs', sys', ms' := Acted(hs', sys', ms', RootDone(th));
    m := TouchedIn(hs', sys', ms', th, b);
    hs', ms' := hs' + [Touch(th, H.WRITE, NO_LOCKS)], ms' + [m];
    PastPrecedes(sys', b, x);
  }

  lemma PastPrecedes(sys: System, b: nat, x: nat)
    requires SystemOk(sys) && x in sys.program.past && b in sys.program.past[x]
    ensures StepAfter(sys.graph.nodes, b, x)
  {
    assert PastOk(sys.program, x);
  }

  lemma Acted(hs: seq<Happening>, sys: System, ms: seq<Moment>, a: Action)
      returns (hs': seq<Happening>, sys': System, ms': seq<Moment>)
    requires Runs(hs, sys, ms) && May(sys, a)
    ensures Runs(hs', sys', ms') && sys' == Do(sys, a) && ms' == ms && RunOk(sys')
  {
    hs', sys', ms' := hs + [Act(a)], Do(sys, a), ms;
    NextHappens(hs, sys, ms, Act(a), sys', ms);
    RunsAreOrderly(hs', sys', ms');
  }

  lemma TaskOneStarted() returns (actions: seq<Action>, sys: System)
    ensures Program.Reaches(actions, sys) && Acting(sys, 1, 1) && 2 !in sys.program.tasks
    ensures Working(sys.program.tasks, 1) && sys.program.tasks[1].team == {}
  {
    hide SystemOk;
    hide May;
    hide Do;
    hide Program.Reaches;
    var before, s0 := StackDiscipline.OnceSpawned();
    sys := StackDiscipline.StartsUnblocked(before, s0, 1, 1);
    actions := before + [Start(1, 1)];
    assert 2 !in s0.program.tasks.Keys;
  }

  /** Such a run: task 1 is spawned and started, and runs task 2 as a root task. */
  lemma InversionHappens() returns (hs: seq<Happening>, sys: System, ms: seq<Moment>)
    ensures Runs(hs, sys, ms) && EndsInverted(sys, ms)
  {
    var actions, s1 := TaskOneStarted();
    ReachedRuns(actions, s1);
    hide Program.Reaches;
    hide Runs;
    hs, sys, ms := RootInverts(Acts(actions), s1, [], 1, 1, 2);
  }
}
