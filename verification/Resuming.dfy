/** In which step a task goes on.  Spawning, waiting and starting begin a step; running a root
    task does not, so after it the task goes on in a step that is no longer the last thing
    under its node.  Which tasks do so can be told from the program's actions alone. */
module Resuming {
  import opened Dpst
  import opened Capture
  import opened Ahead
  import opened ForkJoin
  import opened Program
  import StackDiscipline

  /** The task's current step is the last child of the node it works under. */
  predicate InLatest(s: State, t: nat)
    requires Placed(s, t)
  {
    var o := OwnerOf(s.places[t]);
    var b := s.tree[o].curStep;
    IsStep(s.tree, b) && s.tree[b].seqNum + 1 == s.tree[o].numChildren
  }

  /** Whatever hangs there after the current step is the FINISH of a root task. */
  predicate RootsLater(s: State, t: nat)
    requires Placed(s, t)
  {
    var o := OwnerOf(s.places[t]);
    forall r: nat {:trigger s.tree[r].parent} | 2 <= r < |s.tree| && s.tree[r].parent == o && r > s.tree[o].curStep ::
      s.tree[r].spRootAndWait
  }

  ghost predicate AllRootsLater(s: State) {
    forall t: nat {:trigger RootsLater(s, t)} {:trigger Live(s, t)} | t != 0 && Live(s, t) :: Placed(s, t) && RootsLater(s, t)
  }

  // ---------------------------------------------------------------- what the primitives do

  /** A task that has just begun a step is in the latest one. */
  lemma FreshStepIsLatest(s: State, u: nat)
    requires Shape(s) && CanAct(s, u)
    ensures Placed(FreshStep(s, u), u) && InLatest(FreshStep(s, u), u) && RootsLater(FreshStep(s, u), u)
  {
    FreshStepShape(s, u);
    assert Placed(s, u) && Placed(FreshStep(s, u), u);
    OwnerIsOwn(s, u);
  }

  /** Running a root task puts its FINISH after the current step. */
  lemma RootPassesStep(s: State, u: nat, c: nat)
    requires Shape(s) && CanCreate(s, u, c, true) && Placed(s, u) && Placed(NewTask(s, u, c, true), u)
    requires s.tree[OwnerOf(s.places[u])].curStep != 0
    ensures !InLatest(NewTask(s, u, c, true), u)
    ensures RootsLater(s, u) ==> RootsLater(NewTask(s, u, c, true), u)
  {
    var o := OwnerOf(s.places[u]);
    assert CurStepOk(s.tree, o) && NodeOk(s.tree, s.tree[o].curStep);
  }

  /** Steps of tasks that are not touched stay as they are. */
  lemma LatestStable(s: State, s': State, w: set<nat>, t: nat)
    requires Shape(s) && Shape(s') && Touches(s, s', w) && t !in w && Placed(s, t) && Placed(s', t)
    ensures InLatest(s', t) == InLatest(s, t) && (RootsLater(s, t) ==> RootsLater(s', t))
  {
    assert Untouched(s, s', t);
    OwnerIsOwn(s, t);
    var o := OwnerOf(s.places[t]);
    var b := s.tree[o].curStep;
    assert s'.tree[o] == s.tree[o] && CurStepOk(s.tree, o) && CurStepOk(s'.tree, o);
    if b != 0 { assert SameStructure(s.tree[b], s'.tree[b]); }
    forall r: nat | 2 <= r < |s'.tree| && s'.tree[r].parent == o
      ensures r < |s.tree| && SameStructure(s.tree[r], s'.tree[r])
    {
      NoNewChild(s.tree, s'.tree, o, r);
    }
  }

  /** A node whose count of children is as it was has gained none. */
  lemma NoNewChild(t: Tree, u: Tree, o: nat, r: nat)
    requires WellFormed(t) && WellFormed(u) && Extends(t, u) && IsNode(t, o) && u[o].numChildren == t[o].numChildren
    requires 2 <= r < |u| && u[r].parent == o
    ensures r < |t|
  {
    assert NodeOk(u, r);
    assert HasChildAt(t, o, u[r].seqNum);
    var c: nat :| IsChildAt(t, o, u[r].seqNum, c);
    assert SameStructure(t[c], u[c]);
    assert c < r ==> Siblings(u, c, r);
  }

  // ---------------------------------------------------------------- what the actions do

  lemma SpawnLatest(s: State, u: nat, c: nat)
    requires ProgramOk(s) && CanAct(s, u) && c !in s.tasks
    ensures var s' := DoSpawn(s, u, c);
            && Placed(s', u) && InLatest(s', u) && RootsLater(s', u)
            && Placed(s', c) && InLatest(s', c) && RootsLater(s', c)
  {
    var s1 := WithScope(s, u);
    WithScopeKeeps(s, u);
    CanActLater(s1, u, c, false);
    var s2 := NewTask(s1, u, c, false);
    NewTaskShape(s1, u, c, false);
    var s3 := FreshStep(s2, c);
    FreshStepShape(s2, c);
    FreshStepIsLatest(s2, c);
    var s4 := FreshStep(s3, u);
    FreshStepShape(s3, u);
    FreshStepIsLatest(s3, u);
    FreshStepTouches(s3, u);
    assert Placed(s4, c);
    LatestStable(s3, s4, {u}, c);
  }

  lemma RunRootLatest(s: State, u: nat, c: nat)
    requires ProgramOk(s) && CanCreate(s, u, c, true) && u != 0 && Placed(s, u) && RootsLater(s, u)
    ensures var s' := DoRunRoot(s, u, c);
            && Placed(s', u) && !InLatest(s', u) && RootsLater(s', u)
            && Placed(s', c) && InLatest(s', c) && RootsLater(s', c)
  {
    assert NodesOk(s, u);
    CanActLater(s, u, c, true);
    var s2 := NewTask(s, u, c, true);
    NewTaskShape(s, u, c, true);
    assert Placed(s2, u);
    RootPassesStep(s, u, c);
    FreshStepShape(s2, c);
    FreshStepIsLatest(s2, c);
    FreshStepTouches(s2, c);
    assert Placed(FreshStep(s2, c), u);
    LatestStable(s2, FreshStep(s2, c), {c}, u);
  }

  lemma RunRootOfHead(s: State, c: nat)
    requires ProgramOk(s) && CanCreate(s, 0, c, true)
    ensures var s' := DoRunRoot(s, 0, c); Placed(s', c) && InLatest(s', c) && RootsLater(s', c)
  {
    CanActLater(s, 0, c, true);
    NewTaskShape(s, 0, c, true);
    FreshStepIsLatest(NewTask(s, 0, c, true), c);
  }

  lemma WaitLatest(s: State, u: nat)
    requires ProgramOk(s) && CanJoin(s, u) && s.places[u].fin != 0
    ensures var s' := DoWait(s, u); Placed(s', u) && InLatest(s', u) && RootsLater(s', u)
  {
    WaitKeeps(s, u);
    JoinShape(s, u);
    FreshStepIsLatest(Join(s, u), u);
  }

  /** Closing a root task's scope and returning change nothing about steps. */
  lemma SamePlaceLatest(s: State, s': State, t: nat)
    requires Placed(s, t) && Placed(s', t) && s'.tree == s.tree && OwnerOf(s'.places[t]) == OwnerOf(s.places[t])
    ensures InLatest(s', t) == InLatest(s, t) && RootsLater(s', t) == RootsLater(s, t)
  {
  }

  lemma ActorLatest(sys: System, a: Action)
    requires SystemOk(sys) && AllRootsLater(sys.program) && May(sys, a) && Actor(sys, a.thread) != 0
    requires Live(Do(sys, a).program, Actor(sys, a.thread)) && !a.Start?
    ensures var u, s' := Actor(sys, a.thread), Do(sys, a).program;
            && Placed(sys.program, u) && Placed(s', u) && RootsLater(s', u)
            && (InLatest(s', u) <==> a.Spawn? || a.Wait? || (!a.RunRoot? && InLatest(sys.program, u)))
  {
    var p, u := sys.program, Actor(sys, a.thread);
    OwnerOnTop(sys, a.thread, u);
    assert RootsLater(p, u);
    match a
    case Spawn(th, c) => SpawnLatest(p, u, c);
    case RunRoot(th, c) => RunRootLatest(p, u, c);
    case RootDone(th) =>
      RootDoneKeeps(p, u);
      assert Placed(Join(p, u), u);
      SamePlaceLatest(p, Join(p, u), u);
    case Wait(th) => WaitLatest(p, u);
    case End(th) =>
  }

  lemma NewcomerLatest(sys: System, a: Action)
    requires SystemOk(sys) && AllRootsLater(sys.program) && May(sys, a) && (a.Spawn? || a.RunRoot?)
    ensures var s' := Do(sys, a).program;
            Placed(s', a.task) && InLatest(s', a.task) && RootsLater(s', a.task)
  {
    var p, u := sys.program, Actor(sys, a.thread);
    OwnerOnTop(sys, a.thread, u);
    if a.Spawn? {
      SpawnLatest(p, u, a.task);
    } else if u == 0 {
      RunRootOfHead(p, a.task);
    } else {
      assert RootsLater(p, u);
      RunRootLatest(p, u, a.task);
    }
  }

  lemma PlacedIn(sys: System, t: nat)
    requires SystemOk(sys) && t in sys.program.tasks
    ensures Shape(sys.program) && Placed(sys.program, t)
  {
  }

  lemma OtherLatest(sys: System, a: Action, t: nat)
    requires SystemOk(sys) && AllRootsLater(sys.program) && May(sys, a) && SystemOk(Do(sys, a))
    requires t != 0 && t in sys.program.tasks && t != Actor(sys, a.thread) && Live(Do(sys, a).program, t)
    ensures var p, s' := sys.program, Do(sys, a).program;
            Live(p, t) && Placed(p, t) && Placed(s', t) && RootsLater(s', t) && InLatest(s', t) == InLatest(p, t)
  {
    hide SystemOk;
    hide May;
    hide Do;
    hide Shape;
    hide Placed;
    var p, s' := sys.program, Do(sys, a).program;
    StackDiscipline.DoTouches(sys, a);
    assert Untouched(p, s', t) && Live(p, t);
    PlacedIn(sys, t);
    PlacedIn(Do(sys, a), t);
    LatestStable(p, s', {Actor(sys, a.thread)}, t);
  }

  // ---------------------------------------------------------------- whole runs

  /** The tasks that have run a root task and begun no step since. */
  function GoingOn(tasks: set<nat>, u: nat, a: Action): set<nat> {
    match a
    case Spawn(_, _) => tasks - {u}
    case Wait(_) => tasks - {u}
    case RunRoot(_, _) => tasks + {u}
    case _ => tasks
  }

  ghost predicate Tracks(sys: System, tasks: set<nat>) {
    && tasks <= sys.program.tasks.Keys
    && forall t: nat {:trigger t in tasks} | t != 0 && Live(sys.program, t) ::
         Placed(sys.program, t) && (InLatest(sys.program, t) <==> t !in tasks)
  }

  lemma DoTracks(sys: System, a: Action, tasks: set<nat>)
    requires SystemOk(sys) && AllRootsLater(sys.program) && Tracks(sys, tasks) && May(sys, a)
    ensures AllRootsLater(Do(sys, a).program) && Tracks(Do(sys, a), GoingOn(tasks, Actor(sys, a.thread), a))
  {
    hide SystemOk;
    hide May;
    hide Do;
    hide InLatest;
    hide RootsLater;
    var u, s', next := Actor(sys, a.thread), Do(sys, a).program, GoingOn(tasks, Actor(sys, a.thread), a);
    TracerFollows(sys, a);
    TasksGrow(sys, a);
    forall t: nat | t != 0 && Live(s', t)
      ensures Placed(s', t) && RootsLater(s', t) && (InLatest(s', t) <==> t !in next)
    {
      if t !in sys.program.tasks {
        NewcomerLatest(sys, a);
      } else if t != u {
        OtherLatest(sys, a, t);
      } else if a.Start? {
        assert Live(sys.program, t);
      } else {
        OwnerOnTop(sys, a.thread, u);
        ActorLatest(sys, a);
      }
    }
  }

  lemma TasksGrow(sys: System, a: Action)
    requires SystemOk(sys) && May(sys, a)
    ensures var before, after := sys.program.tasks.Keys, Do(sys, a).program.tasks.Keys;
            && after == (if a.Spawn? || a.RunRoot? then before + {a.task} else before)
            && (if a.Start? then Do(sys, a).program == sys.program
                else Actor(sys, a.thread) in before && Acting(sys, a.thread, Actor(sys, a.thread)))
  {
    var p, u := sys.program, Actor(sys, a.thread);
    if !a.Start? { OwnerOnTop(sys, a.thread, u); }
    match a
    case Spawn(_, c) => SpawnKeeps(p, u, c);
    case RunRoot(_, c) => RunRootKeeps(p, u, c);
    case RootDone(_) =>
    case Start(_, _) =>
    case Wait(_) => WaitKeeps(p, u);
    case End(_) =>
  }

  lemma SomeTracked(sys: System) returns (tasks: set<nat>)
    requires SystemOk(sys)
    ensures Tracks(sys, tasks)
  {
    tasks := set t | t in sys.program.tasks && (Placed(sys.program, t) ==> !InLatest(sys.program, t));
    forall t: nat | t != 0 && Live(sys.program, t)
      ensures Placed(sys.program, t)
    {
      PlacedIn(sys, t);
    }
  }

  lemma DoRuns(sys: System, a: Action)
    requires May(sys, a)
    ensures a.thread < |sys.running| && (a.Start? || sys.running[a.thread] != [])
    ensures Do(sys, a).running == DoRunning(sys.running, a)
  {
  }

  /** The tasks on each thread, told from the actions alone. */
  function Threads(actions: seq<Action>): seq<seq<nat>>
    decreases |actions|
  {
    if actions == [] then Begin().running
    else
      var n := |actions| - 1;
      var r, a := Threads(actions[..n]), actions[n];
      if a.thread < |r| && (a.Start? || r[a.thread] != []) then DoRunning(r, a) else r
  }

  /** The tasks that have run a root task and begun no step since, told from the actions alone. */
  function Resumed(actions: seq<Action>): set<nat>
    decreases |actions|
  {
    if actions == [] then {}
    else
      var n := |actions| - 1;
      var r, a := Threads(actions[..n]), actions[n];
      var u := if a.thread < |r| && r[a.thread] != [] then Top(r[a.thread]) else 0;
      GoingOn(Resumed(actions[..n]), u, a)
  }

  lemma BeginTracks()
    ensures AllRootsLater(Begin().program) && Tracks(Begin(), {})
  {
    assert forall t: nat :: Live(Begin().program, t) ==> t == 0;
  }

  /** In every reached state a task is in the last step under its node exactly when the actions
      say that it has begun a step since it last ran a root task. */
  lemma {:induction false} ReachedTracks(actions: seq<Action>, sys: System)
    requires Program.Reaches(actions, sys)
    ensures SystemOk(sys) && AllRootsLater(sys.program) && sys.running == Threads(actions) && Tracks(sys, Resumed(actions))
    decreases |actions|
  {
    hide SystemOk;
    hide May;
    hide Do;
    hide AllRootsLater;
    hide Tracks;
    if actions == [] {
      BeginOk();
      BeginTracks();
    } else {
      var n := |actions| - 1;
      var h :| Program.Reaches(actions[..n], h) && May(h, actions[n]) && sys == Do(h, actions[n]);
      ReachedTracks(actions[..n], h);
      TracerFollows(h, actions[n]);
      DoRuns(h, actions[n]);
      DoTracks(h, actions[n], Resumed(actions[..n]));
    }
  }
}
