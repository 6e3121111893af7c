/** Runs of the fork-join program together with the tracer.  Threads interleave freely; each
    works on a stack of tasks, of which the top one acts.  Every action of the program is
    one Capture event of the tracer, except returning from spawn_root_and_wait, for which
    the tracer has none. */
module Program {
  import opened Dpst
  import opened Capture
  import opened Ahead
  import opened ForkJoin

  /** `ready` holds the tasks that were created and have not started. */
  datatype System = System(graph: Graph, program: State, running: seq<seq<nat>>, ready: set<nat>)

  datatype Action =
    | Spawn(thread: nat, task: nat)
    | RunRoot(thread: nat, task: nat)
    | RootDone(thread: nat)
    | Start(thread: nat, task: nat)
    | Wait(thread: nat)
    | End(thread: nat)

  function Begin(): System {
    System(Initial(),
           State(Initial().nodes, map[0 := Task({}, {}, {}, false, false)], map[], map[0 := Place(HEAD, 0, 0)]),
           Initial().tids, {})
  }

  /** The task that acts on a thread. */
  predicate Acting(sys: System, thread: nat, u: nat) {
    thread < |sys.running| && sys.running[thread] != [] && Top(sys.running[thread]) == u
  }

  function Actor(sys: System, thread: nat): nat {
    if thread < |sys.running| && sys.running[thread] != [] then Top(sys.running[thread]) else 0
  }

  /** What the program may do: wait only with a spawn outstanding, run a root task only with
      none, go on after a wait only when everything waited for is done.  `GuardsAgree` states
      the same without places and trees. */
  predicate May(sys: System, a: Action) {
    var p, u := sys.program, Actor(sys, a.thread);
    && a.thread < |sys.running|
    && (a.Start? || sys.running[a.thread] != [])
    && match a
       case Spawn(_, c) => CanAct(p, u) && c !in p.tasks
       case RunRoot(_, c) => CanCreate(p, u, c, true)
       case RootDone(_) => CanJoin(p, u) && p.places[u].root != 0
       case Start(_, c) => c in sys.ready
       case Wait(_) => CanJoin(p, u) && p.places[u].fin != 0
       case End(_) => CanAct(p, u) && u != 0
  }

  function TracerEvent(a: Action): seq<Event> {
    match a
    case Spawn(th, c) => [SpawnOnly(th, c)]
    case RunRoot(th, c) => [SpawnAndWait(th, c)]
    case RootDone(_) => []
    case Start(th, c) => [Execute(th, c)]
    case Wait(th) => [WaitOnly(th)]
    case End(th) => [Return(th)]
  }

  /** The tracer's graph after an action; it would be stuck if the event were not enabled. */
  function Traced(g: Graph, a: Action): Graph {
    var e := TracerEvent(a);
    if e != [] && Enabled(g, e[0]) then Apply(g, e[0]) else g
  }

  predicate TracerReady(g: Graph, a: Action) {
    TracerEvent(a) == [] || Enabled(g, TracerEvent(a)[0])
  }

  // ---------------------------------------------------------------- the program's own steps

  function WithScope(s: State, u: nat): State
    requires CanAct(s, u)
  {
    if s.places[u].fin == 0 then OpenFin(s, u) else s
  }

  lemma CanActLater(s: State, u: nat, c: nat, root: bool)
    requires CanCreate(s, u, c, root)
    ensures CanAct(NewTask(s, u, c, root), c)
    ensures CanAct(FreshStep(NewTask(s, u, c, root), c), c)
    ensures !root ==> CanAct(FreshStep(NewTask(s, u, c, root), c), u)
  {
  }

  /** Spawning: the child begins its first step, the spawner a new one. */
  function DoSpawn(s: State, u: nat, c: nat): State
    requires CanAct(s, u) && c !in s.tasks
  {
    var s1 := WithScope(s, u);
    CanActLater(s1, u, c, false);
    FreshStep(FreshStep(NewTask(s1, u, c, false), c), u)
  }

  function DoRunRoot(s: State, u: nat, c: nat): State
    requires CanCreate(s, u, c, true)
  {
    CanActLater(s, u, c, true);
    FreshStep(NewTask(s, u, c, true), c)
  }

  ghost function DoWait(s: State, u: nat): State
    requires CanJoin(s, u)
  {
    var s1 := Join(s, u);
    if CanAct(s1, u) then FreshStep(s1, u) else s1
  }

  ghost function DoProgram(s: State, u: nat, a: Action): State
    requires match a
             case Spawn(_, c) => CanAct(s, u) && c !in s.tasks
             case RunRoot(_, c) => CanCreate(s, u, c, true)
             case RootDone(_) => CanJoin(s, u)
             case Start(_, _) => true
             case Wait(_) => CanJoin(s, u)
             case End(_) => u in s.tasks
  {
    match a
    case Spawn(_, c) => DoSpawn(s, u, c)
    case RunRoot(_, c) => DoRunRoot(s, u, c)
    case RootDone(_) => Join(s, u)
    case Start(_, _) => s
    case Wait(_) => DoWait(s, u)
    case End(_) => Finished(s, u)
  }

  function DoRunning(r: seq<seq<nat>>, a: Action): seq<seq<nat>>
    requires a.thread < |r| && (a.Start? || r[a.thread] != [])
  {
    match a
    case Start(th, c) => r[th := r[th] + [c]]
    case End(th) => r[th := Pop(r[th])]
    case _ => r
  }

  ghost function Do(sys: System, a: Action): System
    requires May(sys, a)
  {
    System(Traced(sys.graph, a), DoProgram(sys.program, Actor(sys, a.thread), a), DoRunning(sys.running, a),
           match a
           case Spawn(_, c) => sys.ready + {c}
           case RunRoot(_, c) => sys.ready + {c}
           case Start(_, c) => sys.ready - {c}
           case _ => sys.ready)
  }

  ghost predicate Reaches(actions: seq<Action>, sys: System)
    decreases |actions|
  {
    if actions == [] then sys == Begin()
    else
      var n := |actions| - 1;
      exists h :: Reaches(actions[..n], h) && May(h, actions[n]) && sys == Do(h, actions[n])
  }

  // ---------------------------------------------------------------- the tracer's stacks

  /** The nodes a task keeps on its thread's stack: its base and its open implicit FINISH. */
  function FrameOf(places: map<nat, Place>, t: nat): seq<nat> {
    if t !in places then []
    else if places[t].fin != 0 then [places[t].base, places[t].fin]
    else [places[t].base]
  }

  function Frames(places: map<nat, Place>, tasks: seq<nat>): seq<nat> {
    if tasks == [] then [] else Frames(places, Pop(tasks)) + FrameOf(places, Top(tasks))
  }

  lemma {:induction false} FramesSame(places: map<nat, Place>, places': map<nat, Place>, tasks: seq<nat>)
    requires forall i | 0 <= i < |tasks| :: FrameOf(places, tasks[i]) == FrameOf(places', tasks[i])
    ensures Frames(places, tasks) == Frames(places', tasks)
  {
    if tasks != [] {
      FramesSame(places, places', Pop(tasks));
    }
  }

  lemma {:induction false} FramesTop(places: map<nat, Place>, tasks: seq<nat>)
    requires tasks != [] && Top(tasks) in places
    ensures Frames(places, tasks) != [] && Top(Frames(places, tasks)) == OwnerOf(places[Top(tasks)])
    ensures places[Top(tasks)].fin != 0 ==>
            Pop(Frames(places, tasks)) == Frames(places, Pop(tasks)) + [places[Top(tasks)].base]
    ensures places[Top(tasks)].fin == 0 ==> Pop(Frames(places, tasks)) == Frames(places, Pop(tasks))
  {
  }

  // ---------------------------------------------------------------- what the tracer's nodes say

  predicate BaseShape(s: State, t: nat)
    requires Placed(s, t)
  {
    var p := s.places[t];
    && s.tree[p.base].youngNsChild != Async
    && !ImplicitFinish(s.tree, p.base)
    && (p.fin != 0 ==> ImplicitFinish(s.tree, p.fin))
  }

  /** An open implicit FINISH is known by its youngest child being an ASYNC; who has a scope
      open has a team to wait for. */
  predicate SpawnShape(s: State, t: nat)
    requires Placed(s, t)
  {
    && (s.places[t].fin != 0 ==> s.tree[s.places[t].fin].youngNsChild == Async)
    && (ScopeOf(s.places[t]) != 0 ==> s.tasks[t].team != {})
  }

  /** The tracer's current step is the step the task is in; in an implicit FINISH it was begun last. */
  predicate NowOk(s: State, t: nat)
    requires Placed(s, t)
  {
    var o := OwnerOf(s.places[t]);
    var b := s.tree[o].curStep;
    && (b != 0 ==> b < |s.tree| && s.tree[b].taskId == t && s.tasks[t].now == {b})
    && (t != 0 ==> b != 0)
    && (s.places[t].fin != 0 && b != 0 && b < |s.tree| ==> s.tree[b].seqNum + 1 == s.tree[o].numChildren)
  }

  predicate NodesOk(s: State, t: nat)
    requires Placed(s, t)
  {
    BaseShape(s, t) && SpawnShape(s, t) && NowOk(s, t)
  }

  /** Only tasks in `w`, and nodes of theirs, are changed. */
  ghost predicate Touches(s: State, s': State, w: set<nat>) {
    && Extends(s.tree, s'.tree)
    && (forall n {:trigger s'.tree[n]} | 1 <= n < |s.tree| && s.tree[n].taskId !in w :: s'.tree[n] == s.tree[n])
    && (forall t {:trigger Untouched(s, s', t)} | t in s.tasks && t !in w :: Untouched(s, s', t))
  }

  predicate Untouched(s: State, s': State, t: nat)
    requires t in s.tasks
  {
    && t in s'.tasks && t in s.places && t in s'.places && s'.places[t] == s.places[t]
    && s'.tasks[t].now == s.tasks[t].now && s'.tasks[t].done == s.tasks[t].done
    && s.tasks[t].team <= s'.tasks[t].team
  }

  lemma NodesOkUntouched(s: State, s': State, w: set<nat>, t: nat)
    requires Placed(s, t) && Placed(s', t) && Touches(s, s', w) && t !in w && NodesOk(s, t)
    ensures NodesOk(s', t)
  {
    assert Untouched(s, s', t);
    OwnerIsOwn(s, t);
  }

  lemma TouchesTransitive(s: State, s1: State, s2: State, w: set<nat>, w1: set<nat>, w2: set<nat>)
    requires Touches(s, s1, w1) && Touches(s1, s2, w2)
    requires forall t | t in s.tasks && t !in w :: t !in w1 && t !in w2
    requires Shape(s)
    ensures Touches(s, s2, w)
  {
    ExtendsTransitive(s.tree, s1.tree, s2.tree);
    forall n | 1 <= n < |s.tree| && s.tree[n].taskId !in w
      ensures s2.tree[n] == s.tree[n]
    {
      assert s.tree[n].taskId in s.tasks;
      assert s1.tree[n] == s.tree[n];
    }
    forall t | t in s.tasks && t !in w
      ensures Untouched(s, s2, t)
    {
      assert Untouched(s, s1, t);
      assert Untouched(s1, s2, t);
    }
  }

  // ---------------------------------------------------------------- the primitives and the nodes

  lemma FreshStepTouches(s: State, u: nat)
    requires Shape(s) && CanAct(s, u)
    ensures Touches(s, FreshStep(s, u), {u})
  {
    assert Placed(s, u);
    OwnerIsOwn(s, u);
    FreshStepShape(s, u);
  }

  lemma OpenFinTouches(s: State, u: nat)
    requires Shape(s) && CanAct(s, u) && s.places[u].fin == 0
    ensures Touches(s, OpenFin(s, u), {u})
  {
    assert Placed(s, u);
    OwnerIsOwn(s, u);
    OpenFinShape(s, u);
  }

  lemma NewTaskTouches(s: State, u: nat, c: nat, root: bool)
    requires Shape(s) && CanCreate(s, u, c, root)
    ensures Touches(s, NewTask(s, u, c, root), {u})
  {
    assert Placed(s, u);
    OwnerIsOwn(s, u);
    NewTaskShape(s, u, c, root);
  }

  lemma FreshStepNodes(s: State, u: nat)
    requires CanAct(s, u) && Placed(s, u) && Placed(FreshStep(s, u), u) && BaseShape(s, u) && SpawnShape(s, u)
    ensures NodesOk(FreshStep(s, u), u)
  {
  }

  lemma OpenFinNodes(s: State, u: nat)
    requires CanAct(s, u) && s.places[u].fin == 0 && Placed(s, u) && Placed(OpenFin(s, u), u) && BaseShape(s, u)
    ensures BaseShape(OpenFin(s, u), u)
  {
  }

  lemma NewTaskNodes(s: State, u: nat, c: nat, root: bool)
    requires CanCreate(s, u, c, root) && Placed(s, u) && BaseShape(s, u) && c != 0
    requires Placed(NewTask(s, u, c, root), u) && Placed(NewTask(s, u, c, root), c)
    ensures BaseShape(NewTask(s, u, c, root), u) && SpawnShape(NewTask(s, u, c, root), u)
    ensures BaseShape(NewTask(s, u, c, root), c) && SpawnShape(NewTask(s, u, c, root), c)
    ensures root && NowOk(s, u) ==> NowOk(NewTask(s, u, c, root), u)
  {
  }

  lemma ShapesUntouched(s: State, s': State, w: set<nat>, t: nat)
    requires Placed(s, t) && Placed(s', t) && Touches(s, s', w) && t !in w && BaseShape(s, t) && SpawnShape(s, t)
    ensures BaseShape(s', t) && SpawnShape(s', t)
  {
    assert Untouched(s, s', t);
    OwnerIsOwn(s, t);
  }

  // ---------------------------------------------------------------- what the program's actions keep

  ghost predicate ProgramOk(s: State) {
    && Invariant(s) && 0 in s.tasks && s.tree[0].taskId == 0
    && forall t {:trigger NodesOk(s, t)} | t in s.tasks :: Placed(s, t) && NodesOk(s, t)
  }

  lemma OthersNodes(s: State, s': State, w: set<nat>)
    requires ProgramOk(s) && Invariant(s') && Touches(s, s', w)
    requires forall t | t in s'.tasks && t !in s.tasks :: t in w
    requires forall t | t in s'.tasks && t in w :: Placed(s', t) && NodesOk(s', t)
    requires 0 in s'.tasks
    ensures ProgramOk(s')
  {
    forall t | t in s'.tasks
      ensures Placed(s', t) && NodesOk(s', t)
    {
      assert Placed(s', t);
      if t !in w {
        assert Placed(s, t) && NodesOk(s, t);
        NodesOkUntouched(s, s', w, t);
      }
    }
  }

  lemma WithScopeKeeps(s: State, u: nat)
    requires ProgramOk(s) && CanAct(s, u)
    ensures Invariant(WithScope(s, u)) && CanAct(WithScope(s, u), u) && WithScope(s, u).places[u].fin != 0
    ensures WithScope(s, u).tasks == s.tasks && Touches(s, WithScope(s, u), {u})
    ensures Placed(WithScope(s, u), u) && BaseShape(WithScope(s, u), u)
  {
    assert Placed(s, u) && NodesOk(s, u);
    if s.places[u].fin == 0 {
      OpenFinKeeps(s, u);
      OpenFinTouches(s, u);
      assert Placed(OpenFin(s, u), u);
      OpenFinNodes(s, u);
    }
  }

  /** `c` has just been created by `u`, in whose scope nothing else happened. */
  ghost predicate Born(s: State, s': State, u: nat, c: nat) {
    && Invariant(s') && Touches(s, s', {u}) && c != u && c !in s.tasks && s'.tasks.Keys == s.tasks.Keys + {c}
    && Placed(s', u) && BaseShape(s', u) && SpawnShape(s', u)
    && CanAct(s', c) && Placed(s', c) && BaseShape(s', c) && SpawnShape(s', c) && Live(s', u)
    && s'.places[c] == Place(|s.tree|, 0, 0)
  }

  lemma NewTaskBorn(s: State, u: nat, c: nat, root: bool)
    requires Invariant(s) && CanCreate(s, u, c, root) && Placed(s, u) && BaseShape(s, u) && 0 in s.tasks
    ensures Born(s, NewTask(s, u, c, root), u, c)
    ensures root && NowOk(s, u) ==> NowOk(NewTask(s, u, c, root), u)
  {
    var s2 := NewTask(s, u, c, root);
    NewTaskKeeps(s, u, c, root);
    NewTaskTouches(s, u, c, root);
    assert Placed(s2, u) && Placed(s2, c);
    NewTaskNodes(s, u, c, root);
  }

  /** The new task begins its first step. */
  lemma FirstStep(s: State, s2: State, u: nat, c: nat)
    requires Shape(s) && Born(s, s2, u, c)
    ensures Born(s, FreshStep(s2, c), u, c) && NodesOk(FreshStep(s2, c), c)
    ensures NowOk(s2, u) ==> NowOk(FreshStep(s2, c), u)
  {
    var s3 := FreshStep(s2, c);
    FreshStepKeeps(s2, c);
    FreshStepTouches(s2, c);
    assert Placed(s3, u) && Placed(s3, c);
    FreshStepNodes(s2, c);
    ShapesUntouched(s2, s3, {c}, u);
    if NowOk(s2, u) {
      NodesOkUntouched(s2, s3, {c}, u);
    }
    TouchesTransitive(s, s2, s3, {u}, {u}, {c});
  }

  /** The spawner continues in a new step. */
  lemma Continue(s: State, s3: State, u: nat, c: nat)
    requires Born(s, s3, u, c) && NodesOk(s3, c) && CanAct(s3, u)
    ensures Invariant(FreshStep(s3, u)) && Touches(s3, FreshStep(s3, u), {u})
    ensures forall t | t == u || t == c ::
              Placed(FreshStep(s3, u), t) && NodesOk(FreshStep(s3, u), t) && Live(FreshStep(s3, u), t)
    ensures FreshStep(s3, u).tasks.Keys == s.tasks.Keys + {c} && FreshStep(s3, u).places == s3.places
  {
    var s4 := FreshStep(s3, u);
    FreshStepKeeps(s3, u);
    FreshStepTouches(s3, u);
    assert Placed(s4, u) && Placed(s4, c);
    FreshStepNodes(s3, u);
    NodesOkUntouched(s3, s4, {u}, c);
  }

  lemma SpawnKeeps(s: State, u: nat, c: nat)
    requires ProgramOk(s) && CanAct(s, u) && c !in s.tasks
    ensures ProgramOk(DoSpawn(s, u, c)) && Touches(s, DoSpawn(s, u, c), {u})
    ensures DoSpawn(s, u, c).tasks.Keys == s.tasks.Keys + {c}
    ensures Live(DoSpawn(s, u, c), c) && Live(DoSpawn(s, u, c), u)
    ensures DoSpawn(s, u, c).places[c] == Place(|WithScope(s, u).tree|, 0, 0)
    ensures DoSpawn(s, u, c).places[u] == WithScope(s, u).places[u]
  {
    var s1 := WithScope(s, u);
    WithScopeKeeps(s, u);
    CanActLater(s1, u, c, false);
    var s2 := NewTask(s1, u, c, false);
    NewTaskBorn(s1, u, c, false);
    assert s2.places[u] == s1.places[u];
    FirstStep(s1, s2, u, c);
    var s3 := FreshStep(s2, c);
    Continue(s1, s3, u, c);
    SpawnSteps(s, s1, s3, FreshStep(s3, u), u, c);
  }

  lemma SpawnSteps(s: State, s1: State, s3: State, s4: State, u: nat, c: nat)
    requires ProgramOk(s) && Shape(s1) && Touches(s, s1, {u}) && s1.tasks == s.tasks && c !in s.tasks
    requires Touches(s1, s3, {u}) && Touches(s3, s4, {u}) && Invariant(s4) && s4.tasks.Keys == s.tasks.Keys + {c}
    requires forall t | t == u || t == c :: Placed(s4, t) && NodesOk(s4, t)
    ensures ProgramOk(s4) && Touches(s, s4, {u})
  {
    SpawnTouches(s, s1, s3, s4, u, c);
    OthersNodes(s, s4, {u, c});
  }

  lemma SpawnTouches(s: State, s1: State, s3: State, s4: State, u: nat, c: nat)
    requires Shape(s) && Touches(s, s1, {u}) && Shape(s1) && Touches(s1, s3, {u}) && Touches(s3, s4, {u})
    requires s1.tasks == s.tasks && c !in s.tasks
    ensures Touches(s, s4, {u}) && Touches(s, s4, {u, c})
  {
    TouchesTransitive(s, s1, s3, {u}, {u}, {u});
    TouchesTransitive(s, s3, s4, {u}, {u}, {u});
  }

  lemma RunRootKeeps(s: State, u: nat, c: nat)
    requires ProgramOk(s) && CanCreate(s, u, c, true)
    ensures ProgramOk(DoRunRoot(s, u, c)) && Touches(s, DoRunRoot(s, u, c), {u})
    ensures DoRunRoot(s, u, c).tasks.Keys == s.tasks.Keys + {c}
    ensures Live(DoRunRoot(s, u, c), c) && Live(DoRunRoot(s, u, c), u)
    ensures DoRunRoot(s, u, c).places[c] == Place(|s.tree|, 0, 0)
    ensures DoRunRoot(s, u, c).places[u] == Place(s.places[u].base, 0, |s.tree|)
  {
    assert Placed(s, u) && NodesOk(s, u);
    var s2 := NewTask(s, u, c, true);
    assert s2.places[u] == Place(s.places[u].base, 0, |s.tree|);
    NewTaskBorn(s, u, c, true);
    RunRootSteps(s, s2, u, c);
  }

  lemma RunRootSteps(s: State, s2: State, u: nat, c: nat)
    requires ProgramOk(s) && Born(s, s2, u, c) && NowOk(s2, u)
    ensures var s3 := FreshStep(s2, c);
            && ProgramOk(s3) && Touches(s, s3, {u}) && s3.tasks.Keys == s.tasks.Keys + {c}
            && Live(s3, c) && Live(s3, u) && s3.places == s2.places
  {
    FirstStep(s, s2, u, c);
    OthersNodes(s, FreshStep(s2, c), {u, c});
  }

  lemma JoinTouches(s: State, u: nat)
    requires Shape(s) && CanJoin(s, u)
    ensures Touches(s, Join(s, u), {u})
  {
  }

  lemma RootDoneKeeps(s: State, u: nat)
    requires ProgramOk(s) && CanJoin(s, u) && s.places[u].root != 0
    ensures ProgramOk(Join(s, u)) && Touches(s, Join(s, u), {u}) && Join(s, u).tasks.Keys == s.tasks.Keys
    ensures Join(s, u).places[u] == Place(s.places[u].base, 0, 0)
  {
    assert Placed(s, u) && NodesOk(s, u);
    JoinKeeps(s, u);
    JoinTouches(s, u);
    assert Placed(Join(s, u), u);
    OthersNodes(s, Join(s, u), {u});
  }

  lemma WaitKeeps(s: State, u: nat)
    requires ProgramOk(s) && CanJoin(s, u) && s.places[u].fin != 0
    ensures CanAct(Join(s, u), u)
    ensures ProgramOk(DoWait(s, u)) && Touches(s, DoWait(s, u), {u}) && DoWait(s, u).tasks.Keys == s.tasks.Keys
    ensures DoWait(s, u).places[u] == Place(s.places[u].base, 0, 0)
  {
    var s1 := Join(s, u);
    assert Placed(s, u) && NodesOk(s, u);
    JoinKeeps(s, u);
    JoinTouches(s, u);
    assert Placed(s1, u);
    FreshStepKeeps(s1, u);
    FreshStepTouches(s1, u);
    assert Placed(FreshStep(s1, u), u);
    FreshStepNodes(s1, u);
    TouchesTransitive(s, s1, FreshStep(s1, u), {u}, {u}, {u});
    OthersNodes(s, DoWait(s, u), {u});
  }

  lemma EndKeeps(s: State, u: nat)
    requires ProgramOk(s) && u in s.tasks
    ensures ProgramOk(Finished(s, u)) && Touches(s, Finished(s, u), {u})
    ensures Finished(s, u).tasks.Keys == s.tasks.Keys && Finished(s, u).places == s.places
  {
    FinishedKeeps(s, u);
    forall t | t in s.tasks && t != u
      ensures Untouched(s, Finished(s, u), t)
    {
      assert Placed(s, t);
    }
    assert Placed(s, u) && NodesOk(s, u) && Placed(Finished(s, u), u);
    OthersNodes(s, Finished(s, u), {u});
  }

  // ---------------------------------------------------------------- the program and the tracer together

  /** Where a task sits on a thread's stack; every running task sits in one place. */
  predicate At(running: seq<seq<nat>>, th: nat, i: nat, t: nat) {
    th < |running| && i < |running[th]| && running[th][i] == t
  }

  ghost predicate RunningOk(sys: System) {
    && (forall th: nat, i: nat, t: nat {:trigger At(sys.running, th, i, t)} | At(sys.running, th, i, t) ::
          Live(sys.program, t) && t !in sys.ready)
    && (forall th: nat, i: nat, th': nat, j: nat, t: nat
          {:trigger At(sys.running, th, i, t), At(sys.running, th', j, t)}
          | At(sys.running, th, i, t) && At(sys.running, th', j, t) :: th == th' && i == j)
  }

  /** A task that has not started has its base on record in the tracer, and no scope open. */
  ghost predicate ReadyOk(sys: System) {
    && sys.ready == sys.graph.pending.Keys
    && forall c {:trigger sys.graph.pending[c]} | c in sys.ready ::
         Live(sys.program, c) && c in sys.program.places && sys.program.places[c] == Place(sys.graph.pending[c], 0, 0)
  }

  /** A thread's node stack is the frames of its tasks, one above the other. */
  ghost predicate StacksOk(sys: System) {
    && |sys.running| == NUM_THREADS && |sys.graph.cur| == NUM_THREADS && sys.graph.tids == sys.running
    && forall th: nat {:trigger sys.graph.cur[th]} | th < NUM_THREADS ::
         sys.graph.cur[th] == Frames(sys.program.places, sys.running[th])
  }

  ghost predicate SystemOk(sys: System) {
    ProgramOk(sys.program) && sys.graph.nodes == sys.program.tree && StacksOk(sys) && RunningOk(sys) && ReadyOk(sys)
  }

  /** Only the acting task's own frame may change. */
  lemma OtherFrames(sys: System, s': State, th: nat, u: nat)
    requires StacksOk(sys) && RunningOk(sys) && Acting(sys, th, u) && Touches(sys.program, s', {u})
    ensures forall th': nat | th' < NUM_THREADS && th' != th ::
              Frames(s'.places, sys.running[th']) == Frames(sys.program.places, sys.running[th'])
    ensures Frames(s'.places, Pop(sys.running[th])) == Frames(sys.program.places, Pop(sys.running[th]))
  {
    var p, r := sys.program, sys.running;
    assert At(r, th, |r[th]| - 1, u);
    forall th': nat | th' < NUM_THREADS && th' != th
      ensures Frames(s'.places, r[th']) == Frames(p.places, r[th'])
    {
      forall i: nat | i < |r[th']|
        ensures FrameOf(p.places, r[th'][i]) == FrameOf(s'.places, r[th'][i])
      {
        assert At(r, th', i, r[th'][i]);
        assert Untouched(p, s', r[th'][i]);
      }
      FramesSame(p.places, s'.places, r[th']);
    }
    forall i: nat | i < |Pop(r[th])|
      ensures FrameOf(p.places, Pop(r[th])[i]) == FrameOf(s'.places, Pop(r[th])[i])
    {
      assert At(r, th, i, r[th][i]);
      assert Untouched(p, s', r[th][i]);
    }
    FramesSame(p.places, s'.places, Pop(r[th]));
  }

  /** The acting task's owner is on top of its thread's node stack. */
  lemma OwnerOnTop(sys: System, th: nat, u: nat)
    requires SystemOk(sys) && Acting(sys, th, u)
    ensures Live(sys.program, u) && Placed(sys.program, u) && NodesOk(sys.program, u)
    ensures sys.graph.cur[th] != [] && Top(sys.graph.cur[th]) == OwnerOf(sys.program.places[u])
    ensures StructuralNode(sys.graph.nodes, Top(sys.graph.cur[th]))
    ensures sys.graph.nodes[Top(sys.graph.cur[th])].taskId == u
    ensures sys.graph.cur[th] == Frames(sys.program.places, Pop(sys.running[th])) + FrameOf(sys.program.places, u)
  {
    assert At(sys.running, th, |sys.running[th]| - 1, u);
    assert Placed(sys.program, u) && NodesOk(sys.program, u);
    OwnerIsOwn(sys.program, u);
    FramesTop(sys.program.places, sys.running[th]);
  }

  /** Tasks that have not started, and running tasks, are not affected by others. */
  lemma ReadyStable(sys: System, sys': System, u: nat)
    requires ReadyOk(sys) && u !in sys.ready && Touches(sys.program, sys'.program, {u})
    requires sys'.ready == sys.ready && sys'.graph.pending == sys.graph.pending
    ensures ReadyOk(sys')
  {
    forall c | c in sys'.ready
      ensures Live(sys'.program, c) && c in sys'.program.places && sys'.program.places[c] == Place(sys'.graph.pending[c], 0, 0)
    {
      assert Untouched(sys.program, sys'.program, c);
    }
  }

  lemma ReadyGrows(sys: System, sys': System, u: nat, c: nat)
    requires ReadyOk(sys) && u !in sys.ready && Touches(sys.program, sys'.program, {u}) && c !in sys.ready
    requires sys'.ready == sys.ready + {c} && c in sys'.program.places && Live(sys'.program, c)
    requires exists n: nat :: sys'.graph.pending == sys.graph.pending[c := n] && sys'.program.places[c] == Place(n, 0, 0)
    ensures ReadyOk(sys')
  {
    forall d | d in sys'.ready
      ensures Live(sys'.program, d) && d in sys'.program.places && sys'.program.places[d] == Place(sys'.graph.pending[d], 0, 0)
    {
      if d != c { assert Untouched(sys.program, sys'.program, d); }
    }
  }

  lemma RunningStable(sys: System, sys': System, u: nat)
    requires RunningOk(sys) && Touches(sys.program, sys'.program, {u}) && Live(sys'.program, u)
    requires sys'.running == sys.running && sys'.ready <= sys.ready + (sys'.program.tasks.Keys - sys.program.tasks.Keys)
    ensures RunningOk(sys')
  {
    forall th: nat, i: nat, t: nat | At(sys'.running, th, i, t)
      ensures Live(sys'.program, t) && t !in sys'.ready
    {
      assert At(sys.running, th, i, t);
      if t != u { assert Untouched(sys.program, sys'.program, t); }
    }
    forall th: nat, i: nat, th': nat, j: nat, t: nat | At(sys'.running, th, i, t) && At(sys'.running, th', j, t)
      ensures th == th' && i == j
    {
      assert At(sys.running, th, i, t) && At(sys.running, th', j, t);
    }
  }

  lemma ReadyAreTasks(sys: System)
    requires ReadyOk(sys)
    ensures sys.graph.pending.Keys <= sys.program.tasks.Keys
  {
  }

  // ---------------------------------------------------------------- each action

  /** What has to be shown of an action by which a task creates another. */
  lemma Created(sys: System, sys': System, th: nat, u: nat, c: nat)
    requires SystemOk(sys) && Acting(sys, th, u) && u in sys.program.tasks && c !in sys.program.tasks
    requires ProgramOk(sys'.program) && Touches(sys.program, sys'.program, {u})
    requires sys'.program.tasks.Keys == sys.program.tasks.Keys + {c} && Live(sys'.program, c) && Live(sys'.program, u)
    requires sys'.running == sys.running && sys'.ready == sys.ready + {c} && sys'.graph.tids == sys.graph.tids
    requires sys'.graph.nodes == sys'.program.tree
    requires sys'.graph.cur == sys.graph.cur[th := Frames(sys.program.places, Pop(sys.running[th])) + FrameOf(sys'.program.places, u)]
    requires exists n: nat :: sys'.graph.pending == sys.graph.pending[c := n] && sys'.program.places[c] == Place(n, 0, 0)
    ensures SystemOk(sys')
  {
    ReadyAreTasks(sys);
    OwnerOnTop(sys, th, u);
    assert At(sys.running, th, |sys.running[th]| - 1, u);
    OtherFrames(sys, sys'.program, th, u);
    ReadyGrows(sys, sys', u, c);
    RunningStable(sys, sys', u);
  }

  lemma SpawnFollows(sys: System, th: nat, c: nat)
    requires SystemOk(sys) && May(sys, Spawn(th, c))
    ensures TracerReady(sys.graph, Spawn(th, c)) && SystemOk(Do(sys, Spawn(th, c)))
  {
    var sys', p, u := Do(sys, Spawn(th, c)), sys.program, Actor(sys, th);
    SpawnKeeps(p, u, c);
    SpawnTraced(sys, th, u, c);
    Created(sys, sys', th, u, c);
  }

  /** The tracer adds the nodes that the program's step adds. */
  lemma SpawnTraced(sys: System, th: nat, u: nat, c: nat)
    requires SystemOk(sys) && May(sys, Spawn(th, c)) && Acting(sys, th, u)
    ensures Enabled(sys.graph, SpawnOnly(th, c))
    ensures var g, s1 := Traced(sys.graph, Spawn(th, c)), WithScope(sys.program, u);
            && g.nodes == DoSpawn(sys.program, u, c).tree
            && |g.cur| == NUM_THREADS && g.cur == sys.graph.cur[th := g.cur[th]]
            && g.cur[th] == Frames(sys.program.places, Pop(sys.running[th])) + FrameOf(s1.places, u)
            && g.pending == sys.graph.pending[c := |s1.tree|] && g.tids == sys.graph.tids
  {
    OwnerOnTop(sys, th, u);
    ReadyAreTasks(sys);
    var s1 := WithScope(sys.program, u);
    var h := OpenFinish(sys.graph, th);
    assert h.nodes == s1.tree;
    assert h.cur[th] == Frames(sys.program.places, Pop(sys.running[th])) + FrameOf(s1.places, u);
  }

  lemma RunRootTraced(sys: System, th: nat, u: nat, c: nat)
    requires SystemOk(sys) && May(sys, RunRoot(th, c)) && Acting(sys, th, u)
    ensures Enabled(sys.graph, SpawnAndWait(th, c))
    ensures var g := Traced(sys.graph, RunRoot(th, c));
            && g.nodes == DoRunRoot(sys.program, u, c).tree && g.cur == sys.graph.cur && g.tids == sys.graph.tids
            && g.pending == sys.graph.pending[c := |sys.program.tree|]
    ensures sys.graph.cur[th] == Frames(sys.program.places, Pop(sys.running[th])) + [sys.program.places[u].base]
  {
    OwnerOnTop(sys, th, u);
    ReadyAreTasks(sys);
  }

  lemma RunRootFollows(sys: System, th: nat, c: nat)
    requires SystemOk(sys) && May(sys, RunRoot(th, c))
    ensures TracerReady(sys.graph, RunRoot(th, c)) && SystemOk(Do(sys, RunRoot(th, c)))
  {
    hide Touches;
    hide RunningOk;
    hide Invariant;
    hide NodesOk;
    hide AddRoot;
    var sys', u := Do(sys, RunRoot(th, c)), Actor(sys, th);
    RunRootKeeps(sys.program, u, c);
    RunRootTraced(sys, th, u, c);
    Created(sys, sys', th, u, c);
  }

  /** What has to be shown of an action that creates and starts no task. */
  lemma Advanced(sys: System, sys': System, th: nat, u: nat)
    requires SystemOk(sys) && Acting(sys, th, u) && u in sys.program.tasks
    requires ProgramOk(sys'.program) && Touches(sys.program, sys'.program, {u})
    requires sys'.program.tasks.Keys == sys.program.tasks.Keys && Live(sys'.program, u)
    requires sys'.running == sys.running && sys'.ready == sys.ready
    requires sys'.graph.tids == sys.graph.tids && sys'.graph.pending == sys.graph.pending
    requires sys'.graph.nodes == sys'.program.tree
    requires |sys'.graph.cur| == NUM_THREADS && sys'.graph.cur == sys.graph.cur[th := sys'.graph.cur[th]]
    requires sys'.graph.cur[th] == Frames(sys.program.places, Pop(sys.running[th])) + FrameOf(sys'.program.places, u)
    ensures SystemOk(sys')
  {
    assert At(sys.running, th, |sys.running[th]| - 1, u);
    OtherFrames(sys, sys'.program, th, u);
    ReadyStable(sys, sys', u);
    RunningStable(sys, sys', u);
  }

  lemma RootDoneFollows(sys: System, th: nat)
    requires SystemOk(sys) && May(sys, RootDone(th))
    ensures TracerReady(sys.graph, RootDone(th)) && SystemOk(Do(sys, RootDone(th)))
  {
    var sys', u := Do(sys, RootDone(th)), Actor(sys, th);
    OwnerOnTop(sys, th, u);
    RootDoneKeeps(sys.program, u);
    Advanced(sys, sys', th, u);
  }

  /** Waiting pops the implicit FINISH and begins a step under the base. */
  lemma WaitTraced(sys: System, th: nat, u: nat)
    requires SystemOk(sys) && May(sys, Wait(th)) && Acting(sys, th, u) && CanAct(Join(sys.program, u), u)
    ensures Enabled(sys.graph, WaitOnly(th))
    ensures var g, p := Traced(sys.graph, Wait(th)), sys.program;
            && g.nodes == DoWait(p, u).tree && g.tids == sys.graph.tids && g.pending == sys.graph.pending
            && g.cur == sys.graph.cur[th := g.cur[th]] && |g.cur| == NUM_THREADS
            && g.cur[th] == Frames(p.places, Pop(sys.running[th])) + [p.places[u].base]
  {
    OwnerOnTop(sys, th, u);
    assert Pop(sys.graph.cur[th]) == Frames(sys.program.places, Pop(sys.running[th])) + [sys.program.places[u].base];
  }

  lemma WaitFollows(sys: System, th: nat)
    requires SystemOk(sys) && May(sys, Wait(th))
    ensures TracerReady(sys.graph, Wait(th)) && SystemOk(Do(sys, Wait(th)))
  {
    var u := Actor(sys, th);
    OwnerOnTop(sys, th, u);
    WaitKeeps(sys.program, u);
    WaitTraced(sys, th, u);
    Advanced(sys, Do(sys, Wait(th)), th, u);
  }

  lemma StartRunning(sys: System, sys': System, th: nat, c: nat)
    requires RunningOk(sys) && c in sys.ready && Live(sys.program, c) && sys'.program == sys.program
    requires th < |sys.running| && sys'.running == sys.running[th := sys.running[th] + [c]] && sys'.ready == sys.ready - {c}
    ensures RunningOk(sys')
  {
    var k := |sys.running[th]|;
    forall th1: nat, i: nat, t: nat | At(sys'.running, th1, i, t)
      ensures At(sys.running, th1, i, t) || (th1 == th && i == k && t == c)
      ensures Live(sys'.program, t) && t !in sys'.ready
    {
      assert At(sys.running, th1, i, t) || (th1 == th && i == k && t == c);
    }
    forall th1: nat, i: nat, th2: nat, j: nat, t: nat | At(sys'.running, th1, i, t) && At(sys'.running, th2, j, t)
      ensures th1 == th2 && i == j
    {
      assert At(sys.running, th1, i, t) || (th1 == th && i == k && t == c);
      assert At(sys.running, th2, j, t) || (th2 == th && j == k && t == c);
    }
  }

  lemma StartFollows(sys: System, th: nat, c: nat)
    requires SystemOk(sys) && May(sys, Start(th, c))
    ensures TracerReady(sys.graph, Start(th, c)) && SystemOk(Do(sys, Start(th, c)))
  {
    var sys', p := Do(sys, Start(th, c)), sys.program;
    ReadyAreTasks(sys);
    var n := sys.graph.pending[c];
    assert Live(p, c) && p.places[c] == Place(n, 0, 0) && Placed(p, c);
    StartRunning(sys, sys', th, c);
    assert Pop(sys'.running[th]) == sys.running[th];
    assert sys'.graph.cur[th] == Frames(p.places, sys'.running[th]);
    forall d | d in sys'.ready
      ensures Live(sys'.program, d) && d in p.places && p.places[d] == Place(sys'.graph.pending[d], 0, 0)
    {
      assert p.places[d] == Place(sys.graph.pending[d], 0, 0);
    }
  }

  lemma EndRunning(sys: System, sys': System, th: nat, u: nat)
    requires RunningOk(sys) && Acting(sys, th, u) && Touches(sys.program, sys'.program, {u})
    requires sys'.running == sys.running[th := Pop(sys.running[th])] && sys'.ready == sys.ready
    ensures RunningOk(sys')
  {
    assert At(sys.running, th, |sys.running[th]| - 1, u);
    forall th1: nat, i: nat, t: nat | At(sys'.running, th1, i, t)
      ensures At(sys.running, th1, i, t) && Live(sys'.program, t) && t !in sys'.ready
    {
      assert At(sys.running, th1, i, t);
      assert Untouched(sys.program, sys'.program, t);
    }
    forall th1: nat, i: nat, th2: nat, j: nat, t: nat | At(sys'.running, th1, i, t) && At(sys'.running, th2, j, t)
      ensures th1 == th2 && i == j
    {
      assert At(sys.running, th1, i, t) && At(sys.running, th2, j, t);
    }
  }

  /** Returning pops the task's base, and with it the implicit FINISH that is still open. */
  lemma EndTraced(sys: System, th: nat, u: nat)
    requires SystemOk(sys) && May(sys, End(th)) && Acting(sys, th, u)
    ensures Enabled(sys.graph, Return(th))
    ensures DoReturn(sys.graph, th) ==
            sys.graph.(cur := sys.graph.cur[th := Frames(sys.program.places, Pop(sys.running[th]))],
                       tids := sys.graph.tids[th := Pop(sys.running[th])])
  {
    OwnerOnTop(sys, th, u);
    FramesTop(sys.program.places, sys.running[th]);
    assert sys.graph.cur[th] == Frames(sys.program.places, sys.running[th]);
    if sys.program.places[u].fin != 0 {
      assert Pop(Pop(sys.graph.cur[th])) == Frames(sys.program.places, Pop(sys.running[th]));
    }
  }

  lemma EndFollows(sys: System, th: nat)
    requires SystemOk(sys) && May(sys, End(th))
    ensures TracerReady(sys.graph, End(th)) && SystemOk(Do(sys, End(th)))
  {
    var sys', u := Do(sys, End(th)), Actor(sys, th);
    EndTraced(sys, th, u);
    EndKeeps(sys.program, u);
    EndRunning(sys, sys', th, u);
    assert At(sys.running, th, |sys.running[th]| - 1, u);
    ReadyStable(sys, sys', u);
  }

  /** The tracer is ready for whatever the program does, and follows it. */
  lemma TracerFollows(sys: System, a: Action)
    requires SystemOk(sys) && May(sys, a)
    ensures TracerReady(sys.graph, a) && SystemOk(Do(sys, a))
  {
    match a
    case Spawn(th, c) => SpawnFollows(sys, th, c);
    case RunRoot(th, c) => RunRootFollows(sys, th, c);
    case RootDone(th) => RootDoneFollows(sys, th);
    case Start(th, c) => StartFollows(sys, th, c);
    case Wait(th) => WaitFollows(sys, th);
    case End(th) => EndFollows(sys, th);
  }

  // ---------------------------------------------------------------- the guards are the program's own

  predicate Working(tasks: map<nat, Task>, u: nat) {
    u in tasks && !tasks[u].done && !tasks[u].blocked
  }

  predicate TeamDone(tasks: map<nat, Task>, u: nat)
    requires u in tasks
  {
    forall d | d in tasks[u].team :: d in tasks && tasks[d].done
  }

  /** What the program may do, in its own terms: a task that is not blocked may spawn, may run
      a root task if it has waited for all it spawned, may wait if it has not, and may return;
      waiting, and resuming after a root task, take until everyone in the team is done. */
  predicate ProgramMay(sys: System, a: Action) {
    var tasks, u := sys.program.tasks, Actor(sys, a.thread);
    && a.thread < |sys.running|
    && (a.Start? || sys.running[a.thread] != [])
    && match a
       case Spawn(_, c) => Working(tasks, u) && c !in tasks
       case RunRoot(_, c) => Working(tasks, u) && c !in tasks && tasks[u].team == {}
       case RootDone(_) => u in tasks && !tasks[u].done && tasks[u].blocked && TeamDone(tasks, u)
       case Start(_, c) => c in sys.ready
       case Wait(_) => Working(tasks, u) && tasks[u].team != {} && TeamDone(tasks, u)
       case End(_) => Working(tasks, u) && u != 0
  }

  /** The guards used with the tree side by side say the same. */
  lemma GuardsAgree(sys: System, a: Action)
    requires SystemOk(sys)
    ensures ProgramMay(sys, a) <==> May(sys, a)
  {
    var p, u := sys.program, Actor(sys, a.thread);
    if u in p.tasks {
      assert Placed(p, u) && NodesOk(p, u);
      assert ScopeOk(p, u);
      OwnerIsOwn(p, u);
      assert p.tasks[u].team == {} <==> ScopeOf(p.places[u]) == 0 by {
        if d :| d in p.tasks[u].team { assert Placed(p, d); }
      }
    }
  }

  lemma BeginProgram()
    ensures ProgramOk(Begin().program)
  {
    var p := Begin().program;
    assert Shape(p) by { assert Placed(p, 0); }
    assert PastsOk(p) && StepsKnown(p);
    assert TasksKnow(p) by { assert Placed(p, 0) && KnowsOk(p, 0); }
    assert ScopesOk(p) by { assert Placed(p, 0) && ScopeOk(p, 0); }
    assert forall t: nat :: Live(p, t) ==> t == 0;
    assert NoneAfter(p) by { assert Placed(p, 0) && NothingAfter(p, 0); }
    assert AllApart(p);
    assert Placed(p, 0) && NodesOk(p, 0);
  }

  lemma BeginOk()
    ensures SystemOk(Begin())
  {
    var sys := Begin();
    BeginProgram();
    forall th: nat, i: nat, t: nat | At(sys.running, th, i, t)
      ensures th == 0 && i == 0 && t == 0
    {
    }
    forall th: nat | th < NUM_THREADS
      ensures sys.graph.cur[th] == Frames(sys.program.places, sys.running[th])
    {
    }
  }

  lemma {:induction false} ReachedIsOk(actions: seq<Action>, sys: System)
    requires Reaches(actions, sys)
    ensures SystemOk(sys)
    decreases |actions|
  {
    if actions == [] {
      BeginOk();
    } else {
      var n := |actions| - 1;
      var h :| Reaches(actions[..n], h) && May(h, actions[n]) && sys == Do(h, actions[n]);
      ReachedIsOk(actions[..n], h);
      TracerFollows(h, actions[n]);
    }
  }

  // ---------------------------------------------------------------- what the tree says about the program

  /** The tree encodes the program, whatever the interleaving: a step precedes another in the
      tree exactly when the program orders them, and they are parallel exactly when it does not. */
  lemma {:induction false} TreeEncodesProgram(actions: seq<Action>, sys: System, a: nat, b: nat)
    requires Reaches(actions, sys) && a in sys.program.past && b in sys.program.past
    ensures Rooted(sys.graph.nodes) && IsStep(sys.graph.nodes, a) && IsStep(sys.graph.nodes, b)
    ensures a in sys.program.past[b] <==> Precedes(sys.graph.nodes, a, b)
    ensures Parallel(sys.graph.nodes, a, b) <==> a != b && a !in sys.program.past[b] && b !in sys.program.past[a]
  {
    ReachedIsOk(actions, sys);
    assert PastOk(sys.program, a) && PastOk(sys.program, b);
  }

  /** Every step of the tree is a step of the program. */
  lemma {:induction false} TreeHasNoOtherSteps(actions: seq<Action>, sys: System, n: nat)
    requires Reaches(actions, sys) && IsStep(sys.graph.nodes, n)
    ensures n in sys.program.past
  {
    ReachedIsOk(actions, sys);
  }
}
