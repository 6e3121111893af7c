/** The events that build the tree.  Each Capture call runs under one global lock, so it
    is one atomic step on the node array, the threads' node stacks, the threads' task-id
    stacks and the map of tasks that were spawned but have not started. */
module Capture {
  import opened Dpst

  const NUM_THREADS: nat := 64

  /** Stacks have their top at the end. */
  datatype Graph = Graph(nodes: Tree, cur: seq<seq<nat>>, pending: map<nat, nat>, tids: seq<seq<nat>>)

  datatype Event =
    | SpawnOnly(thread: nat, taskId: nat)
    | SpawnAndWait(thread: nat, taskId: nat)
    | Execute(thread: nat, taskId: nat)
    | Return(thread: nat)
    | WaitOnly(thread: nat)

  function Top(s: seq<nat>): nat
    requires s != []
  {
    s[|s| - 1]
  }

  function Pop(s: seq<nat>): seq<nat>
    requires s != []
  {
    s[..|s| - 1]
  }

  function NewNode(kind: NodeType, taskId: nat): AFTask {
    AFTask(taskId, 0, 0, kind, 0, 0, 0, NoType, false)
  }

  /** The tree with one more child under `p`; a new STEP becomes the current step of `p`. */
  function AddChild(t: Tree, p: nat, kind: NodeType, taskId: nat, root: bool): Tree
    requires IsNode(t, p)
  {
    t[p := t[p].(
        numChildren := t[p].numChildren + 1,
        curStep := if kind == Step then |t| else t[p].curStep,
        youngNsChild := if kind == Step then t[p].youngNsChild else kind)]
    + [NewNode(kind, taskId).(parent := p, depth := t[p].depth + 1, seqNum := t[p].numChildren, spRootAndWait := root)]
  }

  /** A spawned task's ASYNC with its first STEP, then the STEP in which the spawner continues. */
  function AddSpawned(t: Tree, owner: nat, taskId: nat): Tree
    requires IsNode(t, owner)
  {
    var t1 := AddChild(t, owner, Async, taskId, false);
    var t2 := AddChild(t1, |t|, Step, taskId, false);
    AddChild(t2, owner, Step, t[owner].taskId, false)
  }

  /** The FINISH of a task run by spawn_root_and_wait, with its first STEP. */
  function AddRoot(t: Tree, owner: nat, taskId: nat): Tree
    requires IsNode(t, owner)
  {
    AddChild(AddChild(t, owner, Finish, taskId, true), |t|, Step, taskId, false)
  }

  // ---------------------------------------------------------------- the events

  function Initial(): Graph {
    Graph([NewNode(NoType, 0), NewNode(Finish, 0).(spRootAndWait := true)],
          seq(NUM_THREADS, i => if i == 0 then [HEAD] else []),
          map[],
          seq(NUM_THREADS, i => if i == 0 then [0] else []))
  }

  /** What an event demands of its caller: a running task, a spawned task, a stack deep enough. */
  predicate Enabled(g: Graph, e: Event) {
    && |g.nodes| >= 2
    && |g.cur| == NUM_THREADS && |g.tids| == NUM_THREADS
    && e.thread < NUM_THREADS
    && (!e.Execute? ==> g.cur[e.thread] != [] && IsNode(g.nodes, Top(g.cur[e.thread])))
    && match e
       case SpawnOnly(_, _) => true
       case SpawnAndWait(_, _) => true
       case Execute(_, id) => id in g.pending && IsNode(g.nodes, g.pending[id])
       case Return(th) => g.tids[th] != [] && (ImplicitFinish(g.nodes, Top(g.cur[th])) ==> |g.cur[th]| >= 2)
       case WaitOnly(th) => |g.cur[th]| >= 2 && IsNode(g.nodes, Top(Pop(g.cur[th])))
  }

  /** A FINISH that was opened by a spawn, not by spawn_root_and_wait. */
  predicate ImplicitFinish(t: Tree, n: nat)
    requires IsNode(t, n)
  {
    t[n].kind == Finish && !t[n].spRootAndWait
  }

  /** std::map::insert does not replace an existing entry. */
  function Inserted(m: map<nat, nat>, k: nat, v: nat): map<nat, nat> {
    if k in m then m else m[k := v]
  }

  /** The node under which the next spawn hangs its ASYNC: the open implicit FINISH, or a
      new one. */
  function OpenFinish(g: Graph, thread: nat): Graph
    requires Enabled(g, SpawnOnly(thread, 0))
  {
    var c := Top(g.cur[thread]);
    if g.nodes[c].youngNsChild == Async then g
    else g.(nodes := AddChild(g.nodes, c, Finish, g.nodes[c].taskId, false),
            cur := g.cur[thread := g.cur[thread] + [|g.nodes|]])
  }

  function DoSpawnOnly(g: Graph, thread: nat, taskId: nat): Graph
    requires Enabled(g, SpawnOnly(thread, taskId))
  {
    var h := OpenFinish(g, thread);
    h.(nodes := AddSpawned(h.nodes, Top(h.cur[thread]), taskId), pending := Inserted(h.pending, taskId, |h.nodes|))
  }

  function DoSpawnAndWait(g: Graph, thread: nat, taskId: nat): Graph
    requires Enabled(g, SpawnAndWait(thread, taskId))
  {
    g.(nodes := AddRoot(g.nodes, Top(g.cur[thread]), taskId), pending := Inserted(g.pending, taskId, |g.nodes|))
  }

  function DoExecute(g: Graph, thread: nat, taskId: nat): Graph
    requires Enabled(g, Execute(thread, taskId))
  {
    var n := g.pending[taskId];
    g.(cur := g.cur[thread := g.cur[thread] + [n]],
       tids := g.tids[thread := g.tids[thread] + [g.nodes[n].taskId]],
       pending := g.pending - {taskId})
  }

  function DoReturn(g: Graph, thread: nat): Graph
    requires Enabled(g, Return(thread))
  {
    var s := g.cur[thread];
    var rest := if ImplicitFinish(g.nodes, Top(s)) then Pop(s) else s;
    g.(cur := g.cur[thread := Pop(rest)], tids := g.tids[thread := Pop(g.tids[thread])])
  }

  function DoWaitOnly(g: Graph, thread: nat): Graph
    requires Enabled(g, WaitOnly(thread))
  {
    var rest := Pop(g.cur[thread]);
    g.(cur := g.cur[thread := rest], nodes := AddChild(g.nodes, Top(rest), Step, g.nodes[Top(rest)].taskId, false))
  }

  function Apply(g: Graph, e: Event): Graph
    requires Enabled(g, e)
  {
    match e
    case SpawnOnly(th, id) => DoSpawnOnly(g, th, id)
    case SpawnAndWait(th, id) => DoSpawnAndWait(g, th, id)
    case Execute(th, id) => DoExecute(g, th, id)
    case Return(th) => DoReturn(g, th)
    case WaitOnly(th) => DoWaitOnly(g, th)
  }

  /** A task waits to be started under the node made for it when it was first spawned. */
  lemma SpawnPends(g: Graph, e: Event)
    requires Enabled(g, e) && (e.SpawnOnly? || e.SpawnAndWait?)
    ensures var h := Apply(g, e);
            && (e.taskId in g.pending ==> h.pending == g.pending)
            && (e.taskId !in g.pending ==>
                  && e.taskId in h.pending && h.pending == g.pending[e.taskId := h.pending[e.taskId]]
                  && |g.nodes| <= h.pending[e.taskId] < |h.nodes| && h.nodes[h.pending[e.taskId]].taskId == e.taskId
                  && h.nodes[h.pending[e.taskId]].kind == if e.SpawnOnly? then Async else Finish)
  {
  }

  /** The thread runs a task in some step, and its id stack agrees with its node stack. */
  predicate RunsTask(g: Graph, thread: nat, taskId: nat) {
    && thread < |g.cur| && g.cur[thread] != [] && IsNode(g.nodes, Top(g.cur[thread]))
    && g.nodes[Top(g.cur[thread])].taskId == taskId
    && IsStep(g.nodes, g.nodes[Top(g.cur[thread])].curStep)
    && g.nodes[g.nodes[Top(g.cur[thread])].curStep].taskId == taskId
  }

  /** `g` is reached from the initial graph by the given events, in any interleaving of threads. */
  ghost predicate Reaches(events: seq<Event>, g: Graph)
    decreases |events|
  {
    if events == [] then g == Initial()
    else
      var n := |events| - 1;
      exists h :: Reaches(events[..n], h) && Enabled(h, events[n]) && g == Apply(h, events[n])
  }

  // ---------------------------------------------------------------- every reachable tree is well formed

  predicate StructuralNode(t: Tree, n: nat) {
    IsNode(t, n) && t[n].kind != Step
  }

  /** Stacks and pending tasks refer to nodes that are not STEPs. */
  ghost predicate GraphOk(g: Graph) {
    && WellFormed(g.nodes)
    && |g.cur| == NUM_THREADS && |g.tids| == NUM_THREADS
    && (forall th, i | 0 <= th < NUM_THREADS && 0 <= i < |g.cur[th]| :: StructuralNode(g.nodes, g.cur[th][i]))
    && (forall id | id in g.pending :: StructuralNode(g.nodes, g.pending[id]))
  }

  lemma AddChildKeepsWellFormed(t: Tree, p: nat, kind: NodeType, taskId: nat, root: bool)
    requires WellFormed(t) && StructuralNode(t, p) && kind != NoType
    ensures WellFormed(AddChild(t, p, kind, taskId, root))
    ensures Extends(t, AddChild(t, p, kind, taskId, root))
  {
    var u := AddChild(t, p, kind, taskId, root);
    forall n | 2 <= n < |u|
      ensures NodeOk(u, n)
    {
      if n < |t| { assert NodeOk(t, n); }
    }
    forall n | 1 <= n < |u|
      ensures CurStepOk(u, n)
    {
      if n < |t| { assert CurStepOk(t, n); }
    }
    forall c: nat, d: nat | Siblings(u, c, d) && c < d
      ensures u[c].seqNum < u[d].seqNum
    {
      if d < |t| {
        assert Siblings(t, c, d);
      } else {
        assert NodeOk(t, c);
      }
    }
    forall q: nat, k: nat | 1 <= q < |u| && k < u[q].numChildren
      ensures HasChildAt(u, q, k)
    {
      if q == p && k == t[p].numChildren {
        assert IsChildAt(u, q, k, |t|);
      } else {
        assert HasChildAt(t, q, k);
        var c: nat :| IsChildAt(t, q, k, c);
        assert IsChildAt(u, q, k, c);
      }
    }
  }

  lemma AddChildKeepsTasksConnected(t: Tree, p: nat, kind: NodeType, taskId: nat, root: bool)
    requires Rooted(t) && TasksConnected(t) && IsNode(t, p)
    requires FreshTask(t, taskId) || (taskId == t[p].taskId && kind != Async)
    ensures Rooted(AddChild(t, p, kind, taskId, root)) && TasksConnected(AddChild(t, p, kind, taskId, root))
  {
    var u := AddChild(t, p, kind, taskId, root);
    assert Rooted(u);
    AddChildBases(t, p, kind, taskId, root);
    forall n | 1 <= n < |u| && u[n].kind == Async
      ensures IsBase(u, n)
    {
      assert n < |t| ==> IsBase(t, n);
    }
    forall m: nat, n: nat | 1 <= m < |u| && 1 <= n < |u| && IsBase(u, m) && IsBase(u, n) && u[m].taskId == u[n].taskId
      ensures m == n
    {
      if m < |t| && n < |t| {
        assert IsBase(t, m) && IsBase(t, n);
      }
    }
  }

  lemma AddChildBases(t: Tree, p: nat, kind: NodeType, taskId: nat, root: bool)
    requires Rooted(t) && IsNode(t, p)
    requires FreshTask(t, taskId) || taskId == t[p].taskId
    ensures var u := AddChild(t, p, kind, taskId, root);
            && Rooted(u)
            && (forall n | 1 <= n < |t| :: IsBase(u, n) == IsBase(t, n) && u[n].taskId == t[n].taskId && u[n].kind == t[n].kind)
            && (IsBase(u, |t|) <==> FreshTask(t, taskId))
  {
  }

  predicate FreshTask(t: Tree, taskId: nat) {
    forall n | 0 <= n < |t| :: t[n].taskId != taskId
  }

  /** Task identifiers come from one atomic counter, so a spawned task's is unused. */
  predicate UsesFreshTask(g: Graph, e: Event) {
    match e
    case SpawnOnly(_, id) => FreshTask(g.nodes, id)
    case SpawnAndWait(_, id) => FreshTask(g.nodes, id)
    case _ => true
  }

  lemma AddSpawnedKeepsWellFormed(t: Tree, owner: nat, taskId: nat)
    requires WellFormed(t) && StructuralNode(t, owner)
    ensures var u := AddSpawned(t, owner, taskId);
            WellFormed(u) && Extends(t, u) && |u| == |t| + 3 && StructuralNode(u, |t|)
  {
    AddChildKeepsWellFormed(t, owner, Async, taskId, false);
    var t1 := AddChild(t, owner, Async, taskId, false);
    AddChildKeepsWellFormed(t1, |t|, Step, taskId, false);
    var t2 := AddChild(t1, |t|, Step, taskId, false);
    AddChildKeepsWellFormed(t2, owner, Step, t[owner].taskId, false);
    ExtendsTransitive(t, t1, t2);
    ExtendsTransitive(t, t2, AddSpawned(t, owner, taskId));
  }

  lemma AddRootKeepsWellFormed(t: Tree, owner: nat, taskId: nat)
    requires WellFormed(t) && StructuralNode(t, owner)
    ensures var u := AddRoot(t, owner, taskId);
            WellFormed(u) && Extends(t, u) && |u| == |t| + 2 && StructuralNode(u, |t|)
  {
    AddChildKeepsWellFormed(t, owner, Finish, taskId, true);
    var t1 := AddChild(t, owner, Finish, taskId, true);
    AddChildKeepsWellFormed(t1, |t|, Step, taskId, false);
    ExtendsTransitive(t, t1, AddRoot(t, owner, taskId));
  }

  lemma AddSpawnedKeepsTasksConnected(t: Tree, owner: nat, taskId: nat)
    requires Rooted(t) && TasksConnected(t) && IsNode(t, owner) && FreshTask(t, taskId)
    ensures Rooted(AddSpawned(t, owner, taskId)) && TasksConnected(AddSpawned(t, owner, taskId))
  {
    AddChildKeepsTasksConnected(t, owner, Async, taskId, false);
    var t1 := AddChild(t, owner, Async, taskId, false);
    AddChildKeepsTasksConnected(t1, |t|, Step, taskId, false);
    AddChildKeepsTasksConnected(AddChild(t1, |t|, Step, taskId, false), owner, Step, t[owner].taskId, false);
  }

  lemma AddRootKeepsTasksConnected(t: Tree, owner: nat, taskId: nat)
    requires Rooted(t) && TasksConnected(t) && IsNode(t, owner) && FreshTask(t, taskId)
    ensures Rooted(AddRoot(t, owner, taskId)) && TasksConnected(AddRoot(t, owner, taskId))
  {
    AddChildKeepsTasksConnected(t, owner, Finish, taskId, true);
    AddChildKeepsTasksConnected(AddChild(t, owner, Finish, taskId, true), |t|, Step, taskId, false);
  }

  lemma StructuralStable(t: Tree, u: Tree)
    requires Extends(t, u)
    ensures forall n: nat | StructuralNode(t, n) :: StructuralNode(u, n)
  {
  }

  lemma OpenFinishOk(g: Graph, th: nat)
    requires GraphOk(g) && Enabled(g, SpawnOnly(th, 0))
    ensures var h := OpenFinish(g, th);
            GraphOk(h) && Extends(g.nodes, h.nodes) && h.cur[th] != [] && StructuralNode(h.nodes, Top(h.cur[th]))
  {
    var c := Top(g.cur[th]);
    if g.nodes[c].youngNsChild != Async {
      AddChildKeepsWellFormed(g.nodes, c, Finish, g.nodes[c].taskId, false);
      StructuralStable(g.nodes, OpenFinish(g, th).nodes);
    }
  }

  lemma OpenFinishConnected(g: Graph, th: nat)
    requires Rooted(g.nodes) && Enabled(g, SpawnOnly(th, 0)) && TasksConnected(g.nodes)
    ensures var h := OpenFinish(g, th);
            && Rooted(h.nodes) && TasksConnected(h.nodes)
            && forall id | FreshTask(g.nodes, id) :: FreshTask(h.nodes, id)
  {
    var c := Top(g.cur[th]);
    AddChildKeepsTasksConnected(g.nodes, c, Finish, g.nodes[c].taskId, false);
  }

  /** Every event keeps the tree well formed and changes no structural field of an existing node. */
  lemma ApplyKeepsGraphOk(g: Graph, e: Event)
    requires GraphOk(g) && Enabled(g, e)
    ensures GraphOk(Apply(g, e)) && Extends(g.nodes, Apply(g, e).nodes)
  {
    match e
    case SpawnOnly(th, id) =>
      OpenFinishOk(g, th);
      var h := OpenFinish(g, th);
      AddSpawnedKeepsWellFormed(h.nodes, Top(h.cur[th]), id);
      StructuralStable(h.nodes, Apply(g, e).nodes);
      ExtendsTransitive(g.nodes, h.nodes, Apply(g, e).nodes);
    case SpawnAndWait(th, id) =>
      AddRootKeepsWellFormed(g.nodes, Top(g.cur[th]), id);
      StructuralStable(g.nodes, Apply(g, e).nodes);
    case Execute(th, id) =>
    case Return(th) =>
    case WaitOnly(th) =>
      var q := Top(Pop(g.cur[th]));
      AddChildKeepsWellFormed(g.nodes, q, Step, g.nodes[q].taskId, false);
      StructuralStable(g.nodes, Apply(g, e).nodes);
  }

  /** With fresh task identifiers, the nodes of one task stay one connected region. */
  lemma ApplyKeepsTasksConnected(g: Graph, e: Event)
    requires Rooted(g.nodes) && TasksConnected(g.nodes) && Enabled(g, e) && UsesFreshTask(g, e)
    ensures Rooted(Apply(g, e).nodes) && TasksConnected(Apply(g, e).nodes)
  {
    match e
    case SpawnOnly(th, id) =>
      OpenFinishConnected(g, th);
      var h := OpenFinish(g, th);
      AddSpawnedKeepsTasksConnected(h.nodes, Top(h.cur[th]), id);
    case SpawnAndWait(th, id) =>
      AddRootKeepsTasksConnected(g.nodes, Top(g.cur[th]), id);
    case Execute(th, id) =>
    case Return(th) =>
    case WaitOnly(th) =>
      var q := Top(Pop(g.cur[th]));
      AddChildKeepsTasksConnected(g.nodes, q, Step, g.nodes[q].taskId, false);
  }

  /** A node's current step is the last STEP begun under it. */
  predicate StepsLatest(t: Tree)
    requires Rooted(t)
  {
    forall c {:trigger t[c].kind} | 2 <= c < |t| && t[c].kind == Step :: c <= t[t[c].parent].curStep
  }

  /** A step has been begun under every node but the head. */
  predicate StepsBegun(t: Tree) {
    forall n {:trigger t[n].kind} | 2 <= n < |t| && t[n].kind != Step :: t[n].curStep != 0
  }

  lemma AddChildKeepsSteps(t: Tree, p: nat, kind: NodeType, taskId: nat, root: bool)
    requires Rooted(t) && IsNode(t, p) && StepsLatest(t)
    ensures var u := AddChild(t, p, kind, taskId, root);
            Rooted(u) && StepsLatest(u) && (kind == Step && StepsBegun(t) ==> StepsBegun(u))
  {
  }

  /** A node of another kind, with a step begun under it at once. */
  lemma AddPairKeepsSteps(t: Tree, p: nat, kind: NodeType, taskId: nat, root: bool)
    requires Rooted(t) && IsNode(t, p) && StepsLatest(t) && kind != Step
    ensures var u := AddChild(AddChild(t, p, kind, taskId, root), |t|, Step, taskId, false);
            Rooted(u) && StepsLatest(u) && (StepsBegun(t) ==> StepsBegun(u))
  {
    AddChildKeepsSteps(t, p, kind, taskId, root);
    AddChildKeepsSteps(AddChild(t, p, kind, taskId, root), |t|, Step, taskId, false);
  }

  lemma AddSpawnedKeepsSteps(t: Tree, owner: nat, taskId: nat)
    requires Rooted(t) && IsNode(t, owner) && StepsLatest(t)
    requires forall n | 2 <= n < |t| && n != owner && t[n].kind != Step :: t[n].curStep != 0
    ensures Rooted(AddSpawned(t, owner, taskId)) && StepsLatest(AddSpawned(t, owner, taskId))
    ensures StepsBegun(AddSpawned(t, owner, taskId))
  {
    AddPairKeepsSteps(t, owner, Async, taskId, false);
    var u := AddChild(AddChild(t, owner, Async, taskId, false), |t|, Step, taskId, false);
    AddChildKeepsSteps(u, owner, Step, t[owner].taskId, false);
  }

  /** After every event a step has been begun under every node, and the current ones are the latest. */
  lemma ApplyKeepsSteps(g: Graph, e: Event)
    requires Rooted(g.nodes) && StepsLatest(g.nodes) && StepsBegun(g.nodes) && Enabled(g, e)
    ensures Rooted(Apply(g, e).nodes) && StepsLatest(Apply(g, e).nodes) && StepsBegun(Apply(g, e).nodes)
  {
    match e
    case SpawnOnly(th, id) =>
      var c := Top(g.cur[th]);
      AddChildKeepsSteps(g.nodes, c, Finish, g.nodes[c].taskId, false);
      var h := OpenFinish(g, th);
      AddSpawnedKeepsSteps(h.nodes, Top(h.cur[th]), id);
    case SpawnAndWait(th, id) =>
      AddPairKeepsSteps(g.nodes, Top(g.cur[th]), Finish, id, true);
    case Execute(th, id) =>
    case Return(th) =>
    case WaitOnly(th) =>
      var q := Top(Pop(g.cur[th]));
      AddChildKeepsSteps(g.nodes, q, Step, g.nodes[q].taskId, false);
  }

  lemma {:induction false} ReachableIsOk(events: seq<Event>, g: Graph)
    requires Reaches(events, g)
    ensures GraphOk(g)
    decreases |events|
  {
    if events != [] {
      var n := |events| - 1;
      var h :| Reaches(events[..n], h) && Enabled(h, events[n]) && g == Apply(h, events[n]);
      ReachableIsOk(events[..n], h);
      ApplyKeepsGraphOk(h, events[n]);
    }
  }
}
