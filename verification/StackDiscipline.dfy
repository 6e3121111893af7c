/** The tracer's stacks over a whole task body: when a task returns, the node stack and the
    id stack of its thread are what they were when it started. */
module StackDiscipline {
  import opened Dpst
  import opened Capture
  import opened ForkJoin
  import opened Program

  /** `actions` lead from one state of the system to another. */
  ghost predicate Leads(sys: System, actions: seq<Action>, sys': System)
    decreases |actions|
  {
    if actions == [] then sys' == sys
    else May(sys, actions[0]) && Leads(Do(sys, actions[0]), actions[1..], sys')
  }

  /** On the way, the thread never returns below `depth` running tasks. */
  ghost predicate StaysAbove(sys: System, actions: seq<Action>, th: nat, depth: nat)
    decreases |actions|
  {
    && Depth(sys, th) > depth
    && (actions != [] && May(sys, actions[0]) ==> StaysAbove(Do(sys, actions[0]), actions[1..], th, depth))
  }

  /** An action changes nothing about tasks other than the one acting. */
  lemma DoTouches(sys: System, a: Action)
    requires SystemOk(sys) && May(sys, a)
    ensures Touches(sys.program, Do(sys, a).program, {Actor(sys, a.thread)})
  {
    var p, u := sys.program, Actor(sys, a.thread);
    match a
    case Spawn(th, c) => SpawnKeeps(p, u, c);
    case RunRoot(th, c) => RunRootKeeps(p, u, c);
    case RootDone(th) => OwnerOnTop(sys, th, u); RootDoneKeeps(p, u);
    case Start(th, c) => StartTouchesNothing(p, u);
    case Wait(th) => OwnerOnTop(sys, th, u); WaitKeeps(p, u);
    case End(th) => OwnerOnTop(sys, th, u); EndKeeps(p, u);
  }

  lemma StartTouchesNothing(p: State, u: nat)
    requires ProgramOk(p)
    ensures Touches(p, p, {u})
  {
  }

  function Depth(sys: System, th: nat): nat {
    if th < |sys.running| then |sys.running[th]| else 0
  }

  /** What lies at the bottom of a thread's stacks. */
  function Bottom(sys: System, th: nat, depth: nat): (seq<nat>, seq<nat>)
    requires depth < Depth(sys, th)
  {
    (sys.running[th][..depth], Frames(sys.program.places, sys.running[th][..depth]))
  }

  /** The tasks below the top of any stack are not the one acting, so they keep their frames. */
  lemma {:induction false} LowerFramesStay(sys: System, s': State, at: nat, th: nat, low: seq<nat>)
    requires SystemOk(sys) && Touches(sys.program, s', {Actor(sys, at)})
    requires th < NUM_THREADS && |low| < |sys.running[th]| && low <= sys.running[th] && at < NUM_THREADS
    requires sys.running[at] != []
    ensures Frames(s'.places, low) == Frames(sys.program.places, low)
  {
    assert At(sys.running, at, |sys.running[at]| - 1, Actor(sys, at));
    forall i: nat | i < |low|
      ensures FrameOf(sys.program.places, low[i]) == FrameOf(s'.places, low[i])
    {
      assert At(sys.running, th, i, low[i]);
      assert Untouched(sys.program, s', low[i]);
    }
    FramesSame(sys.program.places, s'.places, low);
  }

  /** One action does not disturb the part of a thread's stacks below the acting task. */
  lemma BottomStays(sys: System, a: Action, th: nat, depth: nat)
    requires SystemOk(sys) && May(sys, a) && depth < Depth(sys, th) && depth < Depth(Do(sys, a), th)
    ensures Bottom(Do(sys, a), th, depth) == Bottom(sys, th, depth)
    ensures Do(sys, a).running[th][depth] == sys.running[th][depth]
  {
    DoTouches(sys, a);
    if !a.Start? {
      LowerFramesStay(sys, Do(sys, a).program, a.thread, th, sys.running[th][..depth]);
    }
    assert Do(sys, a).running[th][..depth] == sys.running[th][..depth];
  }

  lemma {:induction false} BottomStaysThroughout(sys: System, actions: seq<Action>, sys': System, th: nat, depth: nat)
    requires SystemOk(sys) && Leads(sys, actions, sys') && StaysAbove(sys, actions, th, depth)
    ensures SystemOk(sys') && depth < Depth(sys', th)
    ensures Bottom(sys', th, depth) == Bottom(sys, th, depth) && sys'.running[th][depth] == sys.running[th][depth]
    decreases |actions|
  {
    hide SystemOk;
    hide May;
    hide Do;
    if actions != [] {
      TracerFollows(sys, actions[0]);
      BottomStays(sys, actions[0], th, depth);
      BottomStaysThroughout(Do(sys, actions[0]), actions[1..], sys', th, depth);
    }
  }

  /** A thread starts `task`, does `body` without returning from it, other threads doing what
      they like in between, and is about to return. */
  ghost predicate RunsBody(sys: System, th: nat, task: nat, body: seq<Action>, last: System) {
    && SystemOk(sys) && th < |sys.running| && th < |sys.graph.cur| && th < |sys.graph.tids|
    && May(sys, Start(th, task)) && Leads(Do(sys, Start(th, task)), body, last)
    && StaysAbove(Do(sys, Start(th, task)), body, th, |sys.running[th]|)
    && Depth(last, th) == |sys.running[th]| + 1 && May(last, End(th))
  }

  lemma {:induction false} BodyEnds(sys: System, th: nat, task: nat, body: seq<Action>, last: System)
    requires RunsBody(sys, th, task, body, last)
    ensures SystemOk(last) && Acting(last, th, task) && Pop(last.running[th]) == sys.running[th]
    ensures Frames(last.program.places, sys.running[th]) == sys.graph.cur[th]
  {
    var d, first := |sys.running[th]|, Do(sys, Start(th, task));
    TracerFollows(sys, Start(th, task));
    assert first.running[th] == sys.running[th] + [task] && first.running[th][..d] == sys.running[th];
    assert first.program == sys.program && Depth(first, th) == d + 1;
    assert sys.graph.cur[th] == Frames(sys.program.places, sys.running[th]);
    hide Do;
    hide May;
    hide Leads;
    hide StaysAbove;
    hide SystemOk;
    BottomStaysThroughout(first, body, last, th, d);
    assert Pop(last.running[th]) == last.running[th][..d];
  }

  /** Stack discipline: whatever a task and everything nested in it do, on this thread and on
      others, returning from it restores both stacks to what they were before it started. */
  lemma {:induction false} ReturnRestoresStacks(sys: System, th: nat, task: nat, body: seq<Action>, last: System)
    requires RunsBody(sys, th, task, body, last)
    ensures Enabled(last.graph, Return(th)) && Actor(last, th) == task
    ensures Apply(last.graph, Return(th)).cur[th] == sys.graph.cur[th]
    ensures Apply(last.graph, Return(th)).tids[th] == sys.graph.tids[th]
  {
    BodyEnds(sys, th, task, body, last);
    EndTraced(last, th, task);
  }

  // ---------------------------------------------------------------- the CaptureReturn that pops once

  /** The variant of CaptureReturn that always pops one node leaves the node stack as it was
      before the task started exactly when the task has waited for everyone it spawned. */
  lemma {:induction false} OnePopBalanced(sys: System, th: nat, task: nat, body: seq<Action>, last: System)
    requires RunsBody(sys, th, task, body, last)
    ensures th < |last.graph.cur| && last.graph.cur[th] != [] && task in last.program.tasks
    ensures Pop(last.graph.cur[th]) == sys.graph.cur[th] <==> last.program.tasks[task].team == {}
  {
    BodyEnds(sys, th, task, body, last);
    assert May(last, End(th));
    hide RunsBody;
    OnePopLeaves(last, th, task);
  }

  /** One pop leaves the frames of the tasks below, and the base of a task with a scope open. */
  lemma OnePopLeaves(last: System, th: nat, task: nat)
    requires SystemOk(last) && Acting(last, th, task) && May(last, End(th))
    ensures th < |last.graph.cur| && last.graph.cur[th] != [] && task in last.program.tasks
    ensures Pop(last.graph.cur[th]) == Frames(last.program.places, Pop(last.running[th])) <==>
            last.program.tasks[task].team == {}
  {
    OwnerOnTop(last, th, task);
    TeamIsScope(last, task);
    FramesTop(last.program.places, last.running[th]);
  }

  /** A task has someone to wait for exactly while it has a scope open. */
  lemma TeamIsScope(sys: System, u: nat)
    requires SystemOk(sys) && Live(sys.program, u) && Placed(sys.program, u)
    ensures sys.program.tasks[u].team == {} <==> ScopeOf(sys.program.places[u]) == 0
  {
    assert NodesOk(sys.program, u) && ScopeOk(sys.program, u);
    if d :| d in sys.program.tasks[u].team { assert Placed(sys.program, d); }
  }

  /** What that variant does to the stacks. */
  function PoppedOnce(g: Graph, th: nat): Graph
    requires th < |g.cur| && g.cur[th] != [] && th < |g.tids| && g.tids[th] != []
  {
    g.(cur := g.cur[th := Pop(g.cur[th])], tids := g.tids[th := Pop(g.tids[th])])
  }

  /** A task that has waited for everyone it spawned returns alike in both variants. */
  lemma OnePopAgrees(sys: System, th: nat)
    requires SystemOk(sys) && May(sys, End(th))
    ensures Actor(sys, th) in sys.program.tasks && th < |sys.graph.cur| && sys.graph.cur[th] != []
    ensures th < |sys.graph.tids| && sys.graph.tids[th] != []
    ensures PoppedOnce(sys.graph, th) == Do(sys, End(th)).graph <==> sys.program.tasks[Actor(sys, th)].team == {}
  {
    OnePopLeaves(sys, th, Actor(sys, th));
    EndTraced(sys, th, Actor(sys, th));
    assert Do(sys, End(th)).graph == DoReturn(sys.graph, th);
    assert PoppedOnce(sys.graph, th).cur[th] == Pop(sys.graph.cur[th]);
    assert DoReturn(sys.graph, th).cur[th] == Frames(sys.program.places, Pop(sys.running[th]));
    hide Frames;
  }

  lemma {:induction false} OneMore(actions: seq<Action>, sys: System, a: Action)
    requires Program.Reaches(actions, sys) && May(sys, a)
    ensures Program.Reaches(actions + [a], Do(sys, a))
  {
    hide Do;
    hide May;
    var next, n := actions + [a], |actions|;
    assert next[..n] == actions && next[n] == a;
    assert Program.Reaches(next[..n], sys) && May(sys, next[n]) && Do(sys, a) == Do(sys, next[n]);
  }

  ghost predicate Reached(actions: seq<Action>, sys: System) {
    Program.Reaches(actions, sys) && SystemOk(sys)
  }

  /** `u` acts, and has spawned without waiting. */
  predicate HasSpawned(sys: System, th: nat, u: nat) {
    Acting(sys, th, u) && u in sys.program.places && sys.program.places[u].fin != 0
  }

  predicate NoReturn(actions: seq<Action>) {
    forall a | a in actions :: !a.End?
  }

  lemma NoReturnNext(actions: seq<Action>, a: Action)
    requires !a.End?
    ensures NoReturn(actions) ==> NoReturn(actions + [a])
  {
  }

  /** Task 1 is spawned. */
  lemma OnceSpawned() returns (actions: seq<Action>, sys: System)
    ensures Reached(actions, sys) && 1 in sys.ready && sys.program.tasks.Keys == {0, 1} && NoReturn(actions)
  {
    hide SystemOk;
    hide May;
    hide Do;
    hide Program.Reaches;
    hide NoReturn;
    BeginActs();
    NoReturnNext([], Spawn(0, 1));
    sys := SpawnedBy([], Begin(), 0, 0, 1);
    actions := [] + [Spawn(0, 1)];
  }

  lemma BeginActs()
    ensures Reached([], Begin()) && Acting(Begin(), 0, 0) && CanAct(Begin().program, 0)
    ensures Begin().program.tasks.Keys == {0} && NoReturn([])
  {
    BeginOk();
    assert Reached([], Begin()) && Acting(Begin(), 0, 0);
    NewcomerActs(Begin(), 0, 0);
  }

  lemma SpawnedBy(actions: seq<Action>, sys: System, th: nat, u: nat, c: nat) returns (next: System)
    requires Reached(actions, sys) && Acting(sys, th, u) && CanAct(sys.program, u) && c !in sys.program.tasks
    ensures Reached(actions + [Spawn(th, c)], next) && c in next.ready
    ensures May(sys, Spawn(th, c)) && next == Do(sys, Spawn(th, c)) && next.running == sys.running
    ensures next.program.tasks.Keys == sys.program.tasks.Keys + {c} && HasSpawned(next, th, u)
  {
    next := Do(sys, Spawn(th, c));
    OneMore(actions, sys, Spawn(th, c));
    TracerFollows(sys, Spawn(th, c));
    SpawnKeeps(sys.program, u, c);
    WithScopeKeeps(sys.program, u);
  }

  lemma StartsUnblocked(actions: seq<Action>, sys: System, th: nat, u: nat) returns (next: System)
    requires Reached(actions, sys) && u in sys.ready && th < NUM_THREADS
    ensures Reached(actions + [Start(th, u)], next) && next.program == sys.program
    ensures May(sys, Start(th, u)) && next == Do(sys, Start(th, u)) && th < |sys.running|
    ensures next.running == sys.running[th := sys.running[th] + [u]]
    ensures Acting(next, th, u) && CanAct(next.program, u) && next.program.tasks[u].team == {}
  {
    ReadyActs(sys, th, u);
    next := Do(sys, Start(th, u));
    hide Do;
    hide May;
    hide SystemOk;
    OneMore(actions, sys, Start(th, u));
    TracerFollows(sys, Start(th, u));
  }

  lemma ReadyActs(sys: System, th: nat, u: nat)
    requires SystemOk(sys) && u in sys.ready && th < NUM_THREADS
    ensures th < |sys.running| && May(sys, Start(th, u)) && Do(sys, Start(th, u)).program == sys.program
    ensures Do(sys, Start(th, u)).running == sys.running[th := sys.running[th] + [u]]
    ensures CanAct(sys.program, u) && sys.program.tasks[u].team == {}
  {
    assert sys.program.places[u] == Place(sys.graph.pending[u], 0, 0);
    assert Placed(sys.program, u);
    TeamIsScope(sys, u);
  }

  /** Any task that starts, spawns and returns without waiting leaves a node behind. */
  lemma OnePopLeavesNode(actions: seq<Action>, sys: System, th: nat, u: nat, c: nat) returns (last: System)
    requires Reached(actions, sys) && u in sys.ready && u != 0 && th < NUM_THREADS && c !in sys.program.tasks
    ensures RunsBody(sys, th, u, [Spawn(th, c)], last)
    ensures th < |last.graph.cur| && last.graph.cur[th] != [] && Pop(last.graph.cur[th]) != sys.graph.cur[th]
  {
    var s2 := StartsUnblocked(actions, sys, th, u);
    last := SpawnedBy(actions + [Start(th, u)], s2, th, u, c);
    hide Do;
    hide May;
    hide SystemOk;
    hide Program.Reaches;
    MayEnd(last, th, u);
    SpawnIsBody(sys, th, u, c, s2, last);
    OnePopBalanced(sys, th, u, [Spawn(th, c)], last);
  }

  lemma MayEnd(sys: System, th: nat, u: nat)
    requires SystemOk(sys) && HasSpawned(sys, th, u) && u != 0
    ensures May(sys, End(th)) && u in sys.program.tasks && sys.program.tasks[u].team != {}
  {
    NewcomerActs(sys, th, u);
    OwnerOnTop(sys, th, u);
    TeamIsScope(sys, u);
  }

  lemma SpawnIsBody(sys: System, th: nat, u: nat, c: nat, s2: System, last: System)
    requires SystemOk(sys) && May(sys, Start(th, u)) && s2 == Do(sys, Start(th, u)) && th < |sys.running|
    requires s2.running == sys.running[th := sys.running[th] + [u]]
    requires May(s2, Spawn(th, c)) && last == Do(s2, Spawn(th, c)) && last.running == s2.running
    requires May(last, End(th))
    ensures RunsBody(sys, th, u, [Spawn(th, c)], last)
  {
    hide May;
    hide Do;
    var body := [Spawn(th, c)];
    assert body[1..] == [];
    assert Leads(Do(s2, body[0]), body[1..], last);
    assert Leads(s2, body, last);
    assert StaysAbove(last, [], th, |sys.running[th]|);
    assert StaysAbove(s2, body, th, |sys.running[th]|);
  }

  /** A run in which it fails: task 1 spawns task 2 and returns without waiting. */
  lemma OnePopFails() returns (actions: seq<Action>, sys: System, body: seq<Action>, last: System)
    ensures Program.Reaches(actions, sys) && RunsBody(sys, 1, 1, body, last)
    ensures 1 < |last.graph.cur| && last.graph.cur[1] != [] && Pop(last.graph.cur[1]) != sys.graph.cur[1]
  {
    actions, sys := OnceSpawned();
    body := [Spawn(1, 2)];
    last := OnePopLeavesNode(actions, sys, 1, 1, 2);
  }

  /** CaptureWaitOnly pops one node whatever is on top: the task is back on one of its own nodes
      exactly when it had someone to wait for. */
  lemma WaitBalanced(sys: System, th: nat, u: nat)
    requires SystemOk(sys) && Acting(sys, th, u) && Working(sys.program.tasks, u) && Enabled(sys.graph, WaitOnly(th))
    ensures var g := Apply(sys.graph, WaitOnly(th));
            g.nodes[Top(g.cur[th])].taskId == u <==> sys.program.tasks[u].team != {}
  {
    OwnerOnTop(sys, th, u);
    TeamIsScope(sys, u);
    FramesTop(sys.program.places, sys.running[th]);
    var below := Pop(sys.running[th]);
    if sys.program.places[u].fin == 0 {
      assert below != [];
      var v := Top(below);
      assert At(sys.running, th, |below|, u) && At(sys.running, th, |below| - 1, v);
      assert Placed(sys.program, v);
      OwnerIsOwn(sys.program, v);
      FramesTop(sys.program.places, below);
    }
  }

  /** A task on top of its thread that is not blocked can act. */
  lemma NewcomerActs(sys: System, th: nat, u: nat)
    requires SystemOk(sys) && Acting(sys, th, u) && u in sys.program.places && (sys.program.places[u].root == 0 || sys.program.places[u].fin != 0)
    ensures CanAct(sys.program, u)
  {
    OwnerOnTop(sys, th, u);
  }
}
