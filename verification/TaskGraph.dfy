/** The task graph object: the Capture calls write the node array, the stacks and the
    pending map step by step, and the queries walk parent links behind the LCA cache. */
module TaskGraph {
  import opened Common
  import opened Dpst
  import opened Capture
  import opened LcaHash

  class AFTaskGraph {
    var nodes: Tree                // the allocated prefix of the node array
    var cur: seq<seq<nat>>         // one node stack per thread
    var pending: map<nat, nat>     // spawned tasks that have not started
    var tids: seq<seq<nat>>        // one task-id stack per thread
    const cache: LcaTable

    function View(): Graph
      reads this
    {
      Graph(nodes, cur, pending, tids)
    }

    ghost predicate Valid()
      reads this, cache, cache.table
    {
      GraphOk(View()) && cache.Valid() && Coherent(nodes, cache.table[..])
    }

    constructor (at: Layout)
      ensures Valid() && View() == Initial()
      ensures fresh(cache) && fresh(cache.table)
    {
      nodes := [NewNode(NoType, 0)];
      cur := seq(NUM_THREADS, _ => []);
      pending := map[];
      tids := seq(NUM_THREADS, _ => []);
      cache := new LcaTable(at);
      new;
      var head := CreateNode(Finish, 0);
      nodes := nodes[head := nodes[head].(spRootAndWait := true)];
      cur := cur[0 := cur[0] + [head]];
      tids := tids[0 := tids[0] + [0]];
      assert head == HEAD && |cur| == |Initial().cur| && |tids| == |Initial().tids|;
      assert forall i | 0 <= i < NUM_THREADS :: cur[i] == Initial().cur[i] && tids[i] == Initial().tids[i];
      assert cur == Initial().cur && tids == Initial().tids;
    }

    // -------------------------------------------------------------- events

    method CreateNode(kind: NodeType, taskId: nat) returns (index: nat)
      modifies this`nodes
      ensures index == old(|nodes|) && nodes == old(nodes) + [NewNode(kind, taskId)]
    {
      index := |nodes|;
      nodes := nodes + [NewNode(kind, taskId)];
    }

    /** Hangs the freshly created node `n` under `p`, with the writes the events share. */
    method Adopt(p: nat, n: nat)
      requires 1 <= p < |nodes| && 1 <= n < |nodes| && n != p
      modifies this`nodes
      ensures nodes == old(nodes)
        [n := old(nodes[n].(parent := p, depth := nodes[p].depth + 1, seqNum := nodes[p].numChildren))]
        [p := old(nodes[p].(numChildren := nodes[p].numChildren + 1))]
    {
      nodes := nodes[n := nodes[n].(parent := p)];
      nodes := nodes[n := nodes[n].(depth := nodes[p].depth + 1)];
      nodes := nodes[n := nodes[n].(seqNum := nodes[p].numChildren)];
      nodes := nodes[p := nodes[p].(numChildren := nodes[p].numChildren + 1)];
    }

    /** A STEP child that becomes the current step of `owner`. */
    method AddStep(owner: nat)
      requires 1 <= owner < |nodes|
      modifies this`nodes
      ensures nodes == AddChild(old(nodes), owner, Step, old(nodes[owner].taskId), false)
    {
      var step := CreateNode(Step, nodes[owner].taskId);
      Adopt(owner, step);
      nodes := nodes[owner := nodes[owner].(curStep := step)];
    }

    /** An ASYNC or FINISH child, which becomes the youngest such child of `owner`. */
    method AddTaskNode(owner: nat, kind: NodeType, taskId: nat, root: bool) returns (n: nat)
      requires 1 <= owner < |nodes| && (kind == Async || kind == Finish)
      modifies this`nodes
      ensures n == old(|nodes|) && nodes == AddChild(old(nodes), owner, kind, taskId, root)
    {
      n := CreateNode(kind, taskId);
      Adopt(owner, n);
      nodes := nodes[owner := nodes[owner].(youngNsChild := kind)];
      nodes := nodes[n := nodes[n].(spRootAndWait := root)];
    }

    method AddSpawnedNodes(owner: nat, taskId: nat) returns (newNode: nat)
      requires 1 <= owner < |nodes|
      modifies this`nodes
      ensures newNode == old(|nodes|) && nodes == AddSpawned(old(nodes), owner, taskId)
    {
      newNode := AddTaskNode(owner, Async, taskId, false);
      AddStep(newNode);
      AddStep(owner);
    }

    method CaptureSpawnOnly(thread: nat, taskId: nat)
      requires Valid() && Enabled(View(), SpawnOnly(thread, taskId))
      modifies this
      ensures Valid() && View() == Apply(old(View()), SpawnOnly(thread, taskId))
    {
      hide Coherent;
      hide NodeOk;
      hide CurStepOk;
      hide HasChildAt;
      hide Siblings;
      ghost var g := View();
      var curNode := Top(cur[thread]);
      if nodes[curNode].youngNsChild != Async {
        var newFinish := AddTaskNode(curNode, Finish, nodes[curNode].taskId, false);
        cur := cur[thread := cur[thread] + [newFinish]];
        curNode := newFinish;
      }
      var newNode := AddSpawnedNodes(curNode, taskId);
      if taskId !in pending {
        pending := pending[taskId := newNode];
      }
      ApplyKeepsGraphOk(g, SpawnOnly(thread, taskId));
      CoherentWhenTreeGrows(g.nodes, nodes, cache.table[..]);
    }

    method CaptureSpawnAndWait(thread: nat, taskId: nat)
      requires Valid() && Enabled(View(), SpawnAndWait(thread, taskId))
      modifies this
      ensures Valid() && View() == Apply(old(View()), SpawnAndWait(thread, taskId))
    {
      ghost var g := View();
      var newFinish := AddTaskNode(Top(cur[thread]), Finish, taskId, true);
      AddStep(newFinish);
      if taskId !in pending {
        pending := pending[taskId := newFinish];
      }
      ApplyKeepsGraphOk(g, SpawnAndWait(thread, taskId));
      CoherentWhenTreeGrows(g.nodes, nodes, cache.table[..]);
    }

    method CaptureExecute(thread: nat, taskId: nat)
      requires Valid() && Enabled(View(), Execute(thread, taskId))
      modifies this
      ensures Valid() && View() == Apply(old(View()), Execute(thread, taskId))
    {
      ApplyKeepsGraphOk(View(), Execute(thread, taskId));
      var n := pending[taskId];
      pending := pending - {taskId};
      cur := cur[thread := cur[thread] + [n]];
      tids := tids[thread := tids[thread] + [nodes[n].taskId]];
    }

    method CaptureReturn(thread: nat)
      requires Valid() && Enabled(View(), Return(thread))
      modifies this
      ensures Valid() && View() == Apply(old(View()), Return(thread))
    {
      ApplyKeepsGraphOk(View(), Return(thread));
      tids := tids[thread := Pop(tids[thread])];
      var curNode := nodes[Top(cur[thread])];
      if curNode.kind == Finish && curNode.spRootAndWait == false {
        cur := cur[thread := Pop(cur[thread])];
      }
      cur := cur[thread := Pop(cur[thread])];
    }

    method CaptureWaitOnly(thread: nat)
      requires Valid() && Enabled(View(), WaitOnly(thread))
      modifies this
      ensures Valid() && View() == Apply(old(View()), WaitOnly(thread))
    {
      ghost var g := View();
      ApplyKeepsGraphOk(g, WaitOnly(thread));
      cur := cur[thread := Pop(cur[thread])];
      AddStep(Top(cur[thread]));
      CoherentWhenTreeGrows(g.nodes, nodes, cache.table[..]);
    }

    // -------------------------------------------------------------- queries

    /** The walk from `from` has reached `at`, still at or below `l`; `prev` is the node
        it came from. */
    static ghost predicate Walk(t: Tree, from: nat, at: nat, prev: nat, l: nat)
      requires Rooted(t) && IsNode(t, from)
    {
      && IsNode(t, at) && IsAncestor(t, at, from) && IsAncestor(t, l, at)
      && (at == from || (2 <= prev < |t| && t[prev].parent == at && IsAncestor(t, prev, from)))
    }

    static lemma WalkUp(t: Tree, from: nat, at: nat, prev: nat, l: nat)
      requires WellFormed(t) && IsNode(t, from) && Walk(t, from, at, prev, l) && at != l
      ensures at >= 2 && Walk(t, from, t[at].parent, at, l) && t[t[at].parent].depth == t[at].depth - 1
    {
      assert NodeOk(t, at);
      AncestorTransitive(t, t[at].parent, at, from);
    }

    /** Two walks that stand at the same depth stand at the common ancestor together or not at all. */
    static lemma {:induction false} WalksMeet(t: Tree, a: nat, b: nat, x: nat, y: nat)
      requires WellFormed(t) && IsNode(t, a) && IsNode(t, b)
      requires IsNode(t, x) && IsNode(t, y) && IsAncestor(t, x, a) && IsAncestor(t, y, b)
      requires IsAncestor(t, Lca(t, a, b), x) && IsAncestor(t, Lca(t, a, b), y)
      ensures t[x].depth >= t[Lca(t, a, b)].depth && t[y].depth >= t[Lca(t, a, b)].depth
      ensures t[x].depth == t[Lca(t, a, b)].depth ==> x == Lca(t, a, b)
      ensures t[y].depth == t[Lca(t, a, b)].depth ==> y == Lca(t, a, b)
      ensures x == y ==> x == Lca(t, a, b)
    {
      AncestorDepth(t, Lca(t, a, b), x);
      AncestorDepth(t, Lca(t, a, b), y);
      if x == y {
        LcaIsLowest(t, a, b, x);
      }
    }

    method LCA(curTask: nat, remoteTask: nat) returns (l: nat)
      requires Valid() && IsNode(nodes, curTask) && IsNode(nodes, remoteTask)
      ensures l == Lca(nodes, curTask, remoteTask)
    {
      var cached := cache.GetLca(curTask, remoteTask);
      if cached.Some? {
        HitIsFresh(cache.at, nodes, cache.table[..], curTask, remoteTask);
        return cached.value;
      }
      var meet, _, _ := WalkToMeeting(curTask, remoteTask);
      l := meet;
    }

    /** Levels the two walks and moves them up until they meet; also returns the two
        nodes through which they arrived. */
    method WalkToMeeting(curTask: nat, remoteTask: nat) returns (meet: nat, prevCur: nat, prevRemote: nat)
      requires WellFormed(nodes) && IsNode(nodes, curTask) && IsNode(nodes, remoteTask)
      ensures meet == Lca(nodes, curTask, remoteTask)
      ensures Walk(nodes, curTask, meet, prevCur, meet) && Walk(nodes, remoteTask, meet, prevRemote, meet)
    {
      hide CurStepOk;
      hide HasChildAt;
      hide Siblings;
      var newCur, newRemote := curTask, remoteTask;
      prevCur, prevRemote := 0, 0;
      ghost var low := Lca(nodes, curTask, remoteTask);
      if nodes[curTask].depth > nodes[remoteTask].depth {
        while nodes[newCur].depth != nodes[newRemote].depth
          invariant Walk(nodes, curTask, newCur, prevCur, low) && nodes[newCur].depth >= nodes[newRemote].depth
          decreases newCur
        {
          WalksMeet(nodes, curTask, remoteTask, newCur, newRemote);
          WalkUp(nodes, curTask, newCur, prevCur, low);
          prevCur := newCur;
          newCur := nodes[newCur].parent;
        }
      } else if nodes[remoteTask].depth > nodes[curTask].depth {
        while nodes[newRemote].depth != nodes[newCur].depth
          invariant Walk(nodes, remoteTask, newRemote, prevRemote, low) && nodes[newRemote].depth >= nodes[newCur].depth
          decreases newRemote
        {
          WalksMeet(nodes, curTask, remoteTask, newCur, newRemote);
          WalkUp(nodes, remoteTask, newRemote, prevRemote, low);
          prevRemote := newRemote;
          newRemote := nodes[newRemote].parent;
        }
      }
      while newRemote != newCur
        invariant Walk(nodes, curTask, newCur, prevCur, low) && Walk(nodes, remoteTask, newRemote, prevRemote, low)
        invariant nodes[newCur].depth == nodes[newRemote].depth
        decreases newCur
      {
        WalksMeet(nodes, curTask, remoteTask, newCur, newRemote);
        WalkUp(nodes, curTask, newCur, prevCur, low);
        WalkUp(nodes, remoteTask, newRemote, prevRemote, low);
        prevRemote := newRemote;
        newRemote := nodes[newRemote].parent;
        prevCur := newCur;
        newCur := nodes[newCur].parent;
      }
      WalksMeet(nodes, curTask, remoteTask, newCur, newRemote);
      meet := newCur;
    }

    method Parallel(curTask: nat, remoteTask: nat) returns (r: bool)
      requires Valid() && IsStep(nodes, curTask) && IsStep(nodes, remoteTask) && curTask != remoteTask
      modifies cache.table
      ensures Valid() && r == Dpst.Parallel(nodes, curTask, remoteTask)
      ensures cache.table[..] == Answer(cache.at, nodes, old(cache.table[..]), curTask, remoteTask).1
      ensures Cached(cache.at, cache.table[..], curTask, remoteTask).Some?
    {
      var status := cache.CheckParallel(curTask, remoteTask);
      if status != NA {
        HitIsFresh(cache.at, nodes, cache.table[..], curTask, remoteTask);
        return status == TRUE;
      }
      var meet, prevCur, prevRemote := WalkToMeeting(curTask, remoteTask);
      WalkDecides(nodes, curTask, remoteTask, prevCur, prevRemote);
      var curIndex := nodes[prevCur].seqNum;
      var remIndex := nodes[prevRemote].seqNum;
      r := false;
      if remIndex < curIndex {
        if nodes[prevRemote].kind == Async {
          r := true;
        }
      } else {
        if nodes[prevCur].kind == Async {
          r := true;
        }
      }
      StoreKeepsCoherent(cache.at, nodes, cache.table[..], curTask, remoteTask);
      cache.UpdateEntry(curTask, remoteTask, r, meet);
      cache.UpdateEntry(remoteTask, curTask, r, meet);
    }

    /** The two nodes through which the walks arrive decide the answer. */
    static lemma {:induction false} WalkDecides(t: Tree, a: nat, b: nat, ca: nat, cb: nat)
      requires WellFormed(t) && IsStep(t, a) && IsStep(t, b) && a != b
      requires Walk(t, a, Lca(t, a, b), ca, Lca(t, a, b)) && Walk(t, b, Lca(t, a, b), cb, Lca(t, a, b))
      ensures Siblings(t, ca, cb)
      ensures Dpst.Parallel(t, a, b) <==>
              (if t[cb].seqNum < t[ca].seqNum then t[cb].kind == Async else t[ca].kind == Async)
    {
      var l := Lca(t, a, b);
      StepsMeetAbove(t, a, b);
      SiblingSubtreesDisjoint(t, ca, ChildToward(t, l, a), a);
      SiblingSubtreesDisjoint(t, cb, ChildToward(t, l, b), b);
      PrecedesAtLca(t, l, ca, cb, a, b);
      PrecedesAtLca(t, l, cb, ca, b, a);
    }

    predicate Running(thread: nat, taskId: nat)
      reads this
    {
      RunsTask(View(), thread, taskId)
    }

    function CurStep(thread: nat): nat
      requires thread < |cur| && cur[thread] != [] && IsNode(nodes, Top(cur[thread]))
      reads this
    {
      nodes[Top(cur[thread])].curStep
    }

    /** Shortcut by task id, then the tree walk: always the answer of the walk alone. */
    method AreParallel(taskId: nat, remoteTask: nat, thread: nat) returns (r: bool)
      requires Valid() && TasksConnected(nodes) && Running(thread, taskId) && IsStep(nodes, remoteTask)
      modifies cache.table
      ensures Valid() && r == Dpst.Parallel(nodes, CurStep(thread), remoteTask)
    {
      var curTask := Top(cur[thread]);
      if taskId == nodes[remoteTask].taskId || nodes[curTask].taskId == nodes[remoteTask].taskId {
        SameTaskNotParallel(nodes, nodes[curTask].curStep, remoteTask);
        return false;
      }
      r := Parallel(nodes[curTask].curStep, remoteTask);
    }
  }
}
