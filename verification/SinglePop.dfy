/** The whole detector with the CaptureReturn that always pops a single node: exact as long as
    every task waits for those it spawned before it returns, and wrong in some runs otherwise. */
module SinglePop {
  import opened Common
  import opened Dpst
  import opened Capture
  import opened ForkJoin
  import opened Program
  import opened Lockset
  import opened RaceDetector
  import opened EndToEnd
  import opened StackDiscipline
  import H = History

  /** As `Happens`, but returning pops a single node.  If `waits` is set, every task has waited
      for those it spawned when it returns. */
  ghost predicate HappensOnce(h: System, before: seq<Moment>, happening: Happening, sys: System, ms: seq<Moment>, waits: bool) {
    if happening.Act? && happening.action.End? then
      var th := happening.action.thread;
      && CanPop(h, th) && sys == PopsOnce(h, th) && ms == before
      && (waits ==> Actor(h, th) in h.program.tasks && h.program.tasks[Actor(h, th)].team == {})
    else Happens(h, before, happening, sys, ms)
  }

  predicate CanPop(h: System, th: nat) {
    && May(h, End(th))
    && th < |h.graph.cur| && h.graph.cur[th] != [] && th < |h.graph.tids| && h.graph.tids[th] != []
  }

  ghost function PopsOnce(h: System, th: nat): System
    requires CanPop(h, th)
  {
    Do(h, End(th)).(graph := PoppedOnce(h.graph, th))
  }

  ghost predicate RunsOnce(hs: seq<Happening>, sys: System, ms: seq<Moment>, waits: bool)
    decreases |hs|
  {
    if hs == [] then sys == Begin() && ms == []
    else
      var n := |hs| - 1;
      exists h: System, before: seq<Moment> ::
        RunsOnce(hs[..n], h, before, waits) && HappensOnce(h, before, hs[n], sys, ms, waits)
  }

  // ---------------------------------------------------------------- when every task waits

  lemma {:induction false} OncePopRuns(hs: seq<Happening>, sys: System, ms: seq<Moment>)
    requires RunsOnce(hs, sys, ms, true)
    ensures Runs(hs, sys, ms)
    decreases |hs|
  {
    if hs != [] {
      var n := |hs| - 1;
      var h: System, before: seq<Moment> :| RunsOnce(hs[..n], h, before, true) && HappensOnce(h, before, hs[n], sys, ms, true);
      OncePopRuns(hs[..n], h, before);
      RunsAreOrderly(hs[..n], h, before);
      if hs[n].Act? && hs[n].action.End? {
        OnePopAgrees(h, hs[n].action.thread);
      }
      assert Happens(h, before, hs[n], sys, ms);
    }
  }

  /** The detector is exact with that variant too, for programs in which every task waits for
      those it spawned before it returns. */
  lemma {:induction false} DetectsWithOnePop(hs: seq<Happening>, sys: System, ms: seq<Moment>)
    requires RunsOnce(hs, sys, ms, true)
    ensures Observed(ms)
    ensures RunMoments(ms).violation.Some? <==> exists i: nat, j: nat :: ProgramRace(sys.program.past, ms, i, j)
  {
    OncePopRuns(hs, sys, ms);
    DetectsExactlyTheRaces(hs, sys, ms);
  }

  // ---------------------------------------------------------------- one node too many

  /** The tracer has one more node, `k`, on the stack of thread `th` than it should. */
  predicate Extra(g: System, x: System, th: nat, k: nat) {
    && th < |g.graph.cur|
    && x == g.(graph := g.graph.(cur := g.graph.cur[th := g.graph.cur[th] + [k]]))
  }

  lemma PopsToBase(h: System, th: nat, v: nat)
    requires SystemOk(h) && Acting(h, th, v) && May(h, End(th)) && h.program.tasks[v].team != {}
    ensures CanPop(h, th) && v in h.program.places
    ensures Pop(h.graph.cur[th]) == Frames(h.program.places, Pop(h.running[th])) + [h.program.places[v].base]
  {
    OwnerOnTop(h, th, v);
    TeamIsScope(h, v);
    FramesTop(h.program.places, h.running[th]);
  }

  /** A task that returns without having waited leaves its base node behind. */
  lemma LeavesBase(h: System, th: nat, v: nat)
    requires SystemOk(h) && Acting(h, th, v) && May(h, End(th)) && h.program.tasks[v].team != {}
    ensures CanPop(h, th) && v in h.program.places
    ensures Extra(Do(h, End(th)), PopsOnce(h, th), th, h.program.places[v].base)
  {
    hide SystemOk;
    hide Frames;
    hide FrameOf;
    PopsToBase(h, th, v);
    EndTraced(h, th, v);
    var g, x := Do(h, End(th)).graph, PoppedOnce(h.graph, th);
    assert g == DoReturn(h.graph, th);
    assert x.cur == g.cur[th := g.cur[th] + [h.program.places[v].base]];
  }

  lemma ExtraStart(g: System, x: System, th: nat, k: nat, at: nat, c: nat)
    requires SystemOk(g) && Extra(g, x, th, k) && at != th && May(g, Start(at, c))
    ensures May(x, Start(at, c)) && Extra(Do(g, Start(at, c)), Do(x, Start(at, c)), th, k)
  {
    TracerFollows(g, Start(at, c));
    var n := g.graph.pending[c];
    assert Do(x, Start(at, c)).graph.cur == x.graph.cur[at := x.graph.cur[at] + [n]];
    assert x.graph.cur[at := x.graph.cur[at] + [n]] ==
           g.graph.cur[at := g.graph.cur[at] + [n]][th := g.graph.cur[th] + [k]];
  }

  lemma ExtraEnd(g: System, x: System, th: nat, k: nat, at: nat)
    requires SystemOk(g) && Extra(g, x, th, k) && at != th && May(g, End(at))
    requires Actor(g, at) in g.program.tasks && g.program.tasks[Actor(g, at)].team == {}
    ensures CanPop(x, at) && Extra(Do(g, End(at)), PopsOnce(x, at), th, k)
  {
    OnePopAgrees(g, at);
    assert x.graph.cur[at := Pop(x.graph.cur[at])] ==
           g.graph.cur[at := Pop(g.graph.cur[at])][th := g.graph.cur[th] + [k]];
  }

  lemma ExtraTouch(g: System, x: System, th: nat, k: nat, at: nat)
    requires Extra(g, x, th, k) && at != th
    ensures MayTouch(x, at, NO_LOCKS) == MayTouch(g, at, NO_LOCKS)
    ensures Seen(x, at, H.WRITE, NO_LOCKS) == Seen(g, at, H.WRITE, NO_LOCKS)
  {
  }

  /** Waiting pops the node that should not be there, and begins the step under the FINISH. */
  lemma ExtraWait(g: System, x: System, th: nat, k: nat, u: nat)
    requires SystemOk(g) && Extra(g, x, th, k) && Acting(g, th, u) && May(g, Wait(th)) && IsNode(g.graph.nodes, k)
    ensures May(x, Wait(th)) && Do(x, Wait(th)).program == Do(g, Wait(th)).program && u in g.program.places
    ensures Do(x, Wait(th)).running == x.running && IsNode(g.graph.nodes, g.program.places[u].fin)
    ensures Do(x, Wait(th)).graph ==
            g.graph.(nodes := AddChild(g.graph.nodes, g.program.places[u].fin, Step, u, false))
  {
    OwnerOnTop(g, th, u);
    assert Pop(x.graph.cur[th]) == g.graph.cur[th];
    assert x.graph.cur[th := g.graph.cur[th]] == g.graph.cur;
  }

  // ---------------------------------------------------------------- a run with a wrong report

  /** `u` has spawned `v`, under its implicit FINISH, and not waited. */
  predicate Opened(s: State, u: nat, v: nat) {
    && u != v && u != 0 && v != 0 && u in s.places && v in s.places && Working(s.tasks, u) && v in s.tasks
    && v in s.tasks[u].team && s.places[u].fin != 0 && IsNode(s.tree, s.places[v].base)
    && s.tree[s.places[v].base].parent == s.places[u].fin && s.tree[s.places[v].base].kind == Async
  }

  lemma SpawnOpens(s: State, u: nat, v: nat)
    requires ProgramOk(s) && CanAct(s, u) && v !in s.tasks && u != 0
    ensures Opened(DoSpawn(s, u, v), u, v) && Working(DoSpawn(s, u, v).tasks, v)
    ensures DoSpawn(s, u, v).tasks[u].team == s.tasks[u].team + {v}
  {
    assert Placed(s, u);
    WithScopeKeeps(s, u);
    SpawnKeeps(s, u, v);
  }

  /** `v` has spawned `w` in turn, and no one else. */
  predicate Nested(s: State, u: nat, v: nat, w: nat) {
    && Opened(s, u, v) && w != 0 && w != u && w != v && w in s.tasks && w in s.tasks[u].team
    && s.tasks[v].team == {w} && s.tasks[u].team == {v, w} && s.tasks[w].team == {}
  }

  lemma SpawnNests(s: State, u: nat, v: nat, w: nat)
    requires ProgramOk(s) && Opened(s, u, v) && s.tasks[u].team == {v} && s.tasks[v].team == {}
    requires CanAct(s, v) && w !in s.tasks
    ensures Nested(DoSpawn(s, v, w), u, v, w) && Working(DoSpawn(s, v, w).tasks, w) && Working(DoSpawn(s, v, w).tasks, v)
  {
    SpawnOpens(s, v, w);
    SpawnKeeps(s, v, w);
    assert Untouched(s, DoSpawn(s, v, w), u);
    assert SameStructure(s.tree[s.places[v].base], DoSpawn(s, v, w).tree[s.places[v].base]);
  }

  /** The state when `u` waits: the steps of all it spawned are among what it learns. */
  predicate BeforeWait(s: State, u: nat, v: nat, w: nat, x: nat) {
    && Nested(s, u, v, w) && v in s.tasks && s.tasks[v].done && s.tasks[w].done && s.tasks[w].now == {x}
  }

  /** Where the write of `w` stands: under the ASYNC of `v`. */
  lemma {:induction false} WriteUnderAsync(sys: System, u: nat, v: nat, w: nat, x: nat)
    requires SystemOk(sys) && Nested(sys.program, u, v, w) && sys.program.tasks[w].now == {x}
    ensures IsStep(sys.graph.nodes, x) && IsAncestor(sys.graph.nodes, sys.program.places[v].base, x)
    ensures 2 <= sys.program.places[v].base < |sys.graph.nodes| && StructuralNode(sys.graph.nodes, sys.program.places[u].fin)
  {
    var p, t := sys.program, sys.graph.nodes;
    assert Placed(p, u) && Placed(p, v) && Placed(p, w) && NodesOk(p, w) && ScopeOk(p, v);
    OwnerIsOwn(p, w);
    OwnerIsOwn(p, v);
    var o, f := OwnerOf(p.places[w]), ScopeOf(p.places[v]);
    assert CurStepOk(t, o) && t[o].curStep == x by { assert t[o].curStep in p.tasks[w].now; }
    assert w in p.tasks[v].team && Under(t, f, p.places[w].base);
    OwnerUnder(p, w, f);
    AncestorTransitive(t, p.places[v].base, f, o);
    AncestorTransitive(t, p.places[v].base, o, x);
  }

  /** A step begun under the FINISH is parallel to it. */
  lemma {:induction false} MisplacedIsParallel(t: Tree, f: nat, b: nat, x: nat, u: nat)
    requires WellFormed(t) && StructuralNode(t, f) && IsStep(t, x) && 2 <= b < |t|
    requires t[b].parent == f && t[b].kind == Async && IsAncestor(t, b, x)
    ensures var t' := AddChild(t, f, Step, u, false);
            WellFormed(t') && Extends(t, t') && IsStep(t', |t|) && IsStep(t', x) && Dpst.Parallel(t', |t|, x)
  {
    var t', n := AddChild(t, f, Step, u, false), |t|;
    AddChildKeepsWellFormed(t, f, Step, u, false);
    AncestorStable(t, t', b, x);
    assert SameStructure(t[x], t'[x]) && SameStructure(t[b], t'[b]);
    assert Siblings(t', b, n) && Siblings(t', n, b);
    PrecedesAtLca(t', f, b, n, x, n);
    PrecedesAtLca(t', f, n, b, n, x);
  }

  /** Two writes without a lock, in steps parallel in the tree: the second is reported. */
  lemma Reported(t: Tree, t': Tree, x: nat, n: nat)
    requires WellFormed(t) && WellFormed(t') && Extends(t, t') && IsStep(t, x) && IsStep(t', x) && IsStep(t', n)
    requires Dpst.Parallel(t', n, x)
    ensures var ms := [Moment(t, H.Access(x, H.WRITE, NO_LOCKS)), Moment(t', H.Access(n, H.WRITE, NO_LOCKS))];
            Observed(ms) && RunMoments(ms).violation.Some?
  {
    var m1, m2 := Moment(t, H.Access(x, H.WRITE, NO_LOCKS)), Moment(t', H.Access(n, H.WRITE, NO_LOCKS));
    var ms := [m1, m2];
    NoLocksHeld();
    var e := H.FreshEntry(m1.access);
    assert ms[..1] == [m1] && [m1][..0] == [];
    assert RunMoments([]) == H.State([], None);
    assert RunMoments([m1]) == H.State([e], None);
    assert H.RaceWith(t', m2.access, e).Some?;
    assert H.FindRace(t', m2.access, [e]).Some?;
  }

  /** What `u` learns by waiting includes the write of `w`. */
  lemma WaitLearns(sys: System, th: nat, u: nat, v: nat, w: nat, x: nat)
    requires SystemOk(sys) && Acting(sys, th, u) && BeforeWait(sys.program, u, v, w, x)
    ensures May(sys, Wait(th))
    ensures var p := Do(sys, Wait(th)).program;
            && |sys.graph.nodes| in p.past && x in p.past[|sys.graph.nodes|] && Working(p.tasks, u)
  {
    GuardsAgree(sys, Wait(th));
    WaitKeeps(sys.program, u);
    assert x in TeamKnowledge(sys.program, u) by {
      assert w in sys.program.tasks[u].team && x in All(sys.program.tasks[w]);
    }
  }

  lemma {:induction false} NextOnce(hs: seq<Happening>, h: System, before: seq<Moment>, happening: Happening, sys: System, ms: seq<Moment>)
    requires RunsOnce(hs, h, before, false) && HappensOnce(h, before, happening, sys, ms, false)
    ensures RunsOnce(hs + [happening], sys, ms, false)
  {
    hide HappensOnce;
    var next, n := hs + [happening], |hs|;
    assert next[..n] == hs && next[n] == happening;
    assert RunsOnce(next[..n], h, before, false) && HappensOnce(h, before, next[n], sys, ms, false);
  }

  /** Until a task returns, both variants run alike. */
  lemma {:induction false} NoReturnRuns(actions: seq<Action>, sys: System)
    requires Program.Reaches(actions, sys) && NoReturn(actions)
    ensures RunsOnce(Acts(actions), sys, [], false)
    decreases |actions|
  {
    hide May;
    hide Do;
    hide Begin;
    if actions == [] {
      assert Acts(actions) == [];
    } else {
      var n := |actions| - 1;
      var h :| Program.Reaches(actions[..n], h) && May(h, actions[n]) && sys == Do(h, actions[n]);
      NoReturnRuns(actions[..n], h);
      assert HappensOnce(h, [], Act(actions[n]), sys, [], false);
      hide HappensOnce;
      hide Program.Reaches;
      hide RunsOnce;
      NextOnce(Acts(actions[..n]), h, [], Act(actions[n]), sys, []);
      assert Acts(actions) == Acts(actions[..n]) + [Act(actions[n])];
    }
  }

  /** Thread `th` runs `u` and on top of it `v`, which has spawned `w`. */
  predicate Stacked(sys: System, th: nat, u: nat, v: nat, w: nat) {
    && Acting(sys, th, v) && |sys.running[th]| > 1 && sys.running[th][|sys.running[th]| - 2] == u
    && Nested(sys.program, u, v, w) && w in sys.ready && Working(sys.program.tasks, v) && Working(sys.program.tasks, w)
  }

  lemma InnerReturns(h: System, th: nat, u: nat, v: nat, w: nat)
    requires SystemOk(h) && Stacked(h, th, u, v, w)
    ensures May(h, End(th)) && h.program.tasks[v].team != {}
    ensures var g := Do(h, End(th));
            && Nested(g.program, u, v, w) && g.program.tasks[v].done && Working(g.program.tasks, w)
            && Acting(g, th, u) && w in g.ready && g.program.places == h.program.places
            && g.program.tree == h.program.tree
  {
    GuardsAgree(h, End(th));
    assert w in h.program.tasks[v].team;
  }

  lemma WriterReturns(g: System, at: nat, th: nat, u: nat, v: nat, w: nat, x: nat)
    requires SystemOk(g) && Acting(g, at, w) && Acting(g, th, u) && at != th && Nested(g.program, u, v, w)
    requires g.program.tasks[v].done && Working(g.program.tasks, w) && g.program.tasks[w].now == {x}
    ensures May(g, End(at)) && BeforeWait(Do(g, End(at)).program, u, v, w, x) && Acting(Do(g, End(at)), th, u)
    ensures Do(g, End(at)).graph.nodes == g.graph.nodes && Do(g, End(at)).program.places == g.program.places
  {
    hide SystemOk;
    GuardsAgree(g, End(at));
    EndTraced(g, at, w);
  }

  /** The moments of the two writes, the second in the step begun in the wrong place. */
  function TwoWrites(t: Tree, f: nat, x: nat, u: nat): seq<Moment>
    requires IsNode(t, f)
  {
    [Moment(t, H.Access(x, H.WRITE, NO_LOCKS)),
     Moment(AddChild(t, f, Step, u, false), H.Access(|t|, H.WRITE, NO_LOCKS))]
  }

  lemma SecondWriteSeen(g: System, x: System, th: nat, u: nat, f: nat)
    requires SystemOk(g) && Acting(g, th, u) && u != 0 && u in g.program.places && g.program.places[u].fin == f != 0
    requires IsNode(g.graph.nodes, f) && x.running == g.running && Working(x.program.tasks, u)
    requires x.graph == g.graph.(nodes := AddChild(g.graph.nodes, f, Step, u, false))
    ensures MayTouch(x, th, NO_LOCKS)
    ensures Seen(x, th, H.WRITE, NO_LOCKS) ==
            [Moment(x.graph.nodes, H.Access(|g.graph.nodes|, H.WRITE, NO_LOCKS))]
  {
    OwnerOnTop(g, th, u);
  }

  lemma NotARace(past: map<nat, set<nat>>, t: Tree, f: nat, x: nat, u: nat)
    requires IsNode(t, f) && |t| in past && x in past[|t|]
    ensures forall i: nat, j: nat :: !ProgramRace(past, TwoWrites(t, f, x, u), i, j)
  {
  }

  /** From a task that returns without having waited to a report of two writes that the program orders. */
  lemma MisreportsAfter(hs: seq<Happening>, h: System, th: nat, at: nat, u: nat, v: nat, w: nat)
      returns (hs': seq<Happening>, sys: System, ms: seq<Moment>)
    requires RunsOnce(hs, h, [], false) && SystemOk(h) && Stacked(h, th, u, v, w) && at != th && at < NUM_THREADS
    ensures RunsOnce(hs', sys, ms, false) && Observed(ms) && RunMoments(ms).violation.Some?
    ensures forall i: nat, j: nat :: !ProgramRace(sys.program.past, ms, i, j)
  {
    hide SystemOk;
    hide May;
    hide Do;
    hide RunsOnce;
    hide RunMoments;
    hide AddChild;
    var k, f := h.program.places[v].base, h.program.places[u].fin;
    InnerReturns(h, th, u, v, w);
    LeavesBase(h, th, v);
    TracerFollows(h, End(th));
    var g, e := Do(h, End(th)), PopsOnce(h, th);
    NextOnce(hs, h, [], Act(End(th)), e, []);
    hs' := hs + [Act(End(th))];

    ReadyActs(g, at, w);
    ExtraStart(g, e, th, k, at, w);
    TracerFollows(g, Start(at, w));
    NextOnce(hs', e, [], Act(Start(at, w)), Do(e, Start(at, w)), []);
    hs', g, e := hs' + [Act(Start(at, w))], Do(g, Start(at, w)), Do(e, Start(at, w));

    ExtraTouch(g, e, th, k, at);
    SeesCurrentStep(g, at, H.WRITE, NO_LOCKS);
    var x := g.graph.nodes[Top(g.graph.cur[at])].curStep;
    ms := Seen(g, at, H.WRITE, NO_LOCKS);
    assert [] + ms == ms;
    NextOnce(hs', e, [], Touch(at, H.WRITE, NO_LOCKS), e, ms);
    hs' := hs' + [Touch(at, H.WRITE, NO_LOCKS)];
    var t := g.graph.nodes;

    WriterReturns(g, at, th, u, v, w, x);
    ExtraEnd(g, e, th, k, at);
    TracerFollows(g, End(at));
    NextOnce(hs', e, ms, Act(End(at)), PopsOnce(e, at), ms);
    hs', g, e := hs' + [Act(End(at))], Do(g, End(at)), PopsOnce(e, at);

    WriteUnderAsync(g, u, v, w, x);
    WaitLearns(g, th, u, v, w, x);
    ExtraWait(g, e, th, k, u);
    sys := Do(e, Wait(th));
    NextOnce(hs', e, ms, Act(Wait(th)), sys, ms);
    hs' := hs' + [Act(Wait(th))];

    SecondWriteSeen(g, sys, th, u, f);
    NextOnce(hs', sys, ms, Touch(th, H.WRITE, NO_LOCKS), sys, ms + Seen(sys, th, H.WRITE, NO_LOCKS));
    hs', ms := hs' + [Touch(th, H.WRITE, NO_LOCKS)], ms + Seen(sys, th, H.WRITE, NO_LOCKS);

    assert ms == TwoWrites(t, f, x, u);
    WellFormedNodes(g);
    MisplacedIsParallel(t, f, k, x, u);
    Reported(t, sys.graph.nodes, x, |t|);
    NotARace(sys.program.past, t, f, x, u);
  }

  lemma WellFormedNodes(g: System)
    requires SystemOk(g)
    ensures WellFormed(g.graph.nodes)
  {
  }

  lemma SpawnedOpens(sys: System, th: nat, u: nat, v: nat)
    requires SystemOk(sys) && May(sys, Spawn(th, v)) && Acting(sys, th, u) && u != 0 && sys.program.tasks[u].team == {}
    ensures Opened(Do(sys, Spawn(th, v)).program, u, v) && Do(sys, Spawn(th, v)).program.tasks[u].team == {v}
  {
    SpawnOpens(sys.program, u, v);
  }

  lemma SpawnedNests(sys: System, th: nat, u: nat, v: nat, w: nat)
    requires SystemOk(sys) && May(sys, Spawn(th, w)) && Acting(sys, th, v) && Opened(sys.program, u, v)
    requires sys.program.tasks[u].team == {v} && sys.program.tasks[v].team == {}
    ensures var p := Do(sys, Spawn(th, w)).program;
            Nested(p, u, v, w) && Working(p.tasks, v) && Working(p.tasks, w)
  {
    SpawnNests(sys.program, u, v, w);
  }

  /** Task 1 runs task 2 on top of itself, which has spawned task 3. */
  lemma NestedRun() returns (actions: seq<Action>, h: System)
    ensures Program.Reaches(actions, h) && SystemOk(h) && Stacked(h, 1, 1, 2, 3) && NoReturn(actions)
  {
    hide SystemOk;
    hide May;
    hide Do;
    hide Program.Reaches;
    hide Nested;
    hide Opened;
    hide NoReturn;
    var a0, s0 := OnceSpawned();
    var s1 := StartsUnblocked(a0, s0, 1, 1);
    var a1 := a0 + [Start(1, 1)];
    NoReturnNext(a0, Start(1, 1));
    var s2 := SpawnedBy(a1, s1, 1, 1, 2);
    SpawnedOpens(s1, 1, 1, 2);
    var a2 := a1 + [Spawn(1, 2)];
    NoReturnNext(a1, Spawn(1, 2));
    var s3 := StartsUnblocked(a2, s2, 1, 2);
    var a3 := a2 + [Start(1, 2)];
    NoReturnNext(a2, Start(1, 2));
    h := SpawnedBy(a3, s3, 1, 2, 3);
    SpawnedNests(s3, 1, 1, 2, 3);
    actions := a3 + [Spawn(1, 3)];
    NoReturnNext(a3, Spawn(1, 3));
  }

  /** With the single pop the detector can report a race that the program does not have: task 2
      returns without waiting for task 3; task 3 writes; and task 1, which has waited for both,
      writes after it. */
  lemma WrongReport() returns (hs: seq<Happening>, sys: System, ms: seq<Moment>)
    ensures RunsOnce(hs, sys, ms, false) && Observed(ms) && RunMoments(ms).violation.Some?
    ensures forall i: nat, j: nat :: !ProgramRace(sys.program.past, ms, i, j)
  {
    hide SystemOk;
    hide Stacked;
    hide RunsOnce;
    hide NoReturn;
    hide Program.Reaches;
    hide Acts;
    hide Observed;
    hide RunMoments;
    hide ProgramRace;
    var actions, h := NestedRun();
    NoReturnRuns(actions, h);
    hs, sys, ms := MisreportsAfter(Acts(actions), h, 1, 2, 1, 2, 3);
  }
}
