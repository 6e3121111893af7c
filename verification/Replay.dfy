/** The objects over a whole run: the instrumentation's calls, in the order of the run, drive
    the task graph and the detector through exactly the states of module EndToEnd. */
module Replay {
  import opened Dpst
  import opened LcaHash
  import opened Capture
  import opened TaskGraph
  import opened Program
  import opened Lockset
  import opened RaceDetector
  import opened EndToEnd
  import H = History

  /** The objects agree with a run. */
  ghost predicate Agrees(graph: AFTaskGraph, det: RaceDetector, sys: System, ms: seq<Moment>)
    reads graph, graph.cache, graph.cache.table, det, det.fEntries, det.graph, det.graph.cache, det.graph.cache.table
  {
    && det.graph == graph && det.Valid() && Observed(ms)
    && graph.View() == sys.graph && det.View() == RunMoments(ms)
  }

  /** The call the instrumentation makes for an action of the program. */
  method Report(graph: AFTaskGraph, a: Action)
    requires graph.Valid() && TracerReady(graph.View(), a)
    modifies graph
    ensures graph.Valid() && graph.View() == Traced(old(graph.View()), a)
  {
    match a
    case Spawn(th, c) => graph.CaptureSpawnOnly(th, c);
    case RunRoot(th, c) => graph.CaptureSpawnAndWait(th, c);
    case RootDone(_) =>
    case Start(th, c) => graph.CaptureExecute(th, c);
    case Wait(th) => graph.CaptureWaitOnly(th);
    case End(th) => graph.CaptureReturn(th);
  }

  lemma TracedState(h: System, a: Action)
    requires RunOk(h) && May(h, a)
    ensures TracerReady(h.graph, a) && Do(h, a).graph == Traced(h.graph, a)
    ensures Rooted(Traced(h.graph, a).nodes) && TasksConnected(Traced(h.graph, a).nodes)
    ensures Extends(h.graph.nodes, Traced(h.graph, a).nodes)
  {
    TracerFollows(h, a);
    DoKeepsRunOk(h, a);
  }

  /** An action of the program: the detector's entries stay valid on the grown tree. */
  method Perform(graph: AFTaskGraph, det: RaceDetector, a: Action, ghost h: System, ghost ms: seq<Moment>)
    requires Agrees(graph, det, h, ms) && RunOk(h) && May(h, a)
    modifies graph
    ensures Agrees(graph, det, Do(h, a), ms)
  {
    hide RunOk;
    hide May;
    hide Do;
    hide Traced;
    hide TracerReady;
    hide LayoutOk;
    hide Observed;
    hide TasksConnected;
    hide Extends;
    hide WellFormed;
    TracedState(h, a);
    ghost var t := graph.nodes;
    Report(graph, a);
    LayoutLater(t, graph.nodes, det.fEntries[..], det.accessList);
  }

  /** What the detector is to do for an access, as a step of the bounded history. */
  lemma {:induction false} SeenStep(h: System, th: nat, kind: H.AccessType, lockset: Word, ms: seq<Moment>)
    requires SystemOk(h) && MayTouch(h, th, lockset) && Observed(ms) && Observed(ms + Seen(h, th, kind, lockset))
    ensures th < |h.graph.tids| && h.graph.tids[th] != [] && Top(h.graph.tids[th]) == Actor(h, th)
    ensures Rooted(h.graph.nodes)
    ensures Actor(h, th) == 0 ==> ms + Seen(h, th, kind, lockset) == ms
    ensures Actor(h, th) != 0 ==> RunsTask(h.graph, th, Actor(h, th))
    ensures Actor(h, th) != 0 ==>
              var a := H.Access(h.graph.nodes[Top(h.graph.cur[th])].curStep, kind, lockset);
              RunMoments(ms + Seen(h, th, kind, lockset)) == H.Process(h.graph.nodes, RunMoments(ms), a)
  {
    OwnerOnTop(h, th, Actor(h, th));
    var next := ms + Seen(h, th, kind, lockset);
    if Actor(h, th) != 0 {
      SeesCurrentStep(h, th, kind, lockset);
      assert next[..|ms|] == ms;
    }
  }

  /** An access. */
  method Touched(graph: AFTaskGraph, det: RaceDetector, th: nat, kind: H.AccessType, lockset: Word,
                ghost h: System, ghost ms: seq<Moment>)
    requires Agrees(graph, det, h, ms) && RunOk(h) && MayTouch(h, th, lockset) && Observed(ms + Seen(h, th, kind, lockset))
    modifies det, det.fEntries, graph.cache.table
    ensures Agrees(graph, det, h, ms + Seen(h, th, kind, lockset))
  {
    hide SystemOk;
    hide Observed;
    hide RunMoments;
    hide Seen;
    hide H.FindRace;
    hide H.Record;
    hide LayoutOk;
    hide Coherent;
    hide TasksConnected;
    SeenStep(h, th, kind, lockset, ms);
    det.RecordMem(th, lockset, kind);
  }

  /** The whole run, from the start: the graph ends as the run's, and the detector has recorded
      what the bounded history says. */
  method Drive(at: Layout, addr: nat, hs: seq<Happening>, ghost sys: System, ghost ms: seq<Moment>)
      returns (graph: AFTaskGraph, det: RaceDetector)
    requires Runs(hs, sys, ms)
    ensures fresh(graph) && fresh(graph.cache) && fresh(graph.cache.table) && fresh(det) && fresh(det.fEntries)
    ensures Agrees(graph, det, sys, ms)
    decreases |hs|
  {
    RunsAreOrderly(hs, sys, ms);
    if hs == [] {
      graph := new AFTaskGraph(at);
      det := new RaceDetector(graph, addr);
    } else {
      var n := |hs| - 1;
      ghost var h: System, before: seq<Moment> :| Runs(hs[..n], h, before) && Happens(h, before, hs[n], sys, ms);
      RunsAreOrderly(hs[..n], h, before);
      graph, det := Drive(at, addr, hs[..n], h, before);
      match hs[n]
      case Act(a) => Perform(graph, det, a, h, before);
      case Touch(th, k, ls) => Touched(graph, det, th, k, ls, h, before);
    }
  }

  /** Driven over any run, the objects have a violation on record for the address exactly when
      the program has a race among the accesses made. */
  method DetectsRaces(at: Layout, addr: nat, hs: seq<Happening>, ghost sys: System, ghost ms: seq<Moment>)
      returns (found: bool)
    requires Runs(hs, sys, ms)
    ensures found <==> exists i: nat, j: nat :: ProgramRace(sys.program.past, ms, i, j)
  {
    var graph, det := Drive(at, addr, hs, sys, ms);
    DetectsExactlyTheRaces(hs, sys, ms);
    found := det.addr in det.allViolations;
  }
}
